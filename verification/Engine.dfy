/** The strategy engine (app/src/core/engine.ts): one signal per strategy and game. */
module Engine {
  import opened Pricing
  import opened Guards
  import opened Rule
  import opened Trades

  datatype Strategy = Strategy(id: nat, sport: Sport, leagues: set<nat>, version: Option<Version>, kill: bool, mode: Mode)

  datatype Globals = Globals(kill: bool, allowLive: bool, dryRun: bool)

  /** A merged game state, with what the engine looks up beside it. `known` are the pairs that have a trade. */
  datatype Update = Update(
    game: nat, league: nat, sport: Option<Sport>, state: GameState, home: Option<nat>, away: Option<nat>,
    windowEnds: int, globals: Globals, strategies: seq<Strategy>, known: set<(nat, nat)>)

  const RECENT_SIGNALS := 20

  function ModeOf(g: Globals, s: Strategy): Effective {
    EffectiveMode(Switches(g.kill, s.kill, g.allowLive, g.dryRun, s.mode))
  }

  /** The strategy runs on the game and its rule matches. */
  predicate Triggered(u: Update, s: Strategy) {
    && u.sport == Some(s.sport) && ModeOf(u.globals, s).Runs? && s.version.Some? && u.league in s.leagues
    && EvaluateLeadAtTime(s.version.value.rule, s.sport, u.state).Match?
  }

  /** The strategy should signal on the state: its rule matches for the side, it plays this sport and league, and no kill
      switch is on. */
  ghost predicate ShouldSignal(u: Update, s: Strategy, side: Side) {
    && !u.globals.kill && !s.kill && u.sport == Some(s.sport) && s.version.Some? && u.league in s.leagues
    && exists minute :: MatchesAs(s.version.value.rule, s.sport, u.state, side, minute)
  }

  lemma TriggersExactly(u: Update, s: Strategy, side: Side)
    requires s.version.Some? ==> s.version.value.rule.minLead > 0
    ensures Triggered(u, s) && EvaluateLeadAtTime(s.version.value.rule, s.sport, u.state).side == side <==> ShouldSignal(u, s, side)
  {
    if s.version.Some? {
      var rule := s.version.value.rule;
      var result := EvaluateLeadAtTime(rule, s.sport, u.state);
      if result.Match? { MatchMeaning(rule, s.sport, u.state, result.side, result.minute); }
      if minute :| MatchesAs(rule, s.sport, u.state, side, minute) { MatchMeaning(rule, s.sport, u.state, side, minute); }
    }
  }

  function SignalOf(u: Update, s: Strategy): Signal
    requires Triggered(u, s)
  {
    var side := EvaluateLeadAtTime(s.version.value.rule, s.sport, u.state).side;
    Signal(s.id, u.game, side, if side == Home then u.home else u.away, s.version.value, u.windowEnds, ModeOf(u.globals, s).mode)
  }

  function Key(g: Signal): (nat, nat) { (g.strategy, g.game) }

  /** The marks and the signals after the first `n` strategies. */
  function Evaluated(u: Update, marks: set<(nat, nat)>, n: nat): (set<(nat, nat)>, seq<Signal>)
    requires n <= |u.strategies|
  {
    if n == 0 then (marks, [])
    else
      var s := u.strategies[n - 1];
      var (before, out) := Evaluated(u, marks, n - 1);
      var key := (s.id, u.game);
      if key in before || !Triggered(u, s) then (before, out)
      else if key in u.known then (before + {key}, out)
      else (before + {key}, out + [SignalOf(u, s)])
  }

  function Newest(signals: seq<Signal>): seq<Signal> {
    if |signals| > RECENT_SIGNALS then signals[|signals| - RECENT_SIGNALS..] else signals
  }

  /** Kept are the newest twenty, in order. */
  lemma NewestAre(signals: seq<Signal>)
    ensures |Newest(signals)| == Min(20, |signals|)
    ensures forall k :: 0 <= k < |Newest(signals)| ==> Newest(signals)[k] == signals[|signals| - |Newest(signals)| + k]
  {
  }

  class StrategyEngine {
    var signalled: set<(nat, nat)>
    var recentSignals: seq<Signal>

    constructor ()
      ensures signalled == {} && recentSignals == []
    {
      signalled, recentSignals := {}, [];
    }

    method Forget(game: nat)
      modifies this
      ensures recentSignals == old(recentSignals) && signalled == Unmarked(old(signalled), game)
    {
      signalled := set k | k in signalled && k.1 != game;
    }

    /** Keeps the newest signals. */
    method Remember(signal: Signal)
      requires |recentSignals| <= RECENT_SIGNALS
      modifies this`recentSignals
      ensures recentSignals == Newest(old(recentSignals) + [signal]) && |recentSignals| <= RECENT_SIGNALS
    {
      recentSignals := recentSignals + [signal];
      if |recentSignals| > RECENT_SIGNALS {
        recentSignals := recentSignals[1..];
      }
    }

    method OnState(u: Update) returns (out: seq<Signal>)
      requires |recentSignals| <= RECENT_SIGNALS
      modifies this
      ensures (signalled, out) == Evaluated(u, old(signalled), |u.strategies|)
      ensures recentSignals == Newest(old(recentSignals) + out) && |recentSignals| <= RECENT_SIGNALS
    {
      out := [];
      if u.globals.kill || u.sport.None? {
        NothingTriggers(u, signalled, |u.strategies|);
        assert recentSignals + [] == recentSignals;
        return;
      }
      ghost var marks, recent0 := signalled, recentSignals;
      assert recent0 + [] == recent0;
      var n := 0;
      while n < |u.strategies|
        invariant 0 <= n <= |u.strategies|
        invariant (signalled, out) == Evaluated(u, marks, n)
        invariant recentSignals == Newest(recent0 + out) && |recentSignals| <= RECENT_SIGNALS
      {
        var s := u.strategies[n];
        n := n + 1;
        var key := (s.id, u.game);
        if Triggered(u, s) && key !in signalled {
          signalled := signalled + {key};
          if key !in u.known {
            var signal := SignalOf(u, s);
            NewestGrows(recent0, out, signal);
            Remember(signal);
            out := out + [signal];
          }
        }
      }
    }
  }

  function Unmarked(marks: set<(nat, nat)>, game: nat): set<(nat, nat)> { set k | k in marks && k.1 != game }

  lemma NewestGrows(before: seq<Signal>, out: seq<Signal>, g: Signal)
    ensures Newest(Newest(before + out) + [g]) == Newest(before + (out + [g]))
  {
    assert (before + out) + [g] == before + (out + [g]);
  }

  lemma {:induction false} NothingTriggers(u: Update, marks: set<(nat, nat)>, n: nat)
    requires n <= |u.strategies| && (u.globals.kill || u.sport.None?)
    ensures Evaluated(u, marks, n) == (marks, [])
  {
    if n > 0 {
      NothingTriggers(u, marks, n - 1);
    }
  }

  // ---- what an update signals ---------------------------------------------------------------------------

  predicate OncePerKey(signals: seq<Signal>) {
    forall i, j :: 0 <= i < j < |signals| ==> Key(signals[i]) != Key(signals[j])
  }

  function Keys(signals: seq<Signal>): set<(nat, nat)> { set i | 0 <= i < |signals| :: Key(signals[i]) }

  /** The signals of one update: no pair twice, none that is marked or has a trade, and each of them marked. */
  lemma {:induction false} SignalsAreNew(u: Update, marks: set<(nat, nat)>, n: nat)
    requires n <= |u.strategies|
    ensures var (after, out) := Evaluated(u, marks, n);
            && marks <= after && Keys(out) <= after && OncePerKey(out)
            && Keys(out) !! marks && Keys(out) !! u.known
  {
    if n > 0 {
      SignalsAreNew(u, marks, n - 1);
      var (before, out) := Evaluated(u, marks, n - 1);
      var s := u.strategies[n - 1];
      if Triggered(u, s) && (s.id, u.game) !in before && (s.id, u.game) !in u.known {
        KeysGrow(out, SignalOf(u, s));
      }
    }
  }

  lemma KeysGrow(out: seq<Signal>, g: Signal)
    ensures Keys(out + [g]) == Keys(out) + {Key(g)}
    ensures OncePerKey(out) && Key(g) !in Keys(out) ==> OncePerKey(out + [g])
  {
    var all := out + [g];
    forall k | k in Keys(out)
      ensures k in Keys(all)
    {
      var i :| 0 <= i < |out| && Key(out[i]) == k;
      assert Key(all[i]) == k;
    }
    assert Key(all[|out|]) == Key(g);
    forall i, j | OncePerKey(out) && Key(g) !in Keys(out) && 0 <= i < j < |all|
      ensures Key(all[i]) != Key(all[j])
    {
      if j == |out| { assert Key(out[i]) in Keys(out); }
    }
  }

  /** With distinct strategies, an update signals exactly for those that trigger, are not marked and have no trade;
      afterwards every strategy that triggers is marked. */
  lemma {:induction false} SignalsExactly(u: Update, marks: set<(nat, nat)>, n: nat, k: nat)
    requires k < n <= |u.strategies| && forall i, j :: 0 <= i < j < |u.strategies| ==> u.strategies[i].id != u.strategies[j].id
    requires u.strategies[k].version.Some? ==> u.strategies[k].version.value.rule.minLead > 0
    ensures var (after, out) := Evaluated(u, marks, n);
            var s := u.strategies[k];
            var key := (s.id, u.game);
            && (key in Keys(out) <==> (exists side :: ShouldSignal(u, s, side)) && key !in marks && key !in u.known)
            && ((exists side :: ShouldSignal(u, s, side)) ==> key in after)
  {
    var s := u.strategies[k];
    TriggersExactly(u, s, Home);
    TriggersExactly(u, s, Away);
    KeyExactly(u, marks, n, k);
  }

  lemma {:induction false} KeyExactly(u: Update, marks: set<(nat, nat)>, n: nat, k: nat)
    requires k < n <= |u.strategies| && forall i, j :: 0 <= i < j < |u.strategies| ==> u.strategies[i].id != u.strategies[j].id
    ensures var (after, out) := Evaluated(u, marks, n);
            var s := u.strategies[k];
            var key := (s.id, u.game);
            && (key in Keys(out) <==> Triggered(u, s) && key !in marks && key !in u.known)
            && (Triggered(u, s) ==> key in after)
  {
    var s := u.strategies[k];
    if k < n - 1 {
      KeyExactly(u, marks, n - 1, k);
    } else {
      StrangersUnmarked(u, marks, k, s.id);
    }
    var (before, out) := Evaluated(u, marks, n - 1);
    var last := u.strategies[n - 1];
    if Triggered(u, last) {
      KeysGrow(out, SignalOf(u, last));
    }
  }

  /** The signal is the strategy's on this game: for the side the rule matches, on that side's market, live exactly if
      nothing holds live orders back. */
  ghost predicate SignalFor(u: Update, s: Strategy, g: Signal) {
    && g.strategy == s.id && g.game == u.game && ShouldSignal(u, s, g.side) && s.version == Some(g.version)
    && g.ticker == (if g.side == Home then u.home else u.away) && g.windowEnds == u.windowEnds
    && (g.mode == Live <==> u.globals.allowLive && !u.globals.dryRun && s.mode == Live)
  }

  ghost predicate HasSource(u: Update, n: nat, g: Signal)
    requires n <= |u.strategies|
  {
    exists k :: 0 <= k < n && SignalFor(u, u.strategies[k], g)
  }

  /** Every signal of an update is one of its strategies'. */
  ghost predicate AllHaveSource(u: Update, n: nat, out: seq<Signal>)
    requires n <= |u.strategies|
  {
    forall i :: 0 <= i < |out| ==> HasSource(u, n, out[i])
  }

  lemma SourcesGrow(u: Update, n: nat, out: seq<Signal>)
    requires n < |u.strategies| && AllHaveSource(u, n, out)
    ensures AllHaveSource(u, n + 1, out)
  {
    forall i | 0 <= i < |out|
      ensures HasSource(u, n + 1, out[i])
    {
      assert HasSource(u, n, out[i]);
      var k :| 0 <= k < n && SignalFor(u, u.strategies[k], out[i]);
    }
  }

  lemma {:induction false} SignalsSay(u: Update, marks: set<(nat, nat)>, n: nat)
    requires n <= |u.strategies|
    requires forall k :: 0 <= k < n && u.strategies[k].version.Some? ==> u.strategies[k].version.value.rule.minLead > 0
    ensures AllHaveSource(u, n, Evaluated(u, marks, n).1)
  {
    if n > 0 {
      SignalsSay(u, marks, n - 1);
      SourcesGrow(u, n - 1, Evaluated(u, marks, n - 1).1);
      var s := u.strategies[n - 1];
      if Triggered(u, s) {
        TriggersExactly(u, s, SignalOf(u, s).side);
        assert SignalFor(u, s, SignalOf(u, s));
      }
    }
  }

  lemma {:induction false} StrangersUnmarked(u: Update, marks: set<(nat, nat)>, n: nat, id: nat)
    requires n <= |u.strategies| && forall i :: 0 <= i < n ==> u.strategies[i].id != id
    ensures var (after, out) := Evaluated(u, marks, n);
            (id, u.game) !in Keys(out) && ((id, u.game) in after <==> (id, u.game) in marks)
  {
    if n > 0 {
      StrangersUnmarked(u, marks, n - 1, id);
      var (before, out) := Evaluated(u, marks, n - 1);
      var last := u.strategies[n - 1];
      if Triggered(u, last) {
        KeysGrow(out, SignalOf(u, last));
      }
    }
  }

  // ---- over any sequence of updates ---------------------------------------------------------------------

  function Marks(updates: seq<Update>): set<(nat, nat)> {
    if updates == [] then {}
    else
      var u := updates[|updates| - 1];
      Evaluated(u, Marks(updates[..|updates| - 1]), |u.strategies|).0
  }

  function Signals(updates: seq<Update>): seq<Signal> {
    if updates == [] then []
    else
      var n := |updates| - 1;
      Signals(updates[..n]) + Evaluated(updates[n], Marks(updates[..n]), |updates[n].strategies|).1
  }

  lemma KeysJoin(a: seq<Signal>, b: seq<Signal>)
    ensures Keys(a + b) == Keys(a) + Keys(b)
    ensures OncePerKey(a) && OncePerKey(b) && Keys(a) !! Keys(b) ==> OncePerKey(a + b)
  {
    var all := a + b;
    forall k | k in Keys(a) + Keys(b)
      ensures k in Keys(all)
    {
      if k in Keys(a) {
        var i :| 0 <= i < |a| && Key(a[i]) == k;
        assert Key(all[i]) == k;
      } else {
        var i :| 0 <= i < |b| && Key(b[i]) == k;
        assert Key(all[|a| + i]) == k;
      }
    }
    forall i | 0 <= i < |all|
      ensures Key(all[i]) in if i < |a| then Keys(a) else Keys(b)
    {
      if i >= |a| { assert all[i] == b[i - |a|]; }
    }
  }

  /** Without a forgotten game or a restart the marks alone are enough, whatever the trade table says. */
  lemma {:induction false} MarksSuffice(updates: seq<Update>)
    ensures Keys(Signals(updates)) <= Marks(updates) && OncePerKey(Signals(updates))
  {
    if updates != [] {
      var n := |updates| - 1;
      var u := updates[n];
      MarksSuffice(updates[..n]);
      SignalsAreNew(u, Marks(updates[..n]), |u.strategies|);
      KeysJoin(Signals(updates[..n]), Evaluated(u, Marks(updates[..n]), |u.strategies|).1);
    }
  }
}
