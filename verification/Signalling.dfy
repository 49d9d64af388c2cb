/** The engine beside the executor over the whole life of the app: the signals of app/src/core/engine.ts go into the
    trade table of app/src/core/executor.ts, which outlives the engine's marks. */
module Signalling {
  import opened Pricing
  import opened Trades
  import opened Lifecycle
  import opened Preservation
  import opened Ledger
  import opened Engine

  /** The engine's marks, everything it has signalled, the pairs whose insert failed, and the system with the trade
      table. */
  datatype State = State(marks: set<(nat, nat)>, signals: seq<Signal>, lost: set<(nat, nat)>, sys: Sys)

  /** A tracker update with the pairs whose insert fails; any step of the executor, the settler, recovery or the
      exchange; a forgotten game. A crash takes the engine with it. */
  datatype Call = Tell(u: Update, failing: set<(nat, nat)>) | Act(e: Event) | ForgetGame(game: nat)

  /** The (strategy, game) pairs that have a trade. */
  function Pairs(db: Db): set<(nat, nat)> {
    set t | 0 <= t < |db.trades| :: (db.trades[t].strategy, db.trades[t].game)
  }

  /** The engine runs while the process is up, and reads the trade table as it is. */
  predicate CanHappen(w: State, c: Call) {
    match c
    case Tell(u, _) => w.sys.process.Up? && u.known == Pairs(w.sys.db)
    case Act(e) => Enabled(w.sys, e)
    case ForgetGame(_) => true
  }

  /** The executor's handler runs inside `emit`: each signal is inserted before the next. */
  function Inserted(s: Sys, out: seq<Signal>, failing: set<(nat, nat)>): (s': Sys)
    requires s.process.Up?
    ensures s'.process.Up?
  {
    if out == [] then s
    else
      var n := |out| - 1;
      var s1 := Inserted(s, out[..n], failing);
      if Key(out[n]) in failing then s1 else Step(s1, OnSignal(out[n]))
  }

  function Told(w: State, c: Call): State
    requires CanHappen(w, c)
  {
    match c
    case Tell(u, failing) =>
      var (marks, out) := Evaluated(u, w.marks, |u.strategies|);
      State(marks, w.signals + out, w.lost + (Keys(out) * failing), Inserted(w.sys, out, failing))
    case Act(e) => w.(sys := Step(w.sys, e), marks := if e.Crash? then {} else w.marks)
    case ForgetGame(game) => w.(marks := Unmarked(w.marks, game))
  }

  /** No mark is given up whose insert failed and whose pair has still no trade. */
  predicate KeepsLost(w: State, c: Call) {
    match c
    case ForgetGame(game) => forall k :: k in w.lost && k.1 == game ==> k in Pairs(w.sys.db)
    case Act(e) => e.Crash? ==> w.lost <= Pairs(w.sys.db)
    case Tell(_, _) => true
  }

  predicate CanRun(w: State, calls: seq<Call>)
    decreases |calls|
  {
    calls == [] || (CanHappen(w, calls[0]) && CanRun(Told(w, calls[0]), calls[1..]))
  }

  function Ran(w: State, calls: seq<Call>): State
    requires CanRun(w, calls)
    decreases |calls|
  {
    if calls == [] then w else Ran(Told(w, calls[0]), calls[1..])
  }

  predicate KeepsLostThroughout(w: State, calls: seq<Call>)
    requires CanRun(w, calls)
    decreases |calls|
  {
    calls == [] || (KeepsLost(w, calls[0]) && KeepsLostThroughout(Told(w, calls[0]), calls[1..]))
  }

  // ---- a trade is for good ------------------------------------------------------------------------------

  predicate SamePair(r: Trade, r': Trade) { r'.strategy == r.strategy && r'.game == r.game }

  lemma ExchangeKeepsPair(s: Sys, e: Event)
    requires Enabled(s, e) && AsksExchange(e) && Touched(s, e).value < |s.db.trades| == |Step(s, e).db.trades|
    ensures SamePair(s.db.trades[Touched(s, e).value], Step(s, e).db.trades[Touched(s, e).value])
  {
  }

  lemma LocalKeepsPair(s: Sys, e: Event)
    requires Enabled(s, e) && !AsksExchange(e) && Touched(s, e).Some? && Touched(s, e).value < |s.db.trades| == |Step(s, e).db.trades|
    ensures SamePair(s.db.trades[Touched(s, e).value], Step(s, e).db.trades[Touched(s, e).value])
  {
  }

  lemma RowKeepsPair(s: Sys, e: Event, t: nat)
    requires Enabled(s, e) && t < |s.db.trades|
    ensures t < |Step(s, e).db.trades| && SamePair(s.db.trades[t], Step(s, e).db.trades[t])
  {
    if e.OnSignal? {
      if !Known(s.db, e.signal.strategy, e.signal.game) { TradesGrow(s.db, e.signal); }
    } else if !e.RecoverFinish? {
      OthersKeepRows(s, e);
      if Touched(s, e) == Some(t) {
        if AsksExchange(e) { ExchangeKeepsPair(s, e); } else { LocalKeepsPair(s, e); }
      }
    }
  }

  /** No step of the system takes a trade out of the table. */
  lemma PairsStay(s: Sys, e: Event)
    requires Enabled(s, e)
    ensures Pairs(s.db) <= Pairs(Step(s, e).db)
  {
    forall k | k in Pairs(s.db)
      ensures k in Pairs(Step(s, e).db)
    {
      var t :| 0 <= t < |s.db.trades| && (s.db.trades[t].strategy, s.db.trades[t].game) == k;
      RowKeepsPair(s, e, t);
    }
  }

  /** The executor's insert puts the signalled pair there. */
  lemma InsertRecords(s: Sys, g: Signal)
    requires Enabled(s, OnSignal(g))
    ensures Key(g) in Pairs(Step(s, OnSignal(g)).db)
  {
    var db' := Step(s, OnSignal(g)).db;
    if Known(s.db, g.strategy, g.game) {
      var t :| 0 <= t < |s.db.trades| && s.db.trades[t].strategy == g.strategy && s.db.trades[t].game == g.game;
      assert (db'.trades[t].strategy, db'.trades[t].game) == Key(g);
    } else {
      TradesGrow(s.db, g);
      assert (db'.trades[|s.db.trades|].strategy, db'.trades[|s.db.trades|].game) == Key(g);
    }
  }

  /** Each signal of an update whose insert does not fail is in the table when the update is done. */
  lemma {:induction false} InsertsRecord(s: Sys, out: seq<Signal>, failing: set<(nat, nat)>)
    requires s.process.Up?
    ensures Pairs(s.db) <= Pairs(Inserted(s, out, failing).db)
    ensures Keys(out) - failing <= Pairs(Inserted(s, out, failing).db)
  {
    if out != [] {
      var n := |out| - 1;
      var s1 := Inserted(s, out[..n], failing);
      InsertsRecord(s, out[..n], failing);
      KeysGrow(out[..n], out[n]);
      assert out[..n] + [out[n]] == out;
      if Key(out[n]) !in failing {
        PairsStay(s1, OnSignal(out[n]));
        InsertRecords(s1, out[n]);
      }
    }
  }

  // ---- one signal per strategy and game -----------------------------------------------------------------

  /** No pair was signalled twice; each has its trade, or its insert failed; each is still marked or has its trade. */
  predicate Remembered(w: State) {
    && OncePerKey(w.signals)
    && Keys(w.signals) <= w.lost + Pairs(w.sys.db)
    && Keys(w.signals) <= w.marks + Pairs(w.sys.db)
    && w.lost <= Keys(w.signals)
  }

  /** A call keeps this exactly if it gives up no mark whose insert failed and whose pair has no trade. */
  lemma RememberedExactly(w: State, c: Call)
    requires Remembered(w) && CanHappen(w, c)
    ensures Remembered(Told(w, c)) <==> KeepsLost(w, c)
  {
    match c
    case Tell(u, failing) => TellRemembers(w, u, failing);
    case Act(e) => PairsStay(w.sys, e);
    case ForgetGame(_) =>
  }

  lemma TellRemembers(w: State, u: Update, failing: set<(nat, nat)>)
    requires Remembered(w) && CanHappen(w, Tell(u, failing))
    ensures Remembered(Told(w, Tell(u, failing)))
  {
    var out := Evaluated(u, w.marks, |u.strategies|).1;
    SignalsAreNew(u, w.marks, |u.strategies|);
    KeysJoin(w.signals, out);
    InsertsRecord(w.sys, out, failing);
  }

  lemma {:induction false} RunRemembers(w: State, calls: seq<Call>)
    requires Remembered(w) && CanRun(w, calls) && KeepsLostThroughout(w, calls)
    ensures Remembered(Ran(w, calls))
    decreases |calls|
  {
    if calls != [] {
      RememberedExactly(w, calls[0]);
      RunRemembers(Told(w, calls[0]), calls[1..]);
    }
  }

  function FreshStart(opening: int, clock: int): State { State({}, [], {}, Boot0(opening, clock)) }

  /** From a fresh start, over any interleaving of updates, steps of the system, crashes and forgotten games, no
      strategy signals twice on a game, unless a mark whose insert failed is given up. */
  lemma OneSignalPerGame(opening: int, clock: int, calls: seq<Call>)
    requires CanRun(FreshStart(opening, clock), calls) && KeepsLostThroughout(FreshStart(opening, clock), calls)
    ensures OncePerKey(Ran(FreshStart(opening, clock), calls).signals)
  {
    RunRemembers(FreshStart(opening, clock), calls);
  }

  predicate NoInsertFails(calls: seq<Call>) {
    forall k :: 0 <= k < |calls| && calls[k].Tell? ==> calls[k].failing == {}
  }

  lemma {:induction false} NothingLost(w: State, calls: seq<Call>)
    requires CanRun(w, calls) && NoInsertFails(calls) && w.lost == {}
    ensures KeepsLostThroughout(w, calls)
    decreases |calls|
  {
    if calls != [] {
      NothingLost(Told(w, calls[0]), calls[1..]);
    }
  }

  /** So if no insert fails, no strategy signals twice on a game in any run. */
  lemma OneSignalIfInsertsSucceed(opening: int, clock: int, calls: seq<Call>)
    requires CanRun(FreshStart(opening, clock), calls) && NoInsertFails(calls)
    ensures OncePerKey(Ran(FreshStart(opening, clock), calls).signals)
  {
    NothingLost(FreshStart(opening, clock), calls);
    OneSignalPerGame(opening, clock, calls);
  }

  /** And where such a mark has been given up, the next update on which the strategy triggers signals the pair again. */
  lemma GivenUpSignalsAgain(w: State, u: Update, k: nat)
    requires CanHappen(w, Tell(u, {})) && k < |u.strategies| && Triggered(u, u.strategies[k])
    requires forall i, j :: 0 <= i < j < |u.strategies| ==> u.strategies[i].id != u.strategies[j].id
    requires (u.strategies[k].id, u.game) in Keys(w.signals) - w.marks - Pairs(w.sys.db)
    ensures !OncePerKey(Told(w, Tell(u, {})).signals)
  {
    KeyExactly(u, w.marks, |u.strategies|, k);
    RepeatsKey(w.signals, Evaluated(u, w.marks, |u.strategies|).1, (u.strategies[k].id, u.game));
  }

  lemma RepeatsKey(a: seq<Signal>, b: seq<Signal>, key: (nat, nat))
    requires key in Keys(a) && key in Keys(b)
    ensures !OncePerKey(a + b)
  {
    var i :| 0 <= i < |a| && Key(a[i]) == key;
    var j :| 0 <= j < |b| && Key(b[j]) == key;
    assert Key((a + b)[i]) == Key((a + b)[|a| + j]);
  }
}
