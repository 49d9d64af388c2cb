/** The objects that carry the lifecycle out: the rows (app/src/core/trades.ts), the executor
    (app/src/core/executor.ts) and the settler (app/src/core/settler.ts). Each method performs a stated run of
    the machine in Lifecycle, so what is proved of runs holds of the objects. */
module Trader {
  import opened Pricing
  import opened Guards
  import opened Rule
  import opened Trades
  import opened Lifecycle

  class Store {
    var trades: seq<Trade>
    var attempts: seq<Attempt>
    var bankroll: int
    var snapshots: seq<Snapshot>
    var audit: seq<AuditRow>

    function Rows(): Db
      reads this
    {
      Db(trades, attempts, bankroll, snapshots, audit)
    }

    method TransitionTrade(t: nat, row: Trade)
      requires t < |trades|
      modifies this
      ensures Rows() == Transition(old(Rows()), t, row)
    {
      var from := trades[t].status;
      trades := trades[t := row];
      audit := audit + [AuditRow(t, from, row.status)];
    }

    method UpdateAttemptRow(i: nat, row: Attempt)
      requires i < |attempts|
      modifies this
      ensures Rows() == UpdateAttempt(old(Rows()), i, row)
    {
      attempts := attempts[i := row];
    }

    method AdjustBankrollBy(delta: int, reason: SnapshotReason) returns (next: int)
      modifies this
      ensures Rows() == AdjustBankroll(old(Rows()), delta, reason) && next == bankroll
    {
      next := bankroll + delta;
      bankroll := next;
      snapshots := snapshots + [Snapshot(reason, next)];
    }

    method ResetBankrollTo(initial: int) returns (from: int)
      modifies this
      ensures Rows() == ResetBankroll(old(Rows()), initial) && from == old(bankroll)
    {
      from := bankroll;
      bankroll := initial;
      snapshots := snapshots + [Snapshot(ForReset, initial)];
    }
  }

  // ---- what a tick of the game does to the waiting trades ------------------------------------------------

  /** `onState` for one waiting trade: retry while the rule matches for the trade's side, expire once the window
      has closed, otherwise nothing. */
  function TickEvents(row: Trade, isBusy: bool, game: nat, sport: Sport, st: GameState, t: nat): seq<Event> {
    if row.status != Waiting || row.game != game || isBusy then []
    else
      var result := EvaluateLeadAtTime(row.version.rule, sport, st);
      if result.Match? then (if result.side == row.side then [Retry(t)] else [])
      else if WindowClosed(result, row.version.rule, st, sport) then [ExpireTrade(t)]
      else []
  }

  function OnStateEvents(db: Db, busy: set<nat>, game: nat, sport: Sport, st: GameState, n: nat): seq<Event>
    requires n <= |db.trades|
  {
    if n == 0 then []
    else OnStateEvents(db, busy, game, sport, st, n - 1) + TickEvents(db.trades[n - 1], n - 1 in busy, game, sport, st, n - 1)
  }

  /** `cur` is `s` after the first `t` trades of the list. */
  ghost predicate TickedTo(s: Sys, cur: Sys, game: nat, sport: Sport, st: GameState, t: nat) {
    && s.process.Up? && cur.process.Up? && t <= |s.db.trades| == |cur.db.trades|
    && (forall u :: t <= u < |s.db.trades| ==> cur.db.trades[u] == s.db.trades[u] && (u in cur.process.busy <==> u in s.process.busy))
    && var es := OnStateEvents(s.db, s.process.busy, game, sport, st, t);
    Possible(s, es) && Run(s, es) == cur
  }

  lemma TickAdvances(s: Sys, cur: Sys, cur': Sys, game: nat, sport: Sport, st: GameState, t: nat)
    requires TickedTo(s, cur, game, sport, st, t) && t < |s.db.trades|
    requires var es := TickEvents(cur.db.trades[t], t in cur.process.busy, game, sport, st, t); Possible(cur, es) && Run(cur, es) == cur'
    requires cur'.process.Up? && |cur'.db.trades| == |cur.db.trades|
    requires forall u :: t < u < |cur.db.trades| ==> cur'.db.trades[u] == cur.db.trades[u] && (u in cur'.process.busy <==> u in cur.process.busy)
    ensures TickedTo(s, cur', game, sport, st, t + 1)
  {
    var tick := TickEvents(cur.db.trades[t], t in cur.process.busy, game, sport, st, t);
    RunConcat(s, OnStateEvents(s.db, s.process.busy, game, sport, st, t), tick);
  }

  /** The trade is retried on the update: it waits, idle, for this game, and the rule matches for its side. */
  ghost predicate Retried(row: Trade, isBusy: bool, game: nat, sport: Sport, st: GameState) {
    && row.status == Waiting && row.game == game && !isBusy
    && exists minute :: MatchesAs(row.version.rule, sport, st, row.side, minute)
  }

  /** The trade is given up on the update: it waits, idle, for this game, which is over or out of regulation, or in which
      a leader that the rule would take leads past the window. */
  ghost predicate GivenUp(row: Trade, isBusy: bool, game: nat, sport: Sport, st: GameState) {
    var rule := row.version.rule;
    && row.status == Waiting && row.game == game && !isBusy
    && (st.phase == Finished || st.phase == Postponed
        || (st.phase == InPlay && !RegularPlay(sport, st))
        || (RegularPlay(sport, st)
            && exists side, minute :: LeadsAs(rule, st, side) && Shows(sport, st.clock, minute) && minute > rule.atMinute + rule.windowMinutes))
  }

  lemma TickExactly(row: Trade, isBusy: bool, game: nat, sport: Sport, st: GameState, t: nat)
    requires row.version.rule.minLead > 0
    ensures var es := TickEvents(row, isBusy, game, sport, st, t);
            && (es == [Retry(t)] <==> Retried(row, isBusy, game, sport, st))
            && (es == [ExpireTrade(t)] <==> GivenUp(row, isBusy, game, sport, st))
            && (es == [Retry(t)] || es == [ExpireTrade(t)] || es == [])
  {
    var rule, result := row.version.rule, EvaluateLeadAtTime(row.version.rule, sport, st);
    ClosedExactly(rule, sport, st);
    if result.Match? { MatchMeaning(rule, sport, st, result.side, result.minute); }
    if minute :| MatchesAs(rule, sport, st, row.side, minute) { MatchMeaning(rule, sport, st, row.side, minute); }
  }

  /** An update retries exactly the trades it should and gives up exactly those it should, whatever the order. */
  lemma {:induction false} OnStateExactly(db: Db, busy: set<nat>, game: nat, sport: Sport, st: GameState, n: nat, t: nat)
    requires n <= |db.trades| && forall u :: 0 <= u < n ==> db.trades[u].version.rule.minLead > 0
    ensures var es := OnStateEvents(db, busy, game, sport, st, n);
            && (Retry(t) in es <==> t < n && Retried(db.trades[t], t in busy, game, sport, st))
            && (ExpireTrade(t) in es <==> t < n && GivenUp(db.trades[t], t in busy, game, sport, st))
  {
    if n > 0 {
      OnStateExactly(db, busy, game, sport, st, n - 1, t);
      TickExactly(db.trades[n - 1], n - 1 in busy, game, sport, st, n - 1);
    }
  }

  const SWEEP_GRACE_MS := 30 * 60_000

  predicate Sweepable(row: Trade, over: set<nat>, now: int) {
    IsOpen(row.status) && (row.game in over || row.windowEnds + SWEEP_GRACE_MS < now)
  }

  function SweepEvents(db: Db, busy: set<nat>, over: set<nat>, now: int, n: nat): seq<Event>
    requires n <= |db.trades|
  {
    if n == 0 then []
    else
      SweepEvents(db, busy, over, now, n - 1)
      + if Sweepable(db.trades[n - 1], over, now) && n - 1 !in busy then [ExpireTrade(n - 1)] else []
  }

  /** The sweep expires exactly the idle signalled and waiting trades whose game is over or whose window ended more than
      thirty minutes ago. */
  lemma {:induction false} SweepExactly(db: Db, busy: set<nat>, over: set<nat>, now: int, n: nat, t: nat)
    requires n <= |db.trades|
    ensures ExpireTrade(t) in SweepEvents(db, busy, over, now, n)
            <==> t < n && t !in busy
                 && var row := db.trades[t];
                 (row.status == Signalled || row.status == Waiting) && (row.game in over || now - row.windowEnds > 1_800_000)
  {
    if n > 0 { SweepExactly(db, busy, over, now, n - 1, t); }
  }

  function ResolveEvents(answers: seq<Lookup>): seq<Event> {
    if answers == [] then [] else [ResolveNext(answers[0])] + ResolveEvents(answers[1..])
  }

  /** One answer for each listed attempt; a found order is the one the exchange has. */
  predicate AnswersFit(list: seq<nat>, answers: seq<Lookup>, orders: seq<Option<Order>>, existing: map<nat, Order>) {
    && |list| == |answers| == |orders|
    && forall k :: 0 <= k < |list| && answers[k].LookupFound? ==> list[k] in existing && orders[k] == Some(existing[list[k]])
  }

  lemma NextResolve(s: Sys, answers: seq<Lookup>, k: nat)
    requires k < |answers| && Possible(s, ResolveEvents(answers[k..]))
    ensures Enabled(s, ResolveNext(answers[k]))
    ensures var s1 := Step(s, ResolveNext(answers[k]));
            Possible(s1, ResolveEvents(answers[k + 1..])) && Run(s, ResolveEvents(answers[k..])) == Run(s1, ResolveEvents(answers[k + 1..]))
  {
    assert answers[k..][1..] == answers[k + 1..];
    assert ResolveEvents(answers[k..])[1..] == ResolveEvents(answers[k + 1..]);
  }

  lemma NextLookup(s: Sys, answers: seq<Lookup>, k: nat)
    requires k < |answers| && Possible(s, LookupsThenFinish(answers[k..]))
    ensures Enabled(s, RecoverLookup(answers[k]))
    ensures var s1 := Step(s, RecoverLookup(answers[k]));
            && Possible(s1, LookupsThenFinish(answers[k + 1..]))
            && Run(s, LookupsThenFinish(answers[k..])) == Run(s1, LookupsThenFinish(answers[k + 1..]))
  {
    assert answers[k..][1..] == answers[k + 1..];
    assert LookupsThenFinish(answers[k..])[1..] == LookupsThenFinish(answers[k + 1..]);
  }

  lemma LastStage(s: Sys)
    requires Possible(s, LookupsThenFinish([]))
    ensures Enabled(s, RecoverFinish) && Run(s, LookupsThenFinish([])) == Step(s, RecoverFinish)
  {
    assert LookupsThenFinish([]) == [RecoverFinish] && [RecoverFinish][1..] == [];
  }

  class Executor {
    const store: Store
    var queue: seq<nat>
    var busy: set<nat>
    /** The attempt that has left the queue and waits for an answer: where its continuation resumes. */
    var running: Option<Running>
    var resolving: seq<nat>
    var clock: int
    ghost var ex: Exchange

    constructor (store: Store, clock: int, ghost ex: Exchange)
      ensures this.store == store && State() == Sys(store.Rows(), ex, clock, Up([], {}, None, [], []))
    {
      this.store := store;
      queue, busy, running, resolving := [], {}, None, [];
      this.clock := clock;
      this.ex := ex;
    }

    ghost function State(): Sys
      reads this, store
    {
      Sys(store.Rows(), ex, clock, Up(queue, busy, running, resolving, []))
    }

    method Enqueue(t: nat)
      modifies this`queue, this`busy
      ensures queue == old(queue) + [t] && busy == old(busy) + {t}
    {
      busy := busy + {t};
      queue := queue + [t];
    }

    /** The first match of a rule: the trade row, and its first attempt queued unless it has no market. */
    method OnSignal(g: Signal) returns (trade: Option<nat>)
      modifies this, store
      ensures State() == Step(old(State()), Event.OnSignal(g))
      ensures trade == if old(Known(store.Rows(), g.strategy, g.game)) then None else Some(old(|store.trades|))
    {
      var t := 0;
      while t < |store.trades|
        invariant 0 <= t <= |store.trades|
        invariant forall u :: 0 <= u < t ==> !(store.trades[u].strategy == g.strategy && store.trades[u].game == g.game)
      {
        if store.trades[t].strategy == g.strategy && store.trades[t].game == g.game {
          return None;
        }
        t := t + 1;
      }
      assert !Known(store.Rows(), g.strategy, g.game);
      var row := Trade(g.strategy, g.game, g.side, g.ticker, g.version, g.windowEnds, g.mode, Signalled, None, false, 0, None, None, None);
      store.trades := store.trades + [row];
      if g.ticker.None? {
        store.TransitionTrade(t, row.(status := Skipped, skipReason := Some(NoMarket)));
      } else {
        Enqueue(t);
      }
      return Some(t);
    }

    method ExpireRow(t: nat)
      requires t < |store.trades|
      modifies store
      ensures store.Rows() == Expire(old(store.Rows()), t)
    {
      var row := store.trades[t];
      store.TransitionTrade(t, row.(status := Skipped, windowExpired := true, skipReason := ReasonOr(row.skipReason, WindowExpired)));
    }

    /** `onState` for one trade of the list. */
    method Tick(t: nat, game: nat, sport: Sport, st: GameState)
      requires t < |store.trades|
      modifies this, store
      ensures var s := old(State());
              var es := TickEvents(s.db.trades[t], t in old(busy), game, sport, st, t);
              Possible(s, es) && State() == Run(s, es)
      ensures |store.trades| == old(|store.trades|) && clock == old(clock)
      ensures forall u :: 0 <= u < |store.trades| && u != t ==> store.trades[u] == old(store.trades)[u] && (u in busy <==> u in old(busy))
    {
      ghost var s := State();
      var row := store.trades[t];
      if row.status == Waiting && row.game == game && t !in busy {
        var result := EvaluateLeadAtTime(row.version.rule, sport, st);
        if result.Match? {
          if result.side == row.side {
            RunSnoc(s, [], Retry(t));
            Enqueue(t);
          }
        } else if WindowClosed(result, row.version.rule, st, sport) {
          RunSnoc(s, [], ExpireTrade(t));
          ExpireRow(t);
        }
      }
    }

    /** A tracker update; none of it happens under the global kill switch. */
    method OnState(game: nat, sport: Sport, st: GameState, kill: bool)
      modifies this, store
      ensures var s := old(State());
              var es := if kill then [] else OnStateEvents(s.db, old(busy), game, sport, st, |s.db.trades|);
              Possible(s, es) && State() == Run(s, es)
    {
      if kill {
        return;
      }
      ghost var s := State();
      var n, t := |store.trades|, 0;
      while t < n
        modifies this, store
        invariant 0 <= t <= n == |store.trades| == |s.db.trades|
        invariant TickedTo(s, State(), game, sport, st, t)
      {
        ghost var before := State();
        Tick(t, game, sport, st);
        TickAdvances(s, before, State(), game, sport, st, t);
        t := t + 1;
      }
    }

    /** Expires open trades whose game is over or whose window ended long ago. */
    method Sweep(over: set<nat>, kill: bool) returns (n: nat)
      modifies this, store
      ensures var s := old(State());
              var es := if kill then [] else SweepEvents(s.db, old(busy), over, clock, |s.db.trades|);
              Possible(s, es) && State() == Run(s, es) && n == |es|
    {
      n := 0;
      if kill {
        return;
      }
      ghost var s := State();
      ghost var db := s.db;
      var t := 0;
      while t < |store.trades|
        modifies this, store
        invariant 0 <= t <= |store.trades| == |db.trades|
        invariant busy == old(busy) && clock == old(clock)
        invariant forall u :: t <= u < |db.trades| ==> store.trades[u] == db.trades[u]
        invariant var es := SweepEvents(db, busy, over, clock, t); Possible(s, es) && State() == Run(s, es) && n == |es|
      {
        ghost var es := SweepEvents(db, busy, over, clock, t);
        assert es + [] == es;
        if t !in busy && Sweepable(store.trades[t], over, clock) {
          RunSnoc(s, es, ExpireTrade(t));
          ExpireRow(t);
          n := n + 1;
        }
        t := t + 1;
      }
    }

    // ---- one attempt, stretch by stretch ------------------------------------------------------------------

    method Release()
      requires running.Some?
      modifies this`running, this`busy
      ensures running == None && busy == old(busy) - {old(running).value.trade}
    {
      busy := busy - {running.value.trade};
      running := None;
    }

    method WaitAt(pc: Pc)
      requires running.Some?
      modifies this`running
      ensures running == Some(old(running).value.(pc := pc))
    {
      running := Some(running.value.(pc := pc));
    }

    method BeginNextAttempt(mode: Effective, configured: bool)
      requires Enabled(State(), BeginNext(mode, configured))
      modifies this, store
      ensures State() == Step(old(State()), BeginNext(mode, configured))
    {
      var t := queue[0];
      queue := queue[1..];
      var row := store.trades[t];
      if !IsOpen(row.status) || row.ticker.None? {
        busy := busy - {t};
        return;
      }
      var attemptMode := if mode.Runs? then mode.mode else row.mode;
      var n := row.attempts + 1;
      var i := |store.attempts|;
      store.attempts := store.attempts + [Attempt(t, n, clock, attemptMode, AttemptPending, None, None, None, None)];
      store.trades := store.trades[t := row.(attempts := n)];
      if mode == Paused {
        running := Some(Running(t, i, None, Closing(HardSkip, PausedReason, None, None)));
      } else if !configured {
        running := Some(Running(t, i, Some(attemptMode), Closing(AttemptError, ErrorReason, None, None)));
      } else {
        running := Some(Running(t, i, Some(attemptMode), Reading));
      }
    }

    /** The guards, on what the reads returned. */
    method AfterReading(read: Option<MarketRead>)
      requires Enabled(State(), ReadDone(read))
      modifies this
      ensures State() == Step(old(State()), ReadDone(read))
    {
      var r := running.value;
      var live := store.attempts[r.attempt].mode == Live;
      if read.None? {
        WaitAt(Closing(AttemptError, ErrorReason, None, None));
      } else {
        var pc := Guarded(r, live, read.value);
        WaitAt(pc);
      }
    }

    /** The guards and, live, the count and the switches once more. */
    method Guarded(r: Running, live: bool, d: MarketRead) returns (pc: Pc)
      requires r.trade < |store.trades|
      ensures pc == AfterReads(store.Rows(), clock, store.trades[r.trade], if live then Live else DryRun, r.attempt, Some(d))
    {
      var row := store.trades[r.trade];
      var balance := store.bankroll;
      if live {
        var tied := PendingLiveCostMicros(r.attempt);
        balance := d.cash - tied;
      }
      var e, z := row.version.exec, row.version.sizing;
      var input := EntryInput(
        Runs(if live then Live else DryRun), clock, Some(d.market), Some(d.tradingActive), Some(d.newest), e.maxFeedAgeSec, Some(d.blocked),
        d.asks, e.maxPriceBp, e.minPriceBp, e.maxSlippageBp, d.ranges, e.minDepthContracts,
        balance, z.percentCenti, z.minStake, z.maxStake);
      assert input == EntryOf(store.Rows(), clock, row, if live then Live else DryRun, r.attempt, d);
      var result := EvaluateEntry(input);
      if result.Throws? {
        return Closing(AttemptError, ErrorReason, None, None);
      }
      if result.Reject? {
        return Closing(if IsHard(result.reason) then HardSkip else SoftSkip, result.reason, result.facts.limitBp, result.facts.requestedCc);
      }
      if !live {
        return AwaitingFee(Terms(balance, result.stake, result.limitBp, result.requestedCc), Min(result.requestedCc, result.depthCc));
      }
      var contracts := Min(result.requestedCc, result.depthCc) / 100;
      var limit, cc := Some(result.limitBp), Some(contracts * 100);
      if contracts < 1 {
        return Closing(SoftSkip, Liquidity, limit, cc);
      }
      if d.again == Paused {
        return Closing(HardSkip, PausedReason, limit, cc);
      }
      if d.again != Runs(Live) {
        return Closing(SoftSkip, ModeChanged, limit, cc);
      }
      return AwaitingGroup(Terms(balance, result.stake, result.limitBp, contracts * 100), d.cash);
    }

    method PendingLiveCostMicros(except: int) returns (sum: int)
      ensures sum == PendingLiveCost(store.attempts, except)
    {
      sum := 0;
      var rows := store.attempts;
      var i := 0;
      while i < |rows|
        invariant 0 <= i <= |rows|
        invariant sum == PendingLiveCost(rows[..i], except)
      {
        assert rows[..i + 1][..i] == rows[..i];
        if rows[i].status == AttemptPending && rows[i].mode == Live && i != except {
          sum := sum + PendingCost(rows[i]);
        }
        i := i + 1;
      }
      assert rows[..|rows|] == rows;
    }

    /** With the order group known, limit and count are stored and the order is sent. */
    method AfterGroup(found: bool)
      requires Enabled(State(), GroupDone(found))
      modifies this, store
      ensures State() == Step(old(State()), GroupDone(found))
    {
      var r := running.value;
      var terms := r.pc.terms;
      if !found {
        WaitAt(Closing(AttemptError, ErrorReason, Some(terms.limitBp), Some(terms.requestedCc)));
        return;
      }
      store.UpdateAttemptRow(r.attempt, store.attempts[r.attempt].(limitBp := Some(terms.limitBp), requestedCc := Some(terms.requestedCc)));
      store.TransitionTrade(r.trade, store.trades[r.trade].(status := Pending, mode := Live, skipReason := None, terms := Some(terms)));
      ex := ex.(inflight := ex.inflight[r.attempt := Sent(terms.limitBp, terms.requestedCc)]);
      WaitAt(Sending);
    }

    /** The virtual fill of a dry-run attempt. */
    method AfterFee(milli: int, prec: int)
      requires Enabled(State(), FeeDone(milli, prec))
      modifies this, store
      ensures State() == Step(old(State()), FeeDone(milli, prec))
    {
      var r := running.value;
      var terms, fillCc := r.pc.terms, r.pc.fillCc;
      var fee := FeeMicros(fillCc, terms.limitBp, milli, prec);
      if fee.None? {
        WaitAt(Closing(AttemptError, ErrorReason, None, None));
        return;
      }
      var fill := Fill(fillCc, terms.limitBp, CostMicros(fillCc, terms.limitBp), fee.value);
      var pending := store.trades[r.trade].(status := Pending, mode := DryRun, skipReason := None);
      store.TransitionTrade(r.trade, pending);
      store.UpdateAttemptRow(r.attempt, store.attempts[r.attempt].(
        status := AttemptFilled, reason := None, limitBp := Some(terms.limitBp), requestedCc := Some(terms.requestedCc), fill := Some(fill)));
      var _ := store.AdjustBankrollBy(-(fill.cost + fill.fee), ForFill(r.trade));
      store.TransitionTrade(r.trade, pending.(status := Filled, terms := Some(terms), fill := Some(fill)));
      Release();
    }

    method RecordOutcome(i: nat, outcome: Outcome, notFound: Reason, expireClosed: bool)
      requires i < |store.attempts| && store.attempts[i].trade < |store.trades|
      modifies store
      ensures store.Rows() == RecordLiveOutcome(old(store.Rows()), clock, i, outcome, notFound, expireClosed)
    {
      var t := store.attempts[i].trade;
      var row := store.trades[t];
      if outcome.OrderWith? && outcome.fill.Some? {
        store.UpdateAttemptRow(i, store.attempts[i].(status := AttemptFilled, reason := None, fill := outcome.fill));
        store.TransitionTrade(t, row.(status := Filled, mode := Live, skipReason := None, fill := outcome.fill));
      } else {
        var reason := if outcome.OrderWith? then Unfilled else notFound;
        store.UpdateAttemptRow(i, store.attempts[i].(status := AttemptUnfilled, reason := Some(reason)));
        var open := !expireClosed || row.windowEnds > clock;
        store.TransitionTrade(t, row.(
          status := if open then Waiting else Skipped, skipReason := Some(reason), windowExpired := row.windowExpired || !open));
      }
    }

    /** The answer to Create Order; `order` is the exchange's order when it answered with one. */
    method AfterCreate(a: CreateAnswer, order: Option<Order>)
      requires Enabled(State(), CreateDone(a))
      requires a.Answered? ==> order == Some(ex.orders[running.value.attempt])
      modifies this, store
      ensures State() == Step(old(State()), CreateDone(a))
    {
      var r := running.value;
      var row := store.attempts[r.attempt];
      if a.Answered? {
        RecordOutcome(r.attempt, OutcomeFromResult(order.value, if row.limitBp.Some? then row.limitBp.value else 0), Unfilled, false);
        Release();
      } else if a.OutcomeUnknown? {
        WaitAt(LookingUp);
      } else {
        ex := Forget(ex, r.attempt);
        if a.GroupLimit? {
          WaitAt(Closing(SoftSkip, OrderGroupLimit, row.limitBp, row.requestedCc));
        } else if a.OrderRefused? {
          WaitAt(Closing(HardSkip, OrderRejected, row.limitBp, row.requestedCc));
        } else {
          WaitAt(Closing(AttemptError, ErrorReason, row.limitBp, row.requestedCc));
        }
      }
    }

    method AfterLookup(answer: Lookup, order: Option<Order>)
      requires Enabled(State(), LookupDone(answer))
      requires answer.LookupFound? ==> order == Some(ex.orders[running.value.attempt])
      modifies this, store
      ensures State() == Step(old(State()), LookupDone(answer))
    {
      var r := running.value;
      var row := store.attempts[r.attempt];
      match answer {
        case LookupFailed =>
          Release();
        case LookupFound =>
          RecordOutcome(r.attempt, OutcomeFromOrder(order.value), OrderNotFound, false);
          Release();
        case LookupNotFound =>
          ex := Forget(ex, r.attempt);
          WaitAt(Closing(AttemptError, ErrorReason, row.limitBp, row.requestedCc));
      }
    }

    /** `finish`: the attempt row, then the trade row. */
    method Finish()
      requires Enabled(State(), CloseAttemptRow)
      modifies this, store
      ensures var s := old(State());
              Possible(s, [CloseAttemptRow, CloseTradeRow]) && State() == Run(s, [CloseAttemptRow, CloseTradeRow])
    {
      ghost var s := State();
      var r := running.value;
      var status, reason := r.pc.status, r.pc.reason;
      store.UpdateAttemptRow(r.attempt, store.attempts[r.attempt].(
        status := status, reason := Some(reason), limitBp := r.pc.limitBp, requestedCc := r.pc.requestedCc));
      WaitAt(Closed(status, reason));
      assert State() == Step(s, CloseAttemptRow);
      var row := store.trades[r.trade];
      store.TransitionTrade(r.trade, row.(
        status := if status == HardSkip then Skipped else Waiting, skipReason := Some(reason),
        mode := if r.patch.Some? then r.patch.value else row.mode));
      Release();
      assert State() == Step(Step(s, CloseAttemptRow), CloseTradeRow);
      RunCons(Step(s, CloseAttemptRow), CloseTradeRow, []);
      RunCons(s, CloseAttemptRow, [CloseTradeRow] + []);
      assert [CloseAttemptRow] + ([CloseTradeRow] + []) == [CloseAttemptRow, CloseTradeRow];
    }

    // ---- unknown outcomes and start-up --------------------------------------------------------------------

    /** One lookup of `resolvePendingLive`; `orders` are the orders the exchange lists. */
    method ResolveOne(i: nat, answer: Lookup, order: Option<Order>, notFound: Reason)
      requires i < |store.attempts| && store.attempts[i].trade < |store.trades| && Truthful(ex, i, answer)
      requires answer.LookupFound? ==> order == Some(ex.orders[i])
      modifies this`ex, store
      ensures State() == Resolve(old(State()), i, answer, notFound)
    {
      match answer {
        case LookupFailed =>
        case LookupFound =>
          RecordOutcome(i, OutcomeFromOrder(order.value), notFound, true);
        case LookupNotFound =>
          RecordOutcome(i, NoOrder, notFound, true);
          ex := Forget(ex, i);
      }
    }

    /** The pending live attempts that are old enough and not busy, in row order. */
    method ListPendingLive(minAge: int) returns (list: seq<nat>)
      ensures list == PendingLive(store.Rows(), busy, clock, minAge, |store.attempts|)
    {
      list := [];
      var i := 0;
      while i < |store.attempts|
        invariant 0 <= i <= |store.attempts|
        invariant list == PendingLive(store.Rows(), busy, clock, minAge, i)
      {
        var a := store.attempts[i];
        if a.status == AttemptPending && a.mode == Live && a.trade !in busy && clock - a.at >= minAge {
          list := list + [i];
        }
        i := i + 1;
      }
    }

    /** The start of the settler's `resolvePendingLive`: the list. */
    method StartResolving()
      requires resolving == []
      modifies this`resolving
      ensures State() == Step(old(State()), ResolveStart)
    {
      resolving := ListPendingLive(PENDING_LIVE_MIN_AGE_MS);
    }

    /** One round of the settler's `resolvePendingLive`, from whatever state the steps since the last one have led
        to. */
    method ResolveHead(answer: Lookup, order: Option<Order>)
      requires Enabled(State(), ResolveNext(answer)) && (answer.LookupFound? ==> order == Some(ex.orders[resolving[0]]))
      modifies this`resolving, this`ex, store
      ensures State() == Step(old(State()), ResolveNext(answer))
      ensures resolving == old(resolving)[1..] && ex.orders == old(ex.orders)
    {
      ResolveOne(resolving[0], answer, order, OrderNotFound);
      resolving := resolving[1..];
    }

    /** The settler's use of `resolvePendingLive`: the list, then one lookup after another. */
    method ResolvePendingLive(answers: seq<Lookup>, orders: seq<Option<Order>>)
      requires resolving == [] && Possible(State(), [ResolveStart] + ResolveEvents(answers))
      requires AnswersFit(PendingLive(store.Rows(), busy, clock, PENDING_LIVE_MIN_AGE_MS, |store.attempts|), answers, orders, ex.orders)
      modifies this, store
      ensures State() == Run(old(State()), [ResolveStart] + ResolveEvents(answers)) && resolving == []
    {
      ghost var s := State();
      StartResolving();
      var list := resolving;
      assert ([ResolveStart] + ResolveEvents(answers))[1..] == ResolveEvents(answers);
      assert answers[0..] == answers;
      var k := 0;
      while k < |list|
        invariant 0 <= k <= |list| && resolving == list[k..] && ex.orders == s.ex.orders
        invariant Possible(State(), ResolveEvents(answers[k..]))
        invariant Run(State(), ResolveEvents(answers[k..])) == Run(s, [ResolveStart] + ResolveEvents(answers))
      {
        NextResolve(State(), answers, k);
        ResolveHead(answers[k], orders[k]);
        k := k + 1;
      }
      assert answers[k..] == [];
    }

    /** The state while recovery works through `todo`. */
    ghost function RecoveryState(todo: seq<nat>): Sys
      reads this, store
    {
      Sys(store.Rows(), ex, clock, Recovering(todo))
    }

    /** The first stage of recovery: the listed attempts, one lookup after another. */
    method ResolveListed(list: seq<nat>, answers: seq<Lookup>, orders: seq<Option<Order>>)
      requires AnswersFit(list, answers, orders, ex.orders) && Possible(RecoveryState(list), LookupsThenFinish(answers))
      modifies this`ex, store
      ensures Possible(RecoveryState([]), LookupsThenFinish([]))
      ensures Run(RecoveryState([]), LookupsThenFinish([])) == Run(old(RecoveryState(list)), LookupsThenFinish(answers))
    {
      ghost var s := RecoveryState(list);
      assert list[0..] == list && answers[0..] == answers;
      var k := 0;
      while k < |list|
        invariant 0 <= k <= |list| && ex.orders == s.ex.orders
        invariant Possible(RecoveryState(list[k..]), LookupsThenFinish(answers[k..]))
        invariant Run(RecoveryState(list[k..]), LookupsThenFinish(answers[k..])) == Run(s, LookupsThenFinish(answers))
      {
        ghost var before := RecoveryState(list[k..]);
        NextLookup(before, answers, k);
        ResolveOne(list[k], answers[k], orders[k], RestartNoOrder);
        assert list[k..][1..] == list[k + 1..];
        assert RecoveryState(list[k + 1..]) == Step(before, RecoverLookup(answers[k]));
        k := k + 1;
      }
      assert list[k..] == [] && answers[k..] == [];
    }

    /** Start-up recovery, before anything else runs. */
    method RecoverOnStart(answers: seq<Lookup>, orders: seq<Option<Order>>)
      requires queue == [] && busy == {} && running == None && resolving == []
      requires Possible(Sys(store.Rows(), ex, clock, Down), RecoveryRun(answers))
      requires AnswersFit(PendingLive(store.Rows(), {}, clock, 0, |store.attempts|), answers, orders, ex.orders)
      modifies this, store
      ensures State() == Run(old(Sys(store.Rows(), ex, clock, Down)), RecoveryRun(answers))
    {
      var list := ListPendingLive(0);
      assert RecoveryRun(answers)[1..] == LookupsThenFinish(answers);
      assert RecoveryState(list) == Step(Sys(store.Rows(), ex, clock, Down), Start);
      ResolveListed(list, answers, orders);
      ghost var done := RecoveryState([]);
      LastStage(done);
      RecoverStoredRows();
      assert State() == Step(done, RecoverFinish);
    }

    /** The second stage: one transaction over the attempts, then the trades. */
    method RecoverStoredRows()
      modifies store
      ensures store.Rows() == RecoverRows(old(store.Rows()), clock)
    {
      ghost var db := store.Rows();
      var unresolvedLive, touched: set<nat> := {}, {};
      var i := 0;
      while i < |store.attempts|
        invariant 0 <= i <= |store.attempts| == |db.attempts|
        invariant store.Rows() == db.(attempts := store.attempts)
        invariant forall j :: 0 <= j < |db.attempts| ==> store.attempts[j] == if j < i then RecoverAttempt(db.attempts[j]) else db.attempts[j]
        invariant forall t: nat :: t in unresolvedLive <==> UnresolvedBefore(db, t, i)
      {
        var a := store.attempts[i];
        if a.status == AttemptPending {
          if a.mode == Live {
            unresolvedLive := unresolvedLive + {a.trade};
          } else {
            store.UpdateAttemptRow(i, a.(status := AttemptUnfilled, reason := Some(Restart)));
            touched := touched + {a.trade};
          }
        }
        i := i + 1;
      }
      assert forall t: nat :: t in unresolvedLive <==> Unresolved(db, t);
      RecoverStoredTrades(db, unresolvedLive, touched);
    }

    method RecoverStoredTrades(ghost db: Db, unresolvedLive: set<nat>, touched: set<nat>)
      requires store.Rows() == db.(attempts := store.attempts) && |store.attempts| == |db.attempts|
      requires forall j :: 0 <= j < |db.attempts| ==> store.attempts[j] == RecoverAttempt(db.attempts[j])
      requires forall t: nat :: t in unresolvedLive <==> Unresolved(db, t)
      modifies store
      ensures store.Rows() == RecoverRows(db, clock)
    {
      ghost var rows := store.attempts;
      var t := 0;
      while t < |store.trades|
        invariant 0 <= t <= |store.trades| == |db.trades|
        invariant store.Rows() == db.(attempts := rows, trades := store.trades, audit := db.audit + RecoverAudit(db, clock, t))
        invariant forall u :: 0 <= u < |db.trades| ==> store.trades[u] == if u < t then RecoverTrade(db, clock, u) else db.trades[u]
      {
        var row := store.trades[t];
        var listed := IsUnfinished(row.status) && t !in unresolvedLive;
        var open := row.windowEnds > clock;
        if listed && !(row.status == Waiting && t !in touched && open) {
          if open {
            if row.status != Waiting {
              store.TransitionTrade(t, row.(status := Waiting, skipReason := ReasonOr(row.skipReason, Restart)));
            }
          } else {
            store.TransitionTrade(t, row.(status := Skipped, windowExpired := true, skipReason := ReasonOr(row.skipReason, Restart)));
          }
        }
        t := t + 1;
      }
      assert store.attempts == RecoverRows(db, clock).attempts;
      assert store.trades == RecoverRows(db, clock).trades;
    }
  }

  predicate UnresolvedBefore(db: Db, t: nat, n: nat)
    requires n <= |db.attempts|
  {
    exists i :: 0 <= i < n && db.attempts[i].trade == t && db.attempts[i].status == AttemptPending && db.attempts[i].mode == Live
  }

  // ---- the settler --------------------------------------------------------------------------------------

  /** What the exchange says of a market: not settled (or not readable), or settled at a value, with the revenue it
      lists for the ticker if it lists any yet. */
  datatype MarketState = Unsettled | SettledAt(valueBp: int, revenue: Option<int>)

  const RECONCILE_TOLERANCE_MICROS := 10_000

  const RECONCILE_WAIT_MS := 30 * 60_000

  datatype LiveVerdict = Wait(since: int) | SettleLive(warning: bool)

  /** Live trades wait for the listed settlement, at most half an hour from when it was first missed. */
  function JudgeLive(since: Option<int>, now: int, revenue: Option<int>, expected: int): LiveVerdict {
    if revenue.Some? then SettleLive(Abs(revenue.value - expected) > RECONCILE_TOLERANCE_MICROS)
    else
      var first := if since.Some? then since.value else now;
      if now - first < RECONCILE_WAIT_MS then Wait(first) else SettleLive(true)
  }

  /** The passes that see the settled market of a live trade without a listed settlement, each with the wait that the one
      before noted. */
  function WaitAfter(times: seq<int>): Option<int> {
    if times == [] then None
    else
      match JudgeLive(WaitAfter(times[..|times| - 1]), times[|times| - 1], None, 0)
      case Wait(since) => Some(since)
      case SettleLive(_) => None
  }

  predicate AllWithin(times: seq<int>) {
    forall k :: 0 <= k < |times| ==> times[k] - times[0] < 1_800_000
  }

  lemma {:induction false} WaitsFromFirst(times: seq<int>)
    requires times != [] && AllWithin(times)
    ensures WaitAfter(times) == Some(times[0])
  {
    if |times| > 1 { WaitsFromFirst(times[..|times| - 1]); } else { assert times[..0] == []; }
  }

  /** While the settlement is not listed, the trades settle with a warning in the first pass at least half an hour after
      the first that missed it, and wait in every one before. */
  lemma WaitEndsExactly(times: seq<int>, now: int, expected: int)
    requires times != [] && AllWithin(times)
    ensures JudgeLive(WaitAfter(times), now, None, expected)
            == if now - times[0] >= 1_800_000 then SettleLive(true) else Wait(times[0])
  {
    WaitsFromFirst(times);
  }

  /** A listed settlement settles them at once, with a warning exactly if it is off by more than a cent. */
  lemma ListedSettles(since: Option<int>, now: int, revenue: int, expected: int)
    ensures JudgeLive(since, now, Some(revenue), expected) == SettleLive(revenue < expected - 10_000 || revenue > expected + 10_000)
  {
  }

  predicate InGroup(r: Read, ticker: nat, mode: Mode) {
    r.row.ticker == Some(ticker) && r.row.mode == mode
  }

  /** What the app expects the exchange to pay for the live trades of a ticker. */
  function ExpectedRevenue(found: seq<Read>, ticker: nat, valueBp: int): int {
    if found == [] then 0
    else
      var r := found[|found| - 1];
      ExpectedRevenue(found[..|found| - 1], ticker, valueBp)
      + if InGroup(r, ticker, Live) then PayoutMicros(if r.row.fill.Some? then r.row.fill.value.cc else 0, valueBp) else 0
  }

  /** The expected revenue adds up over what was read: each live fill of the ticker counts at the value. */
  lemma {:induction false} RevenueAdds(a: seq<Read>, b: seq<Read>, ticker: nat, valueBp: int)
    ensures ExpectedRevenue(a + b, ticker, valueBp) == ExpectedRevenue(a, ticker, valueBp) + ExpectedRevenue(b, ticker, valueBp)
    ensures |a| == 1 && a[0].row.fill.Some? ==>
              ExpectedRevenue(a, ticker, valueBp)
              == if a[0].row.ticker == Some(ticker) && a[0].row.mode == Live then a[0].row.fill.value.cc * valueBp else 0
    decreases |b|
  {
    if |a| == 1 { assert a[..0] == []; }
    if b == [] {
      assert a + b == a;
    } else {
      assert (a + b)[..|a + b| - 1] == a + b[..|b| - 1];
      RevenueAdds(a, b[..|b| - 1], ticker, valueBp);
    }
  }

  /** A group's settlements are those of the ticker's trades in that mode, each at the market's value. */
  lemma {:induction false} GroupExactly(found: seq<Read>, ticker: nat, mode: Mode, valueBp: int, warning: bool, n: nat, k: nat, value: int, warned: bool)
    requires n <= |found|
    ensures SettleTrade(k, value, warned) in GroupEvents(found, ticker, mode, valueBp, warning, n)
            <==> k < n && found[k].row.ticker == Some(ticker) && found[k].row.mode == mode && value == valueBp && warned == warning
  {
    if n > 0 { GroupExactly(found, ticker, mode, valueBp, warning, n - 1, k, value, warned); }
  }

  /** The settlements of one mode's trades of a ticker, in the order read. */
  function GroupEvents(found: seq<Read>, ticker: nat, mode: Mode, valueBp: int, warning: bool, n: nat): seq<Event>
    requires n <= |found|
  {
    if n == 0 then []
    else
      GroupEvents(found, ticker, mode, valueBp, warning, n - 1)
      + if InGroup(found[n - 1], ticker, mode) then [SettleTrade(n - 1, valueBp, warning)] else []
  }

  /** The dry-run trades of the ticker, then its live ones if they may settle now. */
  function TickerEvents(found: seq<Read>, ticker: nat, market: MarketState, since: Option<int>, now: int): seq<Event> {
    if market.Unsettled? then []
    else
      GroupEvents(found, ticker, DryRun, market.valueBp, false, |found|)
      + LiveGroupEvents(found, ticker, market.valueBp, market.revenue, since, now)
  }

  function LiveGroupEvents(found: seq<Read>, ticker: nat, valueBp: int, revenue: Option<int>, since: Option<int>, now: int): seq<Event> {
    var verdict := JudgeLive(since, now, revenue, ExpectedRevenue(found, ticker, valueBp));
    if verdict.Wait? then [] else GroupEvents(found, ticker, Live, valueBp, verdict.warning, |found|)
  }

  /** `db` is what settling the first `k` reads of the group makes of `s`. */
  ghost predicate GroupSettled(found: seq<Read>, ticker: nat, mode: Mode, valueBp: int, warning: bool, s: Sys, db: Db, k: nat)
    requires k <= |found|
  {
    && s.process.Up? && s.process.settling == found && |db.trades| == |s.db.trades|
    && var es := GroupEvents(found, ticker, mode, valueBp, warning, k);
    Possible(s, es) && Run(s, es) == s.(db := db)
  }

  lemma GroupGoesOn(found: seq<Read>, ticker: nat, mode: Mode, valueBp: int, warning: bool, s: Sys, db: Db, k: nat)
    requires k < |found| && found[k].trade < |s.db.trades| && GroupSettled(found, ticker, mode, valueBp, warning, s, db, k)
    ensures GroupSettled(found, ticker, mode, valueBp, warning, s,
                         if InGroup(found[k], ticker, mode) then Settle(db, found[k].trade, found[k].row, valueBp, warning) else db, k + 1)
  {
    var es := GroupEvents(found, ticker, mode, valueBp, warning, k);
    if InGroup(found[k], ticker, mode) {
      RunSnoc(s, es, SettleTrade(k, valueBp, warning));
    } else {
      assert es + [] == es;
    }
  }

  function Since(awaiting: map<nat, int>, ticker: nat): Option<int> {
    if ticker in awaiting then Some(awaiting[ticker]) else None
  }

  /** What one pass settles for a ticker: nothing while the market is not settled; every dry run at the market's value;
      every live trade with the verdict's warning, unless the verdict is to wait. */
  lemma TickerExactly(found: seq<Read>, ticker: nat, market: MarketState, since: Option<int>, now: int, k: nat, value: int, warned: bool)
    ensures SettleTrade(k, value, warned) in TickerEvents(found, ticker, market, since, now)
            <==> && market.SettledAt? && value == market.valueBp && k < |found| && found[k].row.ticker == Some(ticker)
                 && if found[k].row.mode == DryRun then !warned
                    else JudgeLive(since, now, market.revenue, ExpectedRevenue(found, ticker, value)) == SettleLive(warned)
  {
    if market.SettledAt? {
      GroupExactly(found, ticker, DryRun, market.valueBp, false, |found|, k, value, warned);
      var verdict := JudgeLive(since, now, market.revenue, ExpectedRevenue(found, ticker, market.valueBp));
      if verdict.SettleLive? { GroupExactly(found, ticker, Live, market.valueBp, verdict.warning, |found|, k, value, warned); }
    }
  }

  class Settler {
    const store: Store
    var clock: int
    /** When a settled market with live trades was first seen without a listed settlement. */
    var awaiting: map<nat, int>

    constructor (store: Store, clock: int)
      ensures this.store == store && this.clock == clock && awaiting == map[]
    {
      this.store := store;
      this.clock := clock;
      awaiting := map[];
    }

    /** `settle`, from the row as the pass read it; whether it changed the trade. */
    method SettleOne(t: nat, read: Trade, valueBp: int, warning: bool) returns (changed: bool)
      requires t < |store.trades|
      modifies store
      ensures store.Rows() == Settle(old(store.Rows()), t, read, valueBp, warning)
      ensures changed <==> old(store.trades)[t].status == Filled
    {
      var x := SettlementOf(read, valueBp, warning);
      var row := store.trades[t];
      if row.status != Filled {
        return false;
      }
      store.TransitionTrade(t, row.(status := SettledStatus(valueBp), settlement := Some(x)));
      if read.mode != Live {
        var _ := store.AdjustBankrollBy(x.payout, ForSettlement(t));
      }
      return true;
    }

    /** The start of a pass: the filled trades as they are now. */
    method ReadFilled() returns (found: seq<Read>)
      ensures found == FilledTrades(store.Rows(), |store.trades|)
    {
      found := [];
      var t := 0;
      while t < |store.trades|
        invariant 0 <= t <= |store.trades|
        invariant found == FilledTrades(store.Rows(), t)
      {
        if store.trades[t].status == Filled {
          found := found + [Read(t, store.trades[t])];
        }
        t := t + 1;
      }
    }

    /** Settles one mode's trades of a ticker; `s` is any state of the process that has read `found`. */
    method SettleGroup(found: seq<Read>, ticker: nat, mode: Mode, valueBp: int, warning: bool, ghost s: Sys)
      requires s.process.Up? && s.process.settling == found && s.db == store.Rows()
      requires forall k :: 0 <= k < |found| ==> found[k].trade < |s.db.trades|
      modifies store
      ensures var es := GroupEvents(found, ticker, mode, valueBp, warning, |found|);
              Possible(s, es) && Run(s, es) == s.(db := store.Rows())
      ensures |store.trades| == |s.db.trades|
    {
      var k := 0;
      while k < |found|
        invariant 0 <= k <= |found|
        invariant GroupSettled(found, ticker, mode, valueBp, warning, s, store.Rows(), k)
      {
        GroupGoesOn(found, ticker, mode, valueBp, warning, s, store.Rows(), k);
        if InGroup(found[k], ticker, mode) {
          var _ := SettleOne(found[k].trade, found[k].row, valueBp, warning);
        }
        k := k + 1;
      }
    }

    /** The live trades of a settled market: settled when the settlement is listed or has been missing for long
        enough, otherwise the wait is noted. `s` is any state, later than the dry-run settlements, of the process
        that has read `found`. */
    method SettleLiveGroup(found: seq<Read>, ticker: nat, valueBp: int, revenue: Option<int>, ghost s: Sys)
      requires s.process.Up? && s.process.settling == found && s.db == store.Rows()
      requires forall k :: 0 <= k < |found| ==> found[k].trade < |s.db.trades|
      modifies this`awaiting, store
      ensures var es := LiveGroupEvents(found, ticker, valueBp, revenue, Since(old(awaiting), ticker), clock);
              Possible(s, es) && Run(s, es) == s.(db := store.Rows())
      ensures var verdict := JudgeLive(Since(old(awaiting), ticker), clock, revenue, ExpectedRevenue(found, ticker, valueBp));
              awaiting == if verdict.Wait? then old(awaiting)[ticker := verdict.since] else old(awaiting) - {ticker}
    {
      var expected := 0;
      var k := 0;
      while k < |found|
        invariant 0 <= k <= |found|
        invariant expected == ExpectedRevenue(found[..k], ticker, valueBp)
      {
        assert found[..k + 1][..k] == found[..k];
        if InGroup(found[k], ticker, Live) {
          expected := expected + PayoutMicros(if found[k].row.fill.Some? then found[k].row.fill.value.cc else 0, valueBp);
        }
        k := k + 1;
      }
      assert found[..k] == found;
      match JudgeLive(Since(awaiting, ticker), clock, revenue, expected) {
        case Wait(since) =>
          awaiting := awaiting[ticker := since];
        case SettleLive(warning) =>
          awaiting := awaiting - {ticker};
          SettleGroup(found, ticker, Live, valueBp, warning, s);
      }
    }

    /** One ticker of a pass, with nothing in between: the market has been read, the dry-run trades settle from it at
        once, then the live ones, if there are any. */
    method SettleTicker(found: seq<Read>, ticker: nat, market: MarketState, ghost s: Sys)
      requires s.process.Up? && s.process.settling == found && s.db == store.Rows()
      requires forall k :: 0 <= k < |found| ==> found[k].trade < |s.db.trades|
      modifies this`awaiting, store
      ensures var es := TickerEvents(found, ticker, market, Since(old(awaiting), ticker), clock);
              Possible(s, es) && Run(s, es) == s.(db := store.Rows())
      ensures market.SettledAt? && (exists k :: 0 <= k < |found| && InGroup(found[k], ticker, Live)) ==>
                var verdict := JudgeLive(Since(old(awaiting), ticker), clock, market.revenue, ExpectedRevenue(found, ticker, market.valueBp));
                awaiting == if verdict.Wait? then old(awaiting)[ticker := verdict.since] else old(awaiting) - {ticker}
    {
      if market.Unsettled? {
        return;
      }
      SettleGroup(found, ticker, DryRun, market.valueBp, false, s);
      ghost var es := GroupEvents(found, ticker, DryRun, market.valueBp, false, |found|);
      ghost var s1 := s.(db := store.Rows());
      ghost var rest := LiveGroupEvents(found, ticker, market.valueBp, market.revenue, Since(awaiting, ticker), clock);
      var live := exists k :: 0 <= k < |found| && InGroup(found[k], ticker, Live);
      if live {
        SettleLiveGroup(found, ticker, market.valueBp, market.revenue, s1);
      } else {
        NoLiveGroup(found, ticker, market.valueBp, market.revenue, Since(awaiting, ticker), clock);
      }
      RunConcat(s, es, rest);
    }
  }

  lemma NoLiveGroup(found: seq<Read>, ticker: nat, valueBp: int, revenue: Option<int>, since: Option<int>, now: int)
    requires !exists k :: 0 <= k < |found| && InGroup(found[k], ticker, Live)
    ensures LiveGroupEvents(found, ticker, valueBp, revenue, since, now) == []
  {
    EmptyGroup(found, ticker, Live, valueBp, false, |found|);
    EmptyGroup(found, ticker, Live, valueBp, true, |found|);
  }

  lemma {:induction false} EmptyGroup(found: seq<Read>, ticker: nat, mode: Mode, valueBp: int, warning: bool, n: nat)
    requires n <= |found| && !exists k :: 0 <= k < |found| && InGroup(found[k], ticker, mode)
    ensures GroupEvents(found, ticker, mode, valueBp, warning, n) == []
  {
    if n > 0 {
      EmptyGroup(found, ticker, mode, valueBp, warning, n - 1);
    }
  }
}
