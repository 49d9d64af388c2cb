/** Every step keeps the invariant (with the recovery assumption where it is needed), and so does every run. */
module Preservation {
  import opened Pricing
  import opened Guards
  import opened Trades
  import opened Lifecycle
  import opened Invariant

  // ---- the running attempt ------------------------------------------------------------------------------

  lemma DropKeeps(s: Sys, mode: Effective, configured: bool)
    requires Inv(s) && Enabled(s, BeginNext(mode, configured))
    requires !IsOpen(s.db.trades[s.process.queue[0]].status) || s.db.trades[s.process.queue[0]].ticker.None?
    ensures Inv(Begin(s, mode, configured))
  {
    var s' := Begin(s, mode, configured);
    TailDistinct(s.process.queue);
    assert s.process.queue[0] in s.process.queue && s.process.queue[0] in s.process.busy;
    forall i: nat
      ensures PendingPart(s'.db, s'.process, i)
    {
      assert PendingPart(s.db, s.process, i);
    }
  }

  lemma BeginKeeps(s: Sys, mode: Effective, configured: bool)
    requires Inv(s) && Enabled(s, BeginNext(mode, configured))
    ensures Inv(Begin(s, mode, configured))
  {
    var p := s.process;
    var t := p.queue[0];
    if IsOpen(s.db.trades[t].status) && s.db.trades[t].ticker.Some? {
      var s' := Begin(s, mode, configured);
      TailDistinct(p.queue);
      assert t in p.queue && t in p.busy;
      BeginKeepsDb(s, mode, configured);
      BeginKeepsExchange(s, mode, configured);
      forall i: nat
        ensures PendingPart(s'.db, s'.process, i)
      {
        assert PendingPart(s.db, p, i);
      }
      assert OrderOk(s.db, s.ex, |s.db.attempts|);
      assert Unsent(s.ex, |s.db.attempts|);
    } else {
      DropKeeps(s, mode, configured);
    }
  }

  /** No attempt of a queued trade is pending or filled. */
  lemma QueuedIsQuiet(s: Sys, i: nat)
    requires Inv(s) && s.process.Up? && s.process.queue != [] && i < |s.db.attempts| && s.db.attempts[i].trade == s.process.queue[0]
    ensures !IsPendingAttempt(s.db, i) && !FilledRow(s.db, i)
  {
    assert s.process.queue[0] in s.process.queue;
    assert AttemptOk(s.db, i);
    assert PendingPart(s.db, s.process, i);
  }

  lemma BeginKeepsDb(s: Sys, mode: Effective, configured: bool)
    requires Inv(s) && Enabled(s, BeginNext(mode, configured))
    requires IsOpen(s.db.trades[s.process.queue[0]].status) && s.db.trades[s.process.queue[0]].ticker.Some?
    ensures DbOk(Begin(s, mode, configured).db)
  {
    var db, db' := s.db, Begin(s, mode, configured).db;
    forall i | 0 <= i < |db'.attempts|
      ensures AttemptOk(db', i)
    {
      if i < |db.attempts| {
        assert AttemptOk(db, i);
        if db.attempts[i].trade == s.process.queue[0] {
          QueuedIsQuiet(s, i);
        }
      }
    }
    forall i, j | 0 <= i < j < |db'.attempts| && db'.attempts[i].trade == db'.attempts[j].trade
      ensures db'.attempts[i].no < db'.attempts[j].no
    {
      assert AttemptOk(db, i);
    }
  }

  lemma BeginKeepsExchange(s: Sys, mode: Effective, configured: bool)
    requires Inv(s) && Enabled(s, BeginNext(mode, configured))
    requires IsOpen(s.db.trades[s.process.queue[0]].status) && s.db.trades[s.process.queue[0]].ticker.Some?
    ensures ExchangeOk(Begin(s, mode, configured).db, s.ex)
  {
    var db' := Begin(s, mode, configured).db;
    forall i: nat
      ensures OrderOk(db', s.ex, i)
    {
      assert OrderOk(s.db, s.ex, i);
      if i < |s.db.attempts| && s.db.attempts[i].trade == s.process.queue[0] {
        QueuedIsQuiet(s, i);
      }
    }
  }

  lemma ReadDoneKeeps(s: Sys, read: Option<MarketRead>)
    requires Inv(s) && Enabled(s, ReadDone(read))
    ensures Inv(Step(s, ReadDone(read)))
  {
    var r := s.process.running.value;
    var pc := AfterReads(s.db, s.clock, s.db.trades[r.trade], s.db.attempts[r.attempt].mode, r.attempt, read);
    if pc.AwaitingGroup? {
      TermsArePositive(s, read);
    }
    TouchRunning(s.db, s.db, s.ex, s.ex, s.process, pc);
  }

  lemma TermsArePositive(s: Sys, read: Option<MarketRead>)
    requires Enabled(s, ReadDone(read))
    requires var r := s.process.running.value;
             AfterReads(s.db, s.clock, s.db.trades[r.trade], s.db.attempts[r.attempt].mode, r.attempt, read).AwaitingGroup?
    ensures var r := s.process.running.value;
            var terms := AfterReads(s.db, s.clock, s.db.trades[r.trade], s.db.attempts[r.attempt].mode, r.attempt, read).terms;
            terms.limitBp >= 0 && terms.requestedCc >= 100 && CostMicros(terms.requestedCc, terms.limitBp) >= 0
  {
  }

  lemma GroupDoneKeeps(s: Sys, found: bool)
    requires Inv(s) && Enabled(s, GroupDone(found))
    ensures Inv(Step(s, GroupDone(found)))
  {
    var r := s.process.running.value;
    var s' := Step(s, GroupDone(found));
    if found {
      assert AttemptOk(s.db, r.attempt) && OrderOk(s.db, s.ex, r.attempt);
      TouchDb(s.db, s'.db, r.trade, r.attempt);
      TouchExchange(s.db, s'.db, s.ex, s'.ex, r.trade, r.attempt);
      TouchRunning(s.db, s'.db, s.ex, s'.ex, s.process, Sending);
    } else {
      TouchRunning(s.db, s'.db, s.ex, s'.ex, s.process, s'.process.running.value.pc);
    }
  }

  lemma FillKeeps(s: Sys, db': Db)
    requires Inv(s) && AttemptRuns(s) && s.process.running.value.pc.AwaitingFee?
    requires var r := s.process.running.value;
             exists terms, fill :: db' == FillDryRun(s.db, r.trade, r.attempt, terms, fill)
    ensures Inv(Sys(db', s.ex, s.clock, Release(s.process)))
  {
    var r := s.process.running.value;
    assert AttemptOk(s.db, r.attempt) && OrderOk(s.db, s.ex, r.attempt);
    TouchDb(s.db, db', r.trade, r.attempt);
    TouchExchange(s.db, db', s.ex, s.ex, r.trade, r.attempt);
    TouchRelease(s.db, db', s.ex, s.ex, s.process);
  }

  lemma FeeDoneKeeps(s: Sys, milli: int, prec: int)
    requires Inv(s) && Enabled(s, FeeDone(milli, prec))
    ensures Inv(Step(s, FeeDone(milli, prec)))
  {
    var s' := Step(s, FeeDone(milli, prec));
    if s'.process.running.None? {
      FillKeeps(s, s'.db);
    } else {
      TouchRunning(s.db, s'.db, s.ex, s'.ex, s.process, s'.process.running.value.pc);
    }
  }

  /** A recorded outcome keeps rows and exchange consistent when it is the outcome of the attempt's order and the
      trade waits for it; a missing order may also be recorded for a trade that never sent one. */
  lemma RecordKeeps(db: Db, ex: Exchange, ex': Exchange, now: int, i: nat, outcome: Outcome, notFound: Reason, expireClosed: bool)
    requires DbOk(db) && ExchangeOk(db, ex) && IsPendingLive(db, i)
    requires ex' == if outcome.NoOrder? then Forget(ex, i) else ex
    requires outcome.NoOrder? ==> i !in ex.orders
    requires outcome.OrderWith? ==> i in ex.orders && (outcome.fill.Some? <==> ex.orders[i].fillCc > 0)
    requires outcome.OrderWith? && outcome.fill.Some? ==> outcome.fill.value.cc == ex.orders[i].fillCc
    ensures db.attempts[i].trade < |db.trades|
    ensures var db' := RecordLiveOutcome(db, now, i, outcome, notFound, expireClosed);
            DbOk(db') && ExchangeOk(db', ex') && Touches(db, db', db.attempts[i].trade, i) && !IsPendingAttempt(db', i)
  {
    assert AttemptOk(db, i) && OrderOk(db, ex, i);
    var db' := RecordLiveOutcome(db, now, i, outcome, notFound, expireClosed);
    TouchDb(db, db', db.attempts[i].trade, i);
    TouchExchange(db, db', ex, ex', db.attempts[i].trade, i);
  }

  lemma CreateDoneKeeps(s: Sys, a: CreateAnswer)
    requires Inv(s) && Enabled(s, CreateDone(a))
    ensures Inv(Step(s, CreateDone(a)))
  {
    var r := s.process.running.value;
    var s' := Step(s, CreateDone(a));
    if a.Answered? {
      var limit := s.db.attempts[r.attempt].limitBp;
      var outcome := OutcomeFromResult(s.ex.orders[r.attempt], if limit.Some? then limit.value else 0);
      RecordKeeps(s.db, s.ex, s'.ex, s.clock, r.attempt, outcome, Unfilled, false);
      TouchRelease(s.db, s'.db, s.ex, s'.ex, s.process);
    } else {
      ForgetKeeps(s.db, s.ex, s'.ex, r.attempt);
      TouchRunning(s.db, s'.db, s.ex, s'.ex, s.process, s'.process.running.value.pc);
    }
  }

  /** Forgetting a request of which no order came. */
  lemma ForgetKeeps(db: Db, ex: Exchange, ex': Exchange, i: nat)
    requires ExchangeOk(db, ex) && (ex' == ex || ex' == Forget(ex, i))
    ensures ExchangeOk(db, ex')
  {
    forall j: nat
      ensures OrderOk(db, ex', j)
    {
      assert OrderOk(db, ex, j);
    }
  }

  lemma LookupDoneKeeps(s: Sys, answer: Lookup)
    requires Inv(s) && Enabled(s, LookupDone(answer))
    ensures Inv(Step(s, LookupDone(answer)))
  {
    var r := s.process.running.value;
    var s' := Step(s, LookupDone(answer));
    match answer
    case LookupFailed =>
      TouchRelease(s.db, s'.db, s.ex, s'.ex, s.process);
    case LookupFound =>
      RecordKeeps(s.db, s.ex, s'.ex, s.clock, r.attempt, OutcomeFromOrder(s.ex.orders[r.attempt]), OrderNotFound, false);
      TouchRelease(s.db, s'.db, s.ex, s'.ex, s.process);
    case LookupNotFound =>
      ForgetKeeps(s.db, s.ex, s'.ex, r.attempt);
      TouchRunning(s.db, s'.db, s.ex, s'.ex, s.process, s'.process.running.value.pc);
  }

  lemma CloseAttemptKeeps(s: Sys)
    requires Inv(s) && Enabled(s, CloseAttemptRow)
    ensures Inv(Step(s, CloseAttemptRow))
  {
    var r := s.process.running.value;
    var s' := Step(s, CloseAttemptRow);
    assert AttemptOk(s.db, r.attempt) && OrderOk(s.db, s.ex, r.attempt);
    TouchDb(s.db, s'.db, r.trade, r.attempt);
    TouchExchange(s.db, s'.db, s.ex, s'.ex, r.trade, r.attempt);
    TouchRunning(s.db, s'.db, s.ex, s'.ex, s.process, s'.process.running.value.pc);
  }

  lemma CloseTradeKeeps(s: Sys)
    requires Inv(s) && Enabled(s, CloseTradeRow)
    ensures Inv(Step(s, CloseTradeRow))
  {
    var r := s.process.running.value;
    var s' := Step(s, CloseTradeRow);
    assert AttemptOk(s.db, r.attempt) && OrderOk(s.db, s.ex, r.attempt);
    TouchDb(s.db, s'.db, r.trade, r.attempt);
    TouchExchange(s.db, s'.db, s.ex, s'.ex, r.trade, r.attempt);
    TouchRelease(s.db, s'.db, s.ex, s'.ex, s.process);
  }

  // ---- trades that are not busy -------------------------------------------------------------------------

  /** Changes of one open trade that has no pending or filled attempt, such as an expiry. */
  lemma ExpireKeepsRow(s: Sys, t: nat, i: nat)
    requires Inv(s) && Enabled(s, ExpireTrade(t))
    ensures i < |s.db.attempts| ==> AttemptOk(Expire(s.db, t), i)
    ensures OrderOk(Expire(s.db, t), s.ex, i) && PendingPart(Expire(s.db, t), s.process, i)
  {
    assert OrderOk(s.db, s.ex, i) && PendingPart(s.db, s.process, i);
    if i < |s.db.attempts| { assert AttemptOk(s.db, i); }
  }

  lemma ExpireKeeps(s: Sys, t: nat)
    requires Inv(s) && Enabled(s, ExpireTrade(t))
    ensures Inv(Step(s, ExpireTrade(t)))
  {
    forall i: nat
      ensures i < |s.db.attempts| ==> AttemptOk(Expire(s.db, t), i)
      ensures OrderOk(Expire(s.db, t), s.ex, i) && PendingPart(Expire(s.db, t), s.process, i)
    {
      ExpireKeepsRow(s, t, i);
    }
  }

  lemma RetryKeeps(s: Sys, t: nat)
    requires Inv(s) && Enabled(s, Retry(t))
    ensures Inv(Step(s, Retry(t)))
  {
    var s' := Step(s, Retry(t));
    forall i: nat
      ensures PendingPart(s'.db, s'.process, i)
    {
      assert PendingPart(s.db, s.process, i);
    }
    forall k | 0 <= k < |s.process.resolving|
      ensures s.db.attempts[s.process.resolving[k]].trade !in s'.process.busy
    {
      assert PendingPart(s.db, s.process, s.process.resolving[k]);
      assert IsPendingLive(s.db, s.process.resolving[k]);
    }
  }

  lemma SignalKeepsRow(s: Sys, g: Signal, i: nat)
    requires Inv(s) && Enabled(s, OnSignal(g)) && !Known(s.db, g.strategy, g.game)
    ensures var s' := Step(s, OnSignal(g));
            && (i < |s.db.attempts| ==> AttemptOk(s'.db, i))
            && OrderOk(s'.db, s.ex, i) && PendingPart(s'.db, s'.process, i)
  {
    TradesGrow(s.db, g);
    assert OrderOk(s.db, s.ex, i) && PendingPart(s.db, s.process, i);
    if i < |s.db.attempts| { assert AttemptOk(s.db, i); }
  }

  lemma SignalKeepsDb(db: Db, g: Signal)
    requires DbOk(db) && !Known(db, g.strategy, g.game)
    requires forall i :: 0 <= i < |db.attempts| ==> AttemptOk(InsertSignal(db, g), i)
    ensures DbOk(InsertSignal(db, g))
  {
    TradesGrow(db, g);
  }

  lemma SignalKeeps(s: Sys, g: Signal)
    requires Inv(s) && Enabled(s, OnSignal(g))
    ensures Inv(Step(s, OnSignal(g)))
  {
    if !Known(s.db, g.strategy, g.game) {
      var s' := Step(s, OnSignal(g));
      forall i: nat
        ensures i < |s.db.attempts| ==> AttemptOk(s'.db, i)
        ensures OrderOk(s'.db, s.ex, i) && PendingPart(s'.db, s'.process, i)
      {
        SignalKeepsRow(s, g, i);
      }
      TradesGrow(s.db, g);
      SignalKeepsDb(s.db, g);
      SignalKeepsProcess(s, g);
    }
  }

  lemma SignalKeepsProcess(s: Sys, g: Signal)
    requires Inv(s) && Enabled(s, OnSignal(g)) && !Known(s.db, g.strategy, g.game)
    ensures var s' := Step(s, OnSignal(g));
            && QueueOk(s'.db, s'.process) && ResolvingOk(s'.db, s'.process) && SettlingOk(s'.db, s'.process)
            && (s'.process.running.Some? ==> RunningOk(s'.db, s'.ex, s'.process.running.value))
  {
    var s' := Step(s, OnSignal(g));
    var id := |s.db.trades|;
    TradesGrow(s.db, g);
    assert SettlingOk(s'.db, s'.process);
    assert forall k :: 0 <= k < |s.process.queue| ==> s.process.queue[k] < id;
    assert s'.process.running.Some? ==> RunningOk(s'.db, s'.ex, s'.process.running.value);
    forall k | 0 <= k < |s.process.resolving|
      ensures IsPendingLive(s'.db, s.process.resolving[k]) && s'.db.attempts[s.process.resolving[k]].trade !in s'.process.busy
    {
      assert IsPendingLive(s.db, s.process.resolving[k]);
      assert AttemptOk(s.db, s.process.resolving[k]);
    }
  }

  lemma TradesGrow(db: Db, g: Signal)
    requires !Known(db, g.strategy, g.game)
    ensures var db' := InsertSignal(db, g);
            && |db'.trades| == |db.trades| + 1 && db'.attempts == db.attempts
            && (forall t :: 0 <= t < |db.trades| ==> db'.trades[t] == db.trades[t])
            && db'.trades[|db.trades|].status == if g.ticker.Some? then Signalled else Skipped
  {
  }

  // ---- settler ------------------------------------------------------------------------------------------

  lemma SettleKeeps(s: Sys, k: nat, valueBp: int, warning: bool)
    requires Inv(s) && Enabled(s, SettleTrade(k, valueBp, warning))
    ensures Inv(Step(s, SettleTrade(k, valueBp, warning)))
  {
    var t := s.process.settling[k].trade;
    var db' := Settle(s.db, t, s.process.settling[k].row, valueBp, warning);
    if s.db.trades[t].status == Filled {
      FilledTradeKeeps(s.db, db', s.ex, s.process, t);
    } else {
      assert Step(s, SettleTrade(k, valueBp, warning)) == s;
    }
  }

  /** A filled trade is settled; nothing else changes but the bankroll. */
  lemma FilledTradeKeeps(db: Db, db': Db, ex: Exchange, p: Process, t: nat)
    requires DbOk(db) && ExchangeOk(db, ex) && p.Up? && ProcessOk(db, ex, p)
    requires t < |db.trades| && db.trades[t].status == Filled && db'.attempts == db.attempts
    requires |db'.trades| == |db.trades| && SameTrade(db.trades[t], db'.trades[t]) && TradeOk(db'.trades[t])
    requires IsSettled(db'.trades[t].status) && db'.trades[t].mode == db.trades[t].mode && db'.trades[t].fill == db.trades[t].fill
    requires forall u :: 0 <= u < |db.trades| && u != t ==> db'.trades[u] == db.trades[u]
    ensures DbOk(db') && ExchangeOk(db', ex) && ProcessOk(db', ex, p)
  {
    forall i | 0 <= i < |db.attempts|
      ensures AttemptOk(db', i)
    {
      assert AttemptOk(db, i);
    }
    forall i: nat
      ensures OrderOk(db', ex, i) && PendingPart(db', p, i)
    {
      assert OrderOk(db, ex, i) && PendingPart(db, p, i);
      if i < |db.attempts| { assert AttemptOk(db, i); }
    }
  }

  lemma ResolveNextKeeps(s: Sys, answer: Lookup)
    requires Inv(s) && Enabled(s, ResolveNext(answer))
    ensures Inv(Step(s, ResolveNext(answer)))
  {
    var i := s.process.resolving[0];
    var s' := Step(s, ResolveNext(answer));
    assert IsPendingLive(s.db, i);
    TailDistinct(s.process.resolving);
    match answer
    case LookupFailed =>
      UpStepKeeps(s, s');
    case LookupFound =>
      RecordKeeps(s.db, s.ex, s'.ex, s.clock, i, OutcomeFromOrder(s.ex.orders[i]), OrderNotFound, true);
      TouchResolved(s.db, s'.db, s.ex, s'.ex, s.process);
    case LookupNotFound =>
      RecordKeeps(s.db, s.ex, s'.ex, s.clock, i, NoOrder, OrderNotFound, true);
      TouchResolved(s.db, s'.db, s.ex, s'.ex, s.process);
  }

  // ---- start-up recovery --------------------------------------------------------------------------------

  lemma StartKeeps(s: Sys)
    requires Inv(s) && Enabled(s, Start)
    ensures Inv(Step(s, Start))
  {
    PendingLiveMeaning(s.db, {}, s.clock, 0, |s.db.attempts|);
  }

  lemma RecoverLookupKeeps(s: Sys, answer: Lookup)
    requires Inv(s) && Enabled(s, RecoverLookup(answer)) && RecoveryLooksUp(s, RecoverLookup(answer))
    ensures Inv(Step(s, RecoverLookup(answer)))
  {
    var todo := s.process.todo;
    var i := todo[0];
    var s' := Step(s, RecoverLookup(answer));
    assert IsPendingLive(s.db, i);
    TailDistinct(todo);
    match answer
    case LookupFailed =>
    case LookupFound =>
      RecordKeeps(s.db, s.ex, s'.ex, s.clock, i, OutcomeFromOrder(s.ex.orders[i]), RestartNoOrder, true);
      RecordKeepsTodo(s.db, s'.db, todo);
    case LookupNotFound =>
      RecordKeeps(s.db, s.ex, s'.ex, s.clock, i, NoOrder, RestartNoOrder, true);
      RecordKeepsTodo(s.db, s'.db, todo);
  }

  lemma RecordKeepsTodo(db: Db, db': Db, todo: seq<nat>)
    requires DbOk(db) && TodoOk(db, todo) && todo != []
    requires Touches(db, db', db.attempts[todo[0]].trade, todo[0]) && !IsPendingAttempt(db', todo[0])
    ensures TodoOk(db', todo[1..])
  {
    TailDistinct(todo);
    forall j: nat | IsPendingLive(db', j)
      ensures j in todo[1..] || (db'.attempts[j].trade < |db'.trades| && db'.trades[db'.attempts[j].trade].status == Pending)
    {
      assert IsPendingLive(db, j);
      assert AttemptOk(db, todo[0]);
      if db.attempts[j].trade == db.attempts[todo[0]].trade {
        OthersClosed(db, todo[0], j);
      }
    }
  }

  /** The last stage of recovery, with the list worked off: it re-establishes the invariant of the running
      process exactly when each attempt left pending is one whose trade is `pending`. */
  lemma RecoverFinishExact(s: Sys)
    requires DbOk(s.db) && ExchangeOk(s.db, s.ex) && ClockOk(s.db, s.clock) && Enabled(s, RecoverFinish)
    ensures Inv(Step(s, RecoverFinish)) <==> TodoOk(s.db, [])
  {
    var s' := Step(s, RecoverFinish);
    if TodoOk(s.db, []) {
      RecoverRowsKeep(s);
    } else {
      var i: nat :| IsPendingLive(s.db, i) && !(i in [] || (s.db.attempts[i].trade < |s.db.trades| && s.db.trades[s.db.attempts[i].trade].status == Pending));
      assert AttemptOk(s.db, i);
      assert s.db.trades[s.db.attempts[i].trade].status != Pending;
      assert Unresolved(s.db, s.db.attempts[i].trade);
      assert s'.db.trades[s.db.attempts[i].trade] == s.db.trades[s.db.attempts[i].trade];
      assert IsPendingAttempt(s'.db, i);
      assert !PendingPart(s'.db, s'.process, i);
    }
  }

  /** A pending live row left over belongs to a `pending` trade, and recovery changes neither. */
  lemma UnresolvedStays(db: Db, now: int, i: nat)
    requires DbOk(db) && TodoOk(db, []) && IsPendingLive(db, i)
    ensures db.attempts[i].trade < |db.trades| && db.trades[db.attempts[i].trade].status == Pending
    ensures RecoverTrade(db, now, db.attempts[i].trade) == db.trades[db.attempts[i].trade]
  {
    assert AttemptOk(db, i);
    assert i !in [];
    assert Unresolved(db, db.attempts[i].trade);
  }

  lemma RecoverKeepsAttempt(db: Db, now: int, i: nat)
    requires DbOk(db) && TodoOk(db, []) && i < |db.attempts|
    ensures AttemptOk(RecoverRows(db, now), i)
  {
    assert AttemptOk(db, i);
    if IsPendingLive(db, i) { UnresolvedStays(db, now, i); }
  }

  lemma RecoverKeepsDb(db: Db, now: int)
    requires DbOk(db) && TodoOk(db, [])
    ensures DbOk(RecoverRows(db, now))
  {
    var db' := RecoverRows(db, now);
    forall i | 0 <= i < |db'.attempts|
      ensures AttemptOk(db', i)
    {
      RecoverKeepsAttempt(db, now, i);
    }
    assert forall i :: 0 <= i < |db.attempts| ==> SameAttempt(db.attempts[i], db'.attempts[i]);
    assert forall t :: 0 <= t < |db.trades| ==> SameTrade(db.trades[t], db'.trades[t]);
    assert forall t :: 0 <= t < |db.trades| ==> TradeOk(db.trades[t]) && TradeOk(db'.trades[t]);
  }

  lemma RecoverKeepsOrder(s: Sys, i: nat)
    requires DbOk(s.db) && ExchangeOk(s.db, s.ex) && Enabled(s, RecoverFinish) && TodoOk(s.db, [])
    ensures var s' := Step(s, RecoverFinish);
            OrderOk(s'.db, s.ex, i) && PendingPart(s'.db, s'.process, i)
  {
    assert OrderOk(s.db, s.ex, i);
    if i < |s.db.attempts| { assert AttemptOk(s.db, i); }
    if IsPendingLive(s.db, i) { UnresolvedStays(s.db, s.clock, i); }
  }

  lemma RecoverRowsKeep(s: Sys)
    requires DbOk(s.db) && ExchangeOk(s.db, s.ex) && ClockOk(s.db, s.clock) && Enabled(s, RecoverFinish) && TodoOk(s.db, [])
    ensures Inv(Step(s, RecoverFinish))
  {
    RecoverKeepsDb(s.db, s.clock);
    forall i: nat
      ensures var s' := Step(s, RecoverFinish); OrderOk(s'.db, s.ex, i) && PendingPart(s'.db, s'.process, i)
    {
      RecoverKeepsOrder(s, i);
    }
  }

  lemma ResolveStartKeeps(s: Sys)
    requires Inv(s) && Enabled(s, ResolveStart)
    ensures Inv(Step(s, ResolveStart))
  {
    PendingLiveMeaning(s.db, s.process.busy, s.clock, PENDING_LIVE_MIN_AGE_MS, |s.db.attempts|);
    UpStepKeeps(s, Step(s, ResolveStart));
  }

  /** Steps that only replace the resolver's or the settler's list. */
  lemma UpStepKeeps(s: Sys, s': Sys)
    requires Inv(s) && s.process.Up? && s'.process.Up?
    requires s' == s.(process := s.process.(resolving := s'.process.resolving, settling := s'.process.settling))
    requires ResolvingOk(s'.db, s'.process) && SettlingOk(s'.db, s'.process)
    ensures Inv(s')
  {
    forall i: nat
      ensures PendingPart(s'.db, s'.process, i)
    {
      assert PendingPart(s.db, s.process, i);
    }
  }

  lemma ResetKeeps(s: Sys, bankroll: int)
    requires Inv(s)
    ensures Inv(Step(s, ResetTo(bankroll)))
  {
    var s' := Step(s, ResetTo(bankroll));
    forall i | 0 <= i < |s.db.attempts|
      ensures AttemptOk(s'.db, i)
    {
      assert AttemptOk(s.db, i);
    }
    forall i: nat
      ensures OrderOk(s'.db, s.ex, i)
    {
      assert OrderOk(s.db, s.ex, i);
    }
    if s.process.Up? {
      forall i: nat
        ensures PendingPart(s'.db, s'.process, i)
      {
        assert PendingPart(s.db, s.process, i);
      }
    }
  }

  // ---- the exchange -------------------------------------------------------------------------------------

  lemma ExchangeAcceptsKeeps(s: Sys, i: nat, o: Order)
    requires Inv(s) && Enabled(s, ExchangeAccepts(i, o))
    ensures Inv(Step(s, ExchangeAccepts(i, o)))
  {
    var s' := Step(s, ExchangeAccepts(i, o));
    forall j: nat
      ensures OrderOk(s'.db, s'.ex, j)
    {
      assert OrderOk(s.db, s.ex, j);
    }
    assert OrderOk(s.db, s.ex, i);
    if s.process.Up? && s.process.running.Some? {
      // The request of a running attempt is out only once it waits for the exchange.
      assert s.process.running.value.attempt == i ==> s.process.running.value.pc.Sending? || s.process.running.value.pc.LookingUp?;
    }
  }

  // ---- one step, every run ------------------------------------------------------------------------------

  predicate IsAttemptStep(e: Event) {
    e.BeginNext? || e.ReadDone? || e.GroupDone? || e.FeeDone? || e.CreateDone? || e.LookupDone? || e.CloseAttemptRow? || e.CloseTradeRow?
  }

  lemma AttemptStepKeeps(s: Sys, e: Event)
    requires Inv(s) && Enabled(s, e) && IsAttemptStep(e)
    ensures Inv(Step(s, e))
  {
    match e
    case BeginNext(mode, configured) => BeginKeeps(s, mode, configured);
    case ReadDone(read) => ReadDoneKeeps(s, read);
    case GroupDone(found) => GroupDoneKeeps(s, found);
    case FeeDone(milli, prec) => FeeDoneKeeps(s, milli, prec);
    case CreateDone(a) => CreateDoneKeeps(s, a);
    case LookupDone(answer) => LookupDoneKeeps(s, answer);
    case CloseAttemptRow => CloseAttemptKeeps(s);
    case CloseTradeRow => CloseTradeKeeps(s);
  }

  predicate IsRecoveryStep(e: Event) { e.Advance? || e.Crash? || e.Start? || e.RecoverLookup? || e.RecoverFinish? }

  lemma RecoveryStepKeeps(s: Sys, e: Event)
    requires Inv(s) && Enabled(s, e) && RecoveryLooksUp(s, e) && IsRecoveryStep(e)
    ensures Inv(Step(s, e))
  {
    match e
    case Advance(_) =>
    case Crash =>
    case Start => StartKeeps(s);
    case RecoverLookup(answer) => RecoverLookupKeeps(s, answer);
    case RecoverFinish => RecoverRowsKeep(s);
  }

  lemma OtherStepKeeps(s: Sys, e: Event)
    requires Inv(s) && Enabled(s, e) && !IsAttemptStep(e) && !IsRecoveryStep(e)
    ensures Inv(Step(s, e))
  {
    match e
    case OnSignal(g) => SignalKeeps(s, g);
    case Retry(t) => RetryKeeps(s, t);
    case ExpireTrade(t) => ExpireKeeps(s, t);
    case ResolveStart => ResolveStartKeeps(s);
    case ResolveNext(answer) => ResolveNextKeeps(s, answer);
    case SettleStart => FilledTradesMeaning(s.db, |s.db.trades|); UpStepKeeps(s, Step(s, e));
    case SettleTrade(k, valueBp, warning) => SettleKeeps(s, k, valueBp, warning);
    case ResetTo(_) => ResetKeeps(s, e.bankroll);
    case ExchangeAccepts(i, o) => ExchangeAcceptsKeeps(s, i, o);
  }

  lemma StepKeeps(s: Sys, e: Event)
    requires Inv(s) && Enabled(s, e) && RecoveryLooksUp(s, e)
    ensures Inv(Step(s, e))
  {
    if IsAttemptStep(e) {
      AttemptStepKeeps(s, e);
    } else if IsRecoveryStep(e) {
      RecoveryStepKeeps(s, e);
    } else {
      OtherStepKeeps(s, e);
    }
  }

  lemma {:induction false} RunKeeps(s: Sys, es: seq<Event>)
    requires Inv(s) && Possible(s, es) && LooksUpThroughout(s, es)
    ensures Inv(Run(s, es))
    decreases |es|
  {
    if es != [] {
      StepKeeps(s, es[0]);
      RunKeeps(Step(s, es[0]), es[1..]);
    }
  }
}
