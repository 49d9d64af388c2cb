/** Why recovery must be able to look up an attempt that never sent an order. An orphan is a live attempt that is
    still pending, unsent, when start-up recovery ends, because its look-up failed. `recordLiveOutcome` does not look
    at the trade's current status, so its late "not found" moves a trade that has gone on without it.
    Safety over all that can follow holds exactly when there is no orphan; and wherever an orphan's trade waits in an
    open window and some read lets it buy, the trade can be bought twice. */
module OrphanedAttempt {
  import opened Pricing
  import opened Guards
  import opened Rule
  import opened Trades
  import opened Lifecycle
  import opened Invariant
  import opened Preservation
  import opened Ledger
  import opened Safety
  import opened Purchase

  /** All of the invariant but the part that the failed look-ups are about, just before recovery ends. */
  ghost predicate BeforeFinish(s: Sys) {
    DbOk(s.db) && ExchangeOk(s.db, s.ex) && ClockOk(s.db, s.clock) && Enabled(s, RecoverFinish)
  }

  /** A pending live attempt is left on an open trade. */
  predicate Orphan(s: Sys, i: nat) {
    IsPendingLive(s.db, i) && s.db.attempts[i].trade < |s.db.trades| && IsOpen(s.db.trades[s.db.attempts[i].trade].status)
  }

  lemma NoOrphanIsTodoOk(s: Sys)
    requires BeforeFinish(s)
    ensures TodoOk(s.db, []) <==> forall i: nat :: !Orphan(s, i)
  {
    if forall i: nat :: !Orphan(s, i) {
      forall i: nat | IsPendingLive(s.db, i)
        ensures i in [] || (s.db.attempts[i].trade < |s.db.trades| && s.db.trades[s.db.attempts[i].trade].status == Pending)
      {
        assert AttemptOk(s.db, i) && !Orphan(s, i);
      }
    }
  }

  /** Nothing was ever sent for an orphan. */
  lemma OrphanIsUnsent(s: Sys, i: nat)
    requires BeforeFinish(s) && Orphan(s, i)
    ensures i !in s.ex.orders && i !in s.ex.inflight
  {
    assert OrderOk(s.db, s.ex, i);
  }

  /** Recovery leaves the orphan and its trade as they are. */
  lemma OrphanStays(s: Sys, i: nat)
    requires BeforeFinish(s) && Orphan(s, i)
    ensures var s1, t := Step(s, RecoverFinish), s.db.attempts[i].trade;
            && s1.process == Up([], {}, None, [], []) && s1.clock == s.clock && s1.ex == s.ex
            && |s1.db.attempts| == |s.db.attempts| && |s1.db.trades| == |s.db.trades|
            && s1.db.attempts[i] == s.db.attempts[i] && s1.db.trades[t] == s.db.trades[t]
  {
    assert Unresolved(s.db, s.db.attempts[i].trade);
  }

  // ---- runs in which no recovery look-up fails ----------------------------------------------------------

  predicate NoneFails(es: seq<Event>) {
    forall k :: 0 <= k < |es| ==> !(es[k].RecoverLookup? && es[k].answer.LookupFailed?)
  }

  lemma {:induction false} NoneFailsLooksUp(s: Sys, es: seq<Event>)
    requires Possible(s, es) && NoneFails(es)
    ensures LooksUpThroughout(s, es)
    decreases |es|
  {
    if es != [] {
      NoneFailsLooksUp(Step(s, es[0]), es[1..]);
    }
  }

  // ---- an orphan breaks the lifecycle -------------------------------------------------------------------

  function Fails(k: nat): seq<Event> { if k == 0 then [] else Fails(k - 1) + [ResolveNext(LookupFailed)] }

  lemma {:induction false} FailsAre(k: nat)
    ensures |Fails(k)| == k && NoneFails(Fails(k))
  {
    if k > 0 {
      FailsAre(k - 1);
    }
  }

  lemma {:induction false} SkipsTo(s: Sys, k: nat)
    requires s.process.Up? && k <= |s.process.resolving| && forall j :: 0 <= j < |s.process.resolving| ==> RowsExist(s, s.process.resolving[j])
    ensures Possible(s, Fails(k)) && Run(s, Fails(k)) == s.(process := s.process.(resolving := s.process.resolving[k..]))
  {
    if k > 0 {
      SkipsTo(s, k - 1);
      var s1 := Run(s, Fails(k - 1));
      assert s1.process.resolving[0] == s.process.resolving[k - 1];
      assert s.process.resolving[k - 1..][1..] == s.process.resolving[k..];
      RunSnoc(s, Fails(k - 1), ResolveNext(LookupFailed));
    }
  }

  /** The late "not found" moves a trade that the sweep has skipped. */
  lemma LateAnswerMovesSkipped(s: Sys, i: nat)
    requires RowsExist(s, i) && s.db.trades[s.db.attempts[i].trade].status == Skipped
    ensures !IsTrail(RecordLiveOutcome(s.db, s.clock, i, NoOrder, OrderNotFound, true).audit)
  {
    var db' := RecordLiveOutcome(s.db, s.clock, i, NoOrder, OrderNotFound, true);
    var t := s.db.attempts[i].trade;
    AppendAudit(s.db.audit, AuditRow(t, Skipped, db'.trades[t].status));
    assert db'.audit == s.db.audit + [AuditRow(t, Skipped, db'.trades[t].status)];
  }

  /** Recovery ends, the sweep skips the trade, the orphan grows old enough for the resolver. */
  function Sweeping(t: nat): seq<Event> { [RecoverFinish, ExpireTrade(t), Advance(PENDING_LIVE_MIN_AGE_MS), ResolveStart] }

  lemma SweptAndListed(s: Sys, i: nat)
    requires BeforeFinish(s) && Orphan(s, i)
    ensures var es := Sweeping(s.db.attempts[i].trade);
            && Possible(s, es)
            && var s' := Run(s, es);
            && s'.process.Up? && i in s'.process.resolving && s'.ex == s.ex && RowsExist(s', i)
            && s'.db.attempts[i] == s.db.attempts[i] && s'.db.trades[s.db.attempts[i].trade].status == Skipped
            && forall j :: 0 <= j < |s'.process.resolving| ==> RowsExist(s', s'.process.resolving[j])
  {
    var t := s.db.attempts[i].trade;
    OrphanStays(s, i);
    var s1 := Step(s, RecoverFinish);
    var s2 := Step(s1, ExpireTrade(t));
    var s3 := Step(s2, Advance(PENDING_LIVE_MIN_AGE_MS));
    PendingLiveMeaning(s3.db, {}, s3.clock, PENDING_LIVE_MIN_AGE_MS, |s3.db.attempts|);
    var s4 := Step(s3, ResolveStart);
    assert IsPendingLive(s3.db, i) && s.db.attempts[i].at <= s.clock;
    forall j | 0 <= j < |s4.process.resolving|
      ensures RowsExist(s4, s4.process.resolving[j])
    {
      var k := s4.process.resolving[j];
      assert k in s4.process.resolving;
      assert AttemptOk(s.db, k);
    }
    RunFour(s, RecoverFinish, ExpireTrade(t), Advance(PENDING_LIVE_MIN_AGE_MS), ResolveStart);
  }

  lemma RunFour(s: Sys, a: Event, b: Event, c: Event, d: Event)
    requires Enabled(s, a) && Enabled(Step(s, a), b) && Enabled(Step(Step(s, a), b), c) && Enabled(Step(Step(Step(s, a), b), c), d)
    ensures Possible(s, [a, b, c, d]) && Run(s, [a, b, c, d]) == Step(Step(Step(Step(s, a), b), c), d)
  {
    RunSnoc(s, [], a);
    assert [] + [a] == [a];
    RunSnoc(s, [a], b);
    assert [a] + [b] == [a, b];
    RunSnoc(s, [a, b], c);
    assert [a, b] + [c] == [a, b, c];
    RunSnoc(s, [a, b, c], d);
    assert [a, b, c] + [d] == [a, b, c, d];
  }

  /** From every state with an orphan, a run that satisfies every assumption moves a skipped trade. */
  lemma OrphanBreaksTrail(s: Sys, i: nat) returns (es: seq<Event>)
    requires BeforeFinish(s) && Orphan(s, i)
    ensures Possible(s, es) && LooksUpThroughout(s, es) && !IsTrail(Run(s, es).db.audit)
  {
    var sweep := Sweeping(s.db.attempts[i].trade);
    SweptAndListed(s, i);
    OrphanIsUnsent(s, i);
    var s1 := Run(s, sweep);
    var k :| 0 <= k < |s1.process.resolving| && s1.process.resolving[k] == i;
    SkipsTo(s1, k);
    FailsAre(k);
    RunConcat(s, sweep, Fails(k));
    var s2 := Run(s1, Fails(k));
    assert s2.process.resolving[0] == i;
    LateAnswerMovesSkipped(s2, i);
    es := sweep + Fails(k) + [ResolveNext(LookupNotFound)];
    RunSnoc(s, sweep + Fails(k), ResolveNext(LookupNotFound));
    NoneFailsLooksUp(s, es);
  }

  // ---- safety exactly without orphans -------------------------------------------------------------------

  ghost predicate NeverTwice(s: Sys) {
    forall i: nat, j: nat :: Bought(s, i) && Bought(s, j) && s.db.attempts[i].trade == s.db.attempts[j].trade ==> i == j
  }

  /** If the run can happen and its recoveries look everything up, no trade is bought twice and the audit trail is a
      path of the lifecycle. */
  ghost predicate SafeAlong(s: Sys, es: seq<Event>) {
    Possible(s, es) && LooksUpThroughout(s, es) ==> NeverTwice(Run(s, es)) && IsTrail(Run(s, es).db.audit)
  }

  lemma {:induction false} AuditedRun(s: Sys, es: seq<Event>)
    requires Inv(s) && AuditOk(s.db) && Possible(s, es) && LooksUpThroughout(s, es)
    ensures Inv(Run(s, es)) && AuditOk(Run(s, es).db)
    decreases |es|
  {
    if es != [] {
      StepKeeps(s, es[0]);
      StepAudits(s, es[0]);
      AuditedRun(Step(s, es[0]), es[1..]);
    }
  }

  /** The third assumption is exactly what is needed: from a state just before recovery ends, every run is safe if
      and only if no failed look-up has left an orphan. */
  lemma SafeExactlyWithoutOrphans(s: Sys)
    requires BeforeFinish(s) && AuditOk(s.db)
    ensures (forall es :: SafeAlong(s, es)) <==> forall i: nat :: !Orphan(s, i)
  {
    NoOrphanIsTodoOk(s);
    if forall i: nat :: !Orphan(s, i) {
      forall es
        ensures SafeAlong(s, es)
      {
        if Possible(s, es) && LooksUpThroughout(s, es) {
          AuditedRun(s, es);
          OneBoughtRow(Run(s, es));
        }
      }
    } else {
      var i: nat :| Orphan(s, i);
      var es := OrphanBreaksTrail(s, i);
      assert !SafeAlong(s, es);
    }
  }

  lemma OneBoughtRow(s: Sys)
    requires Inv(s)
    ensures NeverTwice(s)
  {
    forall i: nat, j: nat | Bought(s, i) && Bought(s, j) && s.db.attempts[i].trade == s.db.attempts[j].trade
      ensures i == j
    {
      assert OrderOk(s.db, s.ex, i) && OrderOk(s.db, s.ex, j);
      assert AttemptOk(s.db, i) && AttemptOk(s.db, j);
      LastIsUnique(s.db, i, j);
    }
  }

  // ---- a recovery in which the exchange answers every look-up -------------------------------------------

  /** Recovery works off its list; of the trade `t` only attempt `i` is on it, and nothing was sent for it. */
  ghost predicate WorksOff(s: Sys, t: nat, i: nat) {
    && s.process.Recovering? && Distinct(s.process.todo)
    && t < |s.db.trades| && s.db.trades[t].windowEnds > s.clock
    && (forall k :: 0 <= k < |s.process.todo| ==> OnList(s, t, i, s.process.todo[k]))
    && (forall j: nat :: IsPendingLive(s.db, j) ==> j in s.process.todo)
    && (i !in s.process.todo ==> s.db.trades[t].status == Waiting)
  }

  predicate OnList(s: Sys, t: nat, i: nat, j: nat) {
    && IsPendingLive(s.db, j) && s.db.attempts[j].trade < |s.db.trades|
    && (s.db.attempts[j].trade == t <==> j == i) && (j == i ==> i !in s.ex.orders)
  }

  /** What a recovery leaves alone: the clock, the orders, the row `m`, and what the trade signalled. */
  predicate Leaves(s: Sys, s': Sys, t: nat, m: nat) {
    && s'.clock == s.clock && s'.ex.orders == s.ex.orders && (forall j :: j in s'.ex.inflight ==> j in s.ex.inflight)
    && m < |s.db.attempts| == |s'.db.attempts| && s'.db.attempts[m] == s.db.attempts[m]
    && t < |s.db.trades| == |s'.db.trades| && SameSignal(s.db.trades[t], s'.db.trades[t])
  }

  function TrueAnswer(s: Sys): Lookup
    requires s.process.Recovering? && s.process.todo != []
  {
    if s.process.todo[0] in s.ex.orders then LookupFound else LookupNotFound
  }

  /** Recording an outcome closes the attempt, touches only its own trade, and puts a missing order's trade back to
      waiting while its window is open. */
  lemma RecordLeaves(db: Db, now: int, i: nat, outcome: Outcome, notFound: Reason)
    requires i < |db.attempts| && db.attempts[i].trade < |db.trades|
    ensures var db', t := RecordLiveOutcome(db, now, i, outcome, notFound, true), db.attempts[i].trade;
            && |db'.attempts| == |db.attempts| && |db'.trades| == |db.trades|
            && (forall j :: 0 <= j < |db.attempts| && j != i ==> db'.attempts[j] == db.attempts[j])
            && (forall u :: 0 <= u < |db.trades| && u != t ==> db'.trades[u] == db.trades[u])
            && db'.attempts[i].trade == t && db'.attempts[i].status != AttemptPending
            && SameSignal(db.trades[t], db'.trades[t])
            && (outcome == NoOrder && db.trades[t].windowEnds > now ==> db'.trades[t].status == Waiting)
  {
  }

  lemma LooksUpOne(s: Sys, t: nat, i: nat, m: nat)
    requires WorksOff(s, t, i) && s.process.todo != [] && m < |s.db.attempts| && !IsPendingLive(s.db, m)
    ensures var e := RecoverLookup(TrueAnswer(s));
            && Enabled(s, e) && WorksOff(Step(s, e), t, i) && Leaves(s, Step(s, e), t, m)
            && Step(s, e).process.todo == s.process.todo[1..] && !IsPendingLive(Step(s, e).db, m)
  {
    var j := s.process.todo[0];
    assert OnList(s, t, i, j);
    var answer := TrueAnswer(s);
    var outcome := if answer.LookupFound? then OutcomeFromOrder(s.ex.orders[j]) else NoOrder;
    RecordLeaves(s.db, s.clock, j, outcome, RestartNoOrder);
    TailDistinct(s.process.todo);
    OthersStayOnList(s, t, i);
  }

  lemma OthersStayOnList(s: Sys, t: nat, i: nat)
    requires WorksOff(s, t, i) && s.process.todo != []
    requires var e := RecoverLookup(TrueAnswer(s)); Enabled(s, e)
    ensures var s' := Step(s, RecoverLookup(TrueAnswer(s)));
            && (forall k :: 0 <= k < |s'.process.todo| ==> OnList(s', t, i, s'.process.todo[k]))
            && (forall j: nat :: IsPendingLive(s'.db, j) ==> j in s'.process.todo)
  {
    var s' := Step(s, RecoverLookup(TrueAnswer(s)));
    var todo := s.process.todo;
    var j0 := todo[0];
    assert OnList(s, t, i, j0);
    var outcome := if TrueAnswer(s).LookupFound? then OutcomeFromOrder(s.ex.orders[j0]) else NoOrder;
    RecordLeaves(s.db, s.clock, j0, outcome, RestartNoOrder);
    TailDistinct(todo);
    forall k | 0 <= k < |s'.process.todo|
      ensures OnList(s', t, i, s'.process.todo[k])
    {
      assert OnList(s, t, i, todo[k + 1]);
      assert todo[k + 1] in todo[1..];
    }
    forall j: nat | IsPendingLive(s'.db, j)
      ensures j in s'.process.todo
    {
      assert IsPendingLive(s.db, j) && j != j0;
      assert todo == [j0] + todo[1..];
    }
  }

  /** Nothing is pending any more, and the trade waits. */
  ghost predicate CleanlyWaiting(s: Sys, t: nat) {
    && s.process == Up([], {}, None, [], []) && t < |s.db.trades| && s.db.trades[t].status == Waiting
    && forall j: nat :: !IsPendingLive(s.db, j)
  }

  lemma FinishesCleanly(s: Sys, t: nat, i: nat, m: nat)
    requires WorksOff(s, t, i) && s.process.todo == [] && m < |s.db.attempts| && s.db.attempts[m].status != AttemptPending
    ensures var s' := Step(s, RecoverFinish);
            Enabled(s, RecoverFinish) && CleanlyWaiting(s', t) && Leaves(s, s', t, m)
  {
    forall j: nat
      ensures !IsPendingLive(Step(s, RecoverFinish).db, j)
    {
      assert !IsPendingLive(s.db, j);
    }
    if Unresolved(s.db, t) {
      var j :| 0 <= j < |s.db.attempts| && s.db.attempts[j].trade == t && s.db.attempts[j].status == AttemptPending && s.db.attempts[j].mode == Live;
      assert IsPendingLive(s.db, j);
    }
  }

  lemma {:induction false} WorksToTheEnd(s: Sys, t: nat, i: nat, m: nat) returns (es: seq<Event>)
    requires WorksOff(s, t, i) && m < |s.db.attempts| && s.db.attempts[m].status != AttemptPending
    ensures Possible(s, es) && NoneFails(es) && CleanlyWaiting(Run(s, es), t) && Leaves(s, Run(s, es), t, m)
    decreases |s.process.todo|
  {
    if s.process.todo == [] {
      FinishesCleanly(s, t, i, m);
      es := [RecoverFinish];
      RunSnoc(s, [], RecoverFinish);
      assert [] + [RecoverFinish] == es;
    } else {
      var e := RecoverLookup(TrueAnswer(s));
      LooksUpOne(s, t, i, m);
      var rest := WorksToTheEnd(Step(s, e), t, i, m);
      es := [e] + rest;
      RunCons(s, e, rest);
    }
  }

  // ---- an orphan's trade is bought twice ----------------------------------------------------------------

  /** The orphan's trade waits in an open window, and at recovery's end some read lets it buy. */
  predicate CanBuyAgain(s: Sys, i: nat, d: MarketRead)
    requires Enabled(s, RecoverFinish)
  {
    && Orphan(s, i) && s.db.trades[s.db.attempts[i].trade].status == Waiting
    && s.db.trades[s.db.attempts[i].trade].windowEnds > s.clock
    && LetsBuy(Step(s, RecoverFinish), s.db.attempts[i].trade, d)
  }

  /** A tick retries the only work of an idle process. */
  lemma Retries(s: Sys, t: nat)
    requires s.process == Up([], {}, None, [], []) && t < |s.db.trades| && s.db.trades[t].status == Waiting
    ensures Enabled(s, Retry(t)) && AtHead(Step(s, Retry(t)), t) && Step(s, Retry(t)).process == Up([t], {t}, None, [], [])
  {
    assert [] + [t] == [t] && {} + {t} == {t};
  }

  lemma RetryAndBuy(s: Sys, t: nat, d: MarketRead, o: Order)
    requires s.process == Up([], {}, None, [], []) && t < |s.db.trades| && s.db.trades[t].status == Waiting
    requires LetsBuy(s, t, d) && Fills(o, TermsNow(s, t, d))
    ensures var es := [Retry(t)] + BuyEvents(|s.db.attempts|, d, o);
            && Possible(s, es) && BoughtBy(Step(s, Retry(t)), t, o, Run(s, es)) && Run(s, es).process == Up([], {}, None, [], [])
  {
    Retries(s, t);
    var s1 := Step(s, Retry(t));
    assert ReadNow(s1, t, d) == ReadNow(s, t, d);
    Buys(s1, t, d, o);
    RunCons(s, Retry(t), BuyEvents(|s.db.attempts|, d, o));
    assert [t][1..] == [] && {t} - {t} == {};
  }

  /** After the first purchase and a crash, the orphan is on the list of the next recovery, alone of its trade. */
  lemma OrphanIsListedAgain(s: Sys, i: nat, o: Order, s2: Sys)
    requires BeforeFinish(s) && Orphan(s, i) && s.db.trades[s.db.attempts[i].trade].windowEnds > s.clock
    requires var s1, t := Step(s, RecoverFinish), s.db.attempts[i].trade;
             Enabled(s1, Retry(t)) && Step(s1, Retry(t)).process == Up([t], {t}, None, [], []) && BoughtBy(Step(s1, Retry(t)), t, o, s2)
    ensures Enabled(s2, Crash) && Enabled(Step(s2, Crash), Start)
    ensures WorksOff(Step(Step(s2, Crash), Start), s.db.attempts[i].trade, i)
  {
    var t, n := s.db.attempts[i].trade, |s.db.attempts|;
    OrphanStays(s, i);
    OrphanIsUnsent(s, i);
    PendingLiveMeaning(s2.db, {}, s2.clock, 0, |s2.db.attempts|);
    var s3 := Step(Step(s2, Crash), Start);
    forall j: nat | IsPendingLive(s2.db, j)
      ensures OnList(s2, t, i, j) && j in s3.process.todo
    {
      PendingAfterBuy(s, i, o, s2, j);
    }
    assert IsPendingLive(s2.db, i);
    forall k | 0 <= k < |s3.process.todo|
      ensures OnList(s3, t, i, s3.process.todo[k])
    {
      assert s3.process.todo[k] in s3.process.todo;
      assert OnList(s2, t, i, s3.process.todo[k]);
    }
  }

  lemma PendingAfterBuy(s: Sys, i: nat, o: Order, s2: Sys, j: nat)
    requires BeforeFinish(s) && Orphan(s, i)
    requires var s1, t := Step(s, RecoverFinish), s.db.attempts[i].trade;
             Enabled(s1, Retry(t)) && s1.process == Up([], {}, None, [], []) && Step(s1, Retry(t)).process == Up([t], {t}, None, [], [])
             && BoughtBy(Step(s1, Retry(t)), t, o, s2)
    requires IsPendingLive(s2.db, j)
    ensures j < |s.db.attempts| && IsPendingLive(s.db, j) && s2.db.attempts[j] == s.db.attempts[j]
    ensures OnList(s2, s.db.attempts[i].trade, i, j) && s2.db.attempts[j].at <= s2.clock
  {
    var n := |s.db.attempts|;
    OrphanStays(s, i);
    OrphanIsUnsent(s, i);
    assert j < n && s2.db.attempts[..n][j] == s2.db.attempts[j];
    assert AttemptOk(s.db, j) && AttemptOk(s.db, i);
    if s.db.attempts[j].trade == s.db.attempts[i].trade { LastIsUnique(s.db, i, j); }
  }

  /** The trade waits again although row `n` has bought it. */
  ghost predicate Reopened(s: Sys, s': Sys, t: nat, o: Order) {
    var n := |s.db.attempts|;
    && CleanlyWaiting(s', t) && s'.clock == s.clock && t < |s.db.trades| && SameSignal(s.db.trades[t], s'.db.trades[t])
    && |s'.db.attempts| == n + 1 && s'.db.attempts[n].trade == t && s'.ex.orders == s.ex.orders[n := o]
  }

  /** The rows `n` and `n + 1` of the trade both have an order that filled. */
  predicate TwoOrdersFilled(s: Sys, t: nat, n: nat) {
    && n + 1 < |s.db.attempts| && s.db.attempts[n].trade == t && s.db.attempts[n + 1].trade == t
    && n in s.ex.orders && s.ex.orders[n].fillCc > 0 && n + 1 in s.ex.orders && s.ex.orders[n + 1].fillCc > 0
  }

  /** The first purchase, and the recovery that follows a crash. */
  lemma BuysAndReopens(s: Sys, i: nat, d: MarketRead, o: Order) returns (es: seq<Event>)
    requires BeforeFinish(s) && CanBuyAgain(s, i, d) && Fills(o, TermsNow(Step(s, RecoverFinish), s.db.attempts[i].trade, d))
    ensures Possible(s, es) && NoneFails(es)
    ensures Reopened(s, Run(s, es), s.db.attempts[i].trade, o)
  {
    var t, n := s.db.attempts[i].trade, |s.db.attempts|;
    OrphanStays(s, i);
    var first := FirstPurchase(s, i, d, o);
    var s2 := Run(s, first);
    OrphanIsListedAgain(s, i, o, s2);
    var s3 := Step(Step(s2, Crash), Start);
    var rest := WorksToTheEnd(s3, t, i, n);
    CrashAndGoOn(s, first, rest);
    es := first + [Crash, Start] + rest;
    NoneFailsJoin(first, rest);
    IsReopened(s, i, o, s2, Run(s3, rest));
  }

  lemma NoneFailsJoin(first: seq<Event>, rest: seq<Event>)
    requires NoneFails(first) && NoneFails(rest)
    ensures NoneFails(first + [Crash, Start] + rest)
  {
  }

  lemma IsReopened(s: Sys, i: nat, o: Order, s2: Sys, s4: Sys)
    requires BeforeFinish(s) && Orphan(s, i)
    requires var s1, t := Step(s, RecoverFinish), s.db.attempts[i].trade;
             Enabled(s1, Retry(t)) && Step(s1, Retry(t)).process == Up([t], {t}, None, [], []) && BoughtBy(Step(s1, Retry(t)), t, o, s2)
    requires Enabled(s2, Crash) && Enabled(Step(s2, Crash), Start)
    requires var t := s.db.attempts[i].trade;
             CleanlyWaiting(s4, t) && Leaves(Step(Step(s2, Crash), Start), s4, t, |s.db.attempts|)
    ensures Reopened(s, s4, s.db.attempts[i].trade, o)
  {
    OrphanStays(s, i);
  }

  lemma CrashAndGoOn(s: Sys, first: seq<Event>, rest: seq<Event>)
    requires Possible(s, first) && Enabled(Run(s, first), Crash) && Enabled(Step(Run(s, first), Crash), Start)
    requires Possible(Step(Step(Run(s, first), Crash), Start), rest)
    ensures Possible(s, first + [Crash, Start] + rest)
    ensures Run(s, first + [Crash, Start] + rest) == Run(Step(Step(Run(s, first), Crash), Start), rest)
  {
    RunSnoc(s, first, Crash);
    RunSnoc(s, first + [Crash], Start);
    assert first + [Crash] + [Start] == first + [Crash, Start];
    RunConcat(s, first + [Crash, Start], rest);
  }

  lemma FirstPurchase(s: Sys, i: nat, d: MarketRead, o: Order) returns (es: seq<Event>)
    requires BeforeFinish(s) && CanBuyAgain(s, i, d) && Fills(o, TermsNow(Step(s, RecoverFinish), s.db.attempts[i].trade, d))
    ensures Possible(s, es) && NoneFails(es)
    ensures var s1, t := Step(s, RecoverFinish), s.db.attempts[i].trade;
            && s1.process == Up([], {}, None, [], [])
            && Enabled(s1, Retry(t)) && Step(s1, Retry(t)).process == Up([t], {t}, None, [], []) && BoughtBy(Step(s1, Retry(t)), t, o, Run(s, es))
  {
    var t := s.db.attempts[i].trade;
    OrphanStays(s, i);
    var s1 := Step(s, RecoverFinish);
    var buy := [Retry(t)] + BuyEvents(|s.db.attempts|, d, o);
    Retries(s1, t);
    RetryAndBuy(s1, t, d, o);
    RunCons(s, RecoverFinish, buy);
    es := [RecoverFinish] + buy;
  }

  /** One more purchase: the row `n` of the trade, filled before, and the new one are both bought. */
  lemma BuysAgain(s: Sys, t: nat, n: nat, d: MarketRead, o: Order)
    requires s.process == Up([], {}, None, [], []) && t < |s.db.trades| && s.db.trades[t].status == Waiting
    requires LetsBuy(s, t, d) && Fills(o, TermsNow(s, t, d)) && |s.db.attempts| == n + 1 && s.db.attempts[n].trade == t
    requires n in s.ex.orders && s.ex.orders[n].fillCc > 0
    ensures var es := [Retry(t)] + BuyEvents(n + 1, d, o);
            Possible(s, es) && TwoOrdersFilled(Run(s, es), t, n)
  {
    RetryAndBuy(s, t, d, o);
    var s' := Run(s, [Retry(t)] + BuyEvents(n + 1, d, o));
    assert s'.db.attempts[..n + 1][n] == s'.db.attempts[n];
  }

  lemma NoFailuresIn(es: seq<Event>, t: nat, n: nat, d: MarketRead, o: Order)
    requires NoneFails(es)
    ensures NoneFails(es + ([Retry(t)] + BuyEvents(n, d, o)))
  {
  }

  /** From every state just before recovery ends in which an orphan's trade waits in an open window and some read
      lets it buy, a run that satisfies every assumption fills two orders of the trade: it is retried and buys, the
      process dies, the next recovery learns that the orphan has no order and takes the filled trade back to waiting,
      and it is retried and buys again. */
  lemma OrphanBuysTwice(s: Sys, i: nat, d: MarketRead, o: Order) returns (es: seq<Event>)
    requires BeforeFinish(s) && CanBuyAgain(s, i, d) && Fills(o, TermsNow(Step(s, RecoverFinish), s.db.attempts[i].trade, d))
    ensures Possible(s, es) && LooksUpThroughout(s, es) && TwoOrdersFilled(Run(s, es), s.db.attempts[i].trade, |s.db.attempts|)
  {
    var t, n := s.db.attempts[i].trade, |s.db.attempts|;
    OrphanStays(s, i);
    var first := BuysAndReopens(s, i, d, o);
    var s1, s2 := Step(s, RecoverFinish), Run(s, first);
    AdjustedLetsBuy(s1, s2, t, d);
    var d2 := Adjusted(s1, s2, d);
    BuysAgain(s2, t, n, d2, o);
    var again := [Retry(t)] + BuyEvents(n + 1, d2, o);
    es := first + again;
    RunConcat(s, first, again);
    NoFailuresIn(first, t, n + 1, d2, o);
    NoneFailsLooksUp(s, es);
  }

  // ---- such a state is reached --------------------------------------------------------------------------

  const VERSION := Version(
    LeadRule(1, 80, 5, None, None, false), Execution(9_900, None, 0, 0, 15), Sizing(10_000, 0, 500_000))

  const SIGNAL := Signal(0, 0, Home, Some(0), VERSION, 600_000, Live)

  const NOW := 30_000

  const READ := MarketRead(MarketView(Some("active"), None), true, Some(NOW), false, [AskLevel(5_000, 100)], [], 500_000, Runs(Live))

  const ORDER := Order(Sent(5_000, 100), 100, Some(5_000), 0, None, None, None)

  predicate Leads(s: Sys, e: Event, s': Sys) {
    Enabled(s, e) && Step(s, e) == s'
  }

  /** The states a run passes through. */
  predicate Passes(states: seq<Sys>, es: seq<Event>) {
    |states| == |es| + 1 && forall k :: 0 <= k < |es| ==> Leads(states[k], es[k], states[k + 1])
  }

  lemma {:induction false} PassesRuns(states: seq<Sys>, es: seq<Event>)
    requires Passes(states, es)
    ensures Possible(states[0], es) && Run(states[0], es) == states[|es|]
    decreases |es|
  {
    if es != [] {
      assert Leads(states[0], es[0], states[1]);
      PassesRuns(states[1..], es[1..]);
      assert [es[0]] + es[1..] == es;
      RunCons(states[0], es[0], es[1..]);
    }
  }

  const NOTHING := Exchange(map[], map[])

  const IDLE := Up([], {}, None, [], [])

  function TradeOf(status: Status, reason: Option<Reason>, attempts: nat): Trade {
    Trade(0, 0, Home, Some(0), VERSION, 600_000, Live, status, reason, false, attempts, None, None, None)
  }

  const FAILED_ATTEMPT := Attempt(0, 1, 0, Live, AttemptError, Some(ErrorReason), None, None, None)

  const ORPHAN := Attempt(0, 2, 0, Live, AttemptPending, None, None, None, None)

  function State(trades: seq<Trade>, attempts: seq<Attempt>, audit: seq<AuditRow>, process: Process): Sys {
    Sys(Db(trades, attempts, 0, [], audit), NOTHING, 0, process)
  }

  const MOVED := [AuditRow(0, Signalled, Waiting)]

  /** A first live attempt cannot read the market. */
  const FAILING: seq<Event> :=
    [Start, RecoverFinish, OnSignal(SIGNAL), BeginNext(Runs(Live), true), ReadDone(None), CloseAttemptRow, CloseTradeRow]

  /** The process dies during the second one, and at start-up its lookup fails. */
  const ORPHANING: seq<Event> :=
    [Retry(0), BeginNext(Runs(Live), true), Crash, Advance(NOW), Start, RecoverLookup(LookupFailed)]

  const WAITING_ONCE := State([TradeOf(Waiting, Some(ErrorReason), 1)], [FAILED_ATTEMPT], MOVED, IDLE)

  /** The trade waits; its second attempt is pending although no order was ever sent for it. */
  const ORPHANED := State([TradeOf(Waiting, Some(ErrorReason), 2)], [FAILED_ATTEMPT, ORPHAN], MOVED, IDLE).(clock := NOW)

  const BOOTED := State([], [], [], IDLE)

  const SIGNALLED := State([TradeOf(Signalled, None, 0)], [], [], Up([0], {0}, None, [], []))

  function Attempting(attempt: Attempt, pc: Pc): Sys {
    State([TradeOf(Signalled, None, 1)], [attempt], [], Up([], {0}, Some(Running(0, 0, Some(Live), pc)), [], []))
  }

  const BEGUN := FAILED_ATTEMPT.(status := AttemptPending, reason := None)

  lemma BootsAndSignals()
    ensures Passes([Boot0(0, 0), State([], [], [], Recovering([])), BOOTED, SIGNALLED], [Start, RecoverFinish, OnSignal(SIGNAL)])
  {
    assert Leads(Boot0(0, 0), Start, State([], [], [], Recovering([])));
    assert Leads(State([], [], [], Recovering([])), RecoverFinish, BOOTED);
    var s := Step(BOOTED, OnSignal(SIGNAL));
    assert s.db.trades == SIGNALLED.db.trades && s.process == SIGNALLED.process;
  }

  lemma BeginsAndFails()
    ensures Leads(SIGNALLED, BeginNext(Runs(Live), true), Attempting(BEGUN, Reading))
    ensures Leads(Attempting(BEGUN, Reading), ReadDone(None), Attempting(BEGUN, Closing(AttemptError, ErrorReason, None, None)))
  {
    var s := Step(SIGNALLED, BeginNext(Runs(Live), true));
    assert s.db.attempts == [BEGUN] && s.process.queue == [];
    assert s.db.trades == [TradeOf(Signalled, None, 1)];
  }

  lemma FinishesAttempt()
    ensures var closing, closed := Attempting(BEGUN, Closing(AttemptError, ErrorReason, None, None)), Attempting(FAILED_ATTEMPT, Closed(AttemptError, ErrorReason));
            Leads(closing, CloseAttemptRow, closed) && Leads(closed, CloseTradeRow, WAITING_ONCE)
  {
    var closed := Attempting(FAILED_ATTEMPT, Closed(AttemptError, ErrorReason));
    var s := Step(closed, CloseTradeRow);
    assert s.db.trades == WAITING_ONCE.db.trades && s.db.audit == WAITING_ONCE.db.audit;
    assert s.process == IDLE by { assert {0} - {0} == {}; }
  }

  lemma AttemptFails()
    ensures Possible(Boot0(0, 0), FAILING) && Run(Boot0(0, 0), FAILING) == WAITING_ONCE
  {
    var first := [Start, RecoverFinish, OnSignal(SIGNAL)];
    var second := [BeginNext(Runs(Live), true), ReadDone(None), CloseAttemptRow, CloseTradeRow];
    BootsAndSignals();
    PassesRuns([Boot0(0, 0), State([], [], [], Recovering([])), BOOTED, SIGNALLED], first);
    BeginsAndFails();
    FinishesAttempt();
    PassesRuns([SIGNALLED, Attempting(BEGUN, Reading), Attempting(BEGUN, Closing(AttemptError, ErrorReason, None, None)),
                Attempting(FAILED_ATTEMPT, Closed(AttemptError, ErrorReason)), WAITING_ONCE], second);
    RunConcat(Boot0(0, 0), first, second);
    assert FAILING == first + second;
  }

  function Orphaning(clock: int, process: Process): Sys {
    ORPHANED.(clock := clock, process := process)
  }

  lemma BeginsAgainAndDies()
    ensures var queued := WAITING_ONCE.(process := Up([0], {0}, None, [], []));
            var reading := Orphaning(0, Up([], {0}, Some(Running(0, 1, Some(Live), Reading)), [], []));
            Leads(WAITING_ONCE, Retry(0), queued) && Leads(queued, BeginNext(Runs(Live), true), reading) && Leads(reading, Crash, Orphaning(0, Down))
  {
    var queued := WAITING_ONCE.(process := Up([0], {0}, None, [], []));
    assert Step(WAITING_ONCE, Retry(0)).process == queued.process by { assert [] + [0] == [0]; assert {} + {0} == {0}; }
    var s := Step(queued, BeginNext(Runs(Live), true));
    assert s.db.attempts == [FAILED_ATTEMPT, ORPHAN] && s.process.queue == [];
    assert s.db.trades == [TradeOf(Waiting, Some(ErrorReason), 2)];
  }

  lemma StartsWithoutLookup()
    ensures Leads(Orphaning(0, Down), Advance(NOW), Orphaning(NOW, Down)) && Leads(Orphaning(NOW, Down), Start, Orphaning(NOW, Recovering([1])))
    ensures Leads(Orphaning(NOW, Recovering([1])), RecoverLookup(LookupFailed), Orphaning(NOW, Recovering([])))
  {
    var db := ORPHANED.db;
    assert PendingLive(db, {}, NOW, 0, 0) == [] && PendingLive(db, {}, NOW, 0, 1) == [] && PendingLive(db, {}, NOW, 0, 2) == [1];
    assert [1][1..] == [];
  }

  lemma LookupFailsOnOrphan()
    ensures Possible(WAITING_ONCE, ORPHANING) && Run(WAITING_ONCE, ORPHANING) == Orphaning(NOW, Recovering([]))
  {
    BeginsAgainAndDies();
    StartsWithoutLookup();
    PassesRuns([WAITING_ONCE, WAITING_ONCE.(process := Up([0], {0}, None, [], [])),
                Orphaning(0, Up([], {0}, Some(Running(0, 1, Some(Live), Reading)), [], [])), Orphaning(0, Down), Orphaning(NOW, Down),
                Orphaning(NOW, Recovering([1])), Orphaning(NOW, Recovering([]))], ORPHANING);
  }

  /** Pending rows without a limit tie up no cash. */
  lemma {:induction false} CostsNothing(attempts: seq<Attempt>, except: int)
    requires forall i :: 0 <= i < |attempts| ==> attempts[i].status != AttemptPending || attempts[i].limitBp.None?
    ensures PendingLiveCost(attempts, except) == 0
  {
    if attempts != [] {
      CostsNothing(attempts[..|attempts| - 1], except);
    }
  }

  lemma EntryAccepts(db: Db, row: Trade, attempt: nat)
    requires row.version == VERSION && PendingLiveCost(db.attempts, attempt) == 0
    ensures AfterReads(db, NOW, row, Live, attempt, Some(READ)) == AwaitingGroup(Terms(500_000, 500_000, 5_000, 100), 500_000)
  {
    var i := EntryOf(db, NOW, row, Live, attempt, READ);
    assert i.asks[..0] == [];
    assert BestAsk(i.asks) == Some(5_000);
    assert LINEAR_CENT[..0] == [];
    assert SnapDownBp(5_000, i.ranges) == Some(5_000);
    assert DepthAtOrBelow(i.asks, 5_000) == 100;
    assert StakeMicros(i.balance, 10_000, 0, 500_000) == 500_000;
    assert ContractsFor(500_000, 5_000) == Some(1);
  }

  /** The state before recovery ends: all in order but for the orphan. */
  lemma OrphanState()
    ensures var s := Orphaning(NOW, Recovering([]));
            BeforeFinish(s) && CanBuyAgain(s, 1, READ) && Fills(ORDER, TermsNow(Step(s, RecoverFinish), 0, READ))
  {
    var s := Orphaning(NOW, Recovering([]));
    assert AttemptOk(s.db, 0) && AttemptOk(s.db, 1);
    assert TradeOk(s.db.trades[0]);
    OrphanStays(s, 1);
    var s1 := Step(s, RecoverFinish);
    assert s1.db.attempts[0] == FAILED_ATTEMPT;
    CostsNothing(s1.db.attempts, 2);
    EntryAccepts(s1.db, s1.db.trades[0], 2);
  }

  /** From a fresh database: a possible run, in which one failed look-up breaks the recovery assumption, that fills
      two orders of one trade. */
  lemma BuysTwice() returns (es: seq<Event>)
    ensures Possible(Boot0(0, 0), es) && TwoOrdersFilled(Run(Boot0(0, 0), es), 0, 2)
  {
    AttemptFails();
    LookupFailsOnOrphan();
    RunConcat(Boot0(0, 0), FAILING, ORPHANING);
    OrphanState();
    var rest := OrphanBuysTwice(Orphaning(NOW, Recovering([])), 1, READ, ORDER);
    RunConcat(Boot0(0, 0), FAILING + ORPHANING, rest);
    es := FAILING + ORPHANING + rest;
  }
}
