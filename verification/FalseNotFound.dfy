/** Why "not found" must be final. When the answer to an order request is lost, `resolveLiveByLookup` looks the order
    up, and a "not found" ends the attempt and lets the trade go on (app/src/core/executor.ts). If the exchange has the
    order after all, or takes it later, everything that can follow is safe exactly when that order does not fill. */
module FalseNotFound {
  import opened Pricing
  import opened Guards
  import opened Trades
  import opened Lifecycle
  import opened Invariant
  import opened Preservation
  import opened Ledger
  import opened Safety
  import opened Purchase
  import opened OrphanedAttempt
  import opened Repurchase

  /** A live attempt looks its order up. */
  predicate AwaitsLookup(s: Sys) { AttemptRuns(s) && s.process.running.value.pc.LookingUp? }

  /** What the executor does on "not found", whatever the exchange has or will have. */
  function Mistaken(s: Sys): Sys
    requires AwaitsLookup(s)
  {
    var row := s.db.attempts[s.process.running.value.attempt];
    s.(process := Goto(s.process, Closing(AttemptError, ErrorReason, row.limitBp, row.requestedCc)))
  }

  /** Where "not found" is true and final, this is the machine's step. */
  lemma MistakenIsStep(s: Sys)
    requires AwaitsLookup(s) && Unsent(s.ex, s.process.running.value.attempt)
    ensures Enabled(s, LookupDone(LookupNotFound)) && Step(s, LookupDone(LookupNotFound)) == Mistaken(s)
  {
    assert s.ex.inflight - {s.process.running.value.attempt} == s.ex.inflight;
  }

  /** The order that the exchange has of the row, or will take. */
  predicate Comes(ex: Exchange, i: nat, o: Order) {
    (i in ex.orders && ex.orders[i] == o) || (i in ex.inflight && ex.inflight[i] == o.sent)
  }

  /** If the run brings an order of the row, it is this one. */
  predicate Brings(es: seq<Event>, i: nat, o: Order) {
    forall k :: 0 <= k < |es| && es[k].ExchangeAccepts? && es[k].attempt == i ==> es[k].order == o
  }

  // ---- an order on its way that will not fill -----------------------------------------------------------

  function Without(s: Sys, i: nat): Sys { s.(ex := Forget(s.ex, i)) }

  function With(s: Sys, i: nat, o: Order): Sys { s.(ex := Exchange(s.ex.orders[i := o], s.ex.inflight - {i})) }

  /** The request of row `i` is still out although nobody waits for it; the rest is in order, whether the order
      comes or not. */
  ghost predicate Hanging(s: Sys, i: nat, o: Order) {
    && i in s.ex.inflight && i !in s.ex.orders && s.ex.inflight[i] == o.sent
    && Inv(Without(s, i)) && Inv(With(s, i, o)) && AuditOk(s.db)
  }

  /** The step asks the exchange about row `i`, or decides on it. */
  predicate Concerns(s: Sys, e: Event, i: nat)
    requires Enabled(s, e)
  {
    match e
    case RecoverLookup(answer) => s.process.todo[0] == i && !answer.LookupFailed?
    case ResolveNext(answer) => s.process.resolving[0] == i && !answer.LookupFailed?
    case CreateDone(a) => s.process.running.value.attempt == i && !a.OutcomeUnknown?
    case LookupDone(answer) => s.process.running.value.attempt == i && !answer.LookupFailed?
    case GroupDone(found) => s.process.running.value.attempt == i && found
    case ExchangeAccepts(j, _) => j == i
    case _ => false
  }

  predicate Resolves(e: Event) { e.RecoverLookup? || e.ResolveNext? }

  predicate Answers(e: Event) { e.CreateDone? || e.LookupDone? }

  /** Any other step goes the same way without the request, and with its order. */
  lemma StepWithout(s: Sys, e: Event, i: nat)
    requires Enabled(s, e) && !Concerns(s, e, i)
    ensures Enabled(Without(s, i), e) && Step(Without(s, i), e) == Without(Step(s, e), i)
  {
    if Resolves(e) { ResolvesWithout(s, e, i); } else if Answers(e) { AnswersWithout(s, e, i); }
  }

  lemma ResolvesWithout(s: Sys, e: Event, i: nat)
    requires Enabled(s, e) && !Concerns(s, e, i) && Resolves(e)
    ensures Enabled(Without(s, i), e) && Step(Without(s, i), e) == Without(Step(s, e), i)
  {
  }

  lemma AnswersWithout(s: Sys, e: Event, i: nat)
    requires Enabled(s, e) && !Concerns(s, e, i) && Answers(e)
    ensures Enabled(Without(s, i), e) && Step(Without(s, i), e) == Without(Step(s, e), i)
  {
  }

  lemma StepWith(s: Sys, e: Event, i: nat, o: Order)
    requires Enabled(s, e) && !Concerns(s, e, i) && i !in s.ex.orders
    ensures Enabled(With(s, i, o), e) && Step(With(s, i, o), e) == With(Step(s, e), i, o)
  {
    if Resolves(e) { ResolvesWith(s, e, i, o); } else if Answers(e) { AnswersWith(s, e, i, o); }
  }

  lemma ResolvesWith(s: Sys, e: Event, i: nat, o: Order)
    requires Enabled(s, e) && !Concerns(s, e, i) && i !in s.ex.orders && Resolves(e)
    ensures Enabled(With(s, i, o), e) && Step(With(s, i, o), e) == With(Step(s, e), i, o)
  {
  }

  lemma AnswersWith(s: Sys, e: Event, i: nat, o: Order)
    requires Enabled(s, e) && !Concerns(s, e, i) && i !in s.ex.orders && Answers(e)
    ensures Enabled(With(s, i, o), e) && Step(With(s, i, o), e) == With(Step(s, e), i, o)
  {
  }

  lemma RequestStays(s: Sys, e: Event, i: nat)
    requires Enabled(s, e) && !Concerns(s, e, i)
    ensures i in Step(s, e).ex.inflight <==> i in s.ex.inflight
    ensures i in s.ex.inflight ==> Step(s, e).ex.inflight[i] == s.ex.inflight[i]
    ensures i in Step(s, e).ex.orders <==> i in s.ex.orders
  {
  }

  lemma OtherStepHangs(s: Sys, e: Event, i: nat, o: Order)
    requires Hanging(s, i, o) && Enabled(s, e) && RecoveryLooksUp(s, e) && !Concerns(s, e, i)
    ensures Hanging(Step(s, e), i, o)
  {
    RequestStays(s, e, i);
    StepWithout(s, e, i);
    StepKeeps(Without(s, i), e);
    StepAudits(Without(s, i), e);
    StepWith(s, e, i, o);
    StepKeeps(With(s, i, o), e);
  }

  /** A step that concerns the row brings its order, or learns that none comes. */
  lemma ConcernedStep(s: Sys, e: Event, i: nat, o: Order)
    requires Hanging(s, i, o) && Enabled(s, e) && Concerns(s, e, i)
    ensures e.ExchangeAccepts? || (Enabled(Without(s, i), e) && Step(s, e) == Step(Without(s, i), e))
  {
    if e.GroupDone? { assert false; }
  }

  lemma ConcernedStepIsGood(s: Sys, e: Event, i: nat, o: Order)
    requires Hanging(s, i, o) && Enabled(s, e) && RecoveryLooksUp(s, e) && Concerns(s, e, i)
    requires e.ExchangeAccepts? ==> e.order == o
    ensures Inv(Step(s, e)) && AuditOk(Step(s, e).db)
  {
    ConcernedStep(s, e, i, o);
    if !e.ExchangeAccepts? {
      StepKeeps(Without(s, i), e);
      StepAudits(Without(s, i), e);
    }
  }

  lemma HangingIsSafe(s: Sys, i: nat, o: Order)
    requires Hanging(s, i, o)
    ensures NeverTwice(s) && IsTrail(s.db.audit)
  {
    OneBoughtRow(Without(s, i));
    forall j: nat, k: nat | Bought(s, j) && Bought(s, k) && s.db.attempts[j].trade == s.db.attempts[k].trade
      ensures j == k
    {
      assert Bought(Without(s, i), j) && Bought(Without(s, i), k);
    }
  }

  lemma {:induction false} HangingRunIsSafe(s: Sys, i: nat, o: Order, es: seq<Event>)
    requires Hanging(s, i, o) && Possible(s, es) && LooksUpThroughout(s, es) && Brings(es, i, o)
    ensures NeverTwice(Run(s, es)) && IsTrail(Run(s, es).db.audit)
    decreases |es|
  {
    if es == [] {
      HangingIsSafe(s, i, o);
    } else if Concerns(s, es[0], i) {
      ConcernedStepIsGood(s, es[0], i, o);
      AuditedRun(Step(s, es[0]), es[1..]);
      OneBoughtRow(Run(s, es));
    } else {
      OtherStepHangs(s, es[0], i, o);
      HangingRunIsSafe(Step(s, es[0]), i, o, es[1..]);
    }
  }

  // ---- the mistake --------------------------------------------------------------------------------------

  lemma ClosingKeeps(s: Sys)
    requires Inv(s) && AwaitsLookup(s) && NothingComes(s.ex, s.process.running.value.attempt)
    ensures Inv(Mistaken(s))
  {
    var s' := Mistaken(s);
    TouchRunning(s.db, s.db, s.ex, s.ex, s.process, s'.process.running.value.pc);
  }

  lemma MistakeHangs(s: Sys, o: Order)
    requires Inv(s) && AuditOk(s.db) && AwaitsLookup(s) && s.process.running.value.attempt in s.ex.inflight
    requires s.ex.inflight[s.process.running.value.attempt] == o.sent && o.fillCc == 0
    ensures Hanging(Mistaken(s), s.process.running.value.attempt, o)
  {
    var i := s.process.running.value.attempt;
    assert OrderOk(s.db, s.ex, i);
    LookupDoneKeeps(s, LookupNotFound);
    assert Without(Mistaken(s), i) == Step(s, LookupDone(LookupNotFound));
    ExchangeAcceptsKeeps(s, i, o);
    ClosingKeeps(Step(s, ExchangeAccepts(i, o)));
    assert With(Mistaken(s), i, o) == Mistaken(Step(s, ExchangeAccepts(i, o)));
  }

  lemma UnfilledIsSafe(s: Sys, o: Order, es: seq<Event>)
    requires Inv(s) && AuditOk(s.db) && AwaitsLookup(s) && Comes(s.ex, s.process.running.value.attempt, o) && o.fillCc == 0
    requires Brings(es, s.process.running.value.attempt, o)
    ensures SafeAlong(Mistaken(s), es)
  {
    var i, s0 := s.process.running.value.attempt, Mistaken(s);
    assert OrderOk(s.db, s.ex, i);
    if Possible(s0, es) && LooksUpThroughout(s0, es) {
      if i in s.ex.inflight {
        MistakeHangs(s, o);
        HangingRunIsSafe(s0, i, o, es);
      } else {
        ClosingKeeps(s);
        AuditedRun(s0, es);
        OneBoughtRow(Run(s0, es));
      }
    }
  }

  /** If the order fills, a run that otherwise keeps every assumption fills a second one. */
  lemma BuysTwiceWhenNotFoundIsFalse(s: Sys, o: Order, d: MarketRead, o2: Order) returns (es: seq<Event>, n: nat)
    requires Inv(s) && AwaitsLookup(s) && Comes(s.ex, s.process.running.value.attempt, o) && o.fillCc > 0
    requires LetsBuy(s, s.process.running.value.trade, d) && Fills(o2, TermsNow(s, s.process.running.value.trade, d))
    ensures Possible(Mistaken(s), es) && LooksUpThroughout(Mistaken(s), es) && Brings(es, s.process.running.value.attempt, o)
    ensures BothFilled(Run(Mistaken(s), es), s.process.running.value.trade, s.process.running.value.attempt, n)
  {
    var i, s0 := s.process.running.value.attempt, Mistaken(s);
    if i in s.ex.inflight {
      assert OrderOk(s.db, s.ex, i);
      var e := ExchangeAccepts(i, o);
      var s1 := Step(s0, e);
      var rest;
      rest, n := BuysSecond(s1, d, o2);
      es := [e] + rest;
      RunCons(s0, e, rest);
      assert es[1..] == rest;
    } else {
      es, n := BuysSecond(s0, d, o2);
    }
  }

  // ---- such states are reached --------------------------------------------------------------------------

  /** The attempt sends its order, and the answer is lost before the exchange has taken it. */
  function Losing(d: MarketRead): seq<Event> {
    [BeginNext(Runs(Live), true), ReadDone(Some(d)), GroupDone(true), CreateDone(OutcomeUnknown)]
  }

  lemma AnswerIsLost(s: Sys, t: nat, s3: Sys, terms: Terms)
    requires AtHead(s, t) && IsSending(s, t, s3, terms)
    ensures Enabled(s3, CreateDone(OutcomeUnknown))
    ensures var s' := Step(s3, CreateDone(OutcomeUnknown));
            && AwaitsLookup(s') && s'.process.running.value.trade == t && s'.process.running.value.attempt == |s.db.attempts|
            && s'.ex == s3.ex && s'.clock == s.clock && t < |s'.db.trades| && SameSignal(s.db.trades[t], s'.db.trades[t])
  {
  }

  /** From every state of the protocol in which a trade is about to buy, its purchase can come to a look-up with the
      request still out, and there a read lets the trade buy on the same terms. */
  lemma EveryPurchaseCanBeLookedUp(s: Sys, t: nat, d: MarketRead) returns (d2: MarketRead)
    requires Inv(s) && AtHead(s, t) && LetsBuy(s, t, d)
    ensures Possible(s, Losing(d))
    ensures var s' := Run(s, Losing(d));
            && Inv(s') && AwaitsLookup(s') && s'.process.running.value.trade == t && s'.process.running.value.attempt in s'.ex.inflight
            && LetsBuy(s', t, d2) && TermsNow(s', t, d2) == TermsNow(s, t, d)
  {
    var e1, e2, e3, e4 := BeginNext(Runs(Live), true), ReadDone(Some(d)), GroupDone(true), CreateDone(OutcomeUnknown);
    var terms := TermsNow(s, t, d);
    BeginsLive(s, t);
    var s1 := Step(s, e1);
    ReadsMarket(s, t, s1, d);
    var s2 := Step(s1, e2);
    GroupSends(s, t, s2, terms, ReadNow(s, t, d).cash);
    var s3 := Step(s2, e3);
    AnswerIsLost(s, t, s3, terms);
    RunFour(s, e1, e2, e3, e4);
    BeginKeeps(s, Runs(Live), true);
    ReadDoneKeeps(s1, Some(d));
    GroupDoneKeeps(s2, true);
    CreateDoneKeeps(s3, OutcomeUnknown);
    var s4 := Step(s3, e4);
    AdjustedLetsBuy(s, s4, t, d);
    d2 := Adjusted(s, s4, d);
  }

  // ---- safe exactly when it never fills -----------------------------------------------------------------

  /** While a trade's order is looked up, let `o` be the order that the exchange has or will take. If some read lets
      the trade buy, every run after "not found" is safe if and only if `o` does not fill. */
  lemma SafeExactlyWhenItNeverFills(s: Sys, o: Order, d: MarketRead, o2: Order)
    requires Inv(s) && AuditOk(s.db) && AwaitsLookup(s) && Comes(s.ex, s.process.running.value.attempt, o)
    requires LetsBuy(s, s.process.running.value.trade, d) && Fills(o2, TermsNow(s, s.process.running.value.trade, d))
    ensures (forall es :: Brings(es, s.process.running.value.attempt, o) ==> SafeAlong(Mistaken(s), es)) <==> o.fillCc == 0
  {
    var i, s0 := s.process.running.value.attempt, Mistaken(s);
    if o.fillCc == 0 {
      forall es | Brings(es, i, o)
        ensures SafeAlong(s0, es)
      {
        UnfilledIsSafe(s, o, es);
      }
    } else {
      var es, n := BuysTwiceWhenNotFoundIsFalse(s, o, d, o2);
      var s' := Run(s0, es);
      assert Bought(s', i) && Bought(s', n);
      assert !SafeAlong(s0, es);
    }
  }
}
