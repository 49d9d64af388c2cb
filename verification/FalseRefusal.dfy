/** Why a "never sent" answer must be true. The HTTP client repeats a Create Order request after a 5xx, and the
    executor takes a later 4xx, or a pause, to mean that nothing was sent (app/src/core/executor.ts). If some read
    lets the trade buy again, all that can follow a soft refusal is safe exactly when no order of the attempt has
    filled; after a hard one the fill is lost. */
module FalseRefusal {
  import opened Pricing
  import opened Guards
  import opened Trades
  import opened Lifecycle
  import opened Invariant
  import opened Preservation
  import opened Ledger
  import opened Safety
  import opened Purchase
  import opened OrphanedAttempt
  import opened Repurchase

  /** A live attempt waits for the answer to its order. */
  predicate AwaitsAnswer(s: Sys) { AttemptRuns(s) && s.process.running.value.pc.Sending? }

  /** The order of the waiting attempt has filled at the exchange. */
  predicate OrderFilled(s: Sys)
    requires AwaitsAnswer(s)
  {
    HasFilled(s.ex, s.process.running.value.attempt)
  }

  /** What the executor does on such an answer, whatever the exchange has done. */
  function Refused(s: Sys, a: CreateAnswer): Sys
    requires AwaitsAnswer(s) && NeverSent(a)
  {
    var i := s.process.running.value.attempt;
    s.(ex := Forget(s.ex, i), process := Goto(s.process, AfterNeverSent(a, s.db.attempts[i])))
  }

  /** Where the machine allows the answer, this is its step. */
  lemma RefusedIsStep(s: Sys, a: CreateAnswer)
    requires AwaitsAnswer(s) && NeverSent(a) && !OrderFilled(s)
    ensures Enabled(s, CreateDone(a)) && Step(s, CreateDone(a)) == Refused(s, a)
  {
  }

  /** The invariant survives the answer exactly when no order has filled. */
  lemma RefusalKeepsExactly(s: Sys, a: CreateAnswer)
    requires Inv(s) && AwaitsAnswer(s) && NeverSent(a)
    ensures Inv(Refused(s, a)) <==> !OrderFilled(s)
  {
    if !OrderFilled(s) {
      RefusedIsStep(s, a);
      CreateDoneKeeps(s, a);
    }
  }

  // ---- the refused attempt ends -------------------------------------------------------------------------

  predicate IsSoft(a: CreateAnswer) { NeverSent(a) && !a.OrderRefused? }

  /** After a hard refusal of an order that filled, the trade is skipped and the fill stands in no row. */
  lemma HardRefusalLosesFill(s: Sys)
    requires Inv(s) && AwaitsAnswer(s) && OrderFilled(s)
    ensures var s', r := Run(Refused(s, OrderRefused), FINISHING), s.process.running.value;
            && Possible(Refused(s, OrderRefused), FINISHING) && r.trade < |s'.db.trades| && r.attempt < |s'.db.attempts|
            && s'.db.trades[r.trade].status == Skipped && HasFilled(s'.ex, r.attempt)
            && s'.db.attempts[r.attempt].status != AttemptPending && s'.db.attempts[r.attempt].status != AttemptFilled
  {
    Ends(Refused(s, OrderRefused));
  }

  /** From every state in which an order has filled and its answer is still to come, if some read lets the trade buy:
      a soft refusal is followed by a run, satisfying every assumption, that fills a second order of the trade. */
  lemma BuysTwiceWhenRefusalIsFalse(s: Sys, a: CreateAnswer, d: MarketRead, o: Order) returns (es: seq<Event>, n: nat)
    requires Inv(s) && AwaitsAnswer(s) && IsSoft(a) && OrderFilled(s)
    requires LetsBuy(s, s.process.running.value.trade, d) && Fills(o, TermsNow(s, s.process.running.value.trade, d))
    ensures Possible(Refused(s, a), es) && LooksUpThroughout(Refused(s, a), es)
    ensures BothFilled(Run(Refused(s, a), es), s.process.running.value.trade, s.process.running.value.attempt, n)
  {
    es, n := BuysSecond(Refused(s, a), d, o);
  }

  // ---- every purchase passes through such a state -------------------------------------------------------

  function Placing(i: nat, d: MarketRead, o: Order): seq<Event> {
    [BeginNext(Runs(Live), true), ReadDone(Some(d)), GroupDone(true), ExchangeAccepts(i, o)]
  }

  lemma OrderTaken(s: Sys, t: nat, s3: Sys, terms: Terms, o: Order)
    requires AtHead(s, t) && IsSending(s, t, s3, terms) && Fills(o, terms)
    ensures var e := ExchangeAccepts(|s.db.attempts|, o);
            && Enabled(s3, e)
            && var s' := Step(s3, e);
            && s'.process == s3.process && s'.db == s3.db && s'.clock == s.clock && HasFilled(s'.ex, |s.db.attempts|)
            && t < |s'.db.trades| && SameSignal(s.db.trades[t], s'.db.trades[t])
            && AwaitsAnswer(s') && s'.process.running.value.trade == t && s'.process.running.value.attempt == |s.db.attempts|
  {
  }

  /** From every state of the protocol in which a trade is about to buy: the purchase comes to a state in which its
      order has filled and the answer is still to come, and there a read lets the trade buy on the same terms. */
  lemma EveryPurchaseIsExposed(s: Sys, t: nat, d: MarketRead, o: Order) returns (d2: MarketRead)
    requires Inv(s) && AtHead(s, t) && LetsBuy(s, t, d) && Fills(o, TermsNow(s, t, d))
    ensures var es := Placing(|s.db.attempts|, d, o);
            && Possible(s, es)
            && var s' := Run(s, es);
            && Inv(s') && AwaitsAnswer(s') && OrderFilled(s') && s'.process.running.value.trade == t
            && LetsBuy(s', t, d2) && TermsNow(s', t, d2) == TermsNow(s, t, d)
  {
    var n, terms := |s.db.attempts|, TermsNow(s, t, d);
    var e1, e2, e3, e4 := BeginNext(Runs(Live), true), ReadDone(Some(d)), GroupDone(true), ExchangeAccepts(n, o);
    BeginsLive(s, t);
    var s1 := Step(s, e1);
    ReadsMarket(s, t, s1, d);
    var s2 := Step(s1, e2);
    GroupSends(s, t, s2, terms, ReadNow(s, t, d).cash);
    var s3 := Step(s2, e3);
    OrderTaken(s, t, s3, terms, o);
    RunFour(s, e1, e2, e3, e4);
    BeginKeeps(s, Runs(Live), true);
    ReadDoneKeeps(s1, Some(d));
    GroupDoneKeeps(s2, true);
    ExchangeAcceptsKeeps(s3, n, o);
    var s4 := Step(s3, e4);
    AdjustedLetsBuy(s, s4, t, d);
    d2 := Adjusted(s, s4, d);
  }

  // ---- safe exactly when nothing has filled -------------------------------------------------------------

  /** If some read lets the trade buy, every run after a soft refusal is safe if and only if no order of the attempt
      has filled. */
  lemma SafeExactlyWhenUnfilled(s: Sys, a: CreateAnswer, d: MarketRead, o: Order)
    requires Inv(s) && AuditOk(s.db) && AwaitsAnswer(s) && IsSoft(a)
    requires LetsBuy(s, s.process.running.value.trade, d) && Fills(o, TermsNow(s, s.process.running.value.trade, d))
    ensures (forall es :: SafeAlong(Refused(s, a), es)) <==> !OrderFilled(s)
  {
    var s0 := Refused(s, a);
    if OrderFilled(s) {
      var es, n := BuysTwiceWhenRefusalIsFalse(s, a, d, o);
      var s' := Run(s0, es);
      assert Bought(s', s.process.running.value.attempt) && Bought(s', n);
      assert !SafeAlong(s0, es);
    } else {
      RefusalKeepsExactly(s, a);
      forall es
        ensures SafeAlong(s0, es)
      {
        if Possible(s0, es) && LooksUpThroughout(s0, es) {
          AuditedRun(s0, es);
          OneBoughtRow(Run(s0, es));
        }
      }
    }
  }
}
