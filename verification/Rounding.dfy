/** The realized P&L of a live trade against what the exchange charged: `outcomeFromOrder` and `divRound`
    (app/src/core/executor.ts) store a rounded average price, and the settler (app/src/core/settler.ts) computes
    the P&L from it. */
module Rounding {
  import opened Arithmetic
  import opened Pricing
  import opened Guards
  import opened Trades
  import opened Lifecycle
  import opened Invariant
  import opened Preservation
  import opened Ledger
  import opened Safety
  import opened Outcomes

  /** The average price is within half a unit of cost over count. */
  predicate Rounded(f: Fill) {
    f.cc >= 0 && 2 * Distance(CostMicros(f.cc, f.avgBp), f.cost) <= f.cc
  }

  function Distance(a: int, b: int): int { if a >= b then a - b else b - a }

  /** An order's amounts are not negative. */
  predicate Charged(o: Order) {
    (o.takerCost.Some? ==> o.takerCost.value >= 0) && (o.priceBp.Some? ==> o.priceBp.value >= 0)
  }

  lemma DivRoundIsNearest(a: int, b: int)
    requires a >= 0 && b > 0
    ensures 2 * Distance(b * DivRound(a, b), a) <= b
  {
    DivMod(2 * a + b, 2 * b);
    var q := DivRound(a, b);
    assert q * (2 * b) == 2 * (b * q);
  }

  lemma LookedUpFillIsRounded(o: Order)
    requires Charged(o) && OutcomeFromOrder(o).fill.Some?
    ensures Rounded(OutcomeFromOrder(o).fill.value)
  {
    var f := OutcomeFromOrder(o).fill.value;
    if o.priceBp.Some? { MulNonNegative(o.fillCc, o.priceBp.value); }
    DivRoundIsNearest(f.cost, o.fillCc);
  }

  /** Every order is charged sensibly and every recorded fill is rounded. */
  ghost predicate RoundedOk(s: Sys) {
    && (forall i :: i in s.ex.orders ==> Charged(s.ex.orders[i]))
    && forall t :: 0 <= t < |s.db.trades| ==> FillRounded(s.db.trades[t])
  }

  predicate FillRounded(row: Trade) { row.fill.Some? ==> Rounded(row.fill.value) }

  predicate OutcomeRounded(x: Outcome) { x.OrderWith? && x.fill.Some? ==> Rounded(x.fill.value) }

  lemma RecordRounded(db: Db, now: int, i: nat, outcome: Outcome, notFound: Reason, expireClosed: bool, t: nat)
    requires i < |db.attempts| && db.attempts[i].trade < |db.trades| && OutcomeRounded(outcome)
    requires t < |db.trades| && FillRounded(db.trades[t])
    ensures FillRounded(RecordLiveOutcome(db, now, i, outcome, notFound, expireClosed).trades[t])
  {
  }

  lemma ResolveRounded(s: Sys, i: nat, answer: Lookup, notFound: Reason, t: nat)
    requires RoundedOk(s) && i < |s.db.attempts| && s.db.attempts[i].trade < |s.db.trades| && Truthful(s.ex, i, answer)
    requires t < |s.db.trades|
    ensures t < |Resolve(s, i, answer, notFound).db.trades| && FillRounded(Resolve(s, i, answer, notFound).db.trades[t])
  {
    if answer.LookupFound? {
      if OutcomeFromOrder(s.ex.orders[i]).fill.Some? { LookedUpFillIsRounded(s.ex.orders[i]); }
      RecordRounded(s.db, s.clock, i, OutcomeFromOrder(s.ex.orders[i]), notFound, true, t);
    } else if answer.LookupNotFound? {
      RecordRounded(s.db, s.clock, i, NoOrder, notFound, true, t);
    }
  }

  lemma AnswerRounded(s: Sys, e: Event, t: nat)
    requires RoundedOk(s) && Enabled(s, e) && (e.CreateDone? || e.LookupDone?) && t < |s.db.trades|
    ensures t < |Step(s, e).db.trades| && FillRounded(Step(s, e).db.trades[t])
  {
    var r := s.process.running.value;
    if e.CreateDone? && e.create.Answered? {
      var limit := s.db.attempts[r.attempt].limitBp;
      RecordRounded(s.db, s.clock, r.attempt, OutcomeFromResult(s.ex.orders[r.attempt], if limit.Some? then limit.value else 0), Unfilled, false, t);
    } else if e.LookupDone? && e.answer.LookupFound? {
      if OutcomeFromOrder(s.ex.orders[r.attempt]).fill.Some? { LookedUpFillIsRounded(s.ex.orders[r.attempt]); }
      RecordRounded(s.db, s.clock, r.attempt, OutcomeFromOrder(s.ex.orders[r.attempt]), OrderNotFound, false, t);
    }
  }

  lemma FeeDoneRounded(s: Sys, e: Event, t: nat)
    requires RoundedOk(s) && Enabled(s, e) && e.FeeDone? && t < |s.db.trades|
    ensures t < |Step(s, e).db.trades| && FillRounded(Step(s, e).db.trades[t])
  {
    var r := s.process.running.value;
    var fee := FeeMicros(r.pc.fillCc, r.pc.terms.limitBp, e.milli, e.prec);
  }

  /** The other steps write no fill. */
  lemma LocalRounded(s: Sys, e: Event, t: nat)
    requires RoundedOk(s) && Enabled(s, e) && !AsksExchange(e) && !e.FeeDone? && !e.OnSignal? && !e.RecoverFinish? && t < |s.db.trades|
    ensures t < |Step(s, e).db.trades| && FillRounded(Step(s, e).db.trades[t])
  {
    OthersKeepRows(s, e);
    assert FillRounded(s.db.trades[t]);
  }

  lemma StepRounds(s: Sys, e: Event)
    requires Inv(s) && RoundedOk(s) && Enabled(s, e) && (e.ExchangeAccepts? ==> Charged(e.order))
    ensures RoundedOk(Step(s, e))
  {
    var db' := Step(s, e).db;
    forall t | 0 <= t < |db'.trades|
      ensures FillRounded(db'.trades[t])
    {
      RowRounds(s, e, t);
    }
  }

  lemma ManyRowsRound(s: Sys, e: Event, t: nat)
    requires Inv(s) && RoundedOk(s) && Enabled(s, e) && (e.OnSignal? || e.RecoverFinish?) && t < |Step(s, e).db.trades|
    ensures FillRounded(Step(s, e).db.trades[t])
  {
    if t < |s.db.trades| { assert FillRounded(s.db.trades[t]); }
  }

  lemma ExchangeRowRounds(s: Sys, e: Event, t: nat)
    requires Inv(s) && RoundedOk(s) && Enabled(s, e) && AsksExchange(e) && t < |s.db.trades|
    ensures t < |Step(s, e).db.trades| && FillRounded(Step(s, e).db.trades[t])
  {
    match e
    case RecoverLookup(answer) => ResolveRounded(s, s.process.todo[0], answer, RestartNoOrder, t);
    case ResolveNext(answer) => ResolveRounded(s, s.process.resolving[0], answer, OrderNotFound, t);
    case _ => AnswerRounded(s, e, t);
  }

  lemma RowRounds(s: Sys, e: Event, t: nat)
    requires Inv(s) && RoundedOk(s) && Enabled(s, e) && t < |Step(s, e).db.trades|
    ensures FillRounded(Step(s, e).db.trades[t])
  {
    if e.OnSignal? || e.RecoverFinish? {
      ManyRowsRound(s, e, t);
    } else {
      OthersKeepRows(s, e);
      if AsksExchange(e) {
        ExchangeRowRounds(s, e, t);
      } else if e.FeeDone? {
        FeeDoneRounded(s, e, t);
      } else {
        LocalRounded(s, e, t);
      }
    }
  }

  predicate AllCharged(es: seq<Event>) {
    forall k :: 0 <= k < |es| && es[k].ExchangeAccepts? ==> Charged(es[k].order)
  }

  lemma {:induction false} RunRounds(s: Sys, es: seq<Event>)
    requires Inv(s) && RoundedOk(s) && Possible(s, es) && LooksUpThroughout(s, es) && AllCharged(es)
    ensures RoundedOk(Run(s, es))
    decreases |es|
  {
    if es != [] {
      StepKeeps(s, es[0]);
      StepRounds(s, es[0]);
      RunRounds(Step(s, es[0]), es[1..]);
    }
  }

  /** In every reachable state the realized P&L of a settled trade is within half a micro-dollar per hundredth of a
      contract of the payout less the recorded cost and fee. */
  lemma PnlWithinRounding(opening: int, clock: int, es: seq<Event>, t: nat)
    requires Possible(Boot0(opening, clock), es) && LooksUpThroughout(Boot0(opening, clock), es) && AllCharged(es)
    requires t < |Run(Boot0(opening, clock), es).db.trades| && Run(Boot0(opening, clock), es).db.trades[t].settlement.Some?
    ensures var row := Run(Boot0(opening, clock), es).db.trades[t];
            && row.fill.Some?
            && var f, x := row.fill.value, row.settlement.value;
            2 * Distance(x.pnl, x.payout - f.cost - f.fee) <= f.cc
  {
    var s0 := Boot0(opening, clock);
    InitInv(opening, clock);
    RunRounds(s0, es);
    GoodFromBoot(opening, clock, es);
    var row := Run(s0, es).db.trades[t];
    assert BookedOk(row) && FillRounded(row);
  }

  /** And for a live trade, against the fields of its order at the exchange: with a fill from the Create Order response,
      exactly count times value less count times price less fee; with a looked-up one, within that rounding of the
      value less what the exchange charged. */
  lemma PnlAgainstCharge(opening: int, clock: int, es: seq<Event>, t: nat) returns (i: nat)
    requires Possible(Boot0(opening, clock), es) && LooksUpThroughout(Boot0(opening, clock), es) && AllCharged(es)
    requires var db := Run(Boot0(opening, clock), es).db; t < |db.trades| && db.trades[t].settlement.Some? && db.trades[t].mode == Live
    ensures var s := Run(Boot0(opening, clock), es);
            && FilledFrom(s, t, i)
            && var o, x, f := s.ex.orders[i], s.db.trades[t].settlement.value, s.db.trades[t].fill.value;
            || (AnswerSays(o, f)
                && x.pnl == o.fillCc * x.valueBp - o.fillCc * (if o.avgBp.Some? then o.avgBp.value else o.sent.limitBp) - o.fee)
            || (LookupSays(o, f)
                && 2 * Distance(x.pnl, o.fillCc * x.valueBp - Charge(o) - (if o.takerFee.Some? then o.takerFee.value else 0)) <= o.fillCc)
  {
    GoodFromBoot(opening, clock, es);
    var row := Run(Boot0(opening, clock), es).db.trades[t];
    assert TradeOk(row) && BookedOk(row);
    i := LiveFillIsReal(opening, clock, es, t);
    PnlWithinRounding(opening, clock, es, t);
  }
}
