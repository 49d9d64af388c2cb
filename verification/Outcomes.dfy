/** Why trades end as they do: a trade waits for a soft reason and is skipped for a hard one or with its window, and
    every recorded fill stands for exactly one attempt and, live, for one order at the exchange. */
module Outcomes {
  import opened Arithmetic
  import opened Pricing
  import opened Guards
  import opened Trades
  import opened Lifecycle
  import opened Invariant
  import opened Preservation
  import opened Ledger

  // ---- reasons ------------------------------------------------------------------------------------------

  /** The reason a trade shows, by its status. */
  predicate ReasonOk(row: Trade) {
    match row.status
    case Waiting => row.skipReason.Some? && !IsHard(row.skipReason.value)
    case Skipped => row.skipReason.Some? && (IsHard(row.skipReason.value) || row.skipReason.value == NoMarket || row.windowExpired)
    case _ => row.skipReason.None?
  }

  /** Only a hard reason ends an attempt, and with it the trade, as a hard skip. */
  predicate EndsOk(status: AttemptStatus, reason: Reason) { status == HardSkip <==> IsHard(reason) }

  predicate PcOk(pc: Pc) {
    match pc
    case Closing(status, reason, _, _) => EndsOk(status, reason)
    case Closed(status, reason) => EndsOk(status, reason)
    case _ => true
  }

  predicate RunningReasonOk(p: Process) { p.Up? && p.running.Some? ==> PcOk(p.running.value.pc) }

  predicate ReasonsOk(s: Sys) {
    (forall t :: 0 <= t < |s.db.trades| ==> ReasonOk(s.db.trades[t])) && RunningReasonOk(s.process)
  }

  lemma GuardsEndOk(db: Db, now: int, trade: Trade, mode: Mode, attempt: nat, read: Option<MarketRead>)
    ensures PcOk(AfterReads(db, now, trade, mode, attempt, read))
  {
  }

  /** The attempt steps leave the running attempt at a consistent end. */
  lemma RunningKeepsReason(s: Sys, e: Event)
    requires Enabled(s, e) && RunningReasonOk(s.process)
    ensures RunningReasonOk(Step(s, e).process)
  {
    if e.ReadDone? {
      var r := s.process.running.value;
      GuardsEndOk(s.db, s.clock, s.db.trades[r.trade], s.db.attempts[r.attempt].mode, r.attempt, e.read);
    }
  }

  lemma RecordReason(db: Db, now: int, i: nat, outcome: Outcome, notFound: Reason, expireClosed: bool, t: nat)
    requires i < |db.attempts| && db.attempts[i].trade < |db.trades| && !IsHard(notFound)
    requires t < |db.trades| && ReasonOk(db.trades[t])
    ensures ReasonOk(RecordLiveOutcome(db, now, i, outcome, notFound, expireClosed).trades[t])
  {
  }

  lemma ListedReason(s: Sys, e: Event, t: nat)
    requires Enabled(s, e) && (e.RecoverLookup? || e.ResolveNext?) && t < |s.db.trades| && ReasonOk(s.db.trades[t])
    ensures t < |Step(s, e).db.trades| && ReasonOk(Step(s, e).db.trades[t])
  {
    var i := if e.RecoverLookup? then s.process.todo[0] else s.process.resolving[0];
    var reason := if e.RecoverLookup? then RestartNoOrder else OrderNotFound;
    if e.answer.LookupFound? {
      RecordReason(s.db, s.clock, i, OutcomeFromOrder(s.ex.orders[i]), reason, true, t);
    } else if e.answer.LookupNotFound? {
      RecordReason(s.db, s.clock, i, NoOrder, reason, true, t);
    }
  }

  lemma AnswerReason(s: Sys, e: Event, t: nat)
    requires Enabled(s, e) && (e.CreateDone? || e.LookupDone?) && t < |s.db.trades| && ReasonOk(s.db.trades[t])
    ensures t < |Step(s, e).db.trades| && ReasonOk(Step(s, e).db.trades[t])
  {
    var r := s.process.running.value;
    if e.CreateDone? && e.create.Answered? {
      var limit := s.db.attempts[r.attempt].limitBp;
      RecordReason(s.db, s.clock, r.attempt, OutcomeFromResult(s.ex.orders[r.attempt], if limit.Some? then limit.value else 0), Unfilled, false, t);
    } else if e.LookupDone? && e.answer.LookupFound? {
      RecordReason(s.db, s.clock, r.attempt, OutcomeFromOrder(s.ex.orders[r.attempt]), OrderNotFound, false, t);
    }
  }

  lemma BookingReason(s: Sys, e: Event, t: nat)
    requires Enabled(s, e) && (e.FeeDone? || e.SettleTrade? || e.GroupDone?) && t < |s.db.trades| && ReasonOk(s.db.trades[t])
    ensures t < |Step(s, e).db.trades| && ReasonOk(Step(s, e).db.trades[t])
  {
  }

  lemma OtherReason(s: Sys, e: Event, t: nat)
    requires Inv(s) && RunningReasonOk(s.process) && Enabled(s, e) && !AsksExchange(e) && !e.FeeDone? && !e.SettleTrade? && !e.GroupDone?
    requires !e.OnSignal? && !e.RecoverFinish? && t < |s.db.trades| && ReasonOk(s.db.trades[t])
    ensures t < |Step(s, e).db.trades| && ReasonOk(Step(s, e).db.trades[t])
  {
    OthersKeepRows(s, e);
  }

  lemma ManyReasons(s: Sys, e: Event, t: nat)
    requires Enabled(s, e) && (e.OnSignal? || e.RecoverFinish?) && t < |Step(s, e).db.trades|
    requires t < |s.db.trades| ==> ReasonOk(s.db.trades[t])
    ensures ReasonOk(Step(s, e).db.trades[t])
  {
  }

  lemma RowReason(s: Sys, e: Event, t: nat)
    requires Inv(s) && ReasonsOk(s) && Enabled(s, e) && t < |Step(s, e).db.trades|
    ensures ReasonOk(Step(s, e).db.trades[t])
  {
    if e.OnSignal? || e.RecoverFinish? {
      ManyReasons(s, e, t);
    } else {
      OthersKeepRows(s, e);
      assert ReasonOk(s.db.trades[t]);
      if e.RecoverLookup? || e.ResolveNext? {
        ListedReason(s, e, t);
      } else if AsksExchange(e) {
        AnswerReason(s, e, t);
      } else if e.FeeDone? || e.SettleTrade? || e.GroupDone? {
        BookingReason(s, e, t);
      } else {
        OtherReason(s, e, t);
      }
    }
  }

  lemma StepKeepsReasons(s: Sys, e: Event)
    requires Inv(s) && ReasonsOk(s) && Enabled(s, e)
    ensures ReasonsOk(Step(s, e))
  {
    RunningKeepsReason(s, e);
    forall t | 0 <= t < |Step(s, e).db.trades|
      ensures ReasonOk(Step(s, e).db.trades[t])
    {
      RowReason(s, e, t);
    }
  }

  // ---- fills --------------------------------------------------------------------------------------------

  predicate BackedBy(db: Db, t: nat, i: nat) { FilledRow(db, i) && db.attempts[i].trade == t }

  ghost predicate FillBacked(db: Db, t: nat)
    requires t < |db.trades|
  {
    HasFill(db.trades[t].status) ==> exists i: nat :: BackedBy(db, t, i)
  }

  ghost predicate FillsBacked(db: Db) { forall t :: 0 <= t < |db.trades| ==> FillBacked(db, t) }

  /** A filled row is final, and so is its order. */
  lemma AnswerFixesFilled(s: Sys, e: Event, i: nat)
    requires Inv(s) && Enabled(s, e) && (e.CreateDone? || e.LookupDone?) && FilledRow(s.db, i)
    ensures i < |Step(s, e).db.attempts| && Step(s, e).db.attempts[i] == s.db.attempts[i]
    ensures Step(s, e).ex.orders == s.ex.orders
  {
  }

  lemma ListedFixesFilled(s: Sys, e: Event, i: nat)
    requires Inv(s) && Enabled(s, e) && (e.RecoverLookup? || e.ResolveNext?) && FilledRow(s.db, i)
    ensures i < |Step(s, e).db.attempts| && Step(s, e).db.attempts[i] == s.db.attempts[i]
    ensures Step(s, e).ex.orders == s.ex.orders
  {
    if e.RecoverLookup? {
      assert IsPendingLive(s.db, s.process.todo[0]);
    } else {
      assert IsPendingLive(s.db, s.process.resolving[0]);
    }
  }

  lemma ExchangeFixesFilled(s: Sys, e: Event, i: nat)
    requires Inv(s) && Enabled(s, e) && AsksExchange(e) && FilledRow(s.db, i)
    ensures i < |Step(s, e).db.attempts| && Step(s, e).db.attempts[i] == s.db.attempts[i]
    ensures Step(s, e).ex.orders == s.ex.orders
  {
    if e.CreateDone? || e.LookupDone? { AnswerFixesFilled(s, e, i); } else { ListedFixesFilled(s, e, i); }
  }

  lemma LocalFixesFilled(s: Sys, e: Event, i: nat)
    requires Inv(s) && Enabled(s, e) && !AsksExchange(e) && FilledRow(s.db, i)
    ensures i < |Step(s, e).db.attempts| && Step(s, e).db.attempts[i] == s.db.attempts[i]
    ensures i in s.ex.orders ==> i in Step(s, e).ex.orders && Step(s, e).ex.orders[i] == s.ex.orders[i]
  {
    assert OrderOk(s.db, s.ex, i);
  }

  lemma KeepsFilled(s: Sys, e: Event, i: nat)
    requires Inv(s) && Enabled(s, e) && FilledRow(s.db, i)
    ensures FilledRow(Step(s, e).db, i) && Step(s, e).db.attempts[i].trade == s.db.attempts[i].trade
  {
    if AsksExchange(e) { ExchangeFixesFilled(s, e, i); } else { LocalFixesFilled(s, e, i); }
  }

  lemma RecordBacks(db: Db, now: int, i: nat, outcome: Outcome, notFound: Reason, expireClosed: bool)
    requires i < |db.attempts| && db.attempts[i].trade < |db.trades|
    ensures var db' := RecordLiveOutcome(db, now, i, outcome, notFound, expireClosed);
            HasFill(db'.trades[db.attempts[i].trade].status) ==> BackedBy(db', db.attempts[i].trade, i)
  {
  }

  /** A step that fills a trade fills the attempt of it that it works on. */
  lemma ListedBacks(s: Sys, e: Event, t: nat)
    requires Inv(s) && Enabled(s, e) && (e.RecoverLookup? || e.ResolveNext?) && t < |s.db.trades|
    requires t < |Step(s, e).db.trades| && HasFill(Step(s, e).db.trades[t].status) && !HasFill(s.db.trades[t].status)
    ensures exists i: nat :: BackedBy(Step(s, e).db, t, i)
  {
    var i := if e.RecoverLookup? then s.process.todo[0] else s.process.resolving[0];
    if e.answer.LookupFound? {
      RecordBacks(s.db, s.clock, i, OutcomeFromOrder(s.ex.orders[i]), if e.RecoverLookup? then RestartNoOrder else OrderNotFound, true);
    }
    assert BackedBy(Step(s, e).db, t, i);
  }

  lemma AnswerBacks(s: Sys, e: Event, t: nat)
    requires Inv(s) && Enabled(s, e) && (e.CreateDone? || e.LookupDone?) && t < |s.db.trades|
    requires t < |Step(s, e).db.trades| && HasFill(Step(s, e).db.trades[t].status) && !HasFill(s.db.trades[t].status)
    ensures exists i: nat :: BackedBy(Step(s, e).db, t, i)
  {
    assert BackedBy(Step(s, e).db, t, s.process.running.value.attempt);
  }

  lemma FeeDoneBacks(s: Sys, milli: int, prec: int, t: nat)
    requires Inv(s) && Enabled(s, FeeDone(milli, prec)) && t < |s.db.trades|
    requires var db' := Step(s, FeeDone(milli, prec)).db; t < |db'.trades| && HasFill(db'.trades[t].status) && !HasFill(s.db.trades[t].status)
    ensures exists i: nat :: BackedBy(Step(s, FeeDone(milli, prec)).db, t, i)
  {
    assert BackedBy(Step(s, FeeDone(milli, prec)).db, t, s.process.running.value.attempt);
  }

  lemma LocalFillsNothing(s: Sys, e: Event)
    requires Inv(s) && Enabled(s, e) && !AsksExchange(e) && !e.FeeDone? && Touched(s, e).Some?
    ensures var t := Touched(s, e).value;
            t < |s.db.trades| == |Step(s, e).db.trades| && (HasFill(Step(s, e).db.trades[t].status) ==> HasFill(s.db.trades[t].status))
  {
    OthersKeepRows(s, e);
  }

  lemma ManyFillNothing(s: Sys, e: Event, t: nat)
    requires Enabled(s, e) && (e.OnSignal? || e.RecoverFinish?) && t < |Step(s, e).db.trades|
    ensures HasFill(Step(s, e).db.trades[t].status) ==> t < |s.db.trades| && HasFill(s.db.trades[t].status)
  {
  }

  lemma OthersFillNothing(s: Sys, e: Event, t: nat)
    requires Inv(s) && Enabled(s, e) && !AsksExchange(e) && !e.FeeDone? && t < |Step(s, e).db.trades|
    ensures HasFill(Step(s, e).db.trades[t].status) ==> t < |s.db.trades| && HasFill(s.db.trades[t].status)
  {
    if e.OnSignal? || e.RecoverFinish? {
      ManyFillNothing(s, e, t);
    } else {
      OthersKeepRows(s, e);
      if Touched(s, e).Some? { LocalFillsNothing(s, e); }
    }
  }

  lemma StepBacks(s: Sys, e: Event)
    requires Inv(s) && FillsBacked(s.db) && Enabled(s, e)
    ensures FillsBacked(Step(s, e).db)
  {
    forall t | 0 <= t < |Step(s, e).db.trades|
      ensures FillBacked(Step(s, e).db, t)
    {
      RowBacked(s, e, t);
    }
  }

  lemma RowBacked(s: Sys, e: Event, t: nat)
    requires Inv(s) && FillsBacked(s.db) && Enabled(s, e) && t < |Step(s, e).db.trades|
    ensures FillBacked(Step(s, e).db, t)
  {
    if t < |s.db.trades| && HasFill(s.db.trades[t].status) {
      assert FillBacked(s.db, t);
      var i: nat :| BackedBy(s.db, t, i);
      KeepsFilled(s, e, i);
      assert BackedBy(Step(s, e).db, t, i);
    } else if HasFill(Step(s, e).db.trades[t].status) {
      if !AsksExchange(e) && !e.FeeDone? {
        OthersFillNothing(s, e, t);
      } else {
        OthersKeepRows(s, e);
        if e.FeeDone? {
          FeeDoneBacks(s, e.milli, e.prec, t);
        } else if e.CreateDone? || e.LookupDone? {
          AnswerBacks(s, e, t);
        } else {
          ListedBacks(s, e, t);
        }
      }
    }
  }

  // ---- fills and the orders they were read from ---------------------------------------------------------

  /** What the Create Order response says of an order: its count and fee, at its average price or else at the limit that
      was sent. */
  predicate AnswerSays(o: Order, f: Fill) {
    && f.cc == o.fillCc && f.fee == o.fee && f.avgBp == (if o.avgBp.Some? then o.avgBp.value else o.sent.limitBp)
    && f.cost == o.fillCc * f.avgBp
  }

  /** What the exchange charged for a looked-up order: its cost, or else its count at its price, or else nothing. */
  function Charge(o: Order): int {
    if o.takerCost.Some? then o.takerCost.value else if o.priceBp.Some? then o.fillCc * o.priceBp.value else 0
  }

  /** What a look-up says of an order: its count, what was charged for it, its fee or none, and the average price, rounded
      half up. */
  predicate LookupSays(o: Order, f: Fill) {
    && f.cc == o.fillCc && f.cost == Charge(o) && f.fee == (if o.takerFee.Some? then o.takerFee.value else 0)
    && (f.cost >= 0 ==> 2 * f.cost - f.cc < 2 * (f.cc * f.avgBp) <= 2 * f.cost + f.cc)
  }

  lemma AnswerIsSaid(o: Order)
    ensures OutcomeFromResult(o, o.sent.limitBp) == OrderWith(None) <==> o.fillCc == 0
    ensures o.fillCc > 0 ==>
              OutcomeFromResult(o, o.sent.limitBp).fill.Some? && AnswerSays(o, OutcomeFromResult(o, o.sent.limitBp).fill.value)
  {
  }

  lemma LookupIsSaid(o: Order)
    ensures OutcomeFromOrder(o) == OrderWith(None) <==> o.fillCc == 0
    ensures o.fillCc > 0 ==> OutcomeFromOrder(o).fill.Some? && LookupSays(o, OutcomeFromOrder(o).fill.value)
  {
    if o.fillCc > 0 && Charge(o) >= 0 { RoundsHalfUp(Charge(o), o.fillCc); }
  }

  lemma RoundsHalfUp(a: int, b: int)
    requires a >= 0 && b > 0
    ensures 2 * a - b < 2 * (b * DivRound(a, b)) <= 2 * a + b
  {
    DivMod(2 * a + b, 2 * b);
    var q := DivRound(a, b);
    assert q * (2 * b) == 2 * (b * q);
  }

  /** The row's fill is what the Create Order response or a look-up says of the order. */
  predicate ReadsOrder(a: Attempt, o: Order) {
    a.fill.Some? && (AnswerSays(o, a.fill.value) || LookupSays(o, a.fill.value))
  }

  predicate RowReads(s: Sys, i: nat) {
    FilledRow(s.db, i) && s.db.attempts[i].mode == Live ==> i in s.ex.orders && ReadsOrder(s.db.attempts[i], s.ex.orders[i])
  }

  ghost predicate FillsRead(s: Sys) { forall i: nat :: RowReads(s, i) }

  /** A live row that a step fills reads its order. */
  lemma ListedReads(s: Sys, e: Event, i: nat)
    requires Inv(s) && Enabled(s, e) && (e.RecoverLookup? || e.ResolveNext?) && !FilledRow(s.db, i)
    ensures RowReads(Step(s, e), i)
  {
    if i in s.ex.orders { LookupIsSaid(s.ex.orders[i]); }
  }

  lemma AnswerReads(s: Sys, e: Event, i: nat)
    requires Inv(s) && Enabled(s, e) && (e.CreateDone? || e.LookupDone?) && !FilledRow(s.db, i)
    ensures RowReads(Step(s, e), i)
  {
    assert OrderOk(s.db, s.ex, i);
    if i in s.ex.orders {
      LookupIsSaid(s.ex.orders[i]);
      AnswerIsSaid(s.ex.orders[i]);
    }
  }

  lemma OthersRead(s: Sys, e: Event, i: nat)
    requires Inv(s) && Enabled(s, e) && !AsksExchange(e) && !FilledRow(s.db, i)
    ensures RowReads(Step(s, e), i)
  {
    if e.FeeDone? { FeeReads(s, e.milli, e.prec, i); } else { OthersFillNoRow(s, e, i); }
  }

  lemma FeeReads(s: Sys, milli: int, prec: int, i: nat)
    requires Inv(s) && Enabled(s, FeeDone(milli, prec)) && !FilledRow(s.db, i)
    ensures RowReads(Step(s, FeeDone(milli, prec)), i)
  {
  }

  lemma OthersFillNoRow(s: Sys, e: Event, i: nat)
    requires Inv(s) && Enabled(s, e) && !AsksExchange(e) && !e.FeeDone? && !FilledRow(s.db, i)
    ensures !FilledRow(Step(s, e).db, i)
  {
  }

  lemma StepReads(s: Sys, e: Event)
    requires Inv(s) && FillsRead(s) && Enabled(s, e)
    ensures FillsRead(Step(s, e))
  {
    forall i: nat
      ensures RowReads(Step(s, e), i)
    {
      if FilledRow(s.db, i) {
        assert RowReads(s, i);
        if AsksExchange(e) { ExchangeFixesFilled(s, e, i); } else { LocalFixesFilled(s, e, i); }
      } else if e.CreateDone? || e.LookupDone? {
        AnswerReads(s, e, i);
      } else if AsksExchange(e) {
        ListedReads(s, e, i);
      } else {
        OthersRead(s, e, i);
      }
    }
  }

  // ---- over every run -----------------------------------------------------------------------------------

  lemma {:induction false} OutcomesRun(s: Sys, es: seq<Event>)
    requires Inv(s) && ReasonsOk(s) && FillsBacked(s.db) && FillsRead(s) && Possible(s, es) && LooksUpThroughout(s, es)
    ensures Inv(Run(s, es)) && ReasonsOk(Run(s, es)) && FillsBacked(Run(s, es).db) && FillsRead(Run(s, es))
    decreases |es|
  {
    if es != [] {
      StepKeeps(s, es[0]);
      StepKeepsReasons(s, es[0]);
      StepBacks(s, es[0]);
      StepReads(s, es[0]);
      OutcomesRun(Step(s, es[0]), es[1..]);
    }
  }

  /** In every reachable state a waiting trade shows a soft reason, and a skipped one a hard reason, a missing
      market, or a closed window. */
  lemma SkippedForAReason(opening: int, clock: int, es: seq<Event>, t: nat)
    requires Possible(Boot0(opening, clock), es) && LooksUpThroughout(Boot0(opening, clock), es)
    requires t < |Run(Boot0(opening, clock), es).db.trades|
    ensures ReasonOk(Run(Boot0(opening, clock), es).db.trades[t])
  {
    InitInv(opening, clock);
    OutcomesRun(Boot0(opening, clock), es);
  }

  /** The trade's fill came from the order of row `i`. */
  predicate FilledFrom(s: Sys, t: nat, i: nat)
    requires t < |s.db.trades|
  {
    && i in s.ex.orders && i < |s.db.attempts| && s.db.attempts[i].trade == t && s.db.trades[t].fill.Some?
    && s.ex.orders[i].fillCc == s.db.trades[t].fill.value.cc > 0
    && s.db.attempts[i].fill == s.db.trades[t].fill && ReadsOrder(s.db.attempts[i], s.ex.orders[i])
  }

  /** In every reachable state a live fill is real: an attempt of the trade placed an order that filled that many
      contracts at the exchange, and the fill is what the exchange said of it. (By `NoDoubleBuy` it is the only
      one.) */
  lemma LiveFillIsReal(opening: int, clock: int, es: seq<Event>, t: nat) returns (i: nat)
    requires Possible(Boot0(opening, clock), es) && LooksUpThroughout(Boot0(opening, clock), es)
    requires var db := Run(Boot0(opening, clock), es).db; t < |db.trades| && HasFill(db.trades[t].status) && db.trades[t].mode == Live
    ensures FilledFrom(Run(Boot0(opening, clock), es), t, i)
  {
    InitInv(opening, clock);
    OutcomesRun(Boot0(opening, clock), es);
    var s := Run(Boot0(opening, clock), es);
    assert FillBacked(s.db, t);
    i :| BackedBy(s.db, t, i);
    assert AttemptOk(s.db, i) && OrderOk(s.db, s.ex, i) && RowReads(s, i);
  }
}
