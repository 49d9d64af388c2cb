/** The trade lifecycle as a state machine: executor, settler pass, start-up recovery and the exchange.
    One step is a synchronous stretch between two awaits, or one SQLite commit; a crash may come between any
    two steps. Sources: app/src/core/executor.ts, app/src/core/settler.ts, app/src/core/startup.ts. */
module Lifecycle {
  import opened Pricing
  import opened Guards
  import opened Trades

  // ---- the exchange -------------------------------------------------------------------------------------

  /** The limit and the count an order request carries. */
  datatype Sent = Sent(limitBp: int, requestedCc: int)

  /** An immediate-or-cancel order the exchange has accepted, with everything it will ever fill. The optional
      fields are the ones the exchange may leave out of a response or a lookup. */
  datatype Order = Order(sent: Sent, fillCc: nat, avgBp: Option<int>, fee: int, takerCost: Option<int>, priceBp: Option<int>, takerFee: Option<int>)

  /** Orders are keyed by the attempt row, that is by `client_order_id`. `inflight` holds requests of which
      nobody can yet say that no order will come of them. */
  datatype Exchange = Exchange(orders: map<nat, Order>, inflight: map<nat, Sent>)

  /** `divRound`: `a / b` rounded half up (BigInt division truncates). */
  function DivRound(a: int, b: int): int
    requires b > 0
  {
    TruncDiv(2 * a + b, 2 * b)
  }

  /** `outcomeFromResult`: the Create Order response. */
  function OutcomeFromResult(o: Order, limitBp: int): Outcome {
    if o.fillCc == 0 then OrderWith(None)
    else
      var avg := if o.avgBp.Some? then o.avgBp.value else limitBp;
      OrderWith(Some(Fill(o.fillCc, avg, CostMicros(o.fillCc, avg), o.fee)))
  }

  /** `outcomeFromOrder`: an order lookup. */
  function OutcomeFromOrder(o: Order): Outcome {
    if o.fillCc == 0 then OrderWith(None)
    else
      var cost := if o.takerCost.Some? then o.takerCost.value
                  else if o.priceBp.Some? then o.fillCc * o.priceBp.value else 0;
      OrderWith(Some(Fill(o.fillCc, DivRound(cost, o.fillCc), cost, if o.takerFee.Some? then o.takerFee.value else 0)))
  }

  // ---- the process --------------------------------------------------------------------------------------

  /** Where the running attempt waits. `Closing` and `Closed` are the two commits of `finish`. */
  datatype Pc =
    | Reading
    | AwaitingGroup(terms: Terms, cash: int)
    | AwaitingFee(terms: Terms, fillCc: int)
    | Sending
    | LookingUp
    | Closing(status: AttemptStatus, reason: Reason, limitBp: Option<int>, requestedCc: Option<int>)
    | Closed(status: AttemptStatus, reason: Reason)

  /** `patch` is the mode that `finish` writes to the trade (`None` when the attempt began paused). */
  datatype Running = Running(trade: nat, attempt: nat, patch: Option<Mode>, pc: Pc)

  /** A trade row as the settler pass read it. */
  datatype Read = Read(trade: nat, row: Trade)

  /** The volatile state; a crash wipes it. `resolving` is the list `resolvePendingLive` is working through,
      `settling` the rows the settler pass has read. */
  datatype Process =
    | Down
    | Recovering(todo: seq<nat>)
    | Up(queue: seq<nat>, busy: set<nat>, running: Option<Running>, resolving: seq<nat>, settling: seq<Read>)

  datatype Sys = Sys(db: Db, ex: Exchange, clock: int, process: Process)

  function Boot0(bankroll: int, clock: int): Sys {
    Sys(Db([], [], bankroll, [], []), Exchange(map[], map[]), clock, Down)
  }

  /** The settler's resolver leaves younger pending attempts alone. */
  const PENDING_LIVE_MIN_AGE_MS := 30_000

  // ---- events -------------------------------------------------------------------------------------------

  /** What the reads of an attempt returned, and the switches as re-read right before a live order. */
  datatype MarketRead = MarketRead(
    market: MarketView, tradingActive: bool, newest: Option<int>, blocked: bool, asks: seq<AskLevel>,
    ranges: seq<PriceRange>, cash: int, again: Effective)

  datatype Lookup = LookupFailed | LookupFound | LookupNotFound

  /** Answers to Create Order. The middle four are the "never sent" class: the executor takes
      them to mean that no order came of the request. */
  datatype CreateAnswer = Answered | NetworkPaused | GroupLimit | UnknownGroup | OrderRefused | OutcomeUnknown

  predicate NeverSent(a: CreateAnswer) { a.NetworkPaused? || a.GroupLimit? || a.UnknownGroup? || a.OrderRefused? }

  datatype Event =
    | Advance(ms: nat)
    | Crash
    | Start
    | RecoverLookup(answer: Lookup)
    | RecoverFinish
    | OnSignal(signal: Signal)
    | Retry(trade: nat)
    | ExpireTrade(trade: nat)
    | BeginNext(mode: Effective, configured: bool)
    | ReadDone(read: Option<MarketRead>)
    | GroupDone(found: bool)
    | FeeDone(milli: int, prec: int)
    | CreateDone(create: CreateAnswer)
    | LookupDone(answer: Lookup)
    | CloseAttemptRow
    | CloseTradeRow
    | ResolveStart
    | ResolveNext(answer: Lookup)
    | SettleStart
    | SettleTrade(index: nat, valueBp: int, warning: bool)
    | ResetTo(bankroll: int)
    | ExchangeAccepts(attempt: nat, order: Order)

  // ---- helpers of the steps -----------------------------------------------------------------------------

  /** The pending live attempts among the first `n`, in row order, that are old enough and not busy. */
  function PendingLive(db: Db, busy: set<nat>, now: int, minAge: int, n: nat): seq<nat>
    requires n <= |db.attempts|
  {
    if n == 0 then []
    else
      var a := db.attempts[n - 1];
      PendingLive(db, busy, now, minAge, n - 1)
      + if a.status == AttemptPending && a.mode == Live && a.trade !in busy && now - a.at >= minAge then [n - 1] else []
  }

  function FilledTrades(db: Db, n: nat): seq<Read>
    requires n <= |db.trades|
  {
    if n == 0 then []
    else FilledTrades(db, n - 1) + if db.trades[n - 1].status == Filled then [Read(n - 1, db.trades[n - 1])] else []
  }

  /** The exchange has an order of the attempt that filled. */
  predicate HasFilled(ex: Exchange, i: nat) { i in ex.orders && ex.orders[i].fillCc > 0 }

  /** An answer of the exchange is truthful: an order is found exactly when it exists. */
  predicate Truthful(ex: Exchange, i: nat, answer: Lookup) {
    (answer.LookupFound? ==> i in ex.orders) && (answer.LookupNotFound? ==> i !in ex.orders)
  }

  /** `not found` is final, and so is a "never sent" answer: no more order can come of the request. */
  function Forget(ex: Exchange, i: nat): Exchange {
    ex.(inflight := ex.inflight - {i})
  }

  /** One round of `resolvePendingLive` for the attempt row `i`. */
  function Resolve(s: Sys, i: nat, answer: Lookup, notFound: Reason): Sys
    requires i < |s.db.attempts| && s.db.attempts[i].trade < |s.db.trades|
    requires Truthful(s.ex, i, answer)
  {
    match answer
    case LookupFailed => s
    case LookupFound => s.(db := RecordLiveOutcome(s.db, s.clock, i, OutcomeFromOrder(s.ex.orders[i]), notFound, true))
    case LookupNotFound => s.(db := RecordLiveOutcome(s.db, s.clock, i, NoOrder, notFound, true), ex := Forget(s.ex, i))
  }

  /** What the guards see: dry run sizes on the bankroll, live on the cash not tied up in pending orders. */
  function EntryOf(db: Db, now: int, trade: Trade, mode: Mode, attempt: nat, d: MarketRead): EntryInput {
    var balance := if mode == Live then d.cash - PendingLiveCost(db.attempts, attempt) else db.bankroll;
    var e := trade.version.exec;
    var z := trade.version.sizing;
    EntryInput(Runs(mode), now, Some(d.market), Some(d.tradingActive), Some(d.newest), e.maxFeedAgeSec, Some(d.blocked),
               d.asks, e.maxPriceBp, e.minPriceBp, e.maxSlippageBp, d.ranges, e.minDepthContracts,
               balance, z.percentCenti, z.minStake, z.maxStake)
  }

  /** The wait that follows the reads and the guards of an attempt. */
  function AfterReads(db: Db, now: int, trade: Trade, mode: Mode, attempt: nat, read: Option<MarketRead>): Pc {
    if read.None? then Closing(AttemptError, ErrorReason, None, None)
    else
      var d := read.value;
      var input := EntryOf(db, now, trade, mode, attempt, d);
      match EvaluateEntry(input)
      case Throws => Closing(AttemptError, ErrorReason, None, None)
      case Reject(reason, facts) => Closing(if IsHard(reason) then HardSkip else SoftSkip, reason, facts.limitBp, facts.requestedCc)
      case Accept(best, limit, depth, stake, requestedCc) =>
        if mode == DryRun then AwaitingFee(Terms(input.balance, stake, limit, requestedCc), Min(requestedCc, depth))
        else
          var contracts := Min(requestedCc, depth) / 100;
          var cc := contracts * 100;
          if contracts < 1 then Closing(SoftSkip, Liquidity, Some(limit), Some(cc))
          else if d.again == Paused then Closing(HardSkip, PausedReason, Some(limit), Some(cc))
          else if d.again == Runs(DryRun) then Closing(SoftSkip, ModeChanged, Some(limit), Some(cc))
          else AwaitingGroup(Terms(input.balance, stake, limit, cc), d.cash)
  }

  function AfterNeverSent(a: CreateAnswer, row: Attempt): Pc
    requires NeverSent(a)
  {
    match a
    case GroupLimit => Closing(SoftSkip, OrderGroupLimit, row.limitBp, row.requestedCc)
    case OrderRefused => Closing(HardSkip, OrderRejected, row.limitBp, row.requestedCc)
    case _ => Closing(AttemptError, ErrorReason, row.limitBp, row.requestedCc)
  }

  /** The attempt is over: the trade leaves `busy`. */
  function Release(p: Process): Process
    requires p.Up? && p.running.Some?
  {
    p.(running := None, busy := p.busy - {p.running.value.trade})
  }

  function Goto(p: Process, pc: Pc): Process
    requires p.Up? && p.running.Some?
  {
    p.(running := Some(p.running.value.(pc := pc)))
  }

  // ---- enabledness --------------------------------------------------------------------------------------

  predicate RowsExist(s: Sys, i: nat) {
    i < |s.db.attempts| && s.db.attempts[i].trade < |s.db.trades|
  }

  predicate AttemptRuns(s: Sys) {
    && s.process.Up? && s.process.running.Some?
    && var r := s.process.running.value;
    RowsExist(s, r.attempt) && s.db.attempts[r.attempt].trade == r.trade
  }

  /** When the step can happen. The exchange's answers are truthful, and "never sent" answers are given only
      when no order has filled. */
  predicate Enabled(s: Sys, e: Event) {
    match e
    case Advance(_) => true
    case Crash => true
    case Start => s.process.Down?
    case RecoverLookup(answer) =>
      && s.process.Recovering? && s.process.todo != []
      && RowsExist(s, s.process.todo[0]) && Truthful(s.ex, s.process.todo[0], answer)
    case RecoverFinish => s.process.Recovering? && s.process.todo == []
    case OnSignal(_) => s.process.Up?
    case Retry(t) => s.process.Up? && t < |s.db.trades| && s.db.trades[t].status == Waiting && t !in s.process.busy
    case ExpireTrade(t) => s.process.Up? && t < |s.db.trades| && IsOpen(s.db.trades[t].status) && t !in s.process.busy
    case BeginNext(_, _) => s.process.Up? && s.process.running.None? && s.process.queue != [] && s.process.queue[0] < |s.db.trades|
    case ReadDone(_) => AttemptRuns(s) && s.process.running.value.pc.Reading?
    case GroupDone(_) => AttemptRuns(s) && s.process.running.value.pc.AwaitingGroup?
    case FeeDone(_, _) => AttemptRuns(s) && s.process.running.value.pc.AwaitingFee?
    case CreateDone(a) =>
      && AttemptRuns(s) && s.process.running.value.pc.Sending?
      && (a.Answered? ==> s.process.running.value.attempt in s.ex.orders)
      && (NeverSent(a) ==> !HasFilled(s.ex, s.process.running.value.attempt))
    case LookupDone(answer) => AttemptRuns(s) && s.process.running.value.pc.LookingUp? && Truthful(s.ex, s.process.running.value.attempt, answer)
    case CloseAttemptRow => AttemptRuns(s) && s.process.running.value.pc.Closing?
    case CloseTradeRow => AttemptRuns(s) && s.process.running.value.pc.Closed?
    case ResolveStart => s.process.Up? && s.process.resolving == []
    case ResolveNext(answer) =>
      && s.process.Up? && s.process.resolving != []
      && RowsExist(s, s.process.resolving[0]) && Truthful(s.ex, s.process.resolving[0], answer)
    case SettleStart => s.process.Up?
    case SettleTrade(k, _, _) => s.process.Up? && k < |s.process.settling| && s.process.settling[k].trade < |s.db.trades|
    case ResetTo(_) => true
    case ExchangeAccepts(i, o) => i in s.ex.inflight && o.sent == s.ex.inflight[i]
  }

  /** At recovery, a lookup fails only for an attempt whose order request may have gone out. */
  predicate RecoveryLooksUp(s: Sys, e: Event) {
    e.RecoverLookup? && e.answer.LookupFailed? && Enabled(s, e)
    ==> s.db.trades[s.db.attempts[s.process.todo[0]].trade].status == Pending
  }

  // ---- the steps ----------------------------------------------------------------------------------------

  function Step(s: Sys, e: Event): Sys
    requires Enabled(s, e)
  {
    var p := s.process;
    match e
    case Advance(ms) => s.(clock := s.clock + ms)
    case Crash => s.(process := Down)
    case Start => s.(process := Recovering(PendingLive(s.db, {}, s.clock, 0, |s.db.attempts|)))
    case RecoverLookup(answer) => Resolve(s, p.todo[0], answer, RestartNoOrder).(process := Recovering(p.todo[1..]))
    case RecoverFinish => s.(db := RecoverRows(s.db, s.clock), process := Up([], {}, None, [], []))
    case OnSignal(g) =>
      var id := |s.db.trades|;
      var s1 := s.(db := InsertSignal(s.db, g));
      if Known(s.db, g.strategy, g.game) || g.ticker.None? then s1
      else s1.(process := p.(queue := p.queue + [id], busy := p.busy + {id}))
    case Retry(t) => s.(process := p.(queue := p.queue + [t], busy := p.busy + {t}))
    case ExpireTrade(t) => s.(db := Expire(s.db, t))
    case BeginNext(mode, configured) => Begin(s, mode, configured)
    case ReadDone(read) =>
      var r := p.running.value;
      var mode := s.db.attempts[r.attempt].mode;
      s.(process := Goto(p, AfterReads(s.db, s.clock, s.db.trades[r.trade], mode, r.attempt, read)))
    case GroupDone(found) =>
      var r := p.running.value;
      var terms := r.pc.terms;
      if !found then s.(process := Goto(p, Closing(AttemptError, ErrorReason, Some(terms.limitBp), Some(terms.requestedCc))))
      else s.(db := PlaceOrder(s.db, r.trade, r.attempt, terms),
              ex := s.ex.(inflight := s.ex.inflight[r.attempt := Sent(terms.limitBp, terms.requestedCc)]),
              process := Goto(p, Sending))
    case FeeDone(milli, prec) =>
      var r := p.running.value;
      var terms := r.pc.terms;
      var fee := FeeMicros(r.pc.fillCc, terms.limitBp, milli, prec);
      if fee.None? then s.(process := Goto(p, Closing(AttemptError, ErrorReason, None, None)))
      else
        var fill := Fill(r.pc.fillCc, terms.limitBp, CostMicros(r.pc.fillCc, terms.limitBp), fee.value);
        s.(db := FillDryRun(s.db, r.trade, r.attempt, terms, fill), process := Release(p))
    case CreateDone(a) =>
      var r := p.running.value;
      var limit := s.db.attempts[r.attempt].limitBp;
      if a.Answered? then
        var outcome := OutcomeFromResult(s.ex.orders[r.attempt], if limit.Some? then limit.value else 0);
        s.(db := RecordLiveOutcome(s.db, s.clock, r.attempt, outcome, Unfilled, false), process := Release(p))
      else if a.OutcomeUnknown? then s.(process := Goto(p, LookingUp))
      else s.(ex := Forget(s.ex, r.attempt), process := Goto(p, AfterNeverSent(a, s.db.attempts[r.attempt])))
    case LookupDone(answer) =>
      var r := p.running.value;
      var row := s.db.attempts[r.attempt];
      (match answer
       case LookupFailed => s.(process := Release(p))
       case LookupFound =>
         s.(db := RecordLiveOutcome(s.db, s.clock, r.attempt, OutcomeFromOrder(s.ex.orders[r.attempt]), OrderNotFound, false),
            process := Release(p))
       case LookupNotFound =>
         s.(ex := Forget(s.ex, r.attempt),
            process := Goto(p, Closing(AttemptError, ErrorReason, row.limitBp, row.requestedCc))))
    case CloseAttemptRow =>
      var r := p.running.value;
      s.(db := CloseAttempt(s.db, r.attempt, r.pc.status, r.pc.reason, r.pc.limitBp, r.pc.requestedCc),
         process := Goto(p, Closed(r.pc.status, r.pc.reason)))
    case CloseTradeRow =>
      var r := p.running.value;
      s.(db := CloseTrade(s.db, r.trade, r.pc.status == HardSkip, r.pc.reason, r.patch), process := Release(p))
    case ResolveStart => s.(process := p.(resolving := PendingLive(s.db, p.busy, s.clock, PENDING_LIVE_MIN_AGE_MS, |s.db.attempts|)))
    case ResolveNext(answer) => Resolve(s, p.resolving[0], answer, OrderNotFound).(process := p.(resolving := p.resolving[1..]))
    case SettleStart => s.(process := p.(settling := FilledTrades(s.db, |s.db.trades|)))
    case SettleTrade(k, valueBp, warning) =>
      s.(db := Settle(s.db, p.settling[k].trade, p.settling[k].row, valueBp, warning))
    case ResetTo(bankroll) => s.(db := ResetBankroll(s.db, bankroll))
    case ExchangeAccepts(i, o) => s.(ex := Exchange(s.ex.orders[i := o], s.ex.inflight - {i}))
  }

  /** The first stretch of `attempt` for the head of the queue. A trade that is no longer open, or has no
      market, is dropped without an attempt. */
  function Begin(s: Sys, mode: Effective, configured: bool): Sys
    requires Enabled(s, BeginNext(mode, configured))
  {
    var p := s.process;
    var t := p.queue[0];
    var row := s.db.trades[t];
    if !IsOpen(row.status) || row.ticker.None? then s.(process := p.(queue := p.queue[1..], busy := p.busy - {t}))
    else
      var attemptMode := if mode.Runs? then mode.mode else row.mode;
      var pc :=
        if mode == Paused then Closing(HardSkip, PausedReason, None, None)
        else if !configured then Closing(AttemptError, ErrorReason, None, None)
        else Reading;
      var patch := if mode.Runs? then Some(mode.mode) else None;
      s.(db := BeginAttempt(s.db, t, s.clock, attemptMode),
         process := p.(queue := p.queue[1..], running := Some(Running(t, |s.db.attempts|, patch, pc))))
  }

  // ---- runs ---------------------------------------------------------------------------------------------

  /** Every event of the run is enabled when its turn comes. */
  predicate Possible(s: Sys, es: seq<Event>)
    decreases |es|
  {
    es == [] || (Enabled(s, es[0]) && Possible(Step(s, es[0]), es[1..]))
  }

  function Run(s: Sys, es: seq<Event>): Sys
    requires Possible(s, es)
    decreases |es|
  {
    if es == [] then s else Run(Step(s, es[0]), es[1..])
  }

  /** One lookup per attempt on the list, then the second stage. */
  function LookupsThenFinish(answers: seq<Lookup>): seq<Event> {
    if answers == [] then [RecoverFinish]
    else [RecoverLookup(answers[0])] + LookupsThenFinish(answers[1..])
  }

  function RecoveryRun(answers: seq<Lookup>): seq<Event> {
    [Start] + LookupsThenFinish(answers)
  }

  /** The third environment assumption, along a whole run. */
  predicate LooksUpThroughout(s: Sys, es: seq<Event>)
    requires Possible(s, es)
    decreases |es|
  {
    es == [] || (RecoveryLooksUp(s, es[0]) && LooksUpThroughout(Step(s, es[0]), es[1..]))
  }

  lemma RunCons(s: Sys, e: Event, es: seq<Event>)
    requires Enabled(s, e) && Possible(Step(s, e), es)
    ensures Possible(s, [e] + es) && Run(s, [e] + es) == Run(Step(s, e), es)
  {
    assert ([e] + es)[1..] == es;
  }

  lemma {:induction false} RunConcat(s: Sys, es: seq<Event>, fs: seq<Event>)
    requires Possible(s, es) && Possible(Run(s, es), fs)
    ensures Possible(s, es + fs) && Run(s, es + fs) == Run(Run(s, es), fs)
    decreases |es|
  {
    if es == [] {
      assert es + fs == fs;
    } else {
      assert (es + fs)[1..] == es[1..] + fs;
      RunConcat(Step(s, es[0]), es[1..], fs);
    }
  }

  lemma {:induction false} RunSnoc(s: Sys, es: seq<Event>, e: Event)
    requires Possible(s, es) && Enabled(Run(s, es), e)
    ensures Possible(s, es + [e]) && Run(s, es + [e]) == Step(Run(s, es), e)
  {
    RunCons(Run(s, es), e, []);
    assert [e] + [] == [e];
    RunConcat(s, es, [e]);
  }
}
