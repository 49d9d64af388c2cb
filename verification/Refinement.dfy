/** The simulator against the live path: the executor and the settler, driven in dry run through the same ticks,
    end every game with the same outcome and the same bankroll. */
module Refinement {
  import opened Arithmetic
  import opened Pricing
  import opened Guards
  import opened Rule
  import opened GameClock
  import opened Trades
  import opened Lifecycle
  import opened Trader
  import opened Simulator
  import opened Backtest
  import opened Returns

  /** How the live system meets a game: the strategy that signals, the window end it estimates, how long it waits
      for a tick, and what the reads of an attempt at a tick return for the market of a side at that time. */
  datatype World = World(strategy: nat, windowEnds: int, wait: int -> nat, view: (Side, int, int) -> MarketRead)

  function AsksOf(x: Input, g: Game, side: Side, minute: int): seq<AskLevel> {
    var price := PriceAt(x, g, side, minute);
    if price.Some? && price.value.Some? then [AskLevel(price.value.value.bp, MAX_SAFE)] else []
  }

  /** The market is open, the exchange trades, the feeds are fresh and agree, and the book holds the one
      unlimited level the simulator assumes, or nothing without a price. */
  predicate Calm(x: Input, g: Game, side: Side, minute: int, now: int, d: MarketRead) {
    && d.market.status.Some? && d.market.status.value in {"open", "active"}
    && (d.market.closeTimeMs.None? || d.market.closeTimeMs.value > now)
    && d.tradingActive && !d.blocked
    && d.newest.Some? && now - d.newest.value <= x.version.exec.maxFeedAgeSec * 1000
    && d.asks == AsksOf(x, g, side, minute) && d.ranges == RangesOf(x, g, side)
  }

  ghost predicate AllCalm(x: Input, g: Game, w: World) {
    forall side, minute, now :: Calm(x, g, side, minute, now, w.view(side, minute, now))
  }

  function TickerOf(x: Input, g: Game, side: Side): Option<nat> {
    if x.prices.Modelled? then Some(0)
    else if MarketOf(g, side).Some? then Some(MarketOf(g, side).value.ticker) else None
  }

  // ---- driving the live system --------------------------------------------------------------------------

  /** The rest of an attempt after its reads, up to its end. */
  function Finishing(s: Sys, x: Input): seq<Event> {
    if !(s.process.Up? && s.process.running.Some?) then []
    else match s.process.running.value.pc
      case AwaitingFee(terms, cc) =>
        [FeeDone(x.milli, x.prec)]
        + if FeeMicros(cc, terms.limitBp, x.milli, x.prec).None? then [CloseAttemptRow, CloseTradeRow] else []
      case Closing(_, _, _, _) => [CloseAttemptRow, CloseTradeRow]
      case _ => []
  }

  /** The head of the queue runs one attempt to its end. */
  function AttemptEvents(s: Sys, x: Input, d: MarketRead): seq<Event> {
    var begin := [BeginNext(Runs(DryRun), true), ReadDone(Some(d))];
    if s.process.Up? && s.process.queue != [] && Possible(s, begin) then begin + Finishing(Run(s, begin), x) else []
  }

  function LiveState(x: Input, g: Game, minute: int): GameState {
    StateAt(x.sport, g.goals, minute, KickoffAsks(x, g))
  }

  /** What a tracker update triggers: the engine's signal on the first match, then the executor's `onState`. */
  function Triggers(s: Sys, x: Input, g: Game, w: World, st: GameState): seq<Event> {
    if !s.process.Up? then []
    else if Known(s.db, w.strategy, g.id) then OnStateEvents(s.db, s.process.busy, g.id, x.sport, st, |s.db.trades|)
    else match EvaluateLeadAtTime(x.version.rule, x.sport, st)
      case NoMatch(_) => []
      case Match(side, _) => [OnSignal(Signal(w.strategy, g.id, side, TickerOf(x, g, side), x.version, w.windowEnds, DryRun))]
  }

  /** A tick: the triggers, then the attempt they queued, for the side of the trade. */
  function Reactions(s: Sys, x: Input, g: Game, w: World, minute: int): seq<Event> {
    var es := Triggers(s, x, g, w, LiveState(x, g, minute));
    if !Possible(s, es) then [] else es + Queued(Run(s, es), x, w, minute)
  }

  function Queued(s: Sys, x: Input, w: World, minute: int): seq<Event> {
    if s.process.Up? && s.process.queue != [] && s.process.queue[0] < |s.db.trades|
    then AttemptEvents(s, x, w.view(s.db.trades[s.process.queue[0]].side, minute, s.clock)) else []
  }

  /** The time until the tick, then what it causes. */
  function TickRun(s: Sys, x: Input, g: Game, w: World, minute: int): seq<Event> {
    [Advance(w.wait(minute))] + Reactions(Step(s, Advance(w.wait(minute))), x, g, w, minute)
  }

  function TickRuns(s: Sys, x: Input, g: Game, w: World, from: int, to: int): seq<Event>
    decreases 1 + to - from
  {
    if from > to then []
    else
      var es := TickRun(s, x, g, w, from);
      if !Possible(s, es) then [] else es + TickRuns(Run(s, es), x, g, w, from + 1, to)
  }

  /** The game as the tracker reports it when it is over. */
  function Over(x: Input, g: Game): GameState {
    StateAt(x.sport, g.goals, LastMinute(x.sport), KickoffAsks(x, g)).(phase := Finished)
  }

  /** The game ends: the executor closes an open window, then the settler books the newest fill at the result. */
  function EndEvents(s: Sys, x: Input, g: Game): seq<Event> {
    if !s.process.Up? || s.db.trades == [] then []
    else
      var last := s.db.trades[|s.db.trades| - 1];
      if last.game == g.id && last.status == Filled then
        [SettleStart, SettleTrade(|FilledTrades(s.db, |s.db.trades|)| - 1, SettlementValueBp(x.sport, last.side, g.finalHome, g.finalAway), false)]
      else OnStateEvents(s.db, s.process.busy, g.id, x.sport, Over(x, g), |s.db.trades|)
  }

  function GameRun(s: Sys, x: Input, g: Game, w: World): seq<Event> {
    var es := TickRuns(s, x, g, w, x.version.rule.atMinute, LastTick(x));
    if !Possible(s, es) then [] else es + EndEvents(Run(s, es), x, g)
  }

  // ---- one attempt --------------------------------------------------------------------------------------

  predicate Idle(s: Sys) {
    s.process.Up? && s.process.queue == [] && s.process.busy == {} && s.process.running == None
  }

  predicate HasQueued(s: Sys, n: nat) {
    s.process.Up? && s.process.queue == [n] && s.process.busy == {n} && s.process.running == None && n < |s.db.trades|
  }

  predicate SameTerms(r: Trade, r': Trade) {
    r'.strategy == r.strategy && r'.game == r.game && r'.side == r.side && r'.ticker == r.ticker && r'.version == r.version
  }

  /** From `s` to `s'` only the trade `n` changed, and only in what its attempts decide. */
  predicate OnlyTrade(s: Sys, s': Sys, n: nat) {
    && n < |s.db.trades| == |s'.db.trades| && s'.clock == s.clock
    && SameTerms(s.db.trades[n], s'.db.trades[n])
    && forall t :: 0 <= t < |s.db.trades| && t != n ==> s'.db.trades[t] == s.db.trades[t]
  }

  predicate WasRejected(s: Sys, s': Sys, n: nat, reason: Reason) {
    && OnlyTrade(s, s', n) && Idle(s') && s'.db.bankroll == s.db.bankroll
    && s'.db.trades[n].status == (if IsHard(reason) then Skipped else Waiting)
    && s'.db.trades[n].skipReason == Some(reason)
  }

  predicate WasFilled(s: Sys, s': Sys, n: nat, terms: Terms, fill: Fill) {
    && OnlyTrade(s, s', n) && Idle(s') && s'.db.bankroll == s.db.bankroll - fill.cost - fill.fee
    && var row := s'.db.trades[n];
    && row.status == Filled && row.mode == DryRun && row.skipReason == None
    && row.terms == Some(terms) && row.fill == Some(fill)
  }

  /** The attempt has read the market and waits at `pc`; the trade's row is as it was, but for its counter. */
  predicate WaitsAt(s: Sys, s': Sys, n: nat, pc: Pc) {
    && OnlyTrade(s, s', n) && s'.db.bankroll == s.db.bankroll && s'.db.trades[n].skipReason == s.db.trades[n].skipReason
    && AttemptRuns(s') && s'.process.queue == [] && s'.process.busy == {n}
    && s'.process.running.value.trade == n && s'.process.running.value.pc == pc
  }

  lemma BeginsReading(s: Sys, n: nat)
    requires HasQueued(s, n) && IsOpen(s.db.trades[n].status) && s.db.trades[n].ticker.Some?
    ensures var e := BeginNext(Runs(DryRun), true);
            && Enabled(s, e) && WaitsAt(s, Step(s, e), n, Reading)
            && var i := Step(s, e).process.running.value.attempt;
            i == |s.db.attempts| && Step(s, e).db.attempts[i].mode == DryRun
  {
  }

  lemma ReadsAndGuards(s: Sys, s1: Sys, n: nat, d: MarketRead)
    requires WaitsAt(s, s1, n, Reading) && s1.db.attempts[s1.process.running.value.attempt].mode == DryRun
    ensures Enabled(s1, ReadDone(Some(d)))
    ensures WaitsAt(s, Step(s1, ReadDone(Some(d))), n, AfterReads(s.db, s.clock, s.db.trades[n], DryRun, s1.process.running.value.attempt, Some(d)))
  {
    var i := s1.process.running.value.attempt;
    assert EntryOf(s1.db, s.clock, s1.db.trades[n], DryRun, i, d) == EntryOf(s.db, s.clock, s.db.trades[n], DryRun, i, d);
  }

  lemma Begins(s: Sys, n: nat, d: MarketRead)
    requires HasQueued(s, n) && IsOpen(s.db.trades[n].status) && s.db.trades[n].ticker.Some?
    ensures var es := [BeginNext(Runs(DryRun), true), ReadDone(Some(d))];
            Possible(s, es)
            && WaitsAt(s, Run(s, es), n, AfterReads(s.db, s.clock, s.db.trades[n], DryRun, |s.db.attempts|, Some(d)))
  {
    var e, e' := BeginNext(Runs(DryRun), true), ReadDone(Some(d));
    BeginsReading(s, n);
    ReadsAndGuards(s, Step(s, e), n, d);
    RunSnoc(s, [], e);
    RunSnoc(s, [e], e');
    assert [] + [e] == [e] && [e] + [e'] == [e, e'];
  }

  /** The two commits of `finish`. */
  lemma Finishes(s0: Sys, s: Sys, n: nat, status: AttemptStatus, reason: Reason, limit: Option<int>, cc: Option<int>)
    requires WaitsAt(s0, s, n, Closing(status, reason, limit, cc)) && (status == HardSkip <==> IsHard(reason))
    ensures var s1 := Step(s, CloseAttemptRow); Enabled(s1, CloseTradeRow) && WasRejected(s0, Step(s1, CloseTradeRow), n, reason)
  {
    var s1 := Step(s, CloseAttemptRow);
    assert WaitsAt(s0, s1, n, Closed(status, reason));
    assert Step(s1, CloseTradeRow).process.busy == {};
  }

  lemma Rejects(s0: Sys, s: Sys, n: nat, x: Input, status: AttemptStatus, reason: Reason, limit: Option<int>, cc: Option<int>)
    requires WaitsAt(s0, s, n, Closing(status, reason, limit, cc)) && (status == HardSkip <==> IsHard(reason))
    ensures Possible(s, Finishing(s, x)) && WasRejected(s0, Run(s, Finishing(s, x)), n, reason)
  {
    Finishes(s0, s, n, status, reason, limit, cc);
    RunSnoc(s, [], CloseAttemptRow);
    RunSnoc(s, [CloseAttemptRow], CloseTradeRow);
    assert [] + [CloseAttemptRow] == [CloseAttemptRow];
    assert Finishing(s, x) == [CloseAttemptRow] + [CloseTradeRow];
  }

  lemma Fills(s0: Sys, s: Sys, n: nat, x: Input, terms: Terms, cc: int)
    requires WaitsAt(s0, s, n, AwaitingFee(terms, cc)) && FeeMicros(cc, terms.limitBp, x.milli, x.prec).Some?
    ensures Possible(s, Finishing(s, x))
    ensures WasFilled(s0, Run(s, Finishing(s, x)), n, terms,
                      Fill(cc, terms.limitBp, CostMicros(cc, terms.limitBp), FeeMicros(cc, terms.limitBp, x.milli, x.prec).value))
  {
    var e := FeeDone(x.milli, x.prec);
    var s1 := Step(s, e);
    assert s1.process.busy == {};
    RunSnoc(s, [], e);
    assert Finishing(s, x) == [] + [e];
  }

  // ---- the same guards ----------------------------------------------------------------------------------

  /** The entry the simulator evaluates and the one the executor evaluates have the same result. */
  lemma SameEntry(x: Input, g: Game, side: Side, minute: int, db: Db, now: int, row: Trade, attempt: nat, d: MarketRead)
    requires Calm(x, g, side, minute, now, d) && row.version == x.version && x.version.exec.minDepthContracts * 100 <= MAX_SAFE
    requires PriceAt(x, g, side, minute).Some? && PriceAt(x, g, side, minute).value.Some?
    ensures EvaluateEntry(EntryOf(db, now, row, DryRun, attempt, d))
            == EvaluateEntry(SimEntry(x, RangesOf(x, g, side), PriceAt(x, g, side, minute).value.value.bp, db.bankroll))
  {
    var bp := PriceAt(x, g, side, minute).value.value.bp;
    var live, sim := EntryOf(db, now, row, DryRun, attempt, d), SimEntry(x, RangesOf(x, g, side), bp, db.bankroll);
    assert live.asks == [AskLevel(bp, MAX_SAFE)] == sim.asks;
    assert live.asks[..0] == [];
    assert BestAsk(live.asks) == Some(bp);
    assert PriceChecks(live, bp) == PriceChecks(sim, bp) by {
      var limit := LimitPriceBp(bp, sim.maxSlippageBp, sim.maxPriceBp, sim.ranges);
      if limit.Some? && limit.value.Some? && limit.value.value >= bp {
        assert DepthAtOrBelow(live.asks, limit.value.value) == MAX_SAFE;
      }
    }
    assert MarketOpen(live) && FeedFresh(live);
  }

  lemma CountIsSafe(stake: int, limit: int)
    requires ContractsFor(stake, limit).Some?
    ensures 0 <= ContractsFor(stake, limit).value * 100 <= MAX_SAFE
  {
    var cc := ContractsFor(stake, limit).value * 100;
    ContractsAreMost(stake, limit, ContractsFor(stake, limit).value);
    MulMonotone(1, limit, cc);
  }

  lemma AcceptShape(i: EntryInput)
    requires EvaluateEntry(i).Accept?
    ensures var r := EvaluateEntry(i);
            && BestAsk(i.asks) == Some(r.bestAskBp) && r.bestAskBp <= r.limitBp && r.depthCc == DepthAtOrBelow(i.asks, r.limitBp)
            && ContractsFor(r.stake, r.limitBp).Some? && r.requestedCc == ContractsFor(r.stake, r.limitBp).value * 100
  {
  }

  /** The unlimited level never cuts a count. */
  lemma CountFitsLevel(i: EntryInput, bp: int)
    requires EvaluateEntry(i).Accept? && i.asks == [AskLevel(bp, MAX_SAFE)]
    ensures Min(EvaluateEntry(i).requestedCc, EvaluateEntry(i).depthCc) == EvaluateEntry(i).requestedCc
  {
    var r := EvaluateEntry(i);
    AcceptShape(i);
    OneLevel(AskLevel(bp, MAX_SAFE), r.limitBp);
    CountIsSafe(r.stake, r.limitBp);
  }

  // ---- one tick -----------------------------------------------------------------------------------------

  /** The executor has no ask where the simulator has no price. */
  function LiveReason(r: Reason): Reason { if r == NoPrice then Liquidity else r }

  /** The row of a trade with a market, and the bankroll, against the simulator's variables. The simulator credits
      the payout with the fill, the live path at settlement. */
  predicate Agrees(x: Input, g: Game, p: Play, row: Trade, bankroll: int) {
    && p.side == Some(row.side)
    && match p.row
       case None =>
         && row.status == Waiting && bankroll == p.bankroll
         && p.lastReason.Some? && row.skipReason == Some(LiveReason(p.lastReason.value))
       case Some(r) =>
         && r.game == g.id && r.side == row.side && r.bankrollAfter == p.bankroll
         && if r.bought.None? then
              && row.status == Skipped && bankroll == p.bankroll
              && r.skip.Some? && row.skipReason == Some(LiveReason(r.skip.value))
            else
              && row.status == Filled && row.mode == DryRun && row.skipReason == None
              && r.skip.None? && r.priceBp.Some? && FillAgrees(x, g, r.priceBp.value, r.bought.value, row)
              && bankroll + PayoutMicros(r.bought.value.cc, r.bought.value.valueBp) == p.bankroll
  }

  predicate FillAgrees(x: Input, g: Game, price: int, b: Bought, row: Trade) {
    && row.fill == Some(Fill(b.cc, price, CostMicros(b.cc, price), b.fee))
    && row.terms.Some? && row.terms.value.stake == b.stake && row.terms.value.limitBp == price && row.terms.value.requestedCc == b.cc
    && b.valueBp == SettlementValueBp(x.sport, row.side, g.finalHome, g.finalAway)
    && b.pnl == RealizedPnlMicros(b.cc, price, b.fee, PayoutMicros(b.cc, b.valueBp))
  }

  /** A trade that may be attempted, for the leader `side`. */
  predicate Ready(x: Input, s: Sys, n: nat, side: Side) {
    && HasQueued(s, n)
    && var row := s.db.trades[n];
    IsOpen(row.status) && row.ticker.Some? && row.version == x.version && row.side == side
  }

  lemma AttemptRunIs(s: Sys, x: Input, d: MarketRead)
    requires s.process.Up? && s.process.queue != []
    requires var begin := [BeginNext(Runs(DryRun), true), ReadDone(Some(d))];
             Possible(s, begin) && Possible(Run(s, begin), Finishing(Run(s, begin), x))
    ensures var begin := [BeginNext(Runs(DryRun), true), ReadDone(Some(d))];
            Possible(s, AttemptEvents(s, x, d)) && Run(s, AttemptEvents(s, x, d)) == Run(Run(s, begin), Finishing(Run(s, begin), x))
  {
    var begin := [BeginNext(Runs(DryRun), true), ReadDone(Some(d))];
    RunConcat(s, begin, Finishing(Run(s, begin), x));
  }

  lemma RejectedAttempt(x: Input, s: Sys, n: nat, side: Side, d: MarketRead)
    requires Ready(x, s, n, side) && EvaluateEntry(EntryOf(s.db, s.clock, s.db.trades[n], DryRun, |s.db.attempts|, d)).Reject?
    ensures var reason := EvaluateEntry(EntryOf(s.db, s.clock, s.db.trades[n], DryRun, |s.db.attempts|, d)).reason;
            var es := AttemptEvents(s, x, d);
            Possible(s, es) && WasRejected(s, Run(s, es), n, reason)
  {
    Begins(s, n, d);
    var s1 := Run(s, [BeginNext(Runs(DryRun), true), ReadDone(Some(d))]);
    var r := EvaluateEntry(EntryOf(s.db, s.clock, s.db.trades[n], DryRun, |s.db.attempts|, d));
    Rejects(s, s1, n, x, if IsHard(r.reason) then HardSkip else SoftSkip, r.reason, r.facts.limitBp, r.facts.requestedCc);
    AttemptRunIs(s, x, d);
  }

  lemma FilledAttempt(x: Input, s: Sys, n: nat, side: Side, d: MarketRead, bp: int, fee: int)
    requires Ready(x, s, n, side) && d.asks == [AskLevel(bp, MAX_SAFE)]
    requires var r := EvaluateEntry(EntryOf(s.db, s.clock, s.db.trades[n], DryRun, |s.db.attempts|, d));
             r.Accept? && FeeMicros(r.requestedCc, r.limitBp, x.milli, x.prec) == Some(fee)
    ensures var r := EvaluateEntry(EntryOf(s.db, s.clock, s.db.trades[n], DryRun, |s.db.attempts|, d));
            var es := AttemptEvents(s, x, d);
            && Possible(s, es)
            && WasFilled(s, Run(s, es), n, Terms(s.db.bankroll, r.stake, r.limitBp, r.requestedCc),
                         Fill(r.requestedCc, r.limitBp, CostMicros(r.requestedCc, r.limitBp), fee))
  {
    Begins(s, n, d);
    var s1 := Run(s, [BeginNext(Runs(DryRun), true), ReadDone(Some(d))]);
    var input := EntryOf(s.db, s.clock, s.db.trades[n], DryRun, |s.db.attempts|, d);
    var r := EvaluateEntry(input);
    CountFitsLevel(input, bp);
    Fills(s, s1, n, x, Terms(s.db.bankroll, r.stake, r.limitBp, r.requestedCc), r.requestedCc);
    AttemptRunIs(s, x, d);
  }

  /** One attempt of the executor does what one try of the simulator does. */
  lemma AttemptAgrees(x: Input, g: Game, p: Play, side: Side, minute: int, s: Sys, n: nat, d: MarketRead)
    requires Ready(x, s, n, side) && Calm(x, g, side, minute, s.clock, d) && x.version.exec.minDepthContracts * 100 <= MAX_SAFE
    requires s.db.bankroll == p.bankroll && p.row.None? && p.side == Some(side) && Try(x, g, p, side, minute).Some?
    ensures var es := AttemptEvents(s, x, d);
            && Possible(s, es) && OnlyTrade(s, Run(s, es), n) && Idle(Run(s, es))
            && Agrees(x, g, Try(x, g, p, side, minute).value, Run(s, es).db.trades[n], Run(s, es).db.bankroll)
  {
    var price := PriceAt(x, g, side, minute).value;
    var input := EntryOf(s.db, s.clock, s.db.trades[n], DryRun, |s.db.attempts|, d);
    if price.None? {
      NoAskIsIlliquid(input);
      RejectedAttempt(x, s, n, side, d);
    } else {
      SameEntry(x, g, side, minute, s.db, s.clock, s.db.trades[n], |s.db.attempts|, d);
      var r := EvaluateEntry(input);
      match r
      case Reject(reason, _) =>
        SimReasons(x, RangesOf(x, g, side), price.value.bp, p.bankroll);
        RejectedAttempt(x, s, n, side, d);
      case Accept(_, limit, _, stake, cc) =>
        FilledAttempt(x, s, n, side, d, price.value.bp, FeeMicros(cc, limit, x.milli, x.prec).value);
    }
  }

  lemma NoAskIsIlliquid(i: EntryInput)
    requires i.mode.Runs? && MarketOpen(i) && i.tradingActive != Some(false) && FeedFresh(i) && i.blocked != Some(true) && i.asks == []
    ensures EvaluateEntry(i) == Reject(Liquidity, NO_FACTS)
  {
  }

  predicate Fresh(db: Db, game: nat) {
    forall t :: 0 <= t < |db.trades| ==> db.trades[t].game != game
  }

  /** A game without a market for the leader: skipped at once, where the simulator goes on finding no price. */
  predicate NoMarketAgrees(p: Play, row: Trade, bankroll: int) {
    && p.side == Some(row.side) && p.row.None? && p.lastReason == Some(NoPrice) && bankroll == p.bankroll
    && row.status == Skipped && row.skipReason == Some(NoMarket)
  }

  predicate TradeOf(x: Input, g: Game, w: World, row: Trade) {
    row.strategy == w.strategy && row.game == g.id && row.version == x.version && row.ticker == TickerOf(x, g, row.side)
  }

  /** The live state `s`, reached from `s0` while the game is on, against the simulator's variables. */
  predicate Related(x: Input, g: Game, w: World, s0: Sys, p: Play, s: Sys) {
    && Idle(s)
    && if p.side.None? then
         s.db.trades == s0.db.trades && s.db.bankroll == p.bankroll && p.row.None?
       else
         var n := |s0.db.trades|;
         && |s.db.trades| == n + 1 && (forall t :: 0 <= t < n ==> s.db.trades[t] == s0.db.trades[t])
         && TradeOf(x, g, w, s.db.trades[n])
         && if s.db.trades[n].ticker.None? then NoMarketAgrees(p, s.db.trades[n], s.db.bankroll)
            else Agrees(x, g, p, s.db.trades[n], s.db.bankroll)
  }

  lemma {:induction false} OtherGamesTickNot(db: Db, busy: set<nat>, game: nat, sport: Sport, st: GameState, n: nat)
    requires n <= |db.trades| && forall t :: 0 <= t < n ==> db.trades[t].game != game
    ensures OnStateEvents(db, busy, game, sport, st, n) == []
  {
    if n > 0 {
      OtherGamesTickNot(db, busy, game, sport, st, n - 1);
    }
  }

  /** Of all trades only the newest is of this game, so a tracker update concerns that one alone. */
  lemma UpdateIsTick(x: Input, g: Game, w: World, s0: Sys, p: Play, s: Sys, st: GameState)
    requires Fresh(s0.db, g.id) && Related(x, g, w, s0, p, s) && p.side.Some?
    ensures Known(s.db, w.strategy, g.id)
    ensures var n := |s0.db.trades|;
            OnStateEvents(s.db, {}, g.id, x.sport, st, n + 1) == TickEvents(s.db.trades[n], false, g.id, x.sport, st, n)
  {
    var n := |s0.db.trades|;
    OtherGamesTickNot(s.db, {}, g.id, x.sport, st, n);
    assert s.db.trades[n].strategy == w.strategy;
  }

  lemma RuleSeesSame(x: Input, g: Game, minute: int)
    ensures EvaluateLeadAtTime(x.version.rule, x.sport, LiveState(x, g, minute)) == RuleAt(x, g, minute)
  {
    PregameIgnored(x.version.rule, x.sport, g.goals, minute, KickoffAsks(x, g),
                   if x.version.rule.underdogOnly then KickoffAsks(x, g) else Pregame(None, None));
  }

  /** What an executor tick triggers while the game is on. */
  lemma TriggersAre(x: Input, g: Game, w: World, s0: Sys, p: Play, s: Sys, minute: int)
    requires Fresh(s0.db, g.id) && Related(x, g, w, s0, p, s)
    requires x.version.rule.atMinute <= minute <= x.version.rule.atMinute + x.version.rule.windowMinutes
    ensures var n := |s0.db.trades|;
            var r := RuleAt(x, g, minute);
            Triggers(s, x, g, w, LiveState(x, g, minute))
            == if p.side.None? then
                 (if r.Match? then [OnSignal(Signal(w.strategy, g.id, r.side, TickerOf(x, g, r.side), x.version, w.windowEnds, DryRun))] else [])
               else if s.db.trades[n].status == Waiting && r.Match? && r.side == p.side.value then [Retry(n)]
               else []
  {
    RuleSeesSame(x, g, minute);
    if p.side.None? {
      assert !Known(s.db, w.strategy, g.id);
    } else {
      UpdateIsTick(x, g, w, s0, p, s, LiveState(x, g, minute));
      TickInsideWindow(x.version.rule, x.sport, g.goals, minute, KickoffAsks(x, g));
    }
  }

  /** Nothing is triggered: the tick leaves everything as it is. */
  lemma QuietTick(s: Sys, x: Input, g: Game, w: World, minute: int)
    requires Idle(s) && Triggers(s, x, g, w, LiveState(x, g, minute)) == []
    ensures Reactions(s, x, g, w, minute) == []
  {
  }

  /** One trigger that queues the trade: the tick is that step and the attempt. */
  lemma TriggeredTick(s: Sys, x: Input, g: Game, w: World, minute: int, e: Event)
    requires Enabled(s, e) && Triggers(s, x, g, w, LiveState(x, g, minute)) == [e]
    requires Possible(Step(s, e), Queued(Step(s, e), x, w, minute))
    ensures var es := Reactions(s, x, g, w, minute);
            Possible(s, es) && Run(s, es) == Run(Step(s, e), Queued(Step(s, e), x, w, minute))
  {
    RunSnoc(s, [], e);
    assert [] + [e] == [e];
    RunConcat(s, [e], Queued(Step(s, e), x, w, minute));
  }

  predicate Starts(x: Input, g: Game, p: Play, minute: int, side: Side) {
    RuleAt(x, g, minute).Match? && RuleAt(x, g, minute).side == side && p.row.None? && (p.side.None? || p.side.value == side)
  }

  predicate TickDone(x: Input, g: Game, w: World, s0: Sys, p': Play, s: Sys, minute: int) {
    var es := Reactions(s, x, g, w, minute);
    Possible(s, es) && Related(x, g, w, s0, p', Run(s, es))
  }

  lemma RetryTick(x: Input, g: Game, w: World, s0: Sys, p: Play, s: Sys, minute: int)
    requires Fresh(s0.db, g.id) && Related(x, g, w, s0, p, s) && AllCalm(x, g, w) && x.version.exec.minDepthContracts * 100 <= MAX_SAFE
    requires p.side.Some? && s.db.trades[|s0.db.trades|].ticker.Some? && Starts(x, g, p, minute, p.side.value)
    requires x.version.rule.atMinute <= minute <= x.version.rule.atMinute + x.version.rule.windowMinutes
    requires Tick(x, g, p, minute).Some?
    ensures TickDone(x, g, w, s0, Tick(x, g, p, minute).value, s, minute)
  {
    var n := |s0.db.trades|;
    var side := p.side.value;
    TriggersAre(x, g, w, s0, p, s, minute);
    var s1 := Step(s, Retry(n));
    assert Ready(x, s1, n, side);
    assert Calm(x, g, side, minute, s.clock, w.view(side, minute, s.clock));
    AttemptAgrees(x, g, p.(lastMinute := minute), side, minute, s1, n, w.view(side, minute, s.clock));
    assert p.(lastMinute := minute) == p.(side := Some(side), lastMinute := minute);
    TriggeredTick(s, x, g, w, minute, Retry(n));
  }

  lemma FirstMatchQueues(x: Input, g: Game, w: World, s0: Sys, p: Play, s: Sys, side: Side)
    requires Fresh(s0.db, g.id) && Related(x, g, w, s0, p, s) && p.side.None? && TickerOf(x, g, side).Some?
    ensures var e := OnSignal(Signal(w.strategy, g.id, side, TickerOf(x, g, side), x.version, w.windowEnds, DryRun));
            var n := |s0.db.trades|;
            var s1 := Step(s, e);
            && Ready(x, s1, n, side) && TradeOf(x, g, w, s1.db.trades[n]) && s1.clock == s.clock && s1.db.bankroll == s.db.bankroll
            && |s1.db.trades| == n + 1 && forall t :: 0 <= t < n ==> s1.db.trades[t] == s0.db.trades[t]
  {
    assert !Known(s.db, w.strategy, g.id);
  }

  lemma FirstTick(x: Input, g: Game, w: World, s0: Sys, p: Play, s: Sys, side: Side, minute: int)
    requires Fresh(s0.db, g.id) && Related(x, g, w, s0, p, s) && AllCalm(x, g, w) && x.version.exec.minDepthContracts * 100 <= MAX_SAFE
    requires p.side.None? && Starts(x, g, p, minute, side) && TickerOf(x, g, side).Some?
    requires x.version.rule.atMinute <= minute <= x.version.rule.atMinute + x.version.rule.windowMinutes
    requires Tick(x, g, p, minute).Some?
    ensures TickDone(x, g, w, s0, Tick(x, g, p, minute).value, s, minute)
  {
    var n := |s0.db.trades|;
    var e := OnSignal(Signal(w.strategy, g.id, side, TickerOf(x, g, side), x.version, w.windowEnds, DryRun));
    TriggersAre(x, g, w, s0, p, s, minute);
    FirstMatchQueues(x, g, w, s0, p, s, side);
    var s1 := Step(s, e);
    assert Calm(x, g, side, minute, s.clock, w.view(side, minute, s.clock));
    AttemptAgrees(x, g, p.(side := Some(side), lastMinute := minute), side, minute, s1, n, w.view(side, minute, s.clock));
    TriggeredTick(s, x, g, w, minute, e);
  }

  lemma NoMarketTick(x: Input, g: Game, w: World, s0: Sys, p: Play, s: Sys, side: Side, minute: int)
    requires Fresh(s0.db, g.id) && Related(x, g, w, s0, p, s)
    requires p.side.None? && Starts(x, g, p, minute, side) && TickerOf(x, g, side).None?
    requires x.version.rule.atMinute <= minute <= x.version.rule.atMinute + x.version.rule.windowMinutes
    ensures Tick(x, g, p, minute).Some? && TickDone(x, g, w, s0, Tick(x, g, p, minute).value, s, minute)
  {
    var e := OnSignal(Signal(w.strategy, g.id, side, TickerOf(x, g, side), x.version, w.windowEnds, DryRun));
    TriggersAre(x, g, w, s0, p, s, minute);
    assert !Known(s.db, w.strategy, g.id);
    assert Queued(Step(s, e), x, w, minute) == [];
    TriggeredTick(s, x, g, w, minute, e);
  }

  /** What a tick causes in the live system is what it does in the simulator. */
  lemma ReactionsAgree(x: Input, g: Game, w: World, s0: Sys, p: Play, s: Sys, minute: int)
    requires Fresh(s0.db, g.id) && Related(x, g, w, s0, p, s) && AllCalm(x, g, w) && x.version.exec.minDepthContracts * 100 <= MAX_SAFE
    requires x.version.rule.atMinute <= minute <= x.version.rule.atMinute + x.version.rule.windowMinutes
    requires p.row.None? && Tick(x, g, p, minute).Some?
    ensures TickDone(x, g, w, s0, Tick(x, g, p, minute).value, s, minute)
  {
    var r := RuleAt(x, g, minute);
    if r.Match? && p.side.None? {
      if TickerOf(x, g, r.side).None? {
        NoMarketTick(x, g, w, s0, p, s, r.side, minute);
      } else {
        FirstTick(x, g, w, s0, p, s, r.side, minute);
      }
    } else if r.Match? && p.side == Some(r.side) && s.db.trades[|s0.db.trades|].ticker.Some? {
      RetryTick(x, g, w, s0, p, s, minute);
    } else {
      TriggersAre(x, g, w, s0, p, s, minute);
      QuietTick(s, x, g, w, minute);
    }
  }

  lemma AfterWait(s: Sys, x: Input, g: Game, w: World, minute: int)
    requires var s1 := Step(s, Advance(w.wait(minute))); Possible(s1, Reactions(s1, x, g, w, minute))
    ensures var s1 := Step(s, Advance(w.wait(minute)));
            && Possible(s, TickRun(s, x, g, w, minute))
            && Run(s, TickRun(s, x, g, w, minute)) == Run(s1, Reactions(s1, x, g, w, minute))
  {
    var e := Advance(w.wait(minute));
    RunCons(s, e, Reactions(Step(s, e), x, g, w, minute));
  }

  /** One tick of the live system does what one tick of the simulator does. */
  lemma TickAgrees(x: Input, g: Game, w: World, s0: Sys, p: Play, s: Sys, minute: int)
    requires Fresh(s0.db, g.id) && Related(x, g, w, s0, p, s) && AllCalm(x, g, w) && x.version.exec.minDepthContracts * 100 <= MAX_SAFE
    requires x.version.rule.atMinute <= minute <= x.version.rule.atMinute + x.version.rule.windowMinutes
    requires p.row.None? && Tick(x, g, p, minute).Some?
    ensures Possible(s, TickRun(s, x, g, w, minute))
    ensures Related(x, g, w, s0, Tick(x, g, p, minute).value, Run(s, TickRun(s, x, g, w, minute)))
  {
    var s1 := Step(s, Advance(w.wait(minute)));
    assert Related(x, g, w, s0, p, s1);
    ReactionsAgree(x, g, w, s0, p, s1, minute);
    AfterWait(s, x, g, w, minute);
  }

  /** Once the trade is filled or skipped, a tick does nothing. */
  lemma DoneTick(x: Input, g: Game, w: World, s0: Sys, p: Play, s: Sys, minute: int)
    requires Fresh(s0.db, g.id) && Related(x, g, w, s0, p, s) && p.row.Some?
    requires x.version.rule.atMinute <= minute <= x.version.rule.atMinute + x.version.rule.windowMinutes
    ensures Possible(s, TickRun(s, x, g, w, minute)) && Related(x, g, w, s0, p, Run(s, TickRun(s, x, g, w, minute)))
  {
    var s1 := Step(s, Advance(w.wait(minute)));
    assert Related(x, g, w, s0, p, s1);
    TriggersAre(x, g, w, s0, p, s1, minute);
    QuietTick(s1, x, g, w, minute);
    AfterWait(s, x, g, w, minute);
  }

  /** One tick further, in both systems. */
  lemma OneTick(x: Input, g: Game, w: World, s0: Sys, p: Play, s: Sys, from: int, to: int) returns (next: Play)
    requires Fresh(s0.db, g.id) && Related(x, g, w, s0, p, s) && AllCalm(x, g, w) && x.version.exec.minDepthContracts * 100 <= MAX_SAFE
    requires x.version.rule.atMinute <= from <= to <= x.version.rule.atMinute + x.version.rule.windowMinutes
    requires Ticks(x, g, p, from, to).Some?
    ensures Possible(s, TickRun(s, x, g, w, from)) && Related(x, g, w, s0, next, Run(s, TickRun(s, x, g, w, from)))
    ensures Ticks(x, g, p, from, to) == Ticks(x, g, next, from + 1, to)
  {
    if p.row.Some? {
      DoneTick(x, g, w, s0, p, s, from);
      TicksStop(x, g, p, from, to);
      TicksStop(x, g, p, from + 1, to);
      next := p;
    } else {
      TickAgrees(x, g, w, s0, p, s, from);
      next := Tick(x, g, p, from).value;
      TicksGoOn(x, g, p, from, next, to);
    }
  }

  lemma {:induction false} TicksAgree(x: Input, g: Game, w: World, s0: Sys, p: Play, s: Sys, from: int, to: int)
    requires Fresh(s0.db, g.id) && Related(x, g, w, s0, p, s) && AllCalm(x, g, w) && x.version.exec.minDepthContracts * 100 <= MAX_SAFE
    requires x.version.rule.atMinute <= from && to <= x.version.rule.atMinute + x.version.rule.windowMinutes
    requires Ticks(x, g, p, from, to).Some?
    ensures Possible(s, TickRuns(s, x, g, w, from, to))
    ensures Related(x, g, w, s0, Ticks(x, g, p, from, to).value, Run(s, TickRuns(s, x, g, w, from, to)))
    decreases 1 + to - from
  {
    if from <= to {
      var next := OneTick(x, g, w, s0, p, s, from, to);
      var s1 := Run(s, TickRun(s, x, g, w, from));
      TicksAgree(x, g, w, s0, next, s1, from + 1, to);
      TickRunsGoOn(s, x, g, w, from, to);
    } else {
      TicksStop(x, g, p, from, to);
    }
  }

  lemma TickRunsGoOn(s: Sys, x: Input, g: Game, w: World, from: int, to: int)
    requires from <= to && Possible(s, TickRun(s, x, g, w, from))
    requires var s1 := Run(s, TickRun(s, x, g, w, from)); Possible(s1, TickRuns(s1, x, g, w, from + 1, to))
    ensures var s1 := Run(s, TickRun(s, x, g, w, from));
            && Possible(s, TickRuns(s, x, g, w, from, to))
            && Run(s, TickRuns(s, x, g, w, from, to)) == Run(s1, TickRuns(s1, x, g, w, from + 1, to))
  {
    var es := TickRun(s, x, g, w, from);
    RunConcat(s, es, TickRuns(Run(s, es), x, g, w, from + 1, to));
  }

  // ---- one game -----------------------------------------------------------------------------------------

  /** A simulated row and the live trade it stands for: side, price, count, stake, fee, settlement value and P&L
      of a fill, won, lost or void by that value, or the reason of a skip. */
  predicate SameOutcome(r: Row, t: Trade) {
    && t.game == r.game && t.side == r.side
    && match r.bought
       case Some(b) =>
         && r.skip.None? && t.skipReason == None && t.mode == DryRun
         && t.status == (if b.valueBp == 10_000 then SettledWon else if b.valueBp == 0 then SettledLost else SettledVoid)
         && r.priceBp.Some? && t.fill == Some(Fill(b.cc, r.priceBp.value, b.cc * r.priceBp.value, b.fee))
         && t.terms.Some? && t.terms.value.stake == b.stake && t.terms.value.limitBp == r.priceBp.value && t.terms.value.requestedCc == b.cc
         && t.settlement == Some(Settlement(b.valueBp, b.cc * b.valueBp, b.pnl, false))
       case None =>
         && r.skip.Some? && t.status == Skipped
         && t.skipReason == Some(if t.ticker.None? then NoMarket else LiveReason(r.skip.value))
         && (t.ticker.None? ==> r.skip.value == NoPrice)
  }

  /** `s` is `s0` with at most one more trade, the one of the row, settled at what the goals make of its market, and the
      simulator's bankroll. */
  ghost predicate Ended(x: Input, g: Game, w: World, s0: Sys, row: Option<Row>, bankroll: int, s: Sys) {
    && Idle(s) && s.db.bankroll == bankroll
    && if row.None? then s.db.trades == s0.db.trades
       else
         var n := |s0.db.trades|;
         && |s.db.trades| == n + 1 && (forall t :: 0 <= t < n ==> s.db.trades[t] == s0.db.trades[t])
         && TradeOf(x, g, w, s.db.trades[n]) && SameOutcome(row.value, s.db.trades[n])
         && (row.value.bought.Some? ==> WorthAtEnd(x.sport, g, row.value.side, row.value.bought.value.valueBp))
  }

  ghost predicate EndAgrees(x: Input, g: Game, w: World, s0: Sys, p: Play, s: Sys) {
    var es := EndEvents(s, x, g);
    Possible(s, es) && Ended(x, g, w, s0, Close(g, p).row, p.bankroll, Run(s, es))
  }

  /** Without a fill to settle, the end of the game is one more update. */
  lemma EndIsTick(x: Input, g: Game, w: World, s0: Sys, p: Play, s: Sys)
    requires Fresh(s0.db, g.id) && Related(x, g, w, s0, p, s) && p.side.Some? && s.db.trades[|s0.db.trades|].status != Filled
    ensures EndEvents(s, x, g) == TickEvents(s.db.trades[|s0.db.trades|], false, g.id, x.sport, Over(x, g), |s0.db.trades|)
  {
    UpdateIsTick(x, g, w, s0, p, s, Over(x, g));
  }

  lemma NothingToEnd(x: Input, g: Game, w: World, s0: Sys, p: Play, s: Sys)
    requires Fresh(s0.db, g.id) && Related(x, g, w, s0, p, s)
    requires p.side.None? || s.db.trades[|s0.db.trades|].status == Skipped
    ensures EndEvents(s, x, g) == []
  {
    if p.side.None? {
      OtherGamesTickNot(s.db, {}, g.id, x.sport, Over(x, g), |s.db.trades|);
    } else {
      EndIsTick(x, g, w, s0, p, s);
    }
  }

  lemma OverCloses(x: Input, g: Game, row: Trade, n: nat)
    requires row.status == Waiting && row.game == g.id
    ensures TickEvents(row, false, g.id, x.sport, Over(x, g), n) == [ExpireTrade(n)]
  {
  }

  lemma ExpiredAgrees(x: Input, g: Game, w: World, s0: Sys, p: Play, s: Sys)
    requires Related(x, g, w, s0, p, s)
    requires p.side.Some? && p.row.None? && s.db.trades[|s0.db.trades|].ticker.Some?
    ensures Ended(x, g, w, s0, Close(g, p).row, p.bankroll, Step(s, ExpireTrade(|s0.db.trades|)))
  {
  }

  lemma WindowEnds(x: Input, g: Game, w: World, s0: Sys, p: Play, s: Sys)
    requires Fresh(s0.db, g.id) && Related(x, g, w, s0, p, s)
    requires p.side.Some? && p.row.None? && s.db.trades[|s0.db.trades|].ticker.Some?
    ensures EndAgrees(x, g, w, s0, p, s)
  {
    var n := |s0.db.trades|;
    EndIsTick(x, g, w, s0, p, s);
    OverCloses(x, g, s.db.trades[n], n);
    ExpiredAgrees(x, g, w, s0, p, s);
    RunSnoc(s, [], ExpireTrade(n));
    assert [] + [ExpireTrade(n)] == [ExpireTrade(n)];
  }

  lemma NewestIsListed(db: Db)
    requires db.trades != [] && db.trades[|db.trades| - 1].status == Filled
    ensures var found := FilledTrades(db, |db.trades|);
            found != [] && found[|found| - 1] == Read(|db.trades| - 1, db.trades[|db.trades| - 1])
  {
  }

  lemma SettledAgrees(x: Input, g: Game, w: World, s0: Sys, p: Play, s: Sys)
    requires Related(x, g, w, s0, p, s) && p.row.Some? && p.row.value.bought.Some?
    ensures var n := |s0.db.trades|;
            n < |s.db.trades|
            && Ended(x, g, w, s0, p.row, p.bankroll, s.(db := Settle(s.db, n, s.db.trades[n], p.row.value.bought.value.valueBp, false)))
  {
  }

  lemma EndIsSettle(x: Input, g: Game, w: World, s0: Sys, p: Play, s: Sys)
    requires Related(x, g, w, s0, p, s) && p.row.Some? && p.row.value.bought.Some?
    ensures EndEvents(s, x, g)
            == [SettleStart, SettleTrade(|FilledTrades(s.db, |s.db.trades|)| - 1, p.row.value.bought.value.valueBp, false)]
  {
    NewestIsListed(s.db);
  }

  lemma SettleStep(s: Sys, valueBp: int)
    requires s.process.Up? && s.db.trades != [] && s.db.trades[|s.db.trades| - 1].status == Filled
    ensures var n := |s.db.trades| - 1;
            var s1 := Step(s, SettleStart);
            var e := SettleTrade(|FilledTrades(s.db, n + 1)| - 1, valueBp, false);
            && Enabled(s1, e) && Step(s1, e) == s1.(db := Settle(s.db, n, s.db.trades[n], valueBp, false))
  {
    NewestIsListed(s.db);
  }

  lemma SettleRuns(s: Sys, valueBp: int)
    requires s.process.Up? && s.db.trades != [] && s.db.trades[|s.db.trades| - 1].status == Filled
    ensures var n := |s.db.trades| - 1;
            var es := [SettleStart, SettleTrade(|FilledTrades(s.db, n + 1)| - 1, valueBp, false)];
            && Possible(s, es)
            && Run(s, es) == Step(s, SettleStart).(db := Settle(s.db, n, s.db.trades[n], valueBp, false))
  {
    SettleStep(s, valueBp);
    var e := SettleTrade(|FilledTrades(s.db, |s.db.trades|)| - 1, valueBp, false);
    RunSnoc(s, [], SettleStart);
    RunSnoc(s, [SettleStart], e);
    assert [] + [SettleStart] == [SettleStart] && [SettleStart] + [e] == [SettleStart, e];
  }

  lemma FillSettles(x: Input, g: Game, w: World, s0: Sys, p: Play, s: Sys)
    requires Fresh(s0.db, g.id) && Related(x, g, w, s0, p, s)
    requires p.row.Some? && p.row.value.bought.Some?
    ensures EndAgrees(x, g, w, s0, p, s)
  {
    EndIsSettle(x, g, w, s0, p, s);
    SettleRuns(s, p.row.value.bought.value.valueBp);
    SettledAgrees(x, g, w, s0, p, Step(s, SettleStart));
  }

  lemma GameEnds(x: Input, g: Game, w: World, s0: Sys, p: Play, s: Sys)
    requires Fresh(s0.db, g.id) && Related(x, g, w, s0, p, s)
    ensures EndAgrees(x, g, w, s0, p, s)
  {
    if p.side.None? || s.db.trades[|s0.db.trades|].status == Skipped {
      NothingToEnd(x, g, w, s0, p, s);
    } else if p.row.None? {
      WindowEnds(x, g, w, s0, p, s);
    } else {
      FillSettles(x, g, w, s0, p, s);
    }
  }

  predicate Comparable(x: Input) { x.version.exec.minDepthContracts * 100 <= MAX_SAFE }

  /** Whenever the simulator plays a game through, the live system driven through the same ticks can run, and it
      ends with the same trade or none, and with the simulator's bankroll. */
  lemma ReturnedGameRefines(x: Input, g: Game, w: World, s: Sys)
    requires Idle(s) && Fresh(s.db, g.id) && AllCalm(x, g, w) && Comparable(x)
    requires PlayGame(x, g, s.db.bankroll).Some?
    ensures var p := PlayGame(x, g, s.db.bankroll).value;
            var es := GameRun(s, x, g, w);
            && Possible(s, es)
            && Ended(x, g, w, s, p.row, p.bankroll, Run(s, es))
  {
    var from, last := x.version.rule.atMinute, LastTick(x);
    TicksAgree(x, g, w, s, Kickoff(s.db.bankroll), s, from, last);
    var es := TickRuns(s, x, g, w, from, last);
    GameEnds(x, g, w, s, Ticks(x, g, Kickoff(s.db.bankroll), from, last).value, Run(s, es));
    RunConcat(s, es, EndEvents(Run(s, es), x, g));
  }

  /** With settings that the pricing functions take and a cell for every matching tick, the simulator plays the game
      through, and the live system driven through the same ticks can run and ends with the same trade or none, and
      with the simulator's bankroll. */
  lemma GameRefines(x: Input, g: Game, w: World, s: Sys)
    requires Idle(s) && Fresh(s.db, g.id) && AllCalm(x, g, w) && Comparable(x)
    requires SettingsOk(x) && IsSafe(s.db.bankroll) && CellsOk(x, g)
    ensures PlayGame(x, g, s.db.bankroll).Some? && Possible(s, GameRun(s, x, g, w))
    ensures var p := PlayGame(x, g, s.db.bankroll).value;
            Ended(x, g, w, s, p.row, p.bankroll, Run(s, GameRun(s, x, g, w)))
  {
    GameReturns(x, g, s.db.bankroll);
    ReturnedGameRefines(x, g, w, s);
  }

  // ---- where the simulator throws -----------------------------------------------------------------------

  lemma FeeRefusedEnds(s0: Sys, s: Sys, n: nat, x: Input, terms: Terms, cc: int)
    requires WaitsAt(s0, s, n, AwaitingFee(terms, cc)) && FeeMicros(cc, terms.limitBp, x.milli, x.prec).None?
    ensures Possible(s, Finishing(s, x)) && WasRejected(s0, Run(s, Finishing(s, x)), n, ErrorReason)
  {
    var e := FeeDone(x.milli, x.prec);
    var s1 := Step(s, e);
    assert WaitsAt(s0, s1, n, Closing(AttemptError, ErrorReason, None, None));
    Finishes(s0, s1, n, AttemptError, ErrorReason, None, None);
    RunSnoc(s, [], e);
    assert [] + [e] == [e];
    RunSnoc(s, [e], CloseAttemptRow);
    RunSnoc(s, [e] + [CloseAttemptRow], CloseTradeRow);
    assert Finishing(s, x) == [e] + [CloseAttemptRow] + [CloseTradeRow];
  }

  /** Where a try of the simulator throws for its arguments, which ends the whole backtest, the executor's attempt
      ends as an error and the trade waits for the next tick. */
  lemma ThrownTryIsError(x: Input, g: Game, p: Play, side: Side, minute: int, s: Sys, n: nat, d: MarketRead)
    requires Ready(x, s, n, side) && Calm(x, g, side, minute, s.clock, d) && Comparable(x)
    requires s.db.bankroll == p.bankroll && Try(x, g, p, side, minute).None? && !CellMissing(x, g, minute)
    ensures var es := AttemptEvents(s, x, d);
            Possible(s, es) && WasRejected(s, Run(s, es), n, ErrorReason)
  {
    TryThrowsExactly(x, g, p, side, minute);
    var ask := PriceAt(x, g, side, minute).value.value.bp;
    var begin := [BeginNext(Runs(DryRun), true), ReadDone(Some(d))];
    SameEntry(x, g, side, minute, s.db, s.clock, s.db.trades[n], |s.db.attempts|, d);
    Begins(s, n, d);
    var s1 := Run(s, begin);
    var input := EntryOf(s.db, s.clock, s.db.trades[n], DryRun, |s.db.attempts|, d);
    var r := EvaluateEntry(input);
    if r.Throws? {
      Rejects(s, s1, n, x, AttemptError, ErrorReason, None, None);
    } else {
      CountFitsLevel(input, ask);
      FeeRefusedEnds(s, s1, n, x, Terms(s.db.bankroll, r.stake, r.limitBp, r.requestedCc), r.requestedCc);
    }
    AttemptRunIs(s, x, d);
  }

  // ---- the whole backtest -------------------------------------------------------------------------------

  function BacktestRun(s: Sys, x: Input, games: seq<Game>, worlds: seq<World>): seq<Event>
    requires |worlds| == |games|
    decreases |games|
  {
    if games == [] then []
    else
      var n := |games| - 1;
      var es := BacktestRun(s, x, games[..n], worlds[..n]);
      if !Possible(s, es) then [] else es + GameRun(Run(s, es), x, games[n], worlds[n])
  }

  ghost predicate Scheduled(x: Input, games: seq<Game>, worlds: seq<World>, s: Sys) {
    && |worlds| == |games| && Comparable(x)
    && (forall k :: 0 <= k < |games| ==> Fresh(s.db, games[k].id) && AllCalm(x, games[k], worlds[k]))
    && forall j, k :: 0 <= j < k < |games| ==> games[j].id != games[k].id
  }

  /** The live trades after the first `n0` are those of the rows, one for one, in order. */
  predicate Mirrors(s0: Sys, rows: seq<Row>, s: Sys) {
    var n := |s0.db.trades|;
    && |s.db.trades| == n + |rows|
    && (forall t :: 0 <= t < n ==> s.db.trades[t] == s0.db.trades[t])
    && forall k :: 0 <= k < |rows| ==> SameOutcome(rows[k], s.db.trades[n + k])
  }

  lemma StillFresh(s0: Sys, rows: seq<Row>, s: Sys, game: nat)
    requires Mirrors(s0, rows, s) && Fresh(s0.db, game) && forall k :: 0 <= k < |rows| ==> rows[k].game != game
    ensures Fresh(s.db, game)
  {
    forall t | 0 <= t < |s.db.trades|
      ensures s.db.trades[t].game != game
    {
      if t >= |s0.db.trades| { assert SameOutcome(rows[t - |s0.db.trades|], s.db.trades[t]); }
    }
  }

  /** Where the live system stands after the games before the last. */
  predicate Followed(s0: Sys, result: Result, s: Sys) {
    Idle(s) && s.db.bankroll == result.bankroll && Mirrors(s0, result.rows, s)
  }

  lemma EndedMirrors(x: Input, g: Game, w: World, s0: Sys, result: Result, s1: Sys, p: Play, s2: Sys)
    requires Followed(s0, result, s1) && Ended(x, g, w, s1, p.row, p.bankroll, s2)
    ensures Followed(s0, Result(result.rows + RowsOf(p), p.bankroll), s2)
  {
    var n := |s0.db.trades|;
    var rows := result.rows + RowsOf(p);
    if p.row.None? {
      assert rows == result.rows;
    }
    forall k | 0 <= k < |rows|
      ensures SameOutcome(rows[k], s2.db.trades[n + k])
    {
      if k < |result.rows| { assert SameOutcome(result.rows[k], s1.db.trades[n + k]); }
    }
  }

  /** The rows of earlier games carry other ids. */
  lemma LastIsFresh(x: Input, games: seq<Game>, worlds: seq<World>, s: Sys, s1: Sys)
    requires games != [] && Scheduled(x, games, worlds, s) && Simulation(x, games[..|games| - 1], s.db.bankroll).Some?
    requires Followed(s, Simulation(x, games[..|games| - 1], s.db.bankroll).value, s1)
    ensures Fresh(s1.db, games[|games| - 1].id)
  {
    var n := |games| - 1;
    var rows := Simulation(x, games[..n], s.db.bankroll).value.rows;
    var idx := BacktestMeaning(x, games[..n], s.db.bankroll);
    forall k | 0 <= k < |rows|
      ensures rows[k].game != games[n].id
    {
      assert RowFor(x, games[..n], rows, s.db.bankroll, idx[k], k);
    }
    StillFresh(s, rows, s1, games[n].id);
  }

  lemma ScheduledBefore(x: Input, games: seq<Game>, worlds: seq<World>, s: Sys)
    requires games != [] && Scheduled(x, games, worlds, s)
    ensures Scheduled(x, games[..|games| - 1], worlds[..|games| - 1], s)
  {
  }

  /** Whenever a whole backtest succeeds, the live system driven through the same games can run, and it ends with
      the same trades in the same order and with the same bankroll. */
  lemma {:induction false} ReturnedSimulationRefines(x: Input, games: seq<Game>, worlds: seq<World>, s: Sys)
    requires Idle(s) && Scheduled(x, games, worlds, s) && Simulation(x, games, s.db.bankroll).Some?
    ensures Possible(s, BacktestRun(s, x, games, worlds))
    ensures Followed(s, Simulation(x, games, s.db.bankroll).value, Run(s, BacktestRun(s, x, games, worlds)))
    decreases |games|
  {
    if games != [] {
      var n := |games| - 1;
      SimulationLast(x, games, s.db.bankroll);
      ScheduledBefore(x, games, worlds, s);
      ReturnedSimulationRefines(x, games[..n], worlds[..n], s);
      var before := Simulation(x, games[..n], s.db.bankroll).value;
      var es := BacktestRun(s, x, games[..n], worlds[..n]);
      var s1 := Run(s, es);
      LastIsFresh(x, games, worlds, s, s1);
      assert AllCalm(x, games[n], worlds[n]);
      ReturnedGameRefines(x, games[n], worlds[n], s1);
      var p := PlayGame(x, games[n], before.bankroll).value;
      EndedMirrors(x, games[n], worlds[n], s, before, s1, p, Run(s1, GameRun(s1, x, games[n], worlds[n])));
      RunConcat(s, es, GameRun(s1, x, games[n], worlds[n]));
    }
  }

  /** With settings that the pricing functions take and a cell for every matching tick of every game, the backtest
      returns, and the live system driven through the same games can run and ends with the same trades in the same
      order and with the same bankroll. */
  lemma SimulationRefines(x: Input, games: seq<Game>, worlds: seq<World>, s: Sys)
    requires Idle(s) && Scheduled(x, games, worlds, s)
    requires SettingsOk(x) && StaysSafe(x, s.db.bankroll, |games|) && forall k :: 0 <= k < |games| ==> CellsOk(x, games[k])
    ensures Simulation(x, games, s.db.bankroll).Some? && Possible(s, BacktestRun(s, x, games, worlds))
    ensures Followed(s, Simulation(x, games, s.db.bankroll).value, Run(s, BacktestRun(s, x, games, worlds)))
    ensures forall k :: 0 <= k < |Simulation(x, games, s.db.bankroll).value.rows| ==>
                          AtResult(x, games, Simulation(x, games, s.db.bankroll).value.rows[k])
  {
    InputsReturn(x, games, s.db.bankroll);
    ReturnedSimulationRefines(x, games, worlds, s);
    RowsAtResult(x, games, s.db.bankroll);
  }

  /** A world that is calm: an open market, an observation just made, the simulator's price as the only level. */
  function CalmWorld(x: Input, g: Game, strategy: nat, windowEnds: int): World {
    World(strategy, windowEnds, minute => 60_000,
          (side, minute, now) =>
            MarketRead(MarketView(Some("open"), None), true, Some(now), false, AsksOf(x, g, side, minute), RangesOf(x, g, side), 0, Runs(DryRun)))
  }

  lemma CalmWorldIsCalm(x: Input, g: Game, strategy: nat, windowEnds: int)
    requires x.version.exec.maxFeedAgeSec >= 0
    ensures AllCalm(x, g, CalmWorld(x, g, strategy, windowEnds))
  {
  }

  /** So every such backtest of games with ids of their own is a run of the live system from any idle state. */
  lemma EveryBacktestIsLiveRun(x: Input, games: seq<Game>, s: Sys, strategy: nat, windowEnds: int) returns (worlds: seq<World>)
    requires Idle(s) && Comparable(x) && SettingsOk(x) && StaysSafe(x, s.db.bankroll, |games|) && x.version.exec.maxFeedAgeSec >= 0
    requires forall k :: 0 <= k < |games| ==> CellsOk(x, games[k]) && Fresh(s.db, games[k].id)
    requires forall j, k :: 0 <= j < k < |games| ==> games[j].id != games[k].id
    ensures |worlds| == |games| && Simulation(x, games, s.db.bankroll).Some? && Possible(s, BacktestRun(s, x, games, worlds))
    ensures Followed(s, Simulation(x, games, s.db.bankroll).value, Run(s, BacktestRun(s, x, games, worlds)))
  {
    worlds := seq(|games|, k requires 0 <= k < |games| => CalmWorld(x, games[k], strategy, windowEnds));
    forall k | 0 <= k < |games|
      ensures AllCalm(x, games[k], worlds[k])
    {
      CalmWorldIsCalm(x, games[k], strategy, windowEnds);
    }
    SimulationRefines(x, games, worlds, s);
  }
}
