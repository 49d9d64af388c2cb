/** The entry guards (app/src/core/guards.ts) and the effective mode (app/src/core/modes.ts). */
module Guards {
  import opened Pricing

  datatype Mode = Live | DryRun

  /** `effectiveMode`: paused, or running in a mode. */
  datatype Effective = Paused | Runs(mode: Mode)

  datatype Switches = Switches(globalKill: bool, strategyKill: bool, allowLive: bool, globalDryRun: bool, configured: Mode)

  function EffectiveMode(s: Switches): Effective {
    if s.globalKill || s.strategyKill then Paused
    else if !s.allowLive || s.globalDryRun || s.configured == DryRun then Runs(DryRun)
    else Runs(Live)
  }

  /** Every reason an attempt or a trade records: the guard table, then the executor's own reasons. */
  datatype Reason =
    | PausedReason | MarketClosed | ExchangePaused | StaleFeed | FeedBlocked | PriceReason | MinPrice | Liquidity
    | TooSmall | Unfilled | OrderGroupLimit | OrderRejected | ErrorReason
    | Restart | RestartNoOrder | OrderNotFound | ModeChanged | NoMarket | WindowExpired | NoPrice

  /** The guards whose failure ends the trade. */
  predicate IsHard(r: Reason) {
    r in {PausedReason, MarketClosed, TooSmall, OrderRejected}
  }

  datatype AskLevel = AskLevel(priceBp: int, sizeCc: int)

  datatype MarketView = MarketView(status: Option<string>, closeTimeMs: Option<int>)

  /** A field that the caller may omit is an `Option`; `newest` is doubly optional (omitted, or nothing observed). */
  datatype EntryInput = EntryInput(
    mode: Effective, nowMs: int, market: Option<MarketView>, tradingActive: Option<bool>,
    newest: Option<Option<int>>, maxFeedAgeSec: int, blocked: Option<bool>, asks: seq<AskLevel>,
    maxPriceBp: int, minPriceBp: Option<int>, maxSlippageBp: int, ranges: seq<PriceRange>,
    minDepthContracts: int, balance: int, percentCenti: int, minStake: int, maxStake: int)

  datatype Facts = Facts(bestAskBp: Option<int>, limitBp: Option<int>, depthCc: Option<int>, stake: Option<int>, requestedCc: Option<int>)

  const NO_FACTS := Facts(None, None, None, None, None)

  /** `Throws` is a RangeError out of the pricing functions. */
  datatype EntryResult =
    | Accept(bestAskBp: int, limitBp: int, depthCc: int, stake: int, requestedCc: int)
    | Reject(reason: Reason, facts: Facts)
    | Throws

  /** The cheapest ask, whatever the order of the levels. */
  function BestAsk(asks: seq<AskLevel>): Option<int> {
    if asks == [] then None
    else
      var best := BestAsk(asks[..|asks| - 1]);
      var p := asks[|asks| - 1].priceBp;
      if best.None? || p < best.value then Some(p) else best
  }

  function DepthAtOrBelow(asks: seq<AskLevel>, limitBp: int): int {
    if asks == [] then 0
    else
      var l := asks[|asks| - 1];
      DepthAtOrBelow(asks[..|asks| - 1], limitBp) + if l.priceBp <= limitBp then l.sizeCc else 0
  }

  lemma OneLevel(a: AskLevel, limit: int)
    ensures BestAsk([a]) == Some(a.priceBp)
    ensures DepthAtOrBelow([a], limit) == if a.priceBp <= limit then a.sizeCc else 0
  {
    assert [a][..0] == [];
  }

  predicate MarketOpen(i: EntryInput) {
    i.market.None? ||
    var m := i.market.value;
    && m.status.Some? && m.status.value in {"open", "active"}
    && (m.closeTimeMs.None? || m.closeTimeMs.value > i.nowMs)
  }

  predicate FeedFresh(i: EntryInput) {
    i.newest.None? || (i.newest.value.Some? && i.nowMs - i.newest.value.value <= i.maxFeedAgeSec * 1000)
  }

  function EvaluateEntry(i: EntryInput): EntryResult {
    if i.mode == Paused then Reject(PausedReason, NO_FACTS)
    else if !MarketOpen(i) then Reject(MarketClosed, NO_FACTS)
    else if i.tradingActive == Some(false) then Reject(ExchangePaused, NO_FACTS)
    else if !FeedFresh(i) then Reject(StaleFeed, NO_FACTS)
    else if i.blocked == Some(true) then Reject(FeedBlocked, NO_FACTS)
    else
      var best := BestAsk(i.asks);
      if best.None? then Reject(Liquidity, NO_FACTS) else PriceChecks(i, best.value)
  }

  function PriceChecks(i: EntryInput, best: int): EntryResult {
    var facts := NO_FACTS.(bestAskBp := Some(best));
    if best > i.maxPriceBp then Reject(PriceReason, facts)
    else if i.minPriceBp.Some? && best < i.minPriceBp.value then Reject(MinPrice, facts)
    else
      var limit := LimitPriceBp(best, i.maxSlippageBp, i.maxPriceBp, i.ranges);
      if limit.None? then Throws
      else if limit.value.None? || limit.value.value < best then Reject(PriceReason, facts.(limitBp := limit.value))
      else SizeChecks(i, best, limit.value.value)
  }

  function SizeChecks(i: EntryInput, best: int, limit: int): EntryResult {
    var depth := DepthAtOrBelow(i.asks, limit);
    var stake := StakeMicros(i.balance, i.percentCenti, i.minStake, i.maxStake);
    var contracts := ContractsFor(stake, limit);
    var facts := Facts(Some(best), Some(limit), Some(depth), None, None);
    if depth < i.minDepthContracts * 100 then Reject(Liquidity, facts)
    else if !StakeInputOk(i.balance, i.percentCenti, i.minStake, i.maxStake) || contracts.None? then Throws
    else if contracts.value < 1 then Reject(TooSmall, facts.(stake := Some(stake), requestedCc := Some(contracts.value * 100)))
    else Accept(best, limit, depth, stake, contracts.value * 100)
  }

  /** The best ask is the minimum of the book. */
  lemma {:induction false} BestAskIsMinimum(asks: seq<AskLevel>)
    ensures BestAsk(asks).None? <==> asks == []
    ensures forall k :: 0 <= k < |asks| ==> BestAsk(asks).value <= asks[k].priceBp
    ensures asks != [] ==> exists k :: 0 <= k < |asks| && asks[k].priceBp == BestAsk(asks).value
  {
    if asks != [] {
      var n := |asks| - 1;
      BestAskIsMinimum(asks[..n]);
      assert asks[n].priceBp >= BestAsk(asks).value;
      if BestAsk(asks).value != asks[n].priceBp {
        var k :| 0 <= k < n && asks[..n][k].priceBp == BestAsk(asks[..n]).value;
        assert asks[k].priceBp == BestAsk(asks).value;
      }
    }
  }

  /** `g` is a price a limit may take: on the market's grid, within the slippage and the strategy's cap. */
  ghost predicate Allowed(i: EntryInput, best: int, g: int) {
    OnGrid(g, Ranges(i.ranges)) && g <= best + i.maxSlippageBp && g <= i.maxPriceBp
  }

  /** The market is `open` or `active` and does not close before now. */
  ghost predicate Trades(i: EntryInput) {
    i.market.Some? ==>
      && (i.market.value.status == Some("open") || i.market.value.status == Some("active"))
      && (i.market.value.closeTimeMs.Some? ==> i.nowMs < i.market.value.closeTimeMs.value)
  }

  /** Something was observed, no longer ago than allowed. */
  ghost predicate Observed(i: EntryInput) {
    i.newest.Some? ==> i.newest.value.Some? && i.nowMs - i.newest.value.value <= 1000 * i.maxFeedAgeSec
  }

  /** The guards before the price. What the caller left out is not checked. */
  ghost predicate Admits(i: EntryInput) {
    i.mode != Paused && Trades(i) && i.tradingActive != Some(false) && Observed(i) && i.blocked != Some(true)
  }

  /** What is offered at or below a price adds up over the levels, in any order. */
  lemma {:induction false} DepthAdds(a: seq<AskLevel>, b: seq<AskLevel>, limit: int)
    ensures DepthAtOrBelow(a + b, limit) == DepthAtOrBelow(a, limit) + DepthAtOrBelow(b, limit)
    ensures |a| == 1 ==> DepthAtOrBelow(a, limit) == if a[0].priceBp <= limit then a[0].sizeCc else 0
    decreases |b|
  {
    if |a| == 1 { OneLevel(a[0], limit); assert a == [a[0]]; }
    if b == [] {
      assert a + b == a;
    } else {
      assert (a + b)[..|a + b| - 1] == a + b[..|b| - 1];
      DepthAdds(a, b[..|b| - 1], limit);
    }
  }

  /** What an accepted entry promises: every guard holds, the limit is the greatest allowed price and covers the
      best ask, the depth is what is offered at or below it, and the count is the most the stake pays for. */
  ghost predicate Sound(i: EntryInput, r: EntryResult)
    requires r.Accept?
  {
    && Admits(i) && BestAsk(i.asks) == Some(r.bestAskBp)
    && (i.minPriceBp.Some? ==> i.minPriceBp.value <= r.bestAskBp)
    && r.bestAskBp <= r.limitBp && Allowed(i, r.bestAskBp, r.limitBp)
    && (forall g :: Allowed(i, r.bestAskBp, g) ==> g <= r.limitBp)
    && r.depthCc == DepthAtOrBelow(i.asks, r.limitBp) >= i.minDepthContracts * 100
    && r.stake == StakeMicros(i.balance, i.percentCenti, i.minStake, i.maxStake) <= i.maxStake
    && 0 < i.balance
    && r.requestedCc >= 100 && r.requestedCc % 100 == 0
    && CostMicros(r.requestedCc, r.limitBp) <= r.stake < CostMicros(r.requestedCc + 100, r.limitBp)
  }

  lemma AcceptIsSound(i: EntryInput)
    requires WellFormed(i.ranges) && EvaluateEntry(i).Accept?
    ensures Sound(i, EvaluateEntry(i))
  {
    var r := EvaluateEntry(i);
    var bound := Min(r.bestAskBp + i.maxSlippageBp, i.maxPriceBp);
    SnapDownGreatest(bound, i.ranges);
    ContractsAreMost(r.stake, r.limitBp, r.requestedCc / 100);
    ContractsAreMost(r.stake, r.limitBp, r.requestedCc / 100 + 1);
    forall g | Allowed(i, r.bestAskBp, g)
      ensures g <= r.limitBp
    {
      assert OnGrid(g, Ranges(i.ranges)) && g <= bound;
    }
  }

  /** Arguments that the pricing functions take. */
  predicate PricesOk(i: EntryInput) {
    && IsCount(i.maxPriceBp) && IsCount(i.maxSlippageBp) && IsCount(i.maxStake) && IsCount(i.minStake)
    && IsSafe(i.balance) && IsSafe(i.percentCenti)
    && (forall k :: 0 <= k < |i.asks| ==> 0 < i.asks[k].priceBp)
  }

  lemma PricesNeverThrow(i: EntryInput)
    requires PricesOk(i)
    ensures !EvaluateEntry(i).Throws?
  {
    BestAskIsMinimum(i.asks);
    if BestAsk(i.asks).Some? {
      SnapWithin(Min(BestAsk(i.asks).value + i.maxSlippageBp, i.maxPriceBp), Ranges(i.ranges));
    }
  }

  /** The reverse direction: whenever the guards hold for some allowed price at or above the best ask with
      enough depth and a stake worth one contract there, the entry is accepted. So acceptance is decided by
      the guards alone, and a rejection always has one that fails. */
  lemma AcceptIsComplete(i: EntryInput, limit: int)
    requires WellFormed(i.ranges) && PricesOk(i)
    requires Admits(i) && BestAsk(i.asks).Some?
    requires i.minPriceBp.Some? ==> i.minPriceBp.value <= BestAsk(i.asks).value
    requires BestAsk(i.asks).value <= limit && Allowed(i, BestAsk(i.asks).value, limit)
    requires forall g :: Allowed(i, BestAsk(i.asks).value, g) ==> g <= limit
    requires DepthAtOrBelow(i.asks, limit) >= i.minDepthContracts * 100
    requires CostMicros(100, limit) <= StakeMicros(i.balance, i.percentCenti, i.minStake, i.maxStake)
    ensures EvaluateEntry(i).Accept? && EvaluateEntry(i).limitBp == limit
  {
    var best := BestAsk(i.asks).value;
    BestAskIsMinimum(i.asks);
    var bound := Min(best + i.maxSlippageBp, i.maxPriceBp);
    SnapDownGreatest(bound, i.ranges);
    var snapped := SnapDownBp(bound, i.ranges).value;
    assert Allowed(i, best, snapped);
    assert snapped == limit;
    var stake := StakeMicros(i.balance, i.percentCenti, i.minStake, i.maxStake);
    ContractsAreMost(stake, limit, 1);
  }

  /** The guard that a reason names has failed, and every guard before it holds. */
  ghost predicate Names(i: EntryInput, r: EntryResult)
    requires r.Reject?
  {
    var best := BestAsk(i.asks);
    match r.reason
    case PausedReason => i.mode == Paused
    case MarketClosed => i.mode != Paused && !Trades(i)
    case ExchangePaused => i.mode != Paused && Trades(i) && i.tradingActive == Some(false)
    case StaleFeed => i.mode != Paused && Trades(i) && i.tradingActive != Some(false) && !Observed(i)
    case FeedBlocked => i.mode != Paused && Trades(i) && i.tradingActive != Some(false) && Observed(i) && i.blocked == Some(true)
    case Liquidity => Admits(i) && (best.None? || (Bounded(i, r) && DepthAtOrBelow(i.asks, r.facts.limitBp.value) < i.minDepthContracts * 100))
    case PriceReason =>
      && Admits(i) && best.Some?
      && (best.value > i.maxPriceBp
          || (&& (var limit := SnapDownBp(Min(best.value + i.maxSlippageBp, i.maxPriceBp), i.ranges); limit.None? || limit.value < best.value)
              && (WellFormed(i.ranges) ==> forall g :: Allowed(i, best.value, g) ==> g < best.value)))
    case MinPrice => Admits(i) && best.Some? && best.value <= i.maxPriceBp && i.minPriceBp.Some? && best.value < i.minPriceBp.value
    case TooSmall =>
      && Admits(i) && Bounded(i, r) && DepthAtOrBelow(i.asks, r.facts.limitBp.value) >= i.minDepthContracts * 100
      && StakeMicros(i.balance, i.percentCenti, i.minStake, i.maxStake) < 100 * r.facts.limitBp.value
    case _ => false
  }

  /** The price guards hold, and the limit is the snapped bound, for well-formed ranges the greatest allowed price, not
      below the best ask. */
  ghost predicate Bounded(i: EntryInput, r: EntryResult)
    requires r.Reject?
  {
    var best := BestAsk(i.asks);
    && best.Some? && best.value <= i.maxPriceBp && (i.minPriceBp.Some? ==> i.minPriceBp.value <= best.value)
    && r.facts.limitBp.Some? && best.value <= r.facts.limitBp.value
    && r.facts.limitBp == SnapDownBp(Min(best.value + i.maxSlippageBp, i.maxPriceBp), i.ranges)
    && (WellFormed(i.ranges) ==>
          && Allowed(i, best.value, r.facts.limitBp.value)
          && forall g :: Allowed(i, best.value, g) ==> g <= r.facts.limitBp.value)
  }

  lemma RejectionNamesGuard(i: EntryInput)
    requires EvaluateEntry(i).Reject?
    ensures Names(i, EvaluateEntry(i))
  {
    var best := BestAsk(i.asks);
    if Admits(i) && best.Some? { PriceRejectionNames(i, best.value); }
  }

  /** Past the guards before the price. */
  lemma PriceRejectionNames(i: EntryInput, best: int)
    requires Admits(i) && BestAsk(i.asks) == Some(best) && PriceChecks(i, best).Reject?
    ensures Names(i, PriceChecks(i, best))
  {
    var r := PriceChecks(i, best);
    if WellFormed(i.ranges) { SnapDownGreatest(Min(best + i.maxSlippageBp, i.maxPriceBp), i.ranges); }
    if r.reason == TooSmall { ContractsAreMost(r.facts.stake.value, r.facts.limitBp.value, 1); }
  }

  /** A rejection that ends the trade can only be a pause, a closed market or a stake below one contract;
      every other rejection leaves the trade waiting. */
  lemma RejectionClass(i: EntryInput)
    requires EvaluateEntry(i).Reject?
    ensures IsHard(EvaluateEntry(i).reason) <==>
              i.mode == Paused || !Trades(i) || EvaluateEntry(i).facts.requestedCc == Some(0)
  {
    var r := EvaluateEntry(i);
    if r.facts.requestedCc.Some? {
      ContractsAreMost(r.facts.stake.value, r.facts.limitBp.value, 0);
    }
  }
}
