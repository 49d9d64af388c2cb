/** What an attempt must have read to buy (app/src/core/executor.ts, `attempt`): the guards in the fields of the reads,
    the size, and for a live order the switches read once more. Every order ever sent and every virtual fill goes back
    to such a read. */
module Entries {
  import opened Arithmetic
  import opened Pricing
  import opened Guards
  import opened Rule
  import opened Trades
  import opened Lifecycle
  import opened Invariant
  import opened Ledger
  import opened Safety
  import Outcomes
  import opened Repurchase

  // ---- the fields of a read -----------------------------------------------------------------------------

  /** The market is open and closes later, the exchange trades, an observation is young enough, the feeds agree. */
  ghost predicate LetsIn(v: Version, d: MarketRead, now: int) {
    && (d.market.status == Some("open") || d.market.status == Some("active"))
    && (d.market.closeTimeMs.Some? ==> now < d.market.closeTimeMs.value)
    && d.tradingActive && !d.blocked
    && d.newest.Some? && now - d.newest.value <= 1000 * v.exec.maxFeedAgeSec
  }

  /** The cheapest offer is at `best`, within the strategy's prices. */
  ghost predicate Offers(v: Version, d: MarketRead, best: int) {
    && (exists k :: 0 <= k < |d.asks| && d.asks[k].priceBp == best)
    && (forall k :: 0 <= k < |d.asks| ==> best <= d.asks[k].priceBp)
    && best <= v.exec.maxPriceBp && (v.exec.minPriceBp.Some? ==> v.exec.minPriceBp.value <= best)
  }

  /** A price of the market's grid that the strategy may pay when the cheapest offer is at `best`. */
  ghost predicate MayPay(v: Version, d: MarketRead, best: int, g: int) {
    OnGrid(g, Ranges(d.ranges)) && g <= best + v.exec.maxSlippageBp && g <= v.exec.maxPriceBp
  }

  /** The limit is the greatest price it may pay, reaches the offer, and enough is offered up to it. */
  ghost predicate Limits(v: Version, d: MarketRead, best: int, limit: int) {
    && best <= limit && MayPay(v, d, best, limit) && (forall g :: MayPay(v, d, best, g) ==> g <= limit)
    && DepthAtOrBelow(d.asks, limit) >= 100 * v.exec.minDepthContracts
  }

  function StakeOf(v: Version, balance: int): int {
    StakeMicros(balance, v.sizing.percentCenti, v.sizing.minStake, v.sizing.maxStake)
  }

  /** As many whole contracts as the stake pays for at the limit. */
  ghost predicate Affords(stake: int, limit: int, cc: int) {
    cc >= 100 && cc % 100 == 0 && cc * limit <= stake < (cc + 100) * limit
  }

  /** The whole contracts of a count that are on offer. */
  function OnOffer(cc: int, depth: int): int { Min(cc, depth) / 100 * 100 }

  // ---- one attempt --------------------------------------------------------------------------------------

  predicate Reads(s: Sys) { AttemptRuns(s) && s.process.running.value.pc.Reading? }

  function RowNow(s: Sys): Trade
    requires Reads(s)
  {
    s.db.trades[s.process.running.value.trade]
  }

  function AttemptNow(s: Sys): Attempt
    requires Reads(s)
  {
    s.db.attempts[s.process.running.value.attempt]
  }

  /** A live attempt is sized on the cash that other pending live attempts do not tie up, a dry run on the bankroll. */
  function BalanceNow(s: Sys, d: MarketRead): int
    requires Reads(s)
  {
    if AttemptNow(s).mode == Live then d.cash - PendingLiveCost(s.db.attempts, s.process.running.value.attempt) else s.db.bankroll
  }

  function PcAfter(s: Sys, read: Option<MarketRead>): Pc
    requires Reads(s)
  {
    Step(s, ReadDone(read)).process.running.value.pc
  }

  /** The guards hold for these terms, with the count the stake pays for. */
  ghost predicate Passes(s: Sys, d: MarketRead, best: int, limit: int, cc: int)
    requires Reads(s)
  {
    var v := RowNow(s).version;
    && LetsIn(v, d, s.clock) && Offers(v, d, best) && Limits(v, d, best, limit)
    && 0 < BalanceNow(s, d) && Affords(StakeOf(v, BalanceNow(s, d)), limit, cc)
  }

  ghost predicate SomePass(s: Sys, d: MarketRead)
    requires Reads(s)
  {
    exists best, limit, cc :: Passes(s, d, best, limit, cc)
  }

  /** What the pricing functions accept. */
  ghost predicate ArgumentsOk(s: Sys, d: MarketRead)
    requires Reads(s)
  {
    var v := RowNow(s).version;
    && IsCount(v.exec.maxPriceBp) && IsCount(v.exec.maxSlippageBp) && IsCount(v.sizing.minStake) && IsCount(v.sizing.maxStake)
    && IsSafe(v.sizing.percentCenti) && IsSafe(BalanceNow(s, d)) && forall k :: 0 <= k < |d.asks| ==> 0 < d.asks[k].priceBp
  }

  function InputNow(s: Sys, d: MarketRead): EntryInput
    requires Reads(s)
  {
    EntryOf(s.db, s.clock, RowNow(s), AttemptNow(s).mode, s.process.running.value.attempt, d)
  }

  lemma AcceptedPasses(s: Sys, d: MarketRead)
    requires Reads(s) && WellFormed(d.ranges) && EvaluateEntry(InputNow(s, d)).Accept?
    ensures var e := EvaluateEntry(InputNow(s, d));
            Passes(s, d, e.bestAskBp, e.limitBp, e.requestedCc) && e.depthCc == DepthAtOrBelow(d.asks, e.limitBp)
            && e.stake == StakeOf(RowNow(s).version, BalanceNow(s, d))
  {
    var i := InputNow(s, d);
    var e := EvaluateEntry(i);
    AcceptIsSound(i);
    BestAskIsMinimum(i.asks);
    forall g | MayPay(RowNow(s).version, d, e.bestAskBp, g)
      ensures g <= e.limitBp
    {
      assert Allowed(i, e.bestAskBp, g);
    }
  }

  lemma OneCount(stake: int, limit: int, cc: int, cc': int)
    requires 0 < limit && Affords(stake, limit, cc) && Affords(stake, limit, cc')
    ensures cc == cc'
  {
    var a, b, unit := cc / 100, cc' / 100, 100 * limit;
    assert cc * limit == a * unit && cc' * limit == b * unit;
    MulCancel(a, b, unit);
    MulCancel(b, a, unit);
  }

  lemma PassesInput(s: Sys, d: MarketRead, best: int, limit: int, cc: int)
    requires Reads(s) && ArgumentsOk(s, d) && Passes(s, d, best, limit, cc)
    ensures var i := InputNow(s, d);
            && Admits(i) && PricesOk(i) && BestAsk(i.asks) == Some(best) && 0 < best
            && Allowed(i, best, limit) && forall g :: Allowed(i, best, g) ==> g <= limit
  {
    var i := InputNow(s, d);
    BestAskIsMinimum(i.asks);
    forall g | Allowed(i, best, g)
      ensures g <= limit
    {
      assert MayPay(RowNow(s).version, d, best, g);
    }
  }

  lemma PassesAccepted(s: Sys, d: MarketRead, best: int, limit: int, cc: int)
    requires Reads(s) && WellFormed(d.ranges) && ArgumentsOk(s, d) && Passes(s, d, best, limit, cc)
    ensures var e := EvaluateEntry(InputNow(s, d));
            e.Accept? && e.bestAskBp == best && e.limitBp == limit && e.requestedCc == cc
  {
    var i := InputNow(s, d);
    PassesInput(s, d, best, limit, cc);
    MulMonotone(100, cc, limit);
    AcceptIsComplete(i, limit);
    AcceptedPasses(s, d);
    OneCount(StakeOf(RowNow(s).version, BalanceNow(s, d)), limit, cc, EvaluateEntry(i).requestedCc);
  }

  // ---- what follows the read ----------------------------------------------------------------------------

  /** A live attempt goes on to its order exactly when it has read the market, the guards hold, at least one whole
      contract it can pay for is on offer, and the switches still say live; its terms are those of the guards, cut to
      what is on offer. */
  lemma LiveGoesOn(s: Sys, d: MarketRead, terms: Terms)
    requires Reads(s) && AttemptNow(s).mode == Live && WellFormed(d.ranges) && ArgumentsOk(s, d)
    ensures PcAfter(s, Some(d)) == AwaitingGroup(terms, d.cash)
            <==> && d.again == Runs(Live)
                 && exists best, cc ::
                      && Passes(s, d, best, terms.limitBp, cc) && terms.balance == BalanceNow(s, d)
                      && terms.stake == StakeOf(RowNow(s).version, terms.balance)
                      && terms.requestedCc == OnOffer(cc, DepthAtOrBelow(d.asks, terms.limitBp)) >= 100
  {
    var e := EvaluateEntry(InputNow(s, d));
    if e.Accept? { AcceptedPasses(s, d); }
    if best, cc :| Passes(s, d, best, terms.limitBp, cc) && terms.requestedCc == OnOffer(cc, DepthAtOrBelow(d.asks, terms.limitBp)) >= 100 {
      PassesAccepted(s, d, best, terms.limitBp, cc);
    }
  }

  /** A dry run goes on to its virtual fill exactly when it has read the market and the guards hold; it fills what the
      guards allow as far as it is on offer at or below the limit. */
  lemma DryRunGoesOn(s: Sys, d: MarketRead, terms: Terms, fillCc: int)
    requires Reads(s) && AttemptNow(s).mode == DryRun && WellFormed(d.ranges) && ArgumentsOk(s, d)
    ensures PcAfter(s, Some(d)) == AwaitingFee(terms, fillCc)
            <==> exists best ::
                   && Passes(s, d, best, terms.limitBp, terms.requestedCc) && terms.balance == BalanceNow(s, d)
                   && terms.stake == StakeOf(RowNow(s).version, terms.balance)
                   && fillCc == Min(terms.requestedCc, DepthAtOrBelow(d.asks, terms.limitBp))
  {
    var e := EvaluateEntry(InputNow(s, d));
    if e.Accept? { AcceptedPasses(s, d); }
    if best :| Passes(s, d, best, terms.limitBp, terms.requestedCc) {
      PassesAccepted(s, d, best, terms.limitBp, terms.requestedCc);
    }
  }

  /** Without a read the attempt ends as an error. */
  lemma NoReadIsError(s: Sys)
    requires Reads(s)
    ensures PcAfter(s, None) == Closing(AttemptError, ErrorReason, None, None)
  {
  }

  // ---- the switches, once more --------------------------------------------------------------------------

  /** The attempt, with the read, closes and its trade ends so. */
  predicate EndsAs(s: Sys, d: MarketRead, status: Status, reason: Reason)
    requires Reads(s)
  {
    var s1, t := Step(s, ReadDone(Some(d))), s.process.running.value.trade;
    && Possible(s1, FINISHING)
    && var s' := Run(s1, FINISHING);
    && t < |s'.db.trades| && s'.db.trades[t].status == status && s'.db.trades[t].skipReason == Some(reason)
    && s'.ex == s.ex && s'.process.Up? && s'.process.running.None?
  }

  lemma ClosingEnds(s: Sys, d: MarketRead)
    requires Reads(s) && PcAfter(s, Some(d)).Closing?
    ensures var pc := PcAfter(s, Some(d));
            EndsAs(s, d, if pc.status == HardSkip then Skipped else Waiting, pc.reason)
  {
    Ends(Step(s, ReadDone(Some(d))));
    ReasonShown(Step(s, ReadDone(Some(d))));
  }

  lemma ReasonShown(s: Sys)
    requires Closes(s) && Possible(s, FINISHING)
    ensures var r, s' := s.process.running.value, Run(s, FINISHING);
            r.trade < |s'.db.trades| && s'.db.trades[r.trade].skipReason == Some(r.pc.reason)
  {
    assert FINISHING[1..] == [CloseTradeRow] && [CloseTradeRow][1..] == [];
  }

  lemma SwitchesClose(s: Sys, d: MarketRead, again: Effective)
    requires Reads(s) && PcAfter(s, Some(d.(again := Runs(Live)))).AwaitingGroup? && again != Runs(Live)
    ensures var pc := PcAfter(s, Some(d.(again := again)));
            pc.Closing? && pc.status == (if again == Paused then HardSkip else SoftSkip)
            && pc.reason == if again == Paused then PausedReason else ModeChanged
  {
    assert InputNow(s, d.(again := again)) == InputNow(s, d.(again := Runs(Live)));
  }

  /** If a live order would go out on a read, then with the same read and a kill switch turned on meanwhile the trade
      is skipped as paused, and with live trading turned off it waits for the mode that has changed. Nothing is sent. */
  lemma SwitchesDecide(s: Sys, d: MarketRead)
    requires Reads(s) && PcAfter(s, Some(d.(again := Runs(Live)))).AwaitingGroup?
    ensures EndsAs(s, d.(again := Paused), Skipped, PausedReason)
    ensures EndsAs(s, d.(again := Runs(DryRun)), Waiting, ModeChanged)
  {
    SwitchesClose(s, d, Paused);
    ClosingEnds(s, d.(again := Paused));
    SwitchesClose(s, d, Runs(DryRun));
    ClosingEnds(s, d.(again := Runs(DryRun)));
  }

  /** Whatever the price ranges: an order goes out only on a read that lets it in and says live, for at least one whole
      contract and no more than is on offer. */
  ghost predicate Sendable(s: Sys, d: MarketRead, terms: Terms)
    requires Reads(s)
  {
    && AttemptNow(s).mode == Live && d.again == Runs(Live) && LetsIn(RowNow(s).version, d, s.clock)
    && 100 <= terms.requestedCc <= DepthAtOrBelow(d.asks, terms.limitBp) && terms.requestedCc % 100 == 0
    && terms.limitBp <= RowNow(s).version.exec.maxPriceBp
    && (WellFormed(d.ranges) ==> exists best, cc :: Passes(s, d, best, terms.limitBp, cc) && terms.requestedCc <= cc)
  }

  ghost predicate Fillable(s: Sys, d: MarketRead, terms: Terms, fillCc: int)
    requires Reads(s)
  {
    && AttemptNow(s).mode == DryRun && LetsIn(RowNow(s).version, d, s.clock)
    && fillCc <= DepthAtOrBelow(d.asks, terms.limitBp) && fillCc <= terms.requestedCc
    && terms.limitBp <= RowNow(s).version.exec.maxPriceBp
    && (WellFormed(d.ranges) ==> exists best :: Passes(s, d, best, terms.limitBp, terms.requestedCc))
  }

  lemma AcceptedBasics(s: Sys, d: MarketRead)
    requires Reads(s) && EvaluateEntry(InputNow(s, d)).Accept?
    ensures var e := EvaluateEntry(InputNow(s, d));
            LetsIn(RowNow(s).version, d, s.clock) && e.depthCc == DepthAtOrBelow(d.asks, e.limitBp)
            && e.limitBp <= RowNow(s).version.exec.maxPriceBp
  {
    var i := InputNow(s, d);
    SnapWithin(Min(BestAsk(i.asks).value + i.maxSlippageBp, i.maxPriceBp), Ranges(i.ranges));
  }

  lemma GoesOnSendable(s: Sys, d: MarketRead, terms: Terms)
    requires Reads(s) && PcAfter(s, Some(d)).AwaitingGroup? && PcAfter(s, Some(d)).terms == terms
    ensures Sendable(s, d, terms)
  {
    AcceptedBasics(s, d);
    SentIsCut(s, d, terms);
    if WellFormed(d.ranges) {
      AcceptedPasses(s, d);
      var e := EvaluateEntry(InputNow(s, d));
      assert Passes(s, d, e.bestAskBp, terms.limitBp, e.requestedCc);
    }
  }

  lemma SentIsCut(s: Sys, d: MarketRead, terms: Terms)
    requires Reads(s) && PcAfter(s, Some(d)).AwaitingGroup? && PcAfter(s, Some(d)).terms == terms
    ensures AttemptNow(s).mode == Live && d.again == Runs(Live) && EvaluateEntry(InputNow(s, d)).Accept?
    ensures var e := EvaluateEntry(InputNow(s, d));
            && terms.limitBp == e.limitBp && 100 <= terms.requestedCc <= e.depthCc
            && terms.requestedCc <= e.requestedCc && terms.requestedCc % 100 == 0
  {
    SwitchSaysLive(s, d);
    GroupTerms(s.db, s.clock, RowNow(s), AttemptNow(s).mode, s.process.running.value.attempt, d);
    var e := EvaluateEntry(InputNow(s, d));
    WholeContracts(Min(e.requestedCc, e.depthCc));
  }

  lemma SwitchSaysLive(s: Sys, d: MarketRead)
    requires Reads(s) && PcAfter(s, Some(d)).AwaitingGroup?
    ensures d.again == Runs(Live) && Min(EvaluateEntry(InputNow(s, d)).requestedCc, EvaluateEntry(InputNow(s, d)).depthCc) / 100 >= 1
  {
  }

  lemma WholeContracts(cc: int)
    requires cc / 100 >= 1
    ensures 100 <= cc / 100 * 100 <= cc && cc / 100 * 100 % 100 == 0
  {
  }

  lemma GoesOnFillable(s: Sys, d: MarketRead, terms: Terms, fillCc: int)
    requires Reads(s) && PcAfter(s, Some(d)) == AwaitingFee(terms, fillCc)
    ensures Fillable(s, d, terms, fillCc)
  {
    AcceptedBasics(s, d);
    if WellFormed(d.ranges) { AcceptedPasses(s, d); }
  }

  // ---- every order and every virtual fill goes back to a read -------------------------------------------

  /** The `k`-th event of the run is the read of attempt `i`. */
  ghost predicate ReadAt(s0: Sys, es: seq<Event>, k: nat, i: nat, d: MarketRead) {
    && k < |es| && es[k] == ReadDone(Some(d)) && Possible(s0, es[..k])
    && Reads(Run(s0, es[..k])) && Run(s0, es[..k]).process.running.value.attempt == i
  }

  /** An order with this limit and count could go out after the read of the attempt. */
  ghost predicate SentFrom(s0: Sys, es: seq<Event>, k: nat, i: nat, d: MarketRead, terms: Terms) {
    ReadAt(s0, es, k, i, d) && Sendable(Run(s0, es[..k]), d, terms)
  }

  ghost predicate WasLetIn(s0: Sys, es: seq<Event>, i: nat, sent: Sent) {
    exists k: nat, d, terms :: SentFrom(s0, es, k, i, d, terms) && sent == Sent(terms.limitBp, terms.requestedCc)
  }

  ghost predicate OfferedFrom(s0: Sys, es: seq<Event>, k: nat, i: nat, d: MarketRead, terms: Terms, cc: int) {
    ReadAt(s0, es, k, i, d) && Fillable(Run(s0, es[..k]), d, terms, cc)
  }

  ghost predicate WasOffered(s0: Sys, es: seq<Event>, i: nat, terms: Terms, cc: int) {
    exists k: nat, d :: OfferedFrom(s0, es, k, i, d, terms, cc)
  }

  /** A dry-run row that is filled holds what was on offer. */
  ghost predicate RowOffered(s0: Sys, es: seq<Event>, a: Attempt, i: nat) {
    a.status == AttemptFilled && a.mode == DryRun ==>
      && a.fill.Some? && a.limitBp.Some?
      && exists terms :: WasOffered(s0, es, i, terms, a.fill.value.cc) && terms.limitBp == a.limitBp.value == a.fill.value.avgBp
  }

  ghost predicate RequestSourced(s0: Sys, es: seq<Event>, ex: Exchange, i: nat) {
    && (i in ex.inflight ==> WasLetIn(s0, es, i, ex.inflight[i]))
    && (i in ex.orders ==> WasLetIn(s0, es, i, ex.orders[i].sent))
  }

  ghost predicate RunningSourced(s0: Sys, es: seq<Event>, p: Process) {
    p.Up? && p.running.Some? ==>
      match p.running.value.pc
      case AwaitingGroup(terms, _) => WasLetIn(s0, es, p.running.value.attempt, Sent(terms.limitBp, terms.requestedCc))
      case AwaitingFee(terms, cc) => WasOffered(s0, es, p.running.value.attempt, terms, cc)
      case _ => true
  }

  ghost predicate Sourced(s0: Sys, es: seq<Event>, s: Sys) {
    && (forall i: nat :: RequestSourced(s0, es, s.ex, i))
    && (forall i :: 0 <= i < |s.db.attempts| ==> RowOffered(s0, es, s.db.attempts[i], i))
    && RunningSourced(s0, es, s.process)
  }

  lemma ReadStays(s0: Sys, es: seq<Event>, e: Event, k: nat)
    requires k < |es|
    ensures (es + [e])[k] == es[k] && (es + [e])[..k] == es[..k]
  {
  }

  lemma LetInStays(s0: Sys, es: seq<Event>, e: Event, i: nat, sent: Sent)
    requires WasLetIn(s0, es, i, sent)
    ensures WasLetIn(s0, es + [e], i, sent)
  {
    var k: nat, d, terms :| SentFrom(s0, es, k, i, d, terms) && sent == Sent(terms.limitBp, terms.requestedCc);
    ReadStays(s0, es, e, k);
    assert SentFrom(s0, es + [e], k, i, d, terms);
  }

  lemma OfferedStays(s0: Sys, es: seq<Event>, e: Event, i: nat, terms: Terms, cc: int)
    requires WasOffered(s0, es, i, terms, cc)
    ensures WasOffered(s0, es + [e], i, terms, cc)
  {
    var k: nat, d :| OfferedFrom(s0, es, k, i, d, terms, cc);
    ReadStays(s0, es, e, k);
    assert OfferedFrom(s0, es + [e], k, i, d, terms, cc);
  }

  /** The read itself. */
  lemma ReadSources(s0: Sys, es: seq<Event>, read: Option<MarketRead>)
    requires Possible(s0, es) && Enabled(Run(s0, es), ReadDone(read))
    ensures RunningSourced(s0, es + [ReadDone(read)], Step(Run(s0, es), ReadDone(read)).process)
  {
    var s, e := Run(s0, es), ReadDone(read);
    var i := s.process.running.value.attempt;
    assert (es + [e])[|es|] == e && (es + [e])[..|es|] == es;
    if read.Some? {
      match PcAfter(s, read)
      case AwaitingGroup(terms, _) =>
        GoesOnSendable(s, read.value, terms);
        assert SentFrom(s0, es + [e], |es|, i, read.value, terms);
      case AwaitingFee(terms, cc) =>
        GoesOnFillable(s, read.value, terms, cc);
        assert OfferedFrom(s0, es + [e], |es|, i, read.value, terms, cc);
      case _ =>
    } else {
      NoReadIsError(s);
    }
  }

  /** No other step makes an attempt wait for its group or its fee. */
  lemma OthersGoOn(s: Sys, e: Event)
    requires Enabled(s, e) && !e.ReadDone? && Step(s, e).process.Up? && Step(s, e).process.running.Some?
    requires Step(s, e).process.running.value.pc.AwaitingGroup? || Step(s, e).process.running.value.pc.AwaitingFee?
    ensures s.process.Up? && s.process.running == Step(s, e).process.running
  {
  }

  lemma RunningStaysSourced(s0: Sys, es: seq<Event>, e: Event)
    requires Possible(s0, es) && Enabled(Run(s0, es), e) && RunningSourced(s0, es, Run(s0, es).process)
    ensures RunningSourced(s0, es + [e], Step(Run(s0, es), e).process)
  {
    var s := Run(s0, es);
    var p := Step(s, e).process;
    if e.ReadDone? {
      ReadSources(s0, es, e.read);
    } else if p.Up? && p.running.Some? && (p.running.value.pc.AwaitingGroup? || p.running.value.pc.AwaitingFee?) {
      OthersGoOn(s, e);
      var r := p.running.value;
      if r.pc.AwaitingGroup? {
        LetInStays(s0, es, e, r.attempt, Sent(r.pc.terms.limitBp, r.pc.terms.requestedCc));
      } else {
        OfferedStays(s0, es, e, r.attempt, r.pc.terms, r.pc.fillCc);
      }
    }
  }

  /** Where the requests and the orders come from. */
  lemma RequestComes(s: Sys, e: Event, i: nat)
    requires Enabled(s, e)
    ensures var ex := Step(s, e).ex;
            && (i in ex.inflight ==>
                  || (i in s.ex.inflight && ex.inflight[i] == s.ex.inflight[i])
                  || (e.GroupDone? && i == s.process.running.value.attempt
                      && ex.inflight[i] == Sent(s.process.running.value.pc.terms.limitBp, s.process.running.value.pc.terms.requestedCc)))
            && (i in ex.orders ==>
                  || (i in s.ex.orders && ex.orders[i] == s.ex.orders[i])
                  || (i in s.ex.inflight && ex.orders[i].sent == s.ex.inflight[i]))
  {
  }

  lemma RequestStaysSourced(s0: Sys, es: seq<Event>, e: Event, i: nat)
    requires Possible(s0, es) && Enabled(Run(s0, es), e) && Sourced(s0, es, Run(s0, es))
    ensures RequestSourced(s0, es + [e], Step(Run(s0, es), e).ex, i)
  {
    var s := Run(s0, es);
    RequestComes(s, e, i);
    assert RequestSourced(s0, es, s.ex, i);
    if i in s.ex.inflight { LetInStays(s0, es, e, i, s.ex.inflight[i]); }
    if i in s.ex.orders { LetInStays(s0, es, e, i, s.ex.orders[i].sent); }
    if e.GroupDone? {
      var r := s.process.running.value;
      LetInStays(s0, es, e, r.attempt, Sent(r.pc.terms.limitBp, r.pc.terms.requestedCc));
    }
  }

  lemma RowStaysOffered(s0: Sys, es: seq<Event>, e: Event, a: Attempt, i: nat)
    requires RowOffered(s0, es, a, i)
    ensures RowOffered(s0, es + [e], a, i)
  {
    if a.status == AttemptFilled && a.mode == DryRun {
      var terms :| WasOffered(s0, es, i, terms, a.fill.value.cc) && terms.limitBp == a.limitBp.value == a.fill.value.avgBp;
      OfferedStays(s0, es, e, i, terms, a.fill.value.cc);
    }
  }

  /** What the exchange answers is recorded on live rows. */
  lemma AnswersFillLive(s: Sys, e: Event, i: nat)
    requires Inv(s) && Enabled(s, e) && AsksExchange(e) && !FilledRow(s.db, i) && FilledRow(Step(s, e).db, i)
    ensures Step(s, e).db.attempts[i].mode == Live
  {
  }

  lemma FeeFills(s: Sys, e: Event, i: nat)
    requires Inv(s) && Enabled(s, e) && !AsksExchange(e) && !FilledRow(s.db, i) && FilledRow(Step(s, e).db, i)
    ensures e.FeeDone? && i == s.process.running.value.attempt
    ensures var pc, a := s.process.running.value.pc, Step(s, e).db.attempts[i];
            a.fill.Some? && a.fill.value.cc == pc.fillCc && a.limitBp == Some(pc.terms.limitBp) && a.fill.value.avgBp == pc.terms.limitBp
  {
  }

  lemma RowsStayOffered(s0: Sys, es: seq<Event>, e: Event, i: nat)
    requires Possible(s0, es) && Inv(Run(s0, es)) && Enabled(Run(s0, es), e) && Sourced(s0, es, Run(s0, es))
    requires i < |Step(Run(s0, es), e).db.attempts|
    ensures RowOffered(s0, es + [e], Step(Run(s0, es), e).db.attempts[i], i)
  {
    var s := Run(s0, es);
    if FilledRow(s.db, i) {
      if AsksExchange(e) { Outcomes.ExchangeFixesFilled(s, e, i); } else { Outcomes.LocalFixesFilled(s, e, i); }
      RowStaysOffered(s0, es, e, s.db.attempts[i], i);
    } else if FilledRow(Step(s, e).db, i) && Step(s, e).db.attempts[i].mode == DryRun {
      if AsksExchange(e) { AnswersFillLive(s, e, i); } else { FeeFills(s, e, i); }
      var pc := s.process.running.value.pc;
      OfferedStays(s0, es, e, i, pc.terms, pc.fillCc);
    }
  }

  lemma SplitLast(s: Sys, es: seq<Event>)
    requires Possible(s, es) && LooksUpThroughout(s, es) && es != []
    ensures var n := |es| - 1;
            && Possible(s, es[..n]) && LooksUpThroughout(s, es[..n])
            && Enabled(Run(s, es[..n]), es[n]) && Run(s, es) == Step(Run(s, es[..n]), es[n])
    decreases |es|
  {
    var n := |es| - 1;
    if n > 0 {
      SplitLast(Step(s, es[0]), es[1..]);
      assert es[..n][1..] == es[1..][..n - 1];
    } else {
      assert es[..0] == [] && es[1..] == [];
    }
  }

  lemma {:induction false} SourcedRun(opening: int, clock: int, es: seq<Event>)
    requires Possible(Boot0(opening, clock), es) && LooksUpThroughout(Boot0(opening, clock), es)
    ensures Inv(Run(Boot0(opening, clock), es)) && Sourced(Boot0(opening, clock), es, Run(Boot0(opening, clock), es))
    decreases |es|
  {
    var s0 := Boot0(opening, clock);
    GoodFromBoot(opening, clock, es);
    if es != [] {
      var n := |es| - 1;
      SplitLast(s0, es);
      SourcedRun(opening, clock, es[..n]);
      assert es[..n] + [es[n]] == es;
      SourcedStep(s0, es[..n], es[n]);
    }
  }

  lemma SourcedStep(s0: Sys, es: seq<Event>, e: Event)
    requires Possible(s0, es) && Inv(Run(s0, es)) && Enabled(Run(s0, es), e) && Sourced(s0, es, Run(s0, es))
    ensures Sourced(s0, es + [e], Step(Run(s0, es), e))
  {
    var s' := Step(Run(s0, es), e);
    forall i: nat
      ensures RequestSourced(s0, es + [e], s'.ex, i)
    {
      RequestStaysSourced(s0, es, e, i);
    }
    forall i | 0 <= i < |s'.db.attempts|
      ensures RowOffered(s0, es + [e], s'.db.attempts[i], i)
    {
      RowsStayOffered(s0, es, e, i);
    }
    RunningStaysSourced(s0, es, e);
  }

  /** Over every run from a fresh database: whenever a request is out or an order exists, its attempt had read a market
      that let it in, with the switches on live in the same read, and limit and count are what that read allows. */
  lemma EveryOrderWasLetIn(opening: int, clock: int, es: seq<Event>, i: nat) returns (k: nat, d: MarketRead, terms: Terms)
    requires Possible(Boot0(opening, clock), es) && LooksUpThroughout(Boot0(opening, clock), es)
    requires var ex := Run(Boot0(opening, clock), es).ex; i in ex.inflight || i in ex.orders
    ensures SentFrom(Boot0(opening, clock), es, k, i, d, terms)
    ensures RequestOf(Run(Boot0(opening, clock), es).ex, i) == Sent(terms.limitBp, terms.requestedCc)
  {
    SourcedRun(opening, clock, es);
    var s := Run(Boot0(opening, clock), es);
    assert RequestSourced(Boot0(opening, clock), es, s.ex, i);
    k, d, terms :| SentFrom(Boot0(opening, clock), es, k, i, d, terms) && RequestOf(s.ex, i) == Sent(terms.limitBp, terms.requestedCc);
  }

  /** And every dry-run fill is at the limit of a read that let it in, for no more than was offered at or below it. */
  lemma EveryVirtualFillWasOffered(opening: int, clock: int, es: seq<Event>, i: nat) returns (k: nat, d: MarketRead, terms: Terms)
    requires Possible(Boot0(opening, clock), es) && LooksUpThroughout(Boot0(opening, clock), es)
    requires FilledRow(Run(Boot0(opening, clock), es).db, i) && Run(Boot0(opening, clock), es).db.attempts[i].mode == DryRun
    ensures var a := Run(Boot0(opening, clock), es).db.attempts[i];
            && a.fill.Some? && OfferedFrom(Boot0(opening, clock), es, k, i, d, terms, a.fill.value.cc)
            && a.fill.value.avgBp == terms.limitBp && a.fill.value.cc <= DepthAtOrBelow(d.asks, terms.limitBp)
  {
    SourcedRun(opening, clock, es);
    var s0, s := Boot0(opening, clock), Run(Boot0(opening, clock), es);
    assert RowOffered(s0, es, s.db.attempts[i], i);
    var cc := s.db.attempts[i].fill.value.cc;
    terms :| WasOffered(s0, es, i, terms, cc) && terms.limitBp == s.db.attempts[i].limitBp.value == s.db.attempts[i].fill.value.avgBp;
    k, d :| OfferedFrom(s0, es, k, i, d, terms, cc);
  }
}
