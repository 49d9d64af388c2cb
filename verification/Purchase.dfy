/** One live purchase, in general: from any state in which a trade stands at the head of the queue and some read lets
    it buy, an order that fills ends as a fill of the trade. */
module Purchase {
  import opened Pricing
  import opened Guards
  import opened Trades
  import opened Lifecycle

  /** What the guards make of the read for a live attempt of `t` that begins now. */
  function ReadNow(s: Sys, t: nat, d: MarketRead): Pc
    requires t < |s.db.trades|
  {
    AfterReads(s.db, s.clock, s.db.trades[t], Live, |s.db.attempts|, Some(d))
  }

  /** The read lets the trade buy: the guards pass and leave at least one contract. */
  predicate LetsBuy(s: Sys, t: nat, d: MarketRead) {
    t < |s.db.trades| && s.db.trades[t].ticker.Some? && ReadNow(s, t, d).AwaitingGroup?
  }

  function TermsNow(s: Sys, t: nat, d: MarketRead): Terms
    requires LetsBuy(s, t, d)
  {
    ReadNow(s, t, d).terms
  }

  /** An order for these terms that fills, in part or in whole. */
  predicate Fills(o: Order, terms: Terms) {
    o.sent == Sent(terms.limitBp, terms.requestedCc) && o.fillCc > 0
  }

  predicate AtHead(s: Sys, t: nat) {
    && s.process.Up? && s.process.running.None? && s.process.queue != [] && s.process.queue[0] == t
    && t < |s.db.trades| && IsOpen(s.db.trades[t].status)
  }

  /** The reads, the order group, the order, its answer. */
  function BuyEvents(i: nat, d: MarketRead, o: Order): seq<Event> {
    [BeginNext(Runs(Live), true), ReadDone(Some(d)), GroupDone(true), ExchangeAccepts(i, o), CreateDone(Answered)]
  }

  predicate SameSignal(r: Trade, r': Trade) {
    r'.ticker == r.ticker && r'.version == r.version && r'.windowEnds == r.windowEnds
  }

  // ---- the same guards in another state -----------------------------------------------------------------

  /** The read with the cash that makes up for a change in what pending orders tie up. */
  function Adjusted(s: Sys, s': Sys, d: MarketRead): MarketRead {
    d.(cash := d.cash - PendingLiveCost(s.db.attempts, |s.db.attempts|) + PendingLiveCost(s'.db.attempts, |s'.db.attempts|))
  }

  /** At the same time, for the same version of the strategy, the adjusted read lets the trade buy on the same terms. */
  lemma AdjustedLetsBuy(s: Sys, s': Sys, t: nat, d: MarketRead)
    requires LetsBuy(s, t, d) && s'.clock == s.clock && t < |s'.db.trades| && SameSignal(s.db.trades[t], s'.db.trades[t])
    ensures LetsBuy(s', t, Adjusted(s, s', d)) && TermsNow(s', t, Adjusted(s, s', d)) == TermsNow(s, t, d)
  {
    var d' := Adjusted(s, s', d);
    assert EntryOf(s'.db, s.clock, s'.db.trades[t], Live, |s'.db.attempts|, d') == EntryOf(s.db, s.clock, s.db.trades[t], Live, |s.db.attempts|, d);
  }

  lemma OwnRowCostsNothing(attempts: seq<Attempt>, a: Attempt)
    ensures PendingLiveCost(attempts + [a], |attempts|) == PendingLiveCost(attempts, |attempts|)
  {
    assert (attempts + [a])[..|attempts|] == attempts;
  }

  // ---- the purchase -------------------------------------------------------------------------------------

  /** The attempt `n` of the trade has read the market and waits at `pc`. */
  predicate Waits(s: Sys, t: nat, s': Sys, pc: Pc, a: Attempt, row: Trade)
    requires t < |s.db.trades| && s.process.Up? && s.process.queue != []
  {
    && s'.clock == s.clock
    && s'.process == s.process.(queue := s.process.queue[1..], running := Some(Running(t, |s.db.attempts|, Some(Live), pc)))
    && s'.db.attempts == s.db.attempts + [a] && a.trade == t && a.mode == Live && a.status == AttemptPending
    && s'.db.trades == s.db.trades[t := row] && SameSignal(s.db.trades[t], row)
  }

  predicate IsReading(s: Sys, t: nat, s': Sys, pc: Pc)
    requires t < |s.db.trades| && s.process.Up? && s.process.queue != []
  {
    && |s'.db.attempts| == |s.db.attempts| + 1 && t < |s'.db.trades| && s'.ex == s.ex
    && Waits(s, t, s', pc, s'.db.attempts[|s.db.attempts|], s'.db.trades[t]) && IsOpen(s'.db.trades[t].status)
  }

  lemma BeginsLive(s: Sys, t: nat)
    requires AtHead(s, t) && s.db.trades[t].ticker.Some?
    ensures Enabled(s, BeginNext(Runs(Live), true)) && IsReading(s, t, Step(s, BeginNext(Runs(Live), true)), Reading)
  {
  }

  lemma ReadsMarket(s: Sys, t: nat, s1: Sys, d: MarketRead)
    requires AtHead(s, t) && LetsBuy(s, t, d) && IsReading(s, t, s1, Reading)
    ensures Enabled(s1, ReadDone(Some(d))) && IsReading(s, t, Step(s1, ReadDone(Some(d))), AwaitingGroup(TermsNow(s, t, d), ReadNow(s, t, d).cash))
  {
    var n := |s.db.attempts|;
    OwnRowCostsNothing(s.db.attempts, s1.db.attempts[n]);
    assert EntryOf(s1.db, s.clock, s1.db.trades[t], Live, n, d) == EntryOf(s.db, s.clock, s.db.trades[t], Live, n, d);
  }

  /** The request is out. */
  predicate IsSending(s: Sys, t: nat, s': Sys, terms: Terms)
    requires t < |s.db.trades| && s.process.Up? && s.process.queue != []
  {
    var n := |s.db.attempts|;
    && |s'.db.attempts| == n + 1 && t < |s'.db.trades|
    && Waits(s, t, s', Sending, s'.db.attempts[n], s'.db.trades[t]) && s'.db.trades[t].status == Pending
    && s'.ex.orders == s.ex.orders && s'.ex.inflight == s.ex.inflight[n := Sent(terms.limitBp, terms.requestedCc)]
  }

  lemma GroupSends(s: Sys, t: nat, s2: Sys, terms: Terms, cash: int)
    requires AtHead(s, t) && IsReading(s, t, s2, AwaitingGroup(terms, cash))
    ensures Enabled(s2, GroupDone(true)) && IsSending(s, t, Step(s2, GroupDone(true)), terms)
  {
    var s3 := Step(s2, GroupDone(true));
    assert s3.db.attempts == s.db.attempts + [s3.db.attempts[|s.db.attempts|]];
    assert s3.db.trades == s.db.trades[t := s3.db.trades[t]];
  }

  /** The trade is filled by the row appended to `s`; everything else is as before. */
  predicate BoughtBy(s: Sys, t: nat, o: Order, s': Sys)
    requires t < |s.db.trades| && s.process.Up? && s.process.queue != []
  {
    var n := |s.db.attempts|;
    && s'.clock == s.clock
    && s'.process == s.process.(queue := s.process.queue[1..], running := None, busy := s.process.busy - {t})
    && |s'.db.attempts| == n + 1 && s'.db.attempts[..n] == s.db.attempts
    && s'.db.attempts[n].trade == t && s'.db.attempts[n].status == AttemptFilled && s'.db.attempts[n].mode == Live
    && t < |s'.db.trades| && s'.db.trades == s.db.trades[t := s'.db.trades[t]]
    && s'.db.trades[t].status == Filled && SameSignal(s.db.trades[t], s'.db.trades[t])
    && s'.ex == Exchange(s.ex.orders[n := o], s.ex.inflight - {n})
  }

  lemma OrderFills(s: Sys, t: nat, s3: Sys, terms: Terms, o: Order)
    requires AtHead(s, t) && IsSending(s, t, s3, terms) && Fills(o, terms)
    ensures var e := ExchangeAccepts(|s.db.attempts|, o);
            && Enabled(s3, e) && Enabled(Step(s3, e), CreateDone(Answered))
            && BoughtBy(s, t, o, Step(Step(s3, e), CreateDone(Answered)))
  {
    var n := |s.db.attempts|;
    var s4 := Step(s3, ExchangeAccepts(n, o));
    var s5 := Step(s4, CreateDone(Answered));
    assert s4.ex == Exchange(s.ex.orders[n := o], s.ex.inflight - {n});
    assert s5.db.attempts[..n] == s.db.attempts;
    assert s5.db.trades == s.db.trades[t := s5.db.trades[t]];
  }

  lemma RunFive(s: Sys, a: Event, b: Event, c: Event, d: Event, e: Event)
    requires Enabled(s, a) && Enabled(Step(s, a), b) && Enabled(Step(Step(s, a), b), c)
    requires var s3 := Step(Step(Step(s, a), b), c); Enabled(s3, d) && Enabled(Step(s3, d), e)
    ensures Possible(s, [a, b, c, d, e])
    ensures Run(s, [a, b, c, d, e]) == Step(Step(Step(Step(Step(s, a), b), c), d), e)
  {
    RunSnoc(s, [], a);
    assert [] + [a] == [a];
    RunSnoc(s, [a], b);
    assert [a] + [b] == [a, b];
    RunSnoc(s, [a, b], c);
    assert [a, b] + [c] == [a, b, c];
    RunSnoc(s, [a, b, c], d);
    assert [a, b, c] + [d] == [a, b, c, d];
    RunSnoc(s, [a, b, c, d], e);
    assert [a, b, c, d] + [e] == [a, b, c, d, e];
  }

  /** The trade at the head of the queue buys. */
  lemma Buys(s: Sys, t: nat, d: MarketRead, o: Order)
    requires AtHead(s, t) && LetsBuy(s, t, d) && Fills(o, TermsNow(s, t, d))
    ensures var es := BuyEvents(|s.db.attempts|, d, o);
            Possible(s, es) && BoughtBy(s, t, o, Run(s, es))
  {
    var terms := TermsNow(s, t, d);
    var e1, e2, e3 := BeginNext(Runs(Live), true), ReadDone(Some(d)), GroupDone(true);
    BeginsLive(s, t);
    var s1 := Step(s, e1);
    ReadsMarket(s, t, s1, d);
    var s2 := Step(s1, e2);
    GroupSends(s, t, s2, terms, ReadNow(s, t, d).cash);
    OrderFills(s, t, Step(s2, e3), terms, o);
    RunFive(s, e1, e2, e3, ExchangeAccepts(|s.db.attempts|, o), CreateDone(Answered));
  }
}
