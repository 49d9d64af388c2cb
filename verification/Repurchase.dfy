/** A second purchase, in general: an attempt that closes as a soft skip or an error while an order of it has filled
    lets the trade go on. If some read lets the trade buy, a run follows that fills a second order of it. */
module Repurchase {
  import opened Pricing
  import opened Guards
  import opened Trades
  import opened Lifecycle
  import opened Invariant
  import opened Purchase
  import opened OrphanedAttempt

  /** Neither a failing recovery look-up nor an order that the exchange takes. */
  predicate Quiet(es: seq<Event>) {
    forall k :: 0 <= k < |es| ==> !(es[k].RecoverLookup? && es[k].answer.LookupFailed?) && !es[k].ExchangeAccepts?
  }

  // ---- the attempt ends ---------------------------------------------------------------------------------

  const FINISHING: seq<Event> := [CloseAttemptRow, CloseTradeRow]

  /** An attempt ends without a fill. */
  predicate Closes(s: Sys) { AttemptRuns(s) && s.process.running.value.pc.Closing? }

  predicate ClosesSoft(s: Sys) { Closes(s) && s.process.running.value.pc.status != HardSkip }

  /** The attempt is closed, and its trade waits or, after a hard skip, is skipped. */
  predicate Ended(s: Sys, s': Sys)
    requires Closes(s)
  {
    var r := s.process.running.value;
    && s'.clock == s.clock && s'.ex == s.ex
    && s'.process == s.process.(running := None, busy := s.process.busy - {r.trade})
    && |s'.db.attempts| == |s.db.attempts| && s'.db.attempts[r.attempt].trade == r.trade
    && s'.db.attempts[r.attempt].status == r.pc.status
    && |s'.db.trades| == |s.db.trades| && r.trade < |s.db.trades| && SameSignal(s.db.trades[r.trade], s'.db.trades[r.trade])
    && s'.db.trades[r.trade].status == if r.pc.status == HardSkip then Skipped else Waiting
  }

  lemma ClosesRow(s: Sys)
    requires Closes(s)
    ensures Enabled(s, CloseAttemptRow)
    ensures var s1 := Step(s, CloseAttemptRow);
            Enabled(s1, CloseTradeRow) && Ended(s, Step(s1, CloseTradeRow))
  {
  }

  lemma Ends(s: Sys)
    requires Closes(s)
    ensures Possible(s, FINISHING) && Ended(s, Run(s, FINISHING))
  {
    ClosesRow(s);
    RunSnoc(s, [], CloseAttemptRow);
    assert [] + [CloseAttemptRow] == [CloseAttemptRow];
    RunSnoc(s, [CloseAttemptRow], CloseTradeRow);
    assert [CloseAttemptRow] + [CloseTradeRow] == FINISHING;
  }

  // ---- the trade comes to the head of the queue again ---------------------------------------------------

  /** Other trades' attempts have run: the trade, the clock, the exchange and the rows there were are as before. */
  predicate OthersRan(s: Sys, s': Sys, t: nat) {
    && s'.clock == s.clock && s'.ex == s.ex && s'.process.Up? && s'.process.running.None?
    && |s.db.attempts| <= |s'.db.attempts| && s'.db.attempts[..|s.db.attempts|] == s.db.attempts
    && t < |s.db.trades| == |s'.db.trades| && s'.db.trades[t] == s.db.trades[t]
  }

  /** The head of the queue runs one attempt while its strategy is paused. */
  function PausedAttempt(s: Sys): seq<Event>
    requires s.process.Up? && s.process.queue != [] && s.process.queue[0] < |s.db.trades|
  {
    var row := s.db.trades[s.process.queue[0]];
    [BeginNext(Paused, true)] + if !IsOpen(row.status) || row.ticker.None? then [] else FINISHING
  }

  lemma PausedAttemptEnds(s: Sys, t: nat)
    requires s.process.Up? && s.process.running.None? && s.process.queue != [] && s.process.queue[0] < |s.db.trades|
    requires t < |s.db.trades| && s.process.queue[0] != t
    requires IsOpen(s.db.trades[s.process.queue[0]].status) && s.db.trades[s.process.queue[0]].ticker.Some?
    ensures var s1 := Step(s, BeginNext(Paused, true));
            && Enabled(s1, CloseAttemptRow) && Enabled(Step(s1, CloseAttemptRow), CloseTradeRow)
            && var s' := Step(Step(s1, CloseAttemptRow), CloseTradeRow);
            OthersRan(s, s', t) && s'.process.queue == s.process.queue[1..]
  {
    var n := |s.db.attempts|;
    var s1 := Step(s, BeginNext(Paused, true));
    assert s1.db.attempts[..n] == s.db.attempts;
    var s2 := Step(s1, CloseAttemptRow);
    assert s2.db.attempts[..n] == s.db.attempts;
  }

  lemma PausedAttemptRuns(s: Sys, t: nat)
    requires s.process.Up? && s.process.running.None? && s.process.queue != [] && s.process.queue[0] < |s.db.trades|
    requires t < |s.db.trades| && s.process.queue[0] != t
    requires IsOpen(s.db.trades[s.process.queue[0]].status) && s.db.trades[s.process.queue[0]].ticker.Some?
    ensures var es := [BeginNext(Paused, true)] + FINISHING;
            Possible(s, es) && OthersRan(s, Run(s, es), t) && Run(s, es).process.queue == s.process.queue[1..]
  {
    var e := BeginNext(Paused, true);
    PausedAttemptEnds(s, t);
    RunSnoc(s, [], e);
    assert [] + [e] == [e];
    RunSnoc(s, [e], CloseAttemptRow);
    RunSnoc(s, [e] + [CloseAttemptRow], CloseTradeRow);
    assert [e] + FINISHING == [e] + [CloseAttemptRow] + [CloseTradeRow];
  }

  lemma HeadRuns(s: Sys, t: nat)
    requires s.process.Up? && s.process.running.None? && s.process.queue != [] && s.process.queue[0] < |s.db.trades|
    requires t < |s.db.trades| && s.process.queue[0] != t
    ensures var es := PausedAttempt(s);
            Possible(s, es) && Quiet(es) && OthersRan(s, Run(s, es), t) && Run(s, es).process.queue == s.process.queue[1..]
  {
    var e := BeginNext(Paused, true);
    var row := s.db.trades[s.process.queue[0]];
    if !IsOpen(row.status) || row.ticker.None? {
      RunSnoc(s, [], e);
      assert [] + [e] == [e];
      assert s.db.attempts[..|s.db.attempts|] == s.db.attempts;
      assert PausedAttempt(s) == [e];
    } else {
      PausedAttemptRuns(s, t);
    }
  }

  lemma OthersRanOn(s: Sys, s1: Sys, s2: Sys, t: nat)
    requires OthersRan(s, s1, t) && OthersRan(s1, s2, t)
    ensures OthersRan(s, s2, t)
  {
    assert s2.db.attempts[..|s.db.attempts|] == s2.db.attempts[..|s1.db.attempts|][..|s.db.attempts|];
  }

  /** The trades before `t` in the queue have their turn. */
  lemma {:induction false} QueueDrains(s: Sys, q: seq<nat>, t: nat) returns (es: seq<Event>)
    requires s.process.Up? && s.process.running.None? && s.process.queue == q + [t] && t < |s.db.trades|
    requires forall k :: 0 <= k < |q| ==> q[k] < |s.db.trades| && q[k] != t
    ensures Possible(s, es) && Quiet(es) && OthersRan(s, Run(s, es), t) && Run(s, es).process.queue == [t]
    decreases |q|
  {
    if q == [] {
      es := [];
      assert q + [t] == [t];
      assert s.db.attempts[..|s.db.attempts|] == s.db.attempts;
    } else {
      assert s.process.queue[0] == q[0] && s.process.queue[1..] == q[1..] + [t];
      HeadRuns(s, t);
      var first := PausedAttempt(s);
      var rest := QueueDrains(Run(s, first), q[1..], t);
      es := first + rest;
      RunConcat(s, first, rest);
      OthersRanOn(s, Run(s, first), Run(s, es), t);
    }
  }

  // ---- the second purchase ------------------------------------------------------------------------------

  /** The rows `i` and `j` of the trade both have an order that filled. */
  predicate BothFilled(s: Sys, t: nat, i: nat, j: nat) {
    && i != j && i < |s.db.attempts| && j < |s.db.attempts| && s.db.attempts[i].trade == t && s.db.attempts[j].trade == t
    && HasFilled(s.ex, i) && HasFilled(s.ex, j)
  }

  /** The trade of the closed attempt, retried and at the head of the queue, as it was. */
  predicate HeadAgain(s: Sys, s': Sys)
    requires Closes(s)
  {
    var r := s.process.running.value;
    && AtHead(s', r.trade) && r.trade < |s.db.trades| && SameSignal(s.db.trades[r.trade], s'.db.trades[r.trade])
    && s'.clock == s.clock && s'.ex == s.ex
    && r.attempt < |s'.db.attempts| && s'.db.attempts[r.attempt].trade == r.trade
  }

  /** The trade is retried behind the others. */
  lemma Requeued(s: Sys)
    requires ClosesSoft(s) && QueueOk(s.db, s.process)
    ensures var t, i, es := s.process.running.value.trade, s.process.running.value.attempt, FINISHING + [Retry(s.process.running.value.trade)];
            && Possible(s, es)
            && var s' := Run(s, es);
            && s'.process.Up? && s'.process.running.None? && s'.process.queue == s.process.queue + [t]
            && s'.clock == s.clock && s'.ex == s.ex && |s'.db.trades| == |s.db.trades|
            && t < |s.db.trades| && SameSignal(s.db.trades[t], s'.db.trades[t]) && IsOpen(s'.db.trades[t].status)
            && |s'.db.attempts| == |s.db.attempts| && s'.db.attempts[i].trade == t
  {
    Ends(s);
    RunSnoc(s, FINISHING, Retry(s.process.running.value.trade));
  }

  lemma ComesToHead(s: Sys) returns (es: seq<Event>)
    requires ClosesSoft(s) && QueueOk(s.db, s.process)
    ensures Possible(s, es) && Quiet(es) && HeadAgain(s, Run(s, es))
  {
    var r := s.process.running.value;
    var first := FINISHING + [Retry(r.trade)];
    Requeued(s);
    var s2 := Run(s, first);
    var rest := QueueDrains(s2, s.process.queue, r.trade);
    RunConcat(s, first, rest);
    es := first + rest;
    assert Run(s2, rest).db.attempts[..|s2.db.attempts|][r.attempt] == s2.db.attempts[r.attempt];
  }

  lemma SecondFill(s: Sys, s': Sys, d: MarketRead, o: Order)
    requires Closes(s) && HasFilled(s.ex, s.process.running.value.attempt) && HeadAgain(s, s')
    requires LetsBuy(s', s.process.running.value.trade, d) && Fills(o, TermsNow(s', s.process.running.value.trade, d))
    ensures var n, r := |s'.db.attempts|, s.process.running.value;
            && Possible(s', BuyEvents(n, d, o))
            && BothFilled(Run(s', BuyEvents(n, d, o)), r.trade, r.attempt, n)
  {
    var n, r := |s'.db.attempts|, s.process.running.value;
    Buys(s', r.trade, d, o);
    var s2 := Run(s', BuyEvents(n, d, o));
    assert s2.db.attempts[..n][r.attempt] == s'.db.attempts[r.attempt];
  }

  /** The run takes no order of row `i` and no recovery look-up in it fails. */
  predicate Spares(es: seq<Event>, i: nat) {
    NoneFails(es) && forall k :: 0 <= k < |es| && es[k].ExchangeAccepts? ==> es[k].attempt != i
  }

  /** From every state in which an attempt closes softly although its order has filled, if some read lets the trade
      buy: a run that satisfies every assumption fills a second order of the trade. */
  lemma BuysSecond(s: Sys, d: MarketRead, o: Order) returns (es: seq<Event>, n: nat)
    requires ClosesSoft(s) && QueueOk(s.db, s.process) && HasFilled(s.ex, s.process.running.value.attempt)
    requires LetsBuy(s, s.process.running.value.trade, d) && Fills(o, TermsNow(s, s.process.running.value.trade, d))
    ensures Possible(s, es) && LooksUpThroughout(s, es) && Spares(es, s.process.running.value.attempt)
    ensures BothFilled(Run(s, es), s.process.running.value.trade, s.process.running.value.attempt, n)
  {
    var t := s.process.running.value.trade;
    var first := ComesToHead(s);
    var s1 := Run(s, first);
    AdjustedLetsBuy(s, s1, t, d);
    var d2 := Adjusted(s, s1, d);
    n := |s1.db.attempts|;
    SecondFill(s, s1, d2, o);
    RunConcat(s, first, BuyEvents(n, d2, o));
    es := first + BuyEvents(n, d2, o);
    NoneFailsLooksUp(s, es);
  }
}
