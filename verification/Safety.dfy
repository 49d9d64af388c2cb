/** What holds in every state of every run of the trade lifecycle. */
module Safety {
  import opened Pricing
  import opened Arithmetic
  import opened Guards
  import opened Trades
  import opened Lifecycle
  import opened Invariant
  import opened Preservation
  import opened Ledger

  ghost predicate Good(s: Sys, opening: int) {
    Inv(s) && AuditOk(s.db) && BooksOk(s.db, opening)
  }

  lemma {:induction false} GoodRun(s: Sys, opening: int, es: seq<Event>)
    requires Good(s, opening) && Possible(s, es) && LooksUpThroughout(s, es)
    ensures Good(Run(s, es), opening)
    decreases |es|
  {
    if es != [] {
      StepKeeps(s, es[0]);
      StepAudits(s, es[0]);
      StepKeepsBooks(s, opening, es[0]);
      GoodRun(Step(s, es[0]), opening, es[1..]);
    }
  }

  /** From a fresh database on, every run stays good. */
  lemma GoodFromBoot(opening: int, clock: int, es: seq<Event>)
    requires Possible(Boot0(opening, clock), es) && LooksUpThroughout(Boot0(opening, clock), es)
    ensures Good(Run(Boot0(opening, clock), es), opening)
  {
    InitInv(opening, clock);
    GoodRun(Boot0(opening, clock), opening, es);
  }

  // ---- no double buy ------------------------------------------------------------------------------------

  /** The row stands for contracts bought: an attempt recorded as filled, or an order that filled at the exchange. */
  predicate Bought(s: Sys, i: nat) {
    i < |s.db.attempts| && (s.db.attempts[i].status == AttemptFilled || (i in s.ex.orders && s.ex.orders[i].fillCc > 0))
  }

  /** No trade is bought twice, whatever the interleaving, the crashes and the exchange's answers. */
  lemma NoDoubleBuy(opening: int, clock: int, es: seq<Event>, i: nat, j: nat)
    requires Possible(Boot0(opening, clock), es) && LooksUpThroughout(Boot0(opening, clock), es)
    ensures var s := Run(Boot0(opening, clock), es);
            Bought(s, i) && Bought(s, j) && s.db.attempts[i].trade == s.db.attempts[j].trade ==> i == j
  {
    GoodFromBoot(opening, clock, es);
    var s := Run(Boot0(opening, clock), es);
    if Bought(s, i) && Bought(s, j) && s.db.attempts[i].trade == s.db.attempts[j].trade {
      assert OrderOk(s.db, s.ex, i) && OrderOk(s.db, s.ex, j);
      assert AttemptOk(s.db, i) && AttemptOk(s.db, j);
      LastIsUnique(s.db, i, j);
    }
  }

  /** An order may exist whose outcome the app has not recorded. */
  predicate OutcomeOpen(s: Sys, i: nat) {
    i in s.ex.inflight || (i in s.ex.orders && IsPendingAttempt(s.db, i))
  }

  function RequestOf(ex: Exchange, i: nat): Sent
    requires i in ex.inflight || i in ex.orders
  {
    if i in ex.inflight then ex.inflight[i] else ex.orders[i].sent
  }

  /** While an order may exist with an unrecorded outcome, its trade and its attempt are `pending` with the limit
      and the count that were sent, and no step starts another attempt of the trade. */
  lemma OpenOutcomeHolds(opening: int, clock: int, es: seq<Event>, i: nat, e: Event)
    requires Possible(Boot0(opening, clock), es) && LooksUpThroughout(Boot0(opening, clock), es)
    requires OutcomeOpen(Run(Boot0(opening, clock), es), i) && Enabled(Run(Boot0(opening, clock), es), e)
    ensures var s := Run(Boot0(opening, clock), es);
            && AwaitsOutcome(s.db, i, RequestOf(s.ex, i))
            && var t := s.db.attempts[i].trade;
            && t < |Step(s, e).db.trades| && Step(s, e).db.trades[t].attempts == s.db.trades[t].attempts
            && forall j :: |s.db.attempts| <= j < |Step(s, e).db.attempts| ==> Step(s, e).db.attempts[j].trade != t
  {
    GoodFromBoot(opening, clock, es);
    var s := Run(Boot0(opening, clock), es);
    assert OrderOk(s.db, s.ex, i);
    PendingBlocks(s, s.db.attempts[i].trade, e);
  }

  lemma PendingBlocks(s: Sys, t: nat, e: Event)
    requires Inv(s) && t < |s.db.trades| && s.db.trades[t].status == Pending && Enabled(s, e)
    ensures t < |Step(s, e).db.trades| && Step(s, e).db.trades[t].attempts == s.db.trades[t].attempts
    ensures forall j :: |s.db.attempts| <= j < |Step(s, e).db.attempts| ==> Step(s, e).db.attempts[j].trade != t
  {
    if e.BeginNext? {
      BeginSparesPending(s, t, e.mode, e.configured);
    } else {
      OnlyBeginAddsAttempts(s, e);
      if e.OnSignal? {
        if !Known(s.db, e.signal.strategy, e.signal.game) { TradesGrow(s.db, e.signal); }
      } else if !e.RecoverFinish? {
        OthersKeepRows(s, e);
        if Touched(s, e).Some? { TouchKeepsCount(s, e); }
      }
    }
  }

  lemma BeginSparesPending(s: Sys, t: nat, mode: Effective, configured: bool)
    requires Inv(s) && t < |s.db.trades| && s.db.trades[t].status == Pending && Enabled(s, BeginNext(mode, configured))
    ensures var db' := Begin(s, mode, configured).db;
            && t < |db'.trades| && db'.trades[t] == s.db.trades[t]
            && forall j :: |s.db.attempts| <= j < |db'.attempts| ==> db'.attempts[j].trade != t
  {
    assert s.process.queue[0] in s.process.queue;
  }

  lemma OnlyBeginAddsAttempts(s: Sys, e: Event)
    requires Enabled(s, e) && !e.BeginNext?
    ensures |Step(s, e).db.attempts| == |s.db.attempts|
  {
  }

  lemma TouchKeepsCount(s: Sys, e: Event)
    requires Inv(s) && Enabled(s, e) && !e.BeginNext? && Touched(s, e).Some? && Touched(s, e).value < |s.db.trades|
    requires Touched(s, e).value < |Step(s, e).db.trades|
    ensures Step(s, e).db.trades[Touched(s, e).value].attempts == s.db.trades[Touched(s, e).value].attempts
  {
    if AsksExchange(e) { ExchangeKeepsCount(s, e); } else { LocalKeepsCount(s, e); }
  }

  lemma ExchangeKeepsCount(s: Sys, e: Event)
    requires Enabled(s, e) && AsksExchange(e) && Touched(s, e).value < |s.db.trades| && Touched(s, e).value < |Step(s, e).db.trades|
    ensures Step(s, e).db.trades[Touched(s, e).value].attempts == s.db.trades[Touched(s, e).value].attempts
  {
  }

  lemma LocalKeepsCount(s: Sys, e: Event)
    requires Enabled(s, e) && !AsksExchange(e) && !e.BeginNext? && Touched(s, e).Some? && Touched(s, e).value < |s.db.trades|
    requires Touched(s, e).value < |Step(s, e).db.trades|
    ensures Step(s, e).db.trades[Touched(s, e).value].attempts == s.db.trades[Touched(s, e).value].attempts
  {
  }

  // ---- the lifecycle ------------------------------------------------------------------------------------

  /** A skipped or settled trade never changes again, nor does a fill: a step leaves terminal rows as they are,
      and moves a filled one only to its settlement. */
  lemma TerminalStays(s: Sys, t: nat, e: Event)
    requires Inv(s) && t < |s.db.trades| && Enabled(s, e)
    ensures t < |Step(s, e).db.trades|
    ensures s.db.trades[t].status == Skipped || IsSettled(s.db.trades[t].status) ==> Step(s, e).db.trades[t] == s.db.trades[t]
    ensures s.db.trades[t].status == Filled ==>
              Step(s, e).db.trades[t] == s.db.trades[t]
              || (e.SettleTrade? && IsSettled(Step(s, e).db.trades[t].status) && Step(s, e).db.trades[t].fill == s.db.trades[t].fill)
  {
    if e.OnSignal? {
      if !Known(s.db, e.signal.strategy, e.signal.game) { TradesGrow(s.db, e.signal); }
    } else if !e.RecoverFinish? {
      OthersKeepRows(s, e);
      if Touched(s, e) == Some(t) { TouchSparesTerminal(s, e); }
    }
  }

  lemma TouchSparesTerminal(s: Sys, e: Event)
    requires Inv(s) && Enabled(s, e) && Touched(s, e).Some?
    ensures var t := Touched(s, e).value;
            && t < |s.db.trades| == |Step(s, e).db.trades|
            && var row, row' := s.db.trades[t], Step(s, e).db.trades[t];
            && (row.status == Skipped || IsSettled(row.status) ==> row' == row)
            && (row.status == Filled ==> row' == row || (e.SettleTrade? && IsSettled(row'.status) && row'.fill == row.fill))
  {
    if AsksExchange(e) {
      ExchangeRecords(s, e);
    } else {
      OthersKeepRows(s, e);
      if e.BeginNext? { assert s.process.queue[0] in s.process.queue; }
    }
  }

  /** Over any run: a terminal row is frozen, so a repeated settler pass changes no settled trade and a skipped
      trade never buys. */
  lemma {:induction false} TerminalStaysForever(s: Sys, t: nat, es: seq<Event>)
    requires Inv(s) && t < |s.db.trades| && Possible(s, es) && LooksUpThroughout(s, es)
    requires s.db.trades[t].status == Skipped || IsSettled(s.db.trades[t].status)
    ensures t < |Run(s, es).db.trades| && Run(s, es).db.trades[t] == s.db.trades[t]
    decreases |es|
  {
    if es != [] {
      StepKeeps(s, es[0]);
      TerminalStays(s, t, es[0]);
      TerminalStaysForever(Step(s, es[0]), t, es[1..]);
    }
  }

  /** In every reachable state the audit trail is a path of the lifecycle that ends in each trade's status, there
      is one trade per strategy and game, and the books are exact: every dry-run fill is debited once, every
      dry-run settlement credited once, nothing else touches the bankroll. */
  lemma LifecycleAndLedger(opening: int, clock: int, es: seq<Event>)
    requires Possible(Boot0(opening, clock), es) && LooksUpThroughout(Boot0(opening, clock), es)
    ensures var db := Run(Boot0(opening, clock), es).db;
            && IsTrail(db.audit) && (forall t :: 0 <= t < |db.trades| ==> LastStatus(db.audit, t) == db.trades[t].status)
            && OnePerGame(db)
            && db.bankroll == Before(db.snapshots, opening, |db.snapshots|)
            && (forall k :: 0 <= k < |db.snapshots| ==> SnapshotOk(db, opening, k))
            && (forall t :: 0 <= t < |db.trades| ==> CountsOk(db, t) && BookedOk(db.trades[t]))
  {
    GoodFromBoot(opening, clock, es);
  }

  /** In every reachable state a settled trade is won exactly at a value of a dollar, lost at none and void otherwise;
      its payout is the value of what it holds and its P&L that less price and fee. */
  lemma SettledByValue(opening: int, clock: int, es: seq<Event>, t: nat)
    requires Possible(Boot0(opening, clock), es) && LooksUpThroughout(Boot0(opening, clock), es)
    requires t < |Run(Boot0(opening, clock), es).db.trades| && IsSettled(Run(Boot0(opening, clock), es).db.trades[t].status)
    ensures var row := Run(Boot0(opening, clock), es).db.trades[t];
            && row.settlement.Some? && row.fill.Some?
            && var x, f := row.settlement.value, row.fill.value;
            && (row.status == SettledWon <==> x.valueBp == 10_000) && (row.status == SettledLost <==> x.valueBp == 0)
            && x.payout == f.cc * x.valueBp && x.pnl == f.cc * x.valueBp - f.cc * f.avgBp - f.fee
  {
    GoodFromBoot(opening, clock, es);
    var s := Run(Boot0(opening, clock), es);
    assert TradeOk(s.db.trades[t]) && BookedOk(s.db.trades[t]);
  }

  /** For a settled dry-run trade, what the bankroll moved by is its realized P&L. */
  lemma SettledNetIsPnl(opening: int, clock: int, es: seq<Event>, t: nat)
    requires Possible(Boot0(opening, clock), es) && LooksUpThroughout(Boot0(opening, clock), es)
    requires t < |Run(Boot0(opening, clock), es).db.trades| && Credited(Run(Boot0(opening, clock), es).db.trades[t])
    ensures var row := Run(Boot0(opening, clock), es).db.trades[t];
            row.settlement.Some? && Net(row) == row.settlement.value.pnl
  {
    GoodFromBoot(opening, clock, es);
    var s := Run(Boot0(opening, clock), es);
    assert TradeOk(s.db.trades[t]) && BookedOk(s.db.trades[t]);
  }

  // ---- live orders do not over-commit -------------------------------------------------------------------

  /** While a live attempt waits for its order group: what it will cost is within its stake, and its balance is
      the cash it read less what other pending live attempts may still cost. */
  predicate CashOk(s: Sys) {
    s.process.Up? && s.process.running.Some? && s.process.running.value.pc.AwaitingGroup? ==>
      var r := s.process.running.value;
      var terms := r.pc.terms;
      && r.trade < |s.db.trades|
      && var z := s.db.trades[r.trade].version.sizing;
      && terms.balance + PendingLiveCost(s.db.attempts, r.attempt) <= r.pc.cash
      && terms.balance > 0
      && CostMicros(terms.requestedCc, terms.limitBp) <= terms.stake == StakeMicros(terms.balance, z.percentCenti, z.minStake, z.maxStake)
  }

  lemma {:induction false} CostFalls(attempts: seq<Attempt>, attempts': seq<Attempt>, except: int)
    requires |attempts| == |attempts'|
    requires forall i :: 0 <= i < |attempts| ==> attempts'[i] == attempts[i] || attempts'[i].status != AttemptPending
    requires forall i :: 0 <= i < |attempts| && attempts[i].status == AttemptPending ==> PendingCost(attempts[i]) >= 0
    ensures PendingLiveCost(attempts', except) <= PendingLiveCost(attempts, except)
  {
    if attempts != [] {
      CostFalls(attempts[..|attempts| - 1], attempts'[..|attempts| - 1], except);
    }
  }

  predicate TiesCash(attempts: seq<Attempt>, i: nat, except: int) {
    i < |attempts| && i != except && attempts[i].status == AttemptPending && attempts[i].mode == Live
  }

  /** What pending live orders may cost depends on the pending live rows alone, the exception aside: dry runs and closed
      rows tie up nothing, and each of the others its limit times its count. */
  lemma {:induction false} OnlyLiveTies(attempts: seq<Attempt>, attempts': seq<Attempt>, except: int)
    requires |attempts| == |attempts'|
    requires forall i: nat :: i < |attempts| ==>
               (TiesCash(attempts, i, except) <==> TiesCash(attempts', i, except)) && (TiesCash(attempts, i, except) ==> attempts[i] == attempts'[i])
    ensures PendingLiveCost(attempts, except) == PendingLiveCost(attempts', except)
    ensures forall limit, cc :: |attempts| == 1 && attempts[0].limitBp == Some(limit) && attempts[0].requestedCc == Some(cc) ==>
              PendingLiveCost(attempts, except) == if TiesCash(attempts, 0, except) then cc * limit else 0
  {
    if attempts != [] {
      var n := |attempts| - 1;
      assert TiesCash(attempts, n, except) <==> TiesCash(attempts', n, except);
      forall i: nat | i < n
        ensures (TiesCash(attempts[..n], i, except) <==> TiesCash(attempts'[..n], i, except)) && (TiesCash(attempts[..n], i, except) ==> attempts[..n][i] == attempts'[..n][i])
      {
        assert TiesCash(attempts, i, except) <==> TiesCash(attempts', i, except);
        assert TiesCash(attempts[..n], i, except) <==> TiesCash(attempts, i, except);
        assert TiesCash(attempts'[..n], i, except) <==> TiesCash(attempts', i, except);
      }
      OnlyLiveTies(attempts[..n], attempts'[..n], except);
    }
  }

  lemma AcceptedCost(i: EntryInput, cc: int)
    requires EvaluateEntry(i).Accept? && cc <= EvaluateEntry(i).requestedCc
    ensures var r := EvaluateEntry(i);
            CostMicros(cc, r.limitBp) <= r.stake == StakeMicros(i.balance, i.percentCenti, i.minStake, i.maxStake) && i.balance > 0
  {
    var r := EvaluateEntry(i);
    ContractsAreMost(r.stake, r.limitBp, r.requestedCc / 100);
    MulMonotone(cc, r.requestedCc, r.limitBp);
  }

  /** What `AfterReads` leaves for a live order is what the guards accepted, cut to the depth. */
  lemma GroupTerms(db: Db, now: int, row: Trade, mode: Mode, attempt: nat, d: MarketRead)
    requires AfterReads(db, now, row, mode, attempt, Some(d)).AwaitingGroup?
    ensures mode == Live && EvaluateEntry(EntryOf(db, now, row, mode, attempt, d)).Accept?
    ensures var r := EvaluateEntry(EntryOf(db, now, row, mode, attempt, d));
            var cc := Min(r.requestedCc, r.depthCc) / 100 * 100;
            cc <= r.requestedCc
            && AfterReads(db, now, row, mode, attempt, Some(d))
               == AwaitingGroup(Terms(d.cash - PendingLiveCost(db.attempts, attempt), r.stake, r.limitBp, cc), d.cash)
  {
  }

  lemma ReadDoneCash(s: Sys, read: Option<MarketRead>)
    requires Inv(s) && Enabled(s, ReadDone(read))
    ensures CashOk(Step(s, ReadDone(read)))
  {
    var r := s.process.running.value;
    var row := s.db.trades[r.trade];
    var mode := s.db.attempts[r.attempt].mode;
    var pc := AfterReads(s.db, s.clock, row, mode, r.attempt, read);
    if pc.AwaitingGroup? {
      GroupTerms(s.db, s.clock, row, mode, r.attempt, read.value);
      AcceptedCost(EntryOf(s.db, s.clock, row, mode, r.attempt, read.value), pc.terms.requestedCc);
    }
  }

  lemma StepKeepsCash(s: Sys, e: Event)
    requires Inv(s) && CashOk(s) && Enabled(s, e)
    ensures CashOk(Step(s, e))
  {
    if e.ReadDone? {
      ReadDoneCash(s, e.read);
    } else if WaitsForGroup(Step(s, e)) {
      WaitingKeepsCash(s, e);
    }
  }

  predicate WaitsForGroup(s: Sys) {
    s.process.Up? && s.process.running.Some? && s.process.running.value.pc.AwaitingGroup?
  }

  /** No other step makes an attempt wait for its group, and while one waits nothing it was sized on grows. */
  lemma WaitingKeepsCash(s: Sys, e: Event)
    requires Inv(s) && CashOk(s) && Enabled(s, e) && !e.ReadDone? && WaitsForGroup(Step(s, e))
    ensures CashOk(Step(s, e))
  {
    OthersWait(s, e);
    var r := s.process.running.value;
    forall i | 0 <= i < |s.db.attempts| && s.db.attempts[i].status == AttemptPending
      ensures PendingCost(s.db.attempts[i]) >= 0
    {
      assert AttemptOk(s.db, i);
    }
    if e.OnSignal? {
      if !Known(s.db, e.signal.strategy, e.signal.game) { TradesGrow(s.db, e.signal); }
    } else {
      RunningTradeKeepsVersion(s, e);
      CostFalls(s.db.attempts, Step(s, e).db.attempts, r.attempt);
    }
  }

  lemma OthersWait(s: Sys, e: Event)
    requires Enabled(s, e) && !e.ReadDone? && WaitsForGroup(Step(s, e))
    ensures s.process.Up? && Step(s, e).process.running == s.process.running && !e.RecoverFinish?
    ensures |Step(s, e).db.attempts| == |s.db.attempts|
    ensures forall i :: 0 <= i < |s.db.attempts| ==>
                          Step(s, e).db.attempts[i] == s.db.attempts[i] || Step(s, e).db.attempts[i].status != AttemptPending
  {
  }

  lemma RunningTradeKeepsVersion(s: Sys, e: Event)
    requires Inv(s) && Enabled(s, e) && !e.OnSignal? && !e.RecoverFinish? && s.process.Up? && s.process.running.Some?
    ensures var t := s.process.running.value.trade;
            t < |s.db.trades| == |Step(s, e).db.trades| && Step(s, e).db.trades[t].version == s.db.trades[t].version
  {
    OthersKeepRows(s, e);
  }

  lemma {:induction false} CashRun(s: Sys, es: seq<Event>)
    requires Inv(s) && CashOk(s) && Possible(s, es) && LooksUpThroughout(s, es)
    ensures Inv(Run(s, es)) && CashOk(Run(s, es))
    decreases |es|
  {
    if es != [] {
      StepKeeps(s, es[0]);
      StepKeepsCash(s, es[0]);
      CashRun(Step(s, es[0]), es[1..]);
    }
  }

  lemma {:induction false} CostOfOneMore(attempts: seq<Attempt>, i: nat, row: Attempt)
    requires i < |attempts| && row.status == AttemptPending && row.mode == Live
    ensures PendingLiveCost(attempts[i := row], -1) == PendingLiveCost(attempts, i) + PendingCost(row)
    ensures row.limitBp.Some? && row.requestedCc.Some? ==>
              PendingLiveCost(attempts[i := row], -1) == PendingLiveCost(attempts, i) + row.requestedCc.value * row.limitBp.value
  {
    var n := |attempts| - 1;
    if i == n {
      assert attempts[i := row][..n] == attempts[..n];
      CostExcept(attempts[..n], i);
    } else {
      CostOfOneMore(attempts[..n], i, row);
      assert attempts[i := row][..n] == attempts[..n][i := row];
    }
  }

  lemma {:induction false} CostExcept(attempts: seq<Attempt>, except: nat)
    requires except >= |attempts|
    ensures PendingLiveCost(attempts, except) == PendingLiveCost(attempts, -1)
  {
    if attempts != [] {
      CostExcept(attempts[..|attempts| - 1], except);
    }
  }

  /** Sized on at least the minimum stake and at most 100 %: when a live order is placed, everything this app may
      still have to pay for pending live orders is within the cash that was read. */
  lemma PlacedWithinCash(opening: int, clock: int, es: seq<Event>)
    requires Possible(Boot0(opening, clock), es) && LooksUpThroughout(Boot0(opening, clock), es)
    requires Enabled(Run(Boot0(opening, clock), es), GroupDone(true))
    requires var s := Run(Boot0(opening, clock), es);
             var z := s.db.trades[s.process.running.value.trade].version.sizing;
             0 <= z.percentCenti <= 10_000 && z.minStake <= s.process.running.value.pc.terms.balance
    ensures var s := Run(Boot0(opening, clock), es);
            PendingLiveCost(Step(s, GroupDone(true)).db.attempts, -1) <= s.process.running.value.pc.cash
  {
    InitInv(opening, clock);
    CashRun(Boot0(opening, clock), es);
    var s := Run(Boot0(opening, clock), es);
    var r := s.process.running.value;
    var z := s.db.trades[r.trade].version.sizing;
    StakeWithinBalance(r.pc.terms.balance, z.percentCenti, z.minStake, z.maxStake);
    var placed := Step(s, GroupDone(true)).db.attempts;
    CostOfOneMore(s.db.attempts, r.attempt, placed[r.attempt]);
    assert placed == s.db.attempts[r.attempt := placed[r.attempt]];
  }
}
