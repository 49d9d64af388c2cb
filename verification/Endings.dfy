/** How each wait of an attempt ends, in the fields of the trade, the attempt and the exchange
    (app/src/core/executor.ts): what a signal inserts, what each answer to an order or a look-up leaves, what recovery
    and the sweep make of an open trade. */
module Endings {
  import opened Pricing
  import opened Guards
  import opened Trades
  import opened Lifecycle
  import opened Invariant
  import opened Repurchase
  import opened Outcomes

  // ---- the beginning ------------------------------------------------------------------------------------

  /** The first signal of a strategy on a game adds its trade: queued, or skipped at once without a market. A later
      one changes nothing. */
  lemma SignalAdds(s: Sys, g: Signal)
    requires Enabled(s, OnSignal(g))
    ensures var s', n := Step(s, OnSignal(g)), |s.db.trades|;
            if exists t :: 0 <= t < n && s.db.trades[t].strategy == g.strategy && s.db.trades[t].game == g.game then s' == s
            else
              && |s'.db.trades| == n + 1 && s'.db.trades[..n] == s.db.trades && s'.db.attempts == s.db.attempts
              && var row := s'.db.trades[n];
              && row.strategy == g.strategy && row.game == g.game && row.side == g.side && row.ticker == g.ticker
              && row.version == g.version && row.windowEnds == g.windowEnds && row.mode == g.mode
              && row.attempts == 0 && row.terms.None? && row.fill.None? && row.settlement.None? && !row.windowExpired
              && if g.ticker.Some?
                 then row.status == Signalled && row.skipReason.None? && s'.process.queue == s.process.queue + [n] && n in s'.process.busy
                 else row.status == Skipped && row.skipReason == Some(NoMarket) && s'.process == s.process
  {
    if !Known(s.db, g.strategy, g.game) {
      var s' := Step(s, OnSignal(g));
      assert s'.db.trades[..|s.db.trades|] == s.db.trades;
    }
  }

  /** A retry puts the trade behind those that wait; nothing else changes. */
  lemma RetryQueues(s: Sys, t: nat)
    requires Enabled(s, Retry(t))
    ensures var s' := Step(s, Retry(t));
            && s'.db == s.db && s'.ex == s.ex && s'.clock == s.clock && s'.process.Up?
            && s'.process.queue == s.process.queue + [t] && s'.process.busy == s.process.busy + {t}
            && s'.process.running == s.process.running
  {
  }

  /** The head of the queue gets its next attempt: numbered, dated, in the mode the switches give. */
  predicate Began(s: Sys, s': Sys, mode: Mode)
    requires s.process.Up? && s.process.queue != [] && s.process.queue[0] < |s.db.trades|
  {
    var t, n := s.process.queue[0], |s.db.attempts|;
    && |s'.db.attempts| == n + 1 && s'.db.attempts[..n] == s.db.attempts && t < |s'.db.trades|
    && s'.process.Up? && s'.process.queue == s.process.queue[1..]
    && var a := s'.db.attempts[n];
    && a.trade == t && a.no == s.db.trades[t].attempts + 1 == s'.db.trades[t].attempts && a.at == s.clock && a.mode == mode
  }

  predicate CanBegin(s: Sys) {
    && s.process.Up? && s.process.running.None? && s.process.queue != [] && s.process.queue[0] < |s.db.trades|
    && IsOpen(s.db.trades[s.process.queue[0]].status) && s.db.trades[s.process.queue[0]].ticker.Some?
  }

  /** The trade and its newest attempt, as a finished attempt leaves them. */
  predicate LeftAs(s: Sys, t: nat, i: nat, status: Status, reason: Reason, mode: Mode, attempt: AttemptStatus) {
    && t < |s.db.trades| && i < |s.db.attempts| && s.process.Up? && s.process.running.None? && t !in s.process.busy
    && s.db.trades[t].status == status && s.db.trades[t].skipReason == Some(reason) && s.db.trades[t].mode == mode
    && s.db.attempts[i].status == attempt && s.db.attempts[i].reason == Some(reason)
  }

  lemma FinishLeaves(s: Sys)
    requires Closes(s)
    ensures Possible(s, FINISHING)
    ensures var r, s' := s.process.running.value, Run(s, FINISHING);
            && r.trade < |s.db.trades| && r.attempt < |s.db.attempts|
            && LeftAs(s', r.trade, r.attempt, if r.pc.status == HardSkip then Skipped else Waiting, r.pc.reason,
                      if r.patch.Some? then r.patch.value else s.db.trades[r.trade].mode, r.pc.status)
            && s'.ex == s.ex && s'.db.bankroll == s.db.bankroll
            && s'.db.attempts[r.attempt].limitBp == r.pc.limitBp && s'.db.attempts[r.attempt].requestedCc == r.pc.requestedCc
  {
    Ends(s);
    BothCommits(s);
    assert FINISHING[1..] == [CloseTradeRow] && [CloseTradeRow][1..] == [];
  }

  lemma BothCommits(s: Sys)
    requires Closes(s)
    ensures Enabled(s, CloseAttemptRow) && Enabled(Step(s, CloseAttemptRow), CloseTradeRow)
    ensures var r, s' := s.process.running.value, Step(Step(s, CloseAttemptRow), CloseTradeRow);
            && LeftAs(s', r.trade, r.attempt, if r.pc.status == HardSkip then Skipped else Waiting, r.pc.reason,
                      if r.patch.Some? then r.patch.value else s.db.trades[r.trade].mode, r.pc.status)
            && s'.ex == s.ex && s'.db.bankroll == s.db.bankroll
            && s'.db.attempts[r.attempt].limitBp == r.pc.limitBp && s'.db.attempts[r.attempt].requestedCc == r.pc.requestedCc
  {
  }

  /** A paused strategy ends the trade, missing credentials end the attempt, otherwise the attempt reads the market. */
  lemma BeginDecides(s: Sys, mode: Effective, configured: bool)
    requires CanBegin(s)
    ensures Enabled(s, BeginNext(mode, configured))
    ensures var s1, t, n := Step(s, BeginNext(mode, configured)), s.process.queue[0], |s.db.attempts|;
            && Began(s, s1, if mode.Runs? then mode.mode else s.db.trades[t].mode)
            && match mode
               case Paused =>
                 Possible(s1, FINISHING) && LeftAs(Run(s1, FINISHING), t, n, Skipped, PausedReason, s.db.trades[t].mode, HardSkip)
               case Runs(m) =>
                 if configured then AttemptRuns(s1) && s1.process.running.value.pc == Reading && s1.process.running.value.attempt == n
                 else Possible(s1, FINISHING) && LeftAs(Run(s1, FINISHING), t, n, Waiting, ErrorReason, m, AttemptError)
  {
    var s1 := Step(s, BeginNext(mode, configured));
    assert s1.db.attempts[..|s.db.attempts|] == s.db.attempts;
    if s1.process.running.value.pc.Closing? { FinishLeaves(s1); }
  }

  // ---- the order ----------------------------------------------------------------------------------------

  function TradeAt(s: Sys): Trade
    requires AttemptRuns(s)
  {
    s.db.trades[s.process.running.value.trade]
  }

  /** With the order group known, the trade is pending with its terms and the request carries them; without it the
      attempt is an error and nothing is sent. */
  lemma GroupDecides(s: Sys, found: bool)
    requires AttemptRuns(s) && s.process.running.value.pc.AwaitingGroup?
    ensures Enabled(s, GroupDone(found))
    ensures var s1, r := Step(s, GroupDone(found)), s.process.running.value;
            var terms := r.pc.terms;
            if found then
              && AttemptRuns(s1) && s1.process.running.value.pc == Sending && s1.process.running.value.attempt == r.attempt && s1.process.running.value.trade == r.trade
              && TradeAt(s1) == TradeAt(s).(status := Pending, mode := Live, skipReason := None, terms := Some(terms))
              && s1.db.attempts[r.attempt].limitBp == Some(terms.limitBp) && s1.db.attempts[r.attempt].requestedCc == Some(terms.requestedCc)
              && r.attempt in s1.ex.inflight && s1.ex.inflight[r.attempt] == Sent(terms.limitBp, terms.requestedCc)
            else
              && Possible(s1, FINISHING) && s1.ex == s.ex
              && LeftAs(Run(s1, FINISHING), r.trade, r.attempt, Waiting, ErrorReason, if r.patch.Some? then r.patch.value else TradeAt(s).mode, AttemptError)
  {
    if !found { FinishLeaves(Step(s, GroupDone(found))); }
  }

  /** A virtual fill is at the limit, for the exact fee, out of the bankroll. */
  lemma FeeDecides(s: Sys, milli: int, prec: int)
    requires AttemptRuns(s) && s.process.running.value.pc.AwaitingFee?
    ensures Enabled(s, FeeDone(milli, prec))
    ensures var s1, r := Step(s, FeeDone(milli, prec)), s.process.running.value;
            var cc, limit, fee := r.pc.fillCc, r.pc.terms.limitBp, FeeMicros(r.pc.fillCc, r.pc.terms.limitBp, milli, prec);
            if fee.Some? then
              && r.trade < |s1.db.trades| && r.attempt < |s1.db.attempts| && s1.process.Up? && s1.process.running.None? && r.trade !in s1.process.busy
              && s1.db.trades[r.trade] == TradeAt(s).(status := Filled, mode := DryRun, skipReason := None, terms := Some(r.pc.terms),
                                                      fill := Some(Fill(cc, limit, cc * limit, fee.value)))
              && s1.db.attempts[r.attempt].status == AttemptFilled && s1.db.attempts[r.attempt].fill == Some(Fill(cc, limit, cc * limit, fee.value))
              && s1.db.bankroll == s.db.bankroll - cc * limit - fee.value
            else
              && Possible(s1, FINISHING)
              && LeftAs(Run(s1, FINISHING), r.trade, r.attempt, Waiting, ErrorReason, if r.patch.Some? then r.patch.value else TradeAt(s).mode, AttemptError)
  {
    var s1 := Step(s, FeeDone(milli, prec));
    if s1.process.running.Some? { FinishLeaves(s1); }
  }

  /** The trade and the attempt of row `i` hold this fill. */
  predicate Holds(s: Sys, i: nat, f: Fill) {
    && i < |s.db.attempts| && s.db.attempts[i].trade < |s.db.trades|
    && s.db.attempts[i].status == AttemptFilled && s.db.attempts[i].reason.None? && s.db.attempts[i].fill == Some(f)
    && var row := s.db.trades[s.db.attempts[i].trade];
    row.status == Filled && row.mode == Live && row.skipReason.None? && row.fill == Some(f)
  }

  /** Row `i` brought nothing, and its trade goes on for that reason, or is skipped if its window is over. */
  predicate Missed(s: Sys, s': Sys, i: nat, reason: Reason, over: bool) {
    && i < |s.db.attempts| == |s'.db.attempts| && s.db.attempts[i].trade < |s.db.trades| == |s'.db.trades|
    && s'.db.attempts[i] == s.db.attempts[i].(status := AttemptUnfilled, reason := Some(reason))
    && var row, row' := s.db.trades[s.db.attempts[i].trade], s'.db.trades[s.db.attempts[i].trade];
    row' == row.(status := if over then Skipped else Waiting, skipReason := Some(reason), windowExpired := row.windowExpired || over)
  }

  predicate IsFree(s: Sys, t: nat) { s.process.Up? && s.process.running.None? && t !in s.process.busy }

  /** What each answer to Create Order leaves. */
  lemma CreateDecides(s: Sys, a: CreateAnswer)
    requires Inv(s) && Enabled(s, CreateDone(a))
    ensures var s1, r := Step(s, CreateDone(a)), s.process.running.value;
            var mode := if r.patch.Some? then r.patch.value else TradeAt(s).mode;
            match a
            case Answered =>
              var o := s.ex.orders[r.attempt];
              && IsFree(s1, r.trade)
              && if o.fillCc > 0 then exists f :: AnswerSays(o, f) && Holds(s1, r.attempt, f)
                 else Missed(s, s1, r.attempt, Unfilled, false)
            case OutcomeUnknown => s1 == s.(process := s1.process) && AttemptRuns(s1) && s1.process.running.value == r.(pc := LookingUp)
            case GroupLimit => Possible(s1, FINISHING) && LeftAs(Run(s1, FINISHING), r.trade, r.attempt, Waiting, OrderGroupLimit, mode, SoftSkip)
            case OrderRefused => Possible(s1, FINISHING) && LeftAs(Run(s1, FINISHING), r.trade, r.attempt, Skipped, OrderRejected, mode, HardSkip)
            case _ => Possible(s1, FINISHING) && LeftAs(Run(s1, FINISHING), r.trade, r.attempt, Waiting, ErrorReason, mode, AttemptError)
  {
    var s1, r := Step(s, CreateDone(a)), s.process.running.value;
    if a.Answered? {
      AnsweredLeaves(s);
    } else if !a.OutcomeUnknown? {
      FinishLeaves(s1);
    }
  }

  lemma AnsweredLeaves(s: Sys)
    requires Inv(s) && Enabled(s, CreateDone(Answered))
    ensures var s1, r := Step(s, CreateDone(Answered)), s.process.running.value;
            var o := s.ex.orders[r.attempt];
            && IsFree(s1, r.trade)
            && if o.fillCc > 0 then exists f :: AnswerSays(o, f) && Holds(s1, r.attempt, f)
               else Missed(s, s1, r.attempt, Unfilled, false)
  {
    var s1, i := Step(s, CreateDone(Answered)), s.process.running.value.attempt;
    var o := s.ex.orders[i];
    assert OrderOk(s.db, s.ex, i);
    AnswerIsSaid(o);
    if o.fillCc > 0 {
      var f := OutcomeFromResult(o, o.sent.limitBp).fill.value;
      assert AnswerSays(o, f) && Holds(s1, i, f);
    }
  }

  /** What a look-up right after a lost answer leaves: an order is recorded as it is, no order ends the attempt as an
      error, and without an answer the attempt stays pending and its trade is let go. */
  lemma LookupDecides(s: Sys, answer: Lookup)
    requires Enabled(s, LookupDone(answer))
    ensures var s1, r := Step(s, LookupDone(answer)), s.process.running.value;
            match answer
            case LookupFailed => s1.db == s.db && s1.ex == s.ex && IsFree(s1, r.trade)
            case LookupFound =>
              var o := s.ex.orders[r.attempt];
              && IsFree(s1, r.trade)
              && if o.fillCc > 0 then exists f :: LookupSays(o, f) && Holds(s1, r.attempt, f)
                 else Missed(s, s1, r.attempt, Unfilled, false)
            case LookupNotFound =>
              && Possible(s1, FINISHING)
              && LeftAs(Run(s1, FINISHING), r.trade, r.attempt, Waiting, ErrorReason, if r.patch.Some? then r.patch.value else TradeAt(s).mode, AttemptError)
  {
    var s1, i := Step(s, LookupDone(answer)), s.process.running.value.attempt;
    if answer.LookupFound? {
      FoundLeaves(s);
    } else if answer.LookupNotFound? {
      FinishLeaves(s1);
    }
  }

  lemma FoundLeaves(s: Sys)
    requires Enabled(s, LookupDone(LookupFound))
    ensures var s1, r := Step(s, LookupDone(LookupFound)), s.process.running.value;
            var o := s.ex.orders[r.attempt];
            && IsFree(s1, r.trade)
            && if o.fillCc > 0 then exists f :: LookupSays(o, f) && Holds(s1, r.attempt, f)
               else Missed(s, s1, r.attempt, Unfilled, false)
  {
    var s1, i := Step(s, LookupDone(LookupFound)), s.process.running.value.attempt;
    var o := s.ex.orders[i];
    LookupIsSaid(o);
    if o.fillCc > 0 {
      var f := OutcomeFromOrder(o).fill.value;
      assert LookupSays(o, f) && Holds(s1, i, f);
    }
  }

  // ---- recovery, the resolver, the sweep, the settler ---------------------------------------------------

  function Listed(s: Sys, e: Event): nat
    requires Enabled(s, e) && (e.RecoverLookup? || e.ResolveNext?)
  {
    if e.RecoverLookup? then s.process.todo[0] else s.process.resolving[0]
  }

  /** What one look-up of recovery or of the resolver leaves: an order is recorded as it is; where nothing was bought
      the trade waits exactly if its window is still ahead. */
  lemma ListedDecides(s: Sys, e: Event)
    requires Enabled(s, e) && (e.RecoverLookup? || e.ResolveNext?)
    ensures var s1, i := Step(s, e), Listed(s, e);
            var over := s.db.trades[s.db.attempts[i].trade].windowEnds <= s.clock;
            match e.answer
            case LookupFailed => s1.db == s.db && s1.ex == s.ex
            case LookupFound =>
              var o := s.ex.orders[i];
              if o.fillCc > 0 then exists f :: LookupSays(o, f) && Holds(s1, i, f) else Missed(s, s1, i, Unfilled, over)
            case LookupNotFound => Missed(s, s1, i, if e.RecoverLookup? then RestartNoOrder else OrderNotFound, over)
  {
    var s1, i := Step(s, e), Listed(s, e);
    if e.answer.LookupFound? {
      var o := s.ex.orders[i];
      LookupIsSaid(o);
      if o.fillCc > 0 {
        var f := OutcomeFromOrder(o).fill.value;
        assert LookupSays(o, f) && Holds(s1, i, f);
      }
    }
  }

  /** The trade has a live attempt that is still pending. */
  ghost predicate HasPendingLive(db: Db, t: nat) { exists i: nat :: IsPendingLive(db, i) && db.attempts[i].trade == t }

  /** The end of recovery: an open or pending trade without a pending live attempt waits if its window is ahead and is
      skipped as expired if not, for its last reason or the restart; pending dry-run attempts are closed. */
  lemma RecoveryDecides(s: Sys, t: nat)
    requires Enabled(s, RecoverFinish) && t < |s.db.trades|
    ensures var row, row' := s.db.trades[t], Step(s, RecoverFinish).db.trades[t];
            var reason := if row.skipReason.Some? then row.skipReason else Some(Restart);
            if row.status !in {Signalled, Waiting, Pending} || HasPendingLive(s.db, t) then row' == row
            else if row.windowEnds <= s.clock then row' == row.(status := Skipped, windowExpired := true, skipReason := reason)
            else if row.status == Waiting then row' == row
            else row' == row.(status := Waiting, skipReason := reason)
    ensures forall i: nat :: i < |s.db.attempts| ==>
              var a, a' := s.db.attempts[i], Step(s, RecoverFinish).db.attempts[i];
              a' == if a.status == AttemptPending && a.mode == DryRun then a.(status := AttemptUnfilled, reason := Some(Restart)) else a
  {
    if Unresolved(s.db, t) {
      var i: nat :| i < |s.db.attempts| && s.db.attempts[i].trade == t && s.db.attempts[i].status == AttemptPending && s.db.attempts[i].mode == Live;
      assert IsPendingLive(s.db, i);
    }
  }

  /** An expired trade is skipped for the last reason it waited for, or for its window. */
  lemma ExpiryDecides(s: Sys, t: nat)
    requires Enabled(s, ExpireTrade(t))
    ensures var row, row' := s.db.trades[t], Step(s, ExpireTrade(t)).db.trades[t];
            row' == row.(status := Skipped, windowExpired := true,
                         skipReason := if row.skipReason.Some? then row.skipReason else Some(WindowExpired))
  {
  }

  /** A filled trade settles at the value of its market, whatever the pass does later; another is left alone. A dry run is
      paid out in the same step. */
  lemma SettlementDecides(s: Sys, k: nat, valueBp: int, warning: bool)
    requires Inv(s) && Enabled(s, SettleTrade(k, valueBp, warning))
    ensures var s1, t := Step(s, SettleTrade(k, valueBp, warning)), s.process.settling[k].trade;
            if s.db.trades[t].status != Filled then s1 == s
            else
              && s.db.trades[t].fill.Some?
              && var row, row', f := s.db.trades[t], s1.db.trades[t], s.db.trades[t].fill.value;
              && row'.status == (if valueBp == 10_000 then SettledWon else if valueBp == 0 then SettledLost else SettledVoid)
              && row'.settlement == Some(Settlement(valueBp, f.cc * valueBp, f.cc * valueBp - f.cc * f.avgBp - f.fee, warning && row.mode == Live))
              && row'.fill == row.fill && row'.mode == row.mode
              && s1.db.bankroll == s.db.bankroll + if row.mode == DryRun then f.cc * valueBp else 0
  {
    assert TradeOk(s.db.trades[s.process.settling[k].trade]);
  }
}
