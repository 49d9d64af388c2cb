/** The audit trail and the dry-run ledger over whole runs: trades move only along the lifecycle's edges, the
    bankroll is conserved, and a trade is debited and credited at most once. */
module Ledger {
  import opened Pricing
  import opened Guards
  import opened Trades
  import opened Lifecycle
  import opened Invariant
  import opened Preservation

  // ---- the audit trail ----------------------------------------------------------------------------------

  /** The status the audit trail leaves trade `t` in. */
  function LastStatus(audit: seq<AuditRow>, t: nat): Status {
    if audit == [] then Signalled
    else if audit[|audit| - 1].trade == t then audit[|audit| - 1].to
    else LastStatus(audit[..|audit| - 1], t)
  }

  /** Each audited move starts where the previous one of its trade ended, and is an edge of the lifecycle. */
  predicate IsTrail(audit: seq<AuditRow>) {
    audit == [] ||
    var last := audit[|audit| - 1];
    var before := audit[..|audit| - 1];
    IsTrail(before) && last.from == LastStatus(before, last.trade) && Edge(last.from, last.to)
  }

  predicate AuditOk(db: Db) {
    && IsTrail(db.audit)
    && (forall k :: 0 <= k < |db.audit| ==> db.audit[k].trade < |db.trades|)
    && (forall t :: 0 <= t < |db.trades| ==> LastStatus(db.audit, t) == db.trades[t].status)
  }

  lemma {:induction false} UnmentionedIsSignalled(audit: seq<AuditRow>, t: nat)
    requires forall k :: 0 <= k < |audit| ==> audit[k].trade != t
    ensures LastStatus(audit, t) == Signalled
  {
    if audit != [] {
      UnmentionedIsSignalled(audit[..|audit| - 1], t);
    }
  }

  lemma AppendAudit(audit: seq<AuditRow>, row: AuditRow)
    ensures (audit + [row])[..|audit|] == audit
    ensures forall t: nat :: LastStatus(audit + [row], t) == if row.trade == t then row.to else LastStatus(audit, t)
    ensures IsTrail(audit + [row]) <==> IsTrail(audit) && row.from == LastStatus(audit, row.trade) && Edge(row.from, row.to)
  {
    assert (audit + [row])[..|audit|] == audit;
  }

  lemma TransitionAudits(db: Db, t: nat, row: Trade)
    requires AuditOk(db) && t < |db.trades| && Edge(db.trades[t].status, row.status)
    ensures AuditOk(Transition(db, t, row))
  {
    AppendAudit(db.audit, AuditRow(t, db.trades[t].status, row.status));
  }

  /** The trail after the first `n` trades of the recovery have been moved. */
  ghost predicate RecoveredTo(db: Db, now: int, n: nat, trail: seq<AuditRow>)
    requires n <= |db.trades|
  {
    && IsTrail(trail)
    && (forall k :: 0 <= k < |trail| ==> trail[k].trade < |db.trades|)
    && forall t :: 0 <= t < |db.trades| ==>
                     LastStatus(trail, t) == if t < n then RecoverTrade(db, now, t).status else db.trades[t].status
  }

  /** The audit rows of one trade's recovery. */
  function MoveOf(db: Db, now: int, t: nat): seq<AuditRow>
    requires t < |db.trades|
  {
    if RecoveryMoves(db, now, t) then [AuditRow(t, db.trades[t].status, RecoverTrade(db, now, t).status)] else []
  }

  lemma RecoveryEdge(db: Db, now: int, t: nat)
    requires t < |db.trades| && RecoveryMoves(db, now, t)
    ensures Edge(db.trades[t].status, RecoverTrade(db, now, t).status)
  {
  }

  lemma RecoverOneAudits(db: Db, now: int, n: nat, trail: seq<AuditRow>)
    requires n < |db.trades| && RecoveredTo(db, now, n, trail)
    ensures RecoveredTo(db, now, n + 1, trail + MoveOf(db, now, n))
  {
    if RecoveryMoves(db, now, n) {
      RecoveryEdge(db, now, n);
      AppendAudit(trail, AuditRow(n, db.trades[n].status, RecoverTrade(db, now, n).status));
    } else {
      assert trail + [] == trail;
    }
  }

  lemma {:induction false} RecoverAudits(db: Db, now: int, n: nat)
    requires AuditOk(db) && n <= |db.trades|
    ensures RecoveredTo(db, now, n, db.audit + RecoverAudit(db, now, n))
  {
    if n == 0 {
      assert db.audit + RecoverAudit(db, now, 0) == db.audit;
    } else {
      RecoverAudits(db, now, n - 1);
      RecoverOneAudits(db, now, n - 1, db.audit + RecoverAudit(db, now, n - 1));
      assert db.audit + RecoverAudit(db, now, n) == (db.audit + RecoverAudit(db, now, n - 1)) + MoveOf(db, now, n - 1);
    }
  }

  lemma SignalAudits(db: Db, g: Signal)
    requires AuditOk(db)
    ensures AuditOk(InsertSignal(db, g))
  {
    if !Known(db, g.strategy, g.game) {
      var row := Trade(g.strategy, g.game, g.side, g.ticker, g.version, g.windowEnds, g.mode, Signalled, None, false, 0, None, None, None);
      NewTradeAudits(db, row);
      if g.ticker.None? {
        TransitionAudits(db.(trades := db.trades + [row]), |db.trades|, row.(status := Skipped, skipReason := Some(NoMarket)));
      }
    }
  }

  lemma NewTradeAudits(db: Db, row: Trade)
    requires AuditOk(db) && row.status == Signalled
    ensures AuditOk(db.(trades := db.trades + [row]))
  {
    UnmentionedIsSignalled(db.audit, |db.trades|);
  }

  lemma FillDryRunAudits(db: Db, t: nat, i: nat, terms: Terms, fill: Fill)
    requires AuditOk(db) && t < |db.trades| && i < |db.attempts| && IsOpen(db.trades[t].status)
    ensures AuditOk(FillDryRun(db, t, i, terms, fill))
  {
    var pending := db.trades[t].(status := Pending, mode := DryRun, skipReason := None);
    TransitionAudits(db, t, pending);
    var db1 := Transition(db, t, pending);
    AppendAudit(db1.audit, AuditRow(t, Pending, Filled));
  }

  /** An order that filled belongs to a trade that waits for it. */
  lemma FilledOrderWaits(s: Sys, i: nat)
    requires Inv(s) && IsPendingLive(s.db, i) && i in s.ex.orders
    ensures s.db.attempts[i].trade < |s.db.trades| && s.db.trades[s.db.attempts[i].trade].status == Pending
  {
    assert OrderOk(s.db, s.ex, i);
  }

  lemma ResolveAudits(s: Sys, i: nat, answer: Lookup, notFound: Reason)
    requires Inv(s) && AuditOk(s.db) && IsPendingLive(s.db, i) && s.db.attempts[i].trade < |s.db.trades| && Truthful(s.ex, i, answer)
    ensures AuditOk(Resolve(s, i, answer, notFound).db)
  {
    assert AttemptOk(s.db, i);
    match answer
    case LookupFailed =>
    case LookupFound =>
      FilledOrderWaits(s, i);
      RecordAudits(s.db, s.clock, i, OutcomeFromOrder(s.ex.orders[i]), notFound, true);
    case LookupNotFound =>
      RecordAudits(s.db, s.clock, i, NoOrder, notFound, true);
  }

  lemma RecordAudits(db: Db, now: int, i: nat, outcome: Outcome, notFound: Reason, expireClosed: bool)
    requires AuditOk(db) && i < |db.attempts| && db.attempts[i].trade < |db.trades| && IsUnfinished(db.trades[db.attempts[i].trade].status)
    requires outcome.OrderWith? && outcome.fill.Some? ==> db.trades[db.attempts[i].trade].status == Pending
    ensures AuditOk(RecordLiveOutcome(db, now, i, outcome, notFound, expireClosed))
  {
    var t := db.attempts[i].trade;
    var db' := RecordLiveOutcome(db, now, i, outcome, notFound, expireClosed);
    AppendAudit(db.audit, AuditRow(t, db.trades[t].status, db'.trades[t].status));
  }

  lemma FeeDoneAudits(s: Sys, milli: int, prec: int)
    requires Inv(s) && AuditOk(s.db) && Enabled(s, FeeDone(milli, prec))
    ensures AuditOk(Step(s, FeeDone(milli, prec)).db)
  {
    var r := s.process.running.value;
    var fee := FeeMicros(r.pc.fillCc, r.pc.terms.limitBp, milli, prec);
    if fee.Some? {
      FillDryRunAudits(s.db, r.trade, r.attempt, r.pc.terms,
                       Fill(r.pc.fillCc, r.pc.terms.limitBp, CostMicros(r.pc.fillCc, r.pc.terms.limitBp), fee.value));
    }
  }

  lemma GroupDoneAudits(s: Sys, found: bool)
    requires Inv(s) && AuditOk(s.db) && Enabled(s, GroupDone(found))
    ensures AuditOk(Step(s, GroupDone(found)).db)
  {
    var r := s.process.running.value;
    if found { AppendAudit(s.db.audit, AuditRow(r.trade, s.db.trades[r.trade].status, Pending)); }
  }

  lemma AnswerAudits(s: Sys, e: Event)
    requires Inv(s) && AuditOk(s.db) && Enabled(s, e) && (e.CreateDone? || e.LookupDone?)
    ensures AuditOk(Step(s, e).db)
  {
    var r := s.process.running.value;
    if e.CreateDone? && e.create.Answered? {
      var limit := s.db.attempts[r.attempt].limitBp;
      RecordAudits(s.db, s.clock, r.attempt, OutcomeFromResult(s.ex.orders[r.attempt], if limit.Some? then limit.value else 0), Unfilled, false);
    } else if e.LookupDone? && e.answer.LookupFound? {
      RecordAudits(s.db, s.clock, r.attempt, OutcomeFromOrder(s.ex.orders[r.attempt]), OrderNotFound, false);
    }
  }

  lemma CloseTradeAudits(s: Sys)
    requires Inv(s) && AuditOk(s.db) && Enabled(s, CloseTradeRow)
    ensures AuditOk(Step(s, CloseTradeRow).db)
  {
    var t := s.process.running.value.trade;
    TransitionAudits(s.db, t, Step(s, CloseTradeRow).db.trades[t]);
  }

  lemma BeginAudits(s: Sys, mode: Effective, configured: bool)
    requires Inv(s) && AuditOk(s.db) && Enabled(s, BeginNext(mode, configured))
    ensures AuditOk(Begin(s, mode, configured).db)
  {
  }

  lemma SettleAudits(s: Sys, k: nat, valueBp: int, warning: bool)
    requires Inv(s) && AuditOk(s.db) && Enabled(s, SettleTrade(k, valueBp, warning))
    ensures AuditOk(Step(s, SettleTrade(k, valueBp, warning)).db)
  {
    SettledAudits(s.db, s.process.settling[k].trade, s.process.settling[k].row, valueBp, warning);
  }

  lemma SettledAudits(db: Db, t: nat, read: Trade, valueBp: int, warning: bool)
    requires AuditOk(db) && t < |db.trades|
    ensures AuditOk(Settle(db, t, read, valueBp, warning))
  {
    var row := db.trades[t];
    if row.status == Filled {
      var x := SettlementOf(read, valueBp, warning);
      TransitionAudits(db, t, row.(status := SettledStatus(valueBp), settlement := Some(x)));
    }
  }

  lemma AttemptAudits(s: Sys, e: Event)
    requires Inv(s) && AuditOk(s.db) && Enabled(s, e) && IsAttemptStep(e)
    ensures AuditOk(Step(s, e).db)
  {
    match e
    case BeginNext(mode, configured) => BeginAudits(s, mode, configured);
    case FeeDone(milli, prec) => FeeDoneAudits(s, milli, prec);
    case GroupDone(found) => GroupDoneAudits(s, found);
    case CreateDone(_) => AnswerAudits(s, e);
    case LookupDone(_) => AnswerAudits(s, e);
    case CloseTradeRow => CloseTradeAudits(s);
    case _ =>
  }

  lemma ListedAudits(s: Sys, e: Event)
    requires Inv(s) && AuditOk(s.db) && Enabled(s, e) && (e.RecoverLookup? || e.ResolveNext?)
    ensures AuditOk(Step(s, e).db)
  {
    if e.RecoverLookup? {
      assert IsPendingLive(s.db, s.process.todo[0]);
      ResolveAudits(s, s.process.todo[0], e.answer, RestartNoOrder);
    } else {
      assert IsPendingLive(s.db, s.process.resolving[0]);
      ResolveAudits(s, s.process.resolving[0], e.answer, OrderNotFound);
    }
  }

  lemma StepAudits(s: Sys, e: Event)
    requires Inv(s) && AuditOk(s.db) && Enabled(s, e)
    ensures AuditOk(Step(s, e).db)
  {
    if IsAttemptStep(e) {
      AttemptAudits(s, e);
    } else if e.RecoverLookup? || e.ResolveNext? {
      ListedAudits(s, e);
    } else {
      match e
      case RecoverFinish => RecoverAudits(s.db, s.clock, |s.db.trades|);
      case OnSignal(g) => SignalAudits(s.db, g);
      case ExpireTrade(t) => TransitionAudits(s.db, t, Expire(s.db, t).trades[t]);
      case SettleTrade(k, valueBp, warning) => SettleAudits(s, k, valueBp, warning);
      case _ =>
    }
  }

  // ---- the ledger ---------------------------------------------------------------------------------------

  /** What a trade has moved the bankroll by: nothing for a live one, and for a dry-run one the debit of its
      fill and, once settled, the payout. */
  function Net(row: Trade): int {
    if row.mode == Live || row.fill.None? then 0
    else (if row.settlement.Some? then row.settlement.value.payout else 0) - row.fill.value.cost - row.fill.value.fee
  }

  function SumNet(trades: seq<Trade>): int {
    if trades == [] then 0 else SumNet(trades[..|trades| - 1]) + Net(trades[|trades| - 1])
  }

  lemma {:induction false} SumNetUpdate(trades: seq<Trade>, t: nat, row: Trade)
    requires t < |trades|
    ensures SumNet(trades[t := row]) == SumNet(trades) - Net(trades[t]) + Net(row)
  {
    var n := |trades| - 1;
    if t == n {
      assert trades[t := row][..n] == trades[..n];
    } else {
      SumNetUpdate(trades[..n], t, row);
      assert trades[t := row][..n] == trades[..n][t := row];
    }
  }

  lemma {:induction false} SumNetSame(trades: seq<Trade>, trades': seq<Trade>)
    requires |trades| == |trades'| && forall t :: 0 <= t < |trades| ==> Net(trades[t]) == Net(trades'[t])
    ensures SumNet(trades) == SumNet(trades')
  {
    if trades != [] {
      SumNetSame(trades[..|trades| - 1], trades'[..|trades| - 1]);
    }
  }

  lemma SumNetAppend(trades: seq<Trade>, row: Trade)
    ensures SumNet(trades + [row]) == SumNet(trades) + Net(row)
  {
    assert (trades + [row])[..|trades|] == trades;
  }

  /** The trade a step works on. */
  function Touched(s: Sys, e: Event): Option<nat>
    requires Enabled(s, e)
  {
    match e
    case RecoverLookup(_) => Some(s.db.attempts[s.process.todo[0]].trade)
    case ResolveNext(_) => Some(s.db.attempts[s.process.resolving[0]].trade)
    case ExpireTrade(t) => Some(t)
    case BeginNext(_, _) => Some(s.process.queue[0])
    case GroupDone(_) => Some(s.process.running.value.trade)
    case FeeDone(_, _) => Some(s.process.running.value.trade)
    case CreateDone(_) => Some(s.process.running.value.trade)
    case LookupDone(_) => Some(s.process.running.value.trade)
    case CloseTradeRow => Some(s.process.running.value.trade)
    case SettleTrade(k, _, _) => Some(s.process.settling[k].trade)
    case _ => None
  }

  predicate KeepsOtherRows(s: Sys, e: Event)
    requires Enabled(s, e)
  {
    var db' := Step(s, e).db;
    && |db'.trades| == |s.db.trades|
    && match Touched(s, e)
       case None => db'.trades == s.db.trades
       case Some(t) => t < |s.db.trades| && db'.trades == s.db.trades[t := db'.trades[t]]
  }

  predicate AsksExchange(e: Event) { e.RecoverLookup? || e.ResolveNext? || e.CreateDone? || e.LookupDone? }

  /** Every other trade keeps its row (signals and the end of recovery are the steps on many or new rows). */
  lemma OthersKeepRows(s: Sys, e: Event)
    requires Enabled(s, e) && !e.OnSignal? && !e.RecoverFinish?
    ensures KeepsOtherRows(s, e)
  {
    if AsksExchange(e) { ExchangeKeepsRows(s, e); } else if Touched(s, e).Some? { LocalKeepsRows(s, e); }
  }

  lemma ExchangeKeepsRows(s: Sys, e: Event)
    requires Enabled(s, e) && AsksExchange(e)
    ensures KeepsOtherRows(s, e)
  {
  }

  lemma LocalKeepsRows(s: Sys, e: Event)
    requires Enabled(s, e) && !AsksExchange(e) && Touched(s, e).Some?
    ensures KeepsOtherRows(s, e)
  {
  }

  /** What a step books: the trades' nets move by exactly as much as the bankroll. */
  lemma StepConserves(s: Sys, e: Event)
    requires Inv(s) && Enabled(s, e) && !e.ResetTo?
    ensures Step(s, e).db.bankroll - s.db.bankroll == SumNet(Step(s, e).db.trades) - SumNet(s.db.trades)
  {
    var s' := Step(s, e);
    if e.OnSignal? {
      SignalConserves(s.db, e.signal);
    } else if e.RecoverFinish? {
      SumNetSame(s.db.trades, s'.db.trades);
    } else {
      OthersKeepRows(s, e);
      if Touched(s, e).Some? {
        var t := Touched(s, e).value;
        SumNetUpdate(s.db.trades, t, s'.db.trades[t]);
        TouchedNet(s, e);
      }
    }
  }

  lemma SignalConserves(db: Db, g: Signal)
    ensures SumNet(InsertSignal(db, g).trades) == SumNet(db.trades)
  {
    var db' := InsertSignal(db, g);
    if !Known(db, g.strategy, g.game) {
      assert db'.trades == db.trades + [db'.trades[|db.trades|]];
      SumNetAppend(db.trades, db'.trades[|db.trades|]);
    }
  }

  /** A recorded outcome: the trade was unfinished and is now filled live, waiting or skipped; no money moves. */
  predicate Recorded(db: Db, db': Db, t: nat) {
    && t < |db.trades| == |db'.trades| && db'.bankroll == db.bankroll && db'.snapshots == db.snapshots
    && IsUnfinished(db.trades[t].status) && db'.trades[t].settlement == db.trades[t].settlement
    && if db'.trades[t].status == Filled then db'.trades[t].mode == Live
       else
         && db'.trades[t].status in {Waiting, Skipped}
         && db'.trades[t].fill == db.trades[t].fill && db'.trades[t].mode == db.trades[t].mode
  }

  lemma RecordRecords(db: Db, now: int, i: nat, outcome: Outcome, notFound: Reason, expireClosed: bool)
    requires i < |db.attempts| && db.attempts[i].trade < |db.trades| && IsUnfinished(db.trades[db.attempts[i].trade].status)
    ensures Recorded(db, RecordLiveOutcome(db, now, i, outcome, notFound, expireClosed), db.attempts[i].trade)
  {
  }

  lemma ResolveRecords(s: Sys, i: nat, answer: Lookup, notFound: Reason)
    requires Inv(s) && IsPendingLive(s.db, i) && Truthful(s.ex, i, answer)
    ensures s.db.attempts[i].trade < |s.db.trades|
    ensures Resolve(s, i, answer, notFound).db == s.db || Recorded(s.db, Resolve(s, i, answer, notFound).db, s.db.attempts[i].trade)
  {
    assert AttemptOk(s.db, i);
    match answer
    case LookupFailed =>
    case LookupFound => RecordRecords(s.db, s.clock, i, OutcomeFromOrder(s.ex.orders[i]), notFound, true);
    case LookupNotFound => RecordRecords(s.db, s.clock, i, NoOrder, notFound, true);
  }

  lemma AnswerRecords(s: Sys, e: Event)
    requires Inv(s) && Enabled(s, e) && (e.CreateDone? || e.LookupDone?)
    ensures Step(s, e).db == s.db || Recorded(s.db, Step(s, e).db, s.process.running.value.trade)
  {
    var r := s.process.running.value;
    if e.CreateDone? && e.create.Answered? {
      var limit := s.db.attempts[r.attempt].limitBp;
      RecordRecords(s.db, s.clock, r.attempt, OutcomeFromResult(s.ex.orders[r.attempt], if limit.Some? then limit.value else 0), Unfilled, false);
    } else if e.LookupDone? && e.answer.LookupFound? {
      RecordRecords(s.db, s.clock, r.attempt, OutcomeFromOrder(s.ex.orders[r.attempt]), OrderNotFound, false);
    }
  }

  lemma ListedRecords(s: Sys, e: Event)
    requires Inv(s) && Enabled(s, e) && (e.RecoverLookup? || e.ResolveNext?)
    ensures Touched(s, e).value < |s.db.trades|
    ensures Step(s, e).db == s.db || Recorded(s.db, Step(s, e).db, Touched(s, e).value)
  {
    if e.RecoverLookup? {
      assert IsPendingLive(s.db, s.process.todo[0]);
      ResolveRecords(s, s.process.todo[0], e.answer, RestartNoOrder);
    } else {
      assert IsPendingLive(s.db, s.process.resolving[0]);
      ResolveRecords(s, s.process.resolving[0], e.answer, OrderNotFound);
    }
  }

  lemma ExchangeRecords(s: Sys, e: Event)
    requires Inv(s) && Enabled(s, e) && AsksExchange(e)
    ensures Touched(s, e).value < |s.db.trades|
    ensures Step(s, e).db == s.db || Recorded(s.db, Step(s, e).db, Touched(s, e).value)
  {
    if e.RecoverLookup? || e.ResolveNext? { ListedRecords(s, e); } else { AnswerRecords(s, e); }
  }

  /** A recorded outcome moves no net amount. */
  lemma RecordedNet(db: Db, db': Db, t: nat)
    requires Recorded(db, db', t) && TradeOk(db.trades[t])
    ensures Net(db'.trades[t]) == Net(db.trades[t]) && db'.bankroll == db.bankroll
    ensures RowUntouched(db.trades[t], db'.trades[t])
  {
  }

  lemma TouchedNet(s: Sys, e: Event)
    requires Inv(s) && Enabled(s, e) && Touched(s, e).Some?
    ensures var t := Touched(s, e).value;
            && t < |s.db.trades| == |Step(s, e).db.trades|
            && Step(s, e).db.bankroll - s.db.bankroll == Net(Step(s, e).db.trades[t]) - Net(s.db.trades[t])
  {
    if AsksExchange(e) {
      ExchangeRecords(s, e);
      assert TradeOk(s.db.trades[Touched(s, e).value]);
      if Step(s, e).db != s.db { RecordedNet(s.db, Step(s, e).db, Touched(s, e).value); }
    } else if e.FeeDone? || e.SettleTrade? {
      BookingNet(s, e);
    } else {
      LocalRowUntouched(s, e);
      assert TradeOk(s.db.trades[Touched(s, e).value]);
    }
  }

  /** The two steps that move money. */
  lemma BookingNet(s: Sys, e: Event)
    requires Inv(s) && Enabled(s, e) && (e.FeeDone? || e.SettleTrade?)
    ensures var t := Touched(s, e).value;
            && t < |s.db.trades| == |Step(s, e).db.trades|
            && Step(s, e).db.bankroll - s.db.bankroll == Net(Step(s, e).db.trades[t]) - Net(s.db.trades[t])
  {
    OthersKeepRows(s, e);
    assert TradeOk(s.db.trades[Touched(s, e).value]);
  }

  /** Between two resets the bankroll moves by exactly what the dry-run trades netted, over any run. */
  lemma {:induction false} BankrollConserved(s: Sys, es: seq<Event>)
    requires Inv(s) && Possible(s, es) && LooksUpThroughout(s, es)
    requires forall k :: 0 <= k < |es| ==> !es[k].ResetTo?
    ensures Run(s, es).db.bankroll - s.db.bankroll == SumNet(Run(s, es).db.trades) - SumNet(s.db.trades)
    decreases |es|
  {
    if es != [] {
      StepKeeps(s, es[0]);
      StepConserves(s, es[0]);
      BankrollConserved(Step(s, es[0]), es[1..]);
    }
  }

  // ---- bankroll snapshots -------------------------------------------------------------------------------

  predicate Debited(row: Trade) { row.mode == DryRun && HasFill(row.status) }

  predicate Credited(row: Trade) { row.mode == DryRun && IsSettled(row.status) }

  function Count(snapshots: seq<Snapshot>, r: SnapshotReason): nat {
    if snapshots == [] then 0
    else Count(snapshots[..|snapshots| - 1], r) + if snapshots[|snapshots| - 1].reason == r then 1 else 0
  }

  lemma CountAppend(snapshots: seq<Snapshot>, x: Snapshot, r: SnapshotReason)
    ensures Count(snapshots + [x], r) == Count(snapshots, r) + if x.reason == r then 1 else 0
  {
    assert (snapshots + [x])[..|snapshots|] == snapshots;
  }

  /** The bankroll before snapshot `k`. */
  function Before(snapshots: seq<Snapshot>, opening: int, k: nat): int
    requires k <= |snapshots|
  {
    if k == 0 then opening else snapshots[k - 1].bankroll
  }

  /** Snapshot `k` differs from the one before it by exactly its trade's debit or payout. */
  predicate SnapshotOk(db: Db, opening: int, k: nat)
    requires k < |db.snapshots|
  {
    var x := db.snapshots[k];
    match x.reason
    case ForFill(t) =>
      && t < |db.trades| && Debited(db.trades[t]) && db.trades[t].fill.Some?
      && x.bankroll == Before(db.snapshots, opening, k) - db.trades[t].fill.value.cost - db.trades[t].fill.value.fee
    case ForSettlement(t) =>
      && t < |db.trades| && Credited(db.trades[t]) && db.trades[t].settlement.Some?
      && x.bankroll == Before(db.snapshots, opening, k) + db.trades[t].settlement.value.payout
    case ForReset => true
  }

  /** A settled row is settled from its own fill: the payout is count times value, the P&L that less count times price
      and fee, and the status says what the value means. A dry-run fill costs count times price, and only a live
      settlement carries a warning. */
  predicate BookedOk(row: Trade) {
    && (row.settlement.Some? ==>
          && row.fill.Some?
          && var x, f := row.settlement.value, row.fill.value;
          && x.payout == f.cc * x.valueBp && x.pnl == f.cc * x.valueBp - f.cc * f.avgBp - f.fee
          && (row.status == SettledWon <==> x.valueBp == 10_000)
          && (row.status == SettledLost <==> x.valueBp == 0)
          && (row.status == SettledVoid <==> x.valueBp != 0 && x.valueBp != 10_000)
          && (x.warning ==> row.mode == Live))
    && (row.fill.Some? && row.mode == DryRun ==> row.fill.value.cost == row.fill.value.cc * row.fill.value.avgBp)
  }

  predicate CountsOk(db: Db, t: nat)
    requires t < |db.trades|
  {
    && Count(db.snapshots, ForFill(t)) == (if Debited(db.trades[t]) then 1 else 0)
    && Count(db.snapshots, ForSettlement(t)) == (if Credited(db.trades[t]) then 1 else 0)
  }

  /** The books: each trade is debited exactly once if it filled in dry run and credited exactly once if it then
      settled, no live trade appears, and the bankroll is what the last snapshot says. */
  ghost predicate BooksOk(db: Db, opening: int) {
    && db.bankroll == Before(db.snapshots, opening, |db.snapshots|)
    && (forall k :: 0 <= k < |db.snapshots| ==> SnapshotOk(db, opening, k))
    && (forall t :: 0 <= t < |db.trades| ==> CountsOk(db, t) && BookedOk(db.trades[t]))
    && (forall t: nat :: t >= |db.trades| ==> Count(db.snapshots, ForFill(t)) == 0 && Count(db.snapshots, ForSettlement(t)) == 0)
  }

  /** The step leaves the ledger alone: every fill and settlement stays, and a new fill is a live one. */
  predicate BooksUntouched(db: Db, db': Db) {
    && db'.snapshots == db.snapshots && db'.bankroll == db.bankroll && |db'.trades| >= |db.trades|
    && (forall t :: 0 <= t < |db.trades| ==> RowUntouched(db.trades[t], db'.trades[t]))
    && (forall t :: |db.trades| <= t < |db'.trades| ==> !HasFill(db'.trades[t].status) && db'.trades[t].fill.None? && db'.trades[t].settlement.None?)
  }

  predicate RowUntouched(row: Trade, row': Trade) {
    || row' == row
    || (&& !HasFill(row.status) && row'.settlement.None?
        && (HasFill(row'.status) ==> row'.mode == Live)
        && (row'.fill.Some? ==> row'.mode == Live))
  }

  lemma UntouchedBooks(db: Db, db': Db, opening: int)
    requires BooksOk(db, opening) && BooksUntouched(db, db')
    ensures BooksOk(db', opening)
  {
    forall k | 0 <= k < |db'.snapshots|
      ensures SnapshotOk(db', opening, k)
    {
      assert SnapshotOk(db, opening, k);
    }
    forall t | 0 <= t < |db'.trades|
      ensures CountsOk(db', t) && BookedOk(db'.trades[t])
    {
      if t < |db.trades| { assert CountsOk(db, t) && BookedOk(db.trades[t]); }
    }
  }

  lemma FillDryRunBooks(db: Db, opening: int, t: nat, i: nat, terms: Terms, fill: Fill)
    requires BooksOk(db, opening) && t < |db.trades| && i < |db.attempts| && IsOpen(db.trades[t].status) && TradeOk(db.trades[t])
    requires fill.cost == CostMicros(fill.cc, fill.avgBp)
    ensures BooksOk(FillDryRun(db, t, i, terms, fill), opening)
  {
    var db' := FillDryRun(db, t, i, terms, fill);
    var x := Snapshot(ForFill(t), db'.bankroll);
    assert db'.snapshots == db.snapshots + [x];
    forall k | 0 <= k < |db'.snapshots|
      ensures SnapshotOk(db', opening, k)
    {
      if k < |db.snapshots| { assert SnapshotOk(db, opening, k); }
    }
    forall u: nat
      ensures Count(db'.snapshots, ForFill(u)) == Count(db.snapshots, ForFill(u)) + (if u == t then 1 else 0)
      ensures Count(db'.snapshots, ForSettlement(u)) == Count(db.snapshots, ForSettlement(u))
    {
      CountAppend(db.snapshots, x, ForFill(u));
      CountAppend(db.snapshots, x, ForSettlement(u));
    }
    forall u | 0 <= u < |db'.trades|
      ensures CountsOk(db', u) && BookedOk(db'.trades[u])
    {
      assert CountsOk(db, u) && BookedOk(db.trades[u]);
    }
  }

  lemma SettleBooks(s: Sys, opening: int, k: nat, valueBp: int, warning: bool)
    requires Inv(s) && BooksOk(s.db, opening) && Enabled(s, SettleTrade(k, valueBp, warning))
    ensures BooksOk(Step(s, SettleTrade(k, valueBp, warning)).db, opening)
  {
    var t := s.process.settling[k].trade;
    assert TradeOk(s.db.trades[t]);
    if s.db.trades[t].status == Filled {
      assert s.db.trades[t] == s.process.settling[k].row;
      SettledBooks(s.db, opening, t, valueBp, warning);
    }
  }

  lemma SettledBooks(db: Db, opening: int, t: nat, valueBp: int, warning: bool)
    requires BooksOk(db, opening) && t < |db.trades| && db.trades[t].status == Filled && TradeOk(db.trades[t])
    ensures BooksOk(Settle(db, t, db.trades[t], valueBp, warning), opening)
  {
    var db' := Settle(db, t, db.trades[t], valueBp, warning);
    assert CountsOk(db, t) && BookedOk(db.trades[t]);
    if db.trades[t].mode == Live {
      LiveSettleBooks(db, db', opening, t);
    } else {
      var x := Snapshot(ForSettlement(t), db'.bankroll);
      assert db'.snapshots == db.snapshots + [x];
      CreditBooks(db, db', opening, t, x);
    }
  }

  lemma LiveSettleBooks(db: Db, db': Db, opening: int, t: nat)
    requires BooksOk(db, opening) && t < |db.trades| && db.trades[t].mode == Live
    requires db'.snapshots == db.snapshots && db'.bankroll == db.bankroll
    requires |db'.trades| == |db.trades| && db'.trades == db.trades[t := db'.trades[t]] && db'.trades[t].mode == Live
    requires BookedOk(db'.trades[t])
    ensures BooksOk(db', opening)
  {
    forall k | 0 <= k < |db'.snapshots|
      ensures SnapshotOk(db', opening, k)
    {
      assert SnapshotOk(db, opening, k);
    }
    forall u | 0 <= u < |db'.trades|
      ensures CountsOk(db', u) && BookedOk(db'.trades[u])
    {
      assert CountsOk(db, u) && BookedOk(db.trades[u]);
    }
  }

  /** A snapshot for a settlement is counted once. */
  lemma CountsSettlement(snapshots: seq<Snapshot>, x: Snapshot, t: nat, u: nat)
    requires x.reason == ForSettlement(t)
    ensures Count(snapshots + [x], ForSettlement(u)) == Count(snapshots, ForSettlement(u)) + (if u == t then 1 else 0)
    ensures Count(snapshots + [x], ForFill(u)) == Count(snapshots, ForFill(u))
  {
    CountAppend(snapshots, x, ForFill(u));
    CountAppend(snapshots, x, ForSettlement(u));
  }

  lemma CreditBooks(db: Db, db': Db, opening: int, t: nat, x: Snapshot)
    requires BooksOk(db, opening) && t < |db.trades| && db.trades[t].mode == DryRun && db.trades[t].status == Filled
    requires db'.snapshots == db.snapshots + [x] && db'.bankroll == x.bankroll && x.reason == ForSettlement(t)
    requires |db'.trades| == |db.trades| && db'.trades == db.trades[t := db'.trades[t]]
    requires Credited(db'.trades[t]) && db'.trades[t].fill == db.trades[t].fill && BookedOk(db'.trades[t]) && db'.trades[t].settlement.Some?
    requires x.bankroll == db.bankroll + db'.trades[t].settlement.value.payout
    ensures BooksOk(db', opening)
  {
    forall k | 0 <= k < |db'.snapshots|
      ensures SnapshotOk(db', opening, k)
    {
      if k < |db.snapshots| { assert SnapshotOk(db, opening, k); }
    }
    forall u: nat
      ensures Count(db'.snapshots, ForSettlement(u)) == Count(db.snapshots, ForSettlement(u)) + (if u == t then 1 else 0)
      ensures Count(db'.snapshots, ForFill(u)) == Count(db.snapshots, ForFill(u))
    {
      CountsSettlement(db.snapshots, x, t, u);
    }
    forall u | 0 <= u < |db'.trades|
      ensures CountsOk(db', u) && BookedOk(db'.trades[u])
    {
      assert CountsOk(db, u) && BookedOk(db.trades[u]);
    }
  }

  lemma ResetBooks(db: Db, opening: int, bankroll: int)
    requires BooksOk(db, opening)
    ensures BooksOk(ResetBankroll(db, bankroll), opening)
  {
    var db' := ResetBankroll(db, bankroll);
    var x := Snapshot(ForReset, bankroll);
    forall k | 0 <= k < |db'.snapshots|
      ensures SnapshotOk(db', opening, k)
    {
      if k < |db.snapshots| { assert SnapshotOk(db, opening, k); }
    }
    forall u: nat
      ensures Count(db'.snapshots, ForFill(u)) == Count(db.snapshots, ForFill(u))
      ensures Count(db'.snapshots, ForSettlement(u)) == Count(db.snapshots, ForSettlement(u))
    {
      CountAppend(db.snapshots, x, ForFill(u));
      CountAppend(db.snapshots, x, ForSettlement(u));
    }
    forall u | 0 <= u < |db'.trades|
      ensures CountsOk(db', u) && BookedOk(db'.trades[u])
    {
      assert CountsOk(db, u) && BookedOk(db.trades[u]);
    }
  }

  lemma RecoveryLeavesBooks(s: Sys)
    requires Inv(s) && Enabled(s, RecoverFinish)
    ensures BooksUntouched(s.db, Step(s, RecoverFinish).db)
  {
    var db' := Step(s, RecoverFinish).db;
    forall t | 0 <= t < |s.db.trades|
      ensures RowUntouched(s.db.trades[t], db'.trades[t])
    {
      assert TradeOk(s.db.trades[t]);
    }
  }

  lemma SignalLeavesBooks(db: Db, g: Signal)
    ensures BooksUntouched(db, InsertSignal(db, g))
  {
    if !Known(db, g.strategy, g.game) { TradesGrow(db, g); }
  }

  lemma OtherStepsLeaveBooks(s: Sys, e: Event)
    requires Inv(s) && Enabled(s, e) && !e.FeeDone? && !e.SettleTrade? && !e.ResetTo?
    ensures BooksUntouched(s.db, Step(s, e).db)
  {
    if e.OnSignal? {
      SignalLeavesBooks(s.db, e.signal);
    } else if e.RecoverFinish? {
      RecoveryLeavesBooks(s);
    } else if Touched(s, e).Some? {
      OthersKeepRows(s, e);
      TouchedRowUntouched(s, e);
    }
  }

  lemma TouchedRowUntouched(s: Sys, e: Event)
    requires Inv(s) && Enabled(s, e) && !e.FeeDone? && !e.SettleTrade? && Touched(s, e).Some?
    ensures var t := Touched(s, e).value;
            && t < |s.db.trades| == |Step(s, e).db.trades|
            && RowUntouched(s.db.trades[t], Step(s, e).db.trades[t])
            && Step(s, e).db.snapshots == s.db.snapshots && Step(s, e).db.bankroll == s.db.bankroll
  {
    if AsksExchange(e) {
      ExchangeRecords(s, e);
      assert TradeOk(s.db.trades[Touched(s, e).value]);
    } else {
      LocalRowUntouched(s, e);
    }
  }

  lemma LocalRowUntouched(s: Sys, e: Event)
    requires Inv(s) && Enabled(s, e) && (e.ExpireTrade? || e.BeginNext? || e.GroupDone? || e.CloseTradeRow?)
    ensures var t := Touched(s, e).value;
            && t < |s.db.trades| == |Step(s, e).db.trades|
            && RowUntouched(s.db.trades[t], Step(s, e).db.trades[t])
            && Step(s, e).db.snapshots == s.db.snapshots && Step(s, e).db.bankroll == s.db.bankroll
  {
    OthersKeepRows(s, e);
    assert TradeOk(s.db.trades[Touched(s, e).value]);
  }

  lemma FeeDoneBooks(s: Sys, opening: int, milli: int, prec: int)
    requires Inv(s) && BooksOk(s.db, opening) && Enabled(s, FeeDone(milli, prec))
    ensures BooksOk(Step(s, FeeDone(milli, prec)).db, opening)
  {
    var r := s.process.running.value;
    var fee := FeeMicros(r.pc.fillCc, r.pc.terms.limitBp, milli, prec);
    if fee.Some? {
      assert TradeOk(s.db.trades[r.trade]);
      FillDryRunBooks(s.db, opening, r.trade, r.attempt, r.pc.terms,
                      Fill(r.pc.fillCc, r.pc.terms.limitBp, CostMicros(r.pc.fillCc, r.pc.terms.limitBp), fee.value));
    }
  }

  lemma StepKeepsBooks(s: Sys, opening: int, e: Event)
    requires Inv(s) && BooksOk(s.db, opening) && Enabled(s, e)
    ensures BooksOk(Step(s, e).db, opening)
  {
    if e.FeeDone? {
      FeeDoneBooks(s, opening, e.milli, e.prec);
    } else if e.SettleTrade? {
      SettleBooks(s, opening, e.index, e.valueBp, e.warning);
    } else if e.ResetTo? {
      ResetBooks(s.db, opening, e.bankroll);
      assert Step(s, e).db == ResetBankroll(s.db, e.bankroll);
    } else {
      OtherStepsLeaveBooks(s, e);
      UntouchedBooks(s.db, Step(s, e).db, opening);
    }
  }
}
