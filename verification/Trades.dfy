/** The trade tables and their transitions (app/src/core/trades.ts, app/src/db/schema.ts): what one SQLite
    commit of the executor, the settler or start-up recovery does to the rows. */
module Trades {
  import opened Pricing
  import opened Guards
  import opened Rule

  datatype Status = Signalled | Waiting | Pending | Filled | Skipped | SettledWon | SettledLost | SettledVoid

  predicate IsOpen(s: Status) { s == Signalled || s == Waiting }

  predicate IsSettled(s: Status) { s == SettledWon || s == SettledLost || s == SettledVoid }

  predicate HasFill(s: Status) { s == Filled || IsSettled(s) }

  /** The trade can still change. */
  predicate IsUnfinished(s: Status) { IsOpen(s) || s == Pending }

  /** The moves a trade may make. */
  predicate Edge(from: Status, to: Status) {
    match from
    case Signalled => to == Waiting || to == Pending || to == Skipped
    case Waiting => to == Waiting || to == Pending || to == Skipped
    case Pending => to == Filled || to == Waiting || to == Skipped
    case Filled => IsSettled(to)
    case _ => false
  }

  datatype Terms = Terms(balance: int, stake: int, limitBp: int, requestedCc: int)

  datatype Fill = Fill(cc: int, avgBp: int, cost: int, fee: int)

  datatype Settlement = Settlement(valueBp: int, payout: int, pnl: int, warning: bool)

  /** One `trades` row; its id is its position in the table. */
  datatype Trade = Trade(
    strategy: nat, game: nat, side: Side, ticker: Option<nat>, version: Version, windowEnds: int,
    mode: Mode, status: Status, skipReason: Option<Reason>, windowExpired: bool, attempts: nat,
    terms: Option<Terms>, fill: Option<Fill>, settlement: Option<Settlement>)

  datatype AttemptStatus = AttemptPending | AttemptFilled | AttemptUnfilled | SoftSkip | HardSkip | AttemptError

  /** One `trade_attempts` row; its id is its position, its `client_order_id` the pair (trade, no). */
  datatype Attempt = Attempt(
    trade: nat, no: nat, at: int, mode: Mode, status: AttemptStatus, reason: Option<Reason>,
    limitBp: Option<int>, requestedCc: Option<int>, fill: Option<Fill>)

  datatype SnapshotReason = ForFill(trade: nat) | ForSettlement(trade: nat) | ForReset

  datatype Snapshot = Snapshot(reason: SnapshotReason, bankroll: int)

  datatype AuditRow = AuditRow(trade: nat, from: Status, to: Status)

  datatype Db = Db(
    trades: seq<Trade>, attempts: seq<Attempt>, bankroll: int, snapshots: seq<Snapshot>, audit: seq<AuditRow>)

  // ---- trades.ts ----------------------------------------------------------------------------------------

  /** `transitionTrade`: the row is replaced and the move is audited. */
  function Transition(db: Db, t: nat, row: Trade): Db
    requires t < |db.trades|
  {
    db.(trades := db.trades[t := row],
        audit := db.audit + [AuditRow(t, db.trades[t].status, row.status)])
  }

  function UpdateAttempt(db: Db, i: nat, row: Attempt): Db
    requires i < |db.attempts|
  {
    db.(attempts := db.attempts[i := row])
  }

  function AdjustBankroll(db: Db, delta: int, reason: SnapshotReason): Db {
    db.(bankroll := db.bankroll + delta, snapshots := db.snapshots + [Snapshot(reason, db.bankroll + delta)])
  }

  function ResetBankroll(db: Db, initial: int): Db {
    db.(bankroll := initial, snapshots := db.snapshots + [Snapshot(ForReset, initial)])
  }

  function ReasonOr(r: Option<Reason>, otherwise: Reason): Option<Reason> {
    if r.Some? then r else Some(otherwise)
  }

  // ---- executor.ts --------------------------------------------------------------------------------------

  datatype Signal = Signal(strategy: nat, game: nat, side: Side, ticker: Option<nat>, version: Version, windowEnds: int, mode: Mode)

  predicate Known(db: Db, strategy: nat, game: nat) {
    exists t :: 0 <= t < |db.trades| && db.trades[t].strategy == strategy && db.trades[t].game == game
  }

  /** The insert violates the unique index on (strategy, game) when the pair is known: nothing is written.
      A signal without a market ends `skipped` at once. */
  function InsertSignal(db: Db, g: Signal): Db {
    if Known(db, g.strategy, g.game) then db
    else
      var row := Trade(g.strategy, g.game, g.side, g.ticker, g.version, g.windowEnds, g.mode, Signalled, None, false, 0, None, None, None);
      var db1 := db.(trades := db.trades + [row]);
      if g.ticker.Some? then db1
      else Transition(db1, |db.trades|, row.(status := Skipped, skipReason := Some(NoMarket)))
  }

  /** The attempt row and the trade's counter, written before any request. */
  function BeginAttempt(db: Db, t: nat, at: int, mode: Mode): Db
    requires t < |db.trades|
  {
    var n := db.trades[t].attempts + 1;
    db.(attempts := db.attempts + [Attempt(t, n, at, mode, AttemptPending, None, None, None, None)],
        trades := db.trades[t := db.trades[t].(attempts := n)])
  }

  /** The first half of `finish`: the attempt row. */
  function CloseAttempt(db: Db, i: nat, status: AttemptStatus, reason: Reason, limitBp: Option<int>, requestedCc: Option<int>): Db
    requires i < |db.attempts|
  {
    UpdateAttempt(db, i, db.attempts[i].(status := status, reason := Some(reason), limitBp := limitBp, requestedCc := requestedCc))
  }

  /** The second half of `finish`: the trade row. `patch` is the mode the attempt ran in, if it ran. */
  function CloseTrade(db: Db, t: nat, hard: bool, reason: Reason, patch: Option<Mode>): Db
    requires t < |db.trades|
  {
    var row := db.trades[t];
    Transition(db, t, row.(
                   status := if hard then Skipped else Waiting,
                   skipReason := Some(reason),
                   mode := if patch.Some? then patch.value else row.mode))
  }

  function Expire(db: Db, t: nat): Db
    requires t < |db.trades|
  {
    var row := db.trades[t];
    Transition(db, t, row.(status := Skipped, windowExpired := true, skipReason := ReasonOr(row.skipReason, WindowExpired)))
  }

  /** The virtual fill: one transaction takes the trade through `pending` to `filled` and debits the bankroll. */
  function FillDryRun(db: Db, t: nat, i: nat, terms: Terms, fill: Fill): Db
    requires t < |db.trades| && i < |db.attempts|
  {
    var pending := db.trades[t].(status := Pending, mode := DryRun, skipReason := None);
    var db1 := Transition(db, t, pending);
    var db2 := UpdateAttempt(db1, i, db1.attempts[i].(
                                 status := AttemptFilled, reason := None, limitBp := Some(terms.limitBp),
                                 requestedCc := Some(terms.requestedCc), fill := Some(fill)));
    var db3 := AdjustBankroll(db2, -(fill.cost + fill.fee), ForFill(t));
    Transition(db3, t, pending.(status := Filled, terms := Some(terms), fill := Some(fill)))
  }

  /** Before Create Order: the attempt carries limit and count, the trade goes `pending`. */
  function PlaceOrder(db: Db, t: nat, i: nat, terms: Terms): Db
    requires t < |db.trades| && i < |db.attempts|
  {
    var db1 := UpdateAttempt(db, i, db.attempts[i].(limitBp := Some(terms.limitBp), requestedCc := Some(terms.requestedCc)));
    Transition(db1, t, db1.trades[t].(status := Pending, mode := Live, skipReason := None, terms := Some(terms)))
  }

  /** What the exchange said about an order: no such order, or an order with this fill (`None`: nothing filled). */
  datatype Outcome = NoOrder | OrderWith(fill: Option<Fill>)

  /** `recordLiveOutcome`; it does not look at the trade's current status. */
  function RecordLiveOutcome(db: Db, now: int, i: nat, outcome: Outcome, notFound: Reason, expireClosed: bool): Db
    requires i < |db.attempts| && db.attempts[i].trade < |db.trades|
  {
    var t := db.attempts[i].trade;
    var row := db.trades[t];
    if outcome.OrderWith? && outcome.fill.Some? then
      var db1 := UpdateAttempt(db, i, db.attempts[i].(status := AttemptFilled, reason := None, fill := outcome.fill));
      Transition(db1, t, row.(status := Filled, mode := Live, skipReason := None, fill := outcome.fill))
    else
      var reason := if outcome.OrderWith? then Unfilled else notFound;
      var db1 := UpdateAttempt(db, i, db.attempts[i].(status := AttemptUnfilled, reason := Some(reason)));
      var open := !expireClosed || row.windowEnds > now;
      Transition(db1, t, row.(
                     status := if open then Waiting else Skipped,
                     skipReason := Some(reason),
                     windowExpired := row.windowExpired || !open))
  }

  /** The cost of the live attempts still pending among the first `n`, except `except`. */
  function PendingLiveCost(attempts: seq<Attempt>, except: int): int {
    if attempts == [] then 0
    else
      var n := |attempts| - 1;
      var a := attempts[n];
      PendingLiveCost(attempts[..n], except)
      + if a.status == AttemptPending && a.mode == Live && n != except then PendingCost(a) else 0
  }

  function PendingCost(a: Attempt): int {
    (if a.requestedCc.Some? then a.requestedCc.value else 0) * (if a.limitBp.Some? then a.limitBp.value else 0)
  }

  // ---- start-up recovery, second stage ------------------------------------------------------------------

  function RecoverAttempt(a: Attempt): Attempt {
    if a.status == AttemptPending && a.mode == DryRun
    then a.(status := AttemptUnfilled, reason := Some(Restart)) else a
  }

  /** The trade has a pending live attempt that could not be looked up. */
  predicate Unresolved(db: Db, t: nat) {
    exists i :: 0 <= i < |db.attempts| && db.attempts[i].trade == t
                && db.attempts[i].status == AttemptPending && db.attempts[i].mode == Live
  }

  predicate RecoveryMoves(db: Db, now: int, t: nat)
    requires t < |db.trades|
  {
    && IsUnfinished(db.trades[t].status) && !Unresolved(db, t)
    && !(db.trades[t].status == Waiting && db.trades[t].windowEnds > now)
  }

  function RecoverTrade(db: Db, now: int, t: nat): Trade
    requires t < |db.trades|
  {
    var row := db.trades[t];
    if !RecoveryMoves(db, now, t) then row
    else if row.windowEnds > now then row.(status := Waiting, skipReason := ReasonOr(row.skipReason, Restart))
    else row.(status := Skipped, windowExpired := true, skipReason := ReasonOr(row.skipReason, Restart))
  }

  /** The audit rows of the first `n` trades, in table order. */
  function RecoverAudit(db: Db, now: int, n: nat): seq<AuditRow>
    requires n <= |db.trades|
  {
    if n == 0 then []
    else
      RecoverAudit(db, now, n - 1)
      + if RecoveryMoves(db, now, n - 1)
        then [AuditRow(n - 1, db.trades[n - 1].status, RecoverTrade(db, now, n - 1).status)] else []
  }

  function RecoverRows(db: Db, now: int): Db {
    db.(attempts := seq(|db.attempts|, i requires 0 <= i < |db.attempts| => RecoverAttempt(db.attempts[i])),
        trades := seq(|db.trades|, t requires 0 <= t < |db.trades| => RecoverTrade(db, now, t)),
        audit := db.audit + RecoverAudit(db, now, |db.trades|))
  }

  // ---- settler.ts ---------------------------------------------------------------------------------------

  function SettledStatus(valueBp: int): Status {
    if valueBp == 10_000 then SettledWon else if valueBp == 0 then SettledLost else SettledVoid
  }

  /** What a settlement at the market's value is worth, from the fill of the row the pass read. */
  function SettlementOf(read: Trade, valueBp: int, warning: bool): Settlement {
    var f := if read.fill.Some? then read.fill.value else Fill(0, 0, 0, 0);
    var payout := PayoutMicros(f.cc, valueBp);
    Settlement(valueBp, payout, RealizedPnlMicros(f.cc, f.avgBp, f.fee, payout), warning && read.mode == Live)
  }

  /** `settle`: computed from the row the pass read (`read`), applied to the current row if it is still `filled`. */
  function Settle(db: Db, t: nat, read: Trade, valueBp: int, warning: bool): Db
    requires t < |db.trades|
  {
    var row := db.trades[t];
    if row.status != Filled then db
    else
      var x := SettlementOf(read, valueBp, warning);
      var db1 := Transition(db, t, row.(status := SettledStatus(valueBp), settlement := Some(x)));
      if read.mode == Live then db1 else AdjustBankroll(db1, x.payout, ForSettlement(t))
  }
}
