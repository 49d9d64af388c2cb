/** The invariant of the trade lifecycle and its preservation by every step. */
module Invariant {
  import opened Pricing
  import opened Guards
  import opened Trades
  import opened Lifecycle

  predicate IsPendingAttempt(db: Db, i: nat) {
    i < |db.attempts| && db.attempts[i].status == AttemptPending
  }

  predicate IsPendingLive(db: Db, i: nat) {
    IsPendingAttempt(db, i) && db.attempts[i].mode == Live
  }

  /** A row belongs to a trade with a market, its number is in use, a pending or filled one is the trade's last. */
  predicate AttemptOk(db: Db, i: nat)
    requires i < |db.attempts|
  {
    var a := db.attempts[i];
    && a.trade < |db.trades|
    && var row := db.trades[a.trade];
    && row.ticker.Some?
    && 1 <= a.no <= row.attempts
    && (a.status == AttemptPending || a.status == AttemptFilled ==> a.no == row.attempts)
    && (a.status == AttemptPending ==> IsUnfinished(row.status))
    && (a.status == AttemptFilled ==> HasFill(row.status) && a.mode == row.mode && a.fill.Some? && row.fill == a.fill)
    && (a.status == AttemptPending ==> PendingCost(a) >= 0)
  }

  predicate TradeOk(row: Trade) {
    && (HasFill(row.status) <==> row.fill.Some?)
    && (IsSettled(row.status) <==> row.settlement.Some?)
  }

  /** Attempt numbers of a trade grow with the rows, so a `client_order_id` names one row. */
  ghost predicate NumbersGrow(db: Db) {
    forall i, j :: 0 <= i < j < |db.attempts| && db.attempts[i].trade == db.attempts[j].trade ==> db.attempts[i].no < db.attempts[j].no
  }

  ghost predicate OnePerGame(db: Db) {
    forall t, u :: 0 <= t < u < |db.trades| ==> !(db.trades[t].strategy == db.trades[u].strategy && db.trades[t].game == db.trades[u].game)
  }

  ghost predicate DbOk(db: Db) {
    && (forall i :: 0 <= i < |db.attempts| ==> AttemptOk(db, i))
    && (forall t :: 0 <= t < |db.trades| ==> TradeOk(db.trades[t]))
    && NumbersGrow(db)
    && OnePerGame(db)
  }

  /** The pending row carries the limit and the count of the request. */
  predicate Carries(a: Attempt, sent: Sent) {
    a.mode == Live && a.limitBp == Some(sent.limitBp) && a.requestedCc == Some(sent.requestedCc)
  }

  /** Attempt row `i` and its trade wait for the outcome of an order request. */
  predicate AwaitsOutcome(db: Db, i: nat, sent: Sent) {
    && IsPendingLive(db, i) && Carries(db.attempts[i], sent)
    && db.attempts[i].trade < |db.trades| && db.trades[db.attempts[i].trade].status == Pending
  }

  predicate FilledRow(db: Db, i: nat) {
    i < |db.attempts| && db.attempts[i].status == AttemptFilled
  }

  /** What the exchange knows of row `i`: an undecided request or an unrecorded order is awaited with its limit
      and count; a recorded order that filled is a filled row, and a live filled row has such an order. */
  ghost predicate OrderOk(db: Db, ex: Exchange, i: nat) {
    && (i in ex.inflight ==> AwaitsOutcome(db, i, ex.inflight[i]) && i !in ex.orders)
    && (i in ex.orders ==>
          && i < |db.attempts| && db.attempts[i].mode == Live
          && (IsPendingAttempt(db, i) ==> AwaitsOutcome(db, i, ex.orders[i].sent))
          && (ex.orders[i].fillCc > 0 ==> IsPendingAttempt(db, i) || FilledRow(db, i)))
    && (FilledRow(db, i) && db.attempts[i].mode == Live ==>
          i in ex.orders && ex.orders[i].fillCc > 0 && db.attempts[i].fill.Some? && db.attempts[i].fill.value.cc == ex.orders[i].fillCc)
  }

  ghost predicate ExchangeOk(db: Db, ex: Exchange) {
    forall i: nat :: OrderOk(db, ex, i)
  }

  ghost predicate ClockOk(db: Db, clock: int) {
    forall i :: 0 <= i < |db.attempts| ==> db.attempts[i].at <= clock
  }

  predicate Distinct(q: seq<nat>) {
    forall j, k :: 0 <= j < k < |q| ==> q[j] != q[k]
  }

  predicate Unsent(ex: Exchange, i: nat) {
    i !in ex.orders && i !in ex.inflight
  }

  /** No order of the row has filled, and none will come. */
  predicate NothingComes(ex: Exchange, i: nat) {
    i !in ex.inflight && !HasFilled(ex, i)
  }

  predicate RunningOk(db: Db, ex: Exchange, r: Running) {
    && r.attempt < |db.attempts| && db.attempts[r.attempt].trade == r.trade < |db.trades|
    && var a := db.attempts[r.attempt];
    var row := db.trades[r.trade];
    && a.no == row.attempts && IsUnfinished(row.status)
    && (r.patch.Some? ==> r.patch.value == a.mode)
    && match r.pc
       case Reading => a.status == AttemptPending && IsOpen(row.status) && Unsent(ex, r.attempt)
       case AwaitingGroup(terms, cash) => a.status == AttemptPending && IsOpen(row.status) && Unsent(ex, r.attempt) && a.mode == Live && CostMicros(terms.requestedCc, terms.limitBp) >= 0
       case AwaitingFee(_, _) => a.status == AttemptPending && IsOpen(row.status) && Unsent(ex, r.attempt) && a.mode == DryRun
       case Sending => IsPendingLive(db, r.attempt) && row.status == Pending
       case LookingUp => IsPendingLive(db, r.attempt) && row.status == Pending
       case Closing(status, _, _, _) => a.status == AttemptPending && NothingComes(ex, r.attempt) && status in {SoftSkip, HardSkip, AttemptError}
       case Closed(status, _) => a.status == status && status in {SoftSkip, HardSkip, AttemptError}
  }

  ghost predicate QueueOk(db: Db, p: Process)
    requires p.Up?
  {
    && Distinct(p.queue)
    && (forall k :: 0 <= k < |p.queue| ==> p.queue[k] in p.busy && p.queue[k] < |db.trades| && IsOpen(db.trades[p.queue[k]].status))
    && (forall t :: t in p.busy ==> t in p.queue || (p.running.Some? && p.running.value.trade == t))
    && (p.running.Some? ==> p.running.value.trade in p.busy && p.running.value.trade !in p.queue)
  }

  /** Apart from the running attempt, a pending one is a live one whose order outcome is unknown. */
  ghost predicate PendingPart(db: Db, p: Process, i: nat)
    requires p.Up?
  {
    IsPendingAttempt(db, i) ==>
      || (p.running.Some? && p.running.value.attempt == i)
      || (&& db.attempts[i].mode == Live && db.attempts[i].trade < |db.trades|
          && db.trades[db.attempts[i].trade].status == Pending && db.attempts[i].trade !in p.busy)
  }

  ghost predicate PendingOk(db: Db, p: Process)
    requires p.Up?
  {
    forall i: nat :: PendingPart(db, p, i)
  }

  ghost predicate ResolvingOk(db: Db, p: Process)
    requires p.Up?
  {
    && Distinct(p.resolving)
    && forall k :: 0 <= k < |p.resolving| ==> IsPendingLive(db, p.resolving[k]) && db.attempts[p.resolving[k]].trade !in p.busy
  }

  /** A row the settler read is still the current one while the trade is `filled`. */
  ghost predicate SettlingOk(db: Db, p: Process)
    requires p.Up?
  {
    forall k :: 0 <= k < |p.settling| ==>
                  && p.settling[k].trade < |db.trades|
                  && HasFill(db.trades[p.settling[k].trade].status)
                  && (db.trades[p.settling[k].trade].status == Filled ==> db.trades[p.settling[k].trade] == p.settling[k].row)
  }

  /** Recovery has each pending live attempt on its list, or could not look up one whose order may exist. */
  ghost predicate TodoOk(db: Db, todo: seq<nat>) {
    && Distinct(todo)
    && (forall k :: 0 <= k < |todo| ==> IsPendingLive(db, todo[k]))
    && forall i: nat :: IsPendingLive(db, i) ==> i in todo || (db.attempts[i].trade < |db.trades| && db.trades[db.attempts[i].trade].status == Pending)
  }

  ghost predicate ProcessOk(db: Db, ex: Exchange, p: Process) {
    match p
    case Down => true
    case Recovering(todo) => TodoOk(db, todo)
    case Up(_, _, running, _, _) =>
      && QueueOk(db, p) && PendingOk(db, p) && ResolvingOk(db, p) && SettlingOk(db, p)
      && (running.Some? ==> RunningOk(db, ex, running.value))
  }

  ghost predicate Inv(s: Sys) {
    DbOk(s.db) && ExchangeOk(s.db, s.ex) && ClockOk(s.db, s.clock) && ProcessOk(s.db, s.ex, s.process)
  }

  lemma InitInv(bankroll: int, clock: int)
    ensures Inv(Boot0(bankroll, clock))
  {
  }

  // ---- lists --------------------------------------------------------------------------------------------

  lemma {:induction false} PendingLiveMeaning(db: Db, busy: set<nat>, now: int, minAge: int, n: nat)
    requires n <= |db.attempts|
    ensures var q := PendingLive(db, busy, now, minAge, n);
            && (forall j, k :: 0 <= j < k < |q| ==> q[j] < q[k])
            && Distinct(q)
            && forall i: nat :: i in q <==> i < n && IsPendingLive(db, i) && db.attempts[i].trade !in busy && now - db.attempts[i].at >= minAge
  {
    if n > 0 {
      PendingLiveMeaning(db, busy, now, minAge, n - 1);
      var before := PendingLive(db, busy, now, minAge, n - 1);
      forall k | 0 <= k < |before|
        ensures before[k] < n - 1
      {
        assert before[k] in before;
      }
    }
  }

  lemma {:induction false} FilledTradesMeaning(db: Db, n: nat)
    requires n <= |db.trades|
    ensures forall k :: 0 <= k < |FilledTrades(db, n)| ==>
                          var r := FilledTrades(db, n)[k];
                          r.trade < n && db.trades[r.trade] == r.row && r.row.status == Filled
    ensures forall t :: 0 <= t < n && db.trades[t].status == Filled ==> Read(t, db.trades[t]) in FilledTrades(db, n)
  {
    if n > 0 {
      FilledTradesMeaning(db, n - 1);
    }
  }

  lemma TailDistinct(q: seq<nat>)
    requires Distinct(q) && q != []
    ensures Distinct(q[1..]) && q[0] !in q[1..]
  {
  }

  // ---- steps --------------------------------------------------------------------------------------------

  /** Two rows of one trade that are both the trade's last are one row. */
  lemma LastIsUnique(db: Db, i: nat, j: nat)
    requires NumbersGrow(db) && i < |db.attempts| && j < |db.attempts|
    requires db.attempts[i].trade == db.attempts[j].trade && db.attempts[i].no == db.attempts[j].no
    ensures i == j
  {
  }

  /** The step changes at most trade `t` and its attempt `i`, and neither their identity. */
  predicate Touches(db: Db, db': Db, t: nat, i: nat) {
    && |db'.trades| == |db.trades| && |db'.attempts| == |db.attempts|
    && i < |db.attempts| && db.attempts[i].trade == t < |db.trades|
    && (forall u :: 0 <= u < |db.trades| && u != t ==> db'.trades[u] == db.trades[u])
    && (forall j :: 0 <= j < |db.attempts| && j != i ==> db'.attempts[j] == db.attempts[j])
    && SameAttempt(db.attempts[i], db'.attempts[i])
    && SameTrade(db.trades[t], db'.trades[t])
  }

  predicate SameAttempt(a: Attempt, a': Attempt) {
    a'.trade == a.trade && a'.no == a.no && a'.at == a.at && a'.mode == a.mode
  }

  predicate SameTrade(r: Trade, r': Trade) {
    r'.strategy == r.strategy && r'.game == r.game && r'.ticker == r.ticker && r'.attempts == r.attempts
  }

  predicate IsLast(db: Db, i: nat) {
    i < |db.attempts| && db.attempts[i].trade < |db.trades| && db.attempts[i].no == db.trades[db.attempts[i].trade].attempts
  }

  /** The other attempts of a trade than its last are closed without a fill. */
  lemma OthersClosed(db: Db, i: nat, j: nat)
    requires DbOk(db) && IsLast(db, i) && j < |db.attempts| && j != i && db.attempts[j].trade == db.attempts[i].trade
    ensures !IsPendingAttempt(db, j) && !FilledRow(db, j)
  {
    assert AttemptOk(db, j);
  }

  lemma TouchDb(db: Db, db': Db, t: nat, i: nat)
    requires DbOk(db) && Touches(db, db', t, i) && IsLast(db, i)
    requires AttemptOk(db', i) && TradeOk(db'.trades[t])
    ensures DbOk(db')
  {
    forall j | 0 <= j < |db'.attempts|
      ensures AttemptOk(db', j)
    {
      assert AttemptOk(db, j);
      if j != i && db.attempts[j].trade == t {
        OthersClosed(db, i, j);
      }
    }
  }

  lemma TouchExchange(db: Db, db': Db, ex: Exchange, ex': Exchange, t: nat, i: nat)
    requires DbOk(db) && ExchangeOk(db, ex) && Touches(db, db', t, i) && IsLast(db, i)
    requires ex'.orders - {i} == ex.orders - {i} && ex'.inflight - {i} == ex.inflight - {i}
    requires OrderOk(db', ex', i)
    ensures ExchangeOk(db', ex')
  {
    forall j: nat
      ensures OrderOk(db', ex', j)
    {
      if j != i {
        assert OrderOk(db, ex, j);
        assert j in ex'.orders <==> j in ex'.orders - {i};
        assert j in ex.orders <==> j in ex.orders - {i};
        assert j in ex'.inflight <==> j in ex'.inflight - {i};
        assert j in ex.inflight <==> j in ex.inflight - {i};
        if j in ex.orders { assert (ex.orders - {i})[j] == ex.orders[j]; assert (ex'.orders - {i})[j] == ex'.orders[j]; }
        if j in ex.inflight { assert (ex.inflight - {i})[j] == ex.inflight[j]; assert (ex'.inflight - {i})[j] == ex'.inflight[j]; }
        if j < |db.attempts| && db.attempts[j].trade == t {
          OthersClosed(db, i, j);
        }
      }
    }
  }

  /** The running attempt moves on to another wait. */
  lemma TouchRunning(db: Db, db': Db, ex: Exchange, ex': Exchange, p: Process, pc: Pc)
    requires DbOk(db) && p.Up? && ProcessOk(db, ex, p) && p.running.Some?
    requires Touches(db, db', p.running.value.trade, p.running.value.attempt)
    requires RunningOk(db', ex', p.running.value.(pc := pc))
    ensures ProcessOk(db', ex', Goto(p, pc))
  {
    forall j: nat
      ensures PendingPart(db', Goto(p, pc), j)
    {
      assert PendingPart(db, p, j);
    }
  }

  /** The running attempt ends: closed, filled, or pending with an unknown order outcome. */
  lemma TouchRelease(db: Db, db': Db, ex: Exchange, ex': Exchange, p: Process)
    requires DbOk(db) && p.Up? && ProcessOk(db, ex, p) && p.running.Some?
    requires Touches(db, db', p.running.value.trade, p.running.value.attempt)
    requires IsPendingAttempt(db', p.running.value.attempt) ==>
               db'.attempts[p.running.value.attempt].mode == Live && db'.trades[p.running.value.trade].status == Pending
    ensures ProcessOk(db', ex', Release(p))
  {
    forall j: nat
      ensures PendingPart(db', Release(p), j)
    {
      assert PendingPart(db, p, j);
    }
  }

  /** The resolver closes or fills the pending attempt at the head of its list. */
  lemma TouchResolved(db: Db, db': Db, ex: Exchange, ex': Exchange, p: Process)
    requires DbOk(db) && p.Up? && ProcessOk(db, ex, p) && p.resolving != []
    requires Touches(db, db', db.attempts[p.resolving[0]].trade, p.resolving[0])
    requires !IsPendingAttempt(db', p.resolving[0])
    requires ex'.orders == ex.orders && ex'.inflight.Keys <= ex.inflight.Keys
    ensures ProcessOk(db', ex', p.(resolving := p.resolving[1..]))
  {
    var i := p.resolving[0];
    var t := db.attempts[i].trade;
    TailDistinct(p.resolving);
    assert PendingPart(db, p, i);
    assert p.running.Some? ==> p.running.value.trade != t;
    forall j: nat
      ensures PendingPart(db', p.(resolving := p.resolving[1..]), j)
    {
      assert PendingPart(db, p, j);
      if j < |db.attempts| && j != i && db.attempts[j].trade == t {
        assert AttemptOk(db, i);
        OthersClosed(db, i, j);
      }
    }
  }
}
