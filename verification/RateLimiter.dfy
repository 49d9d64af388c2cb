/** The token bucket in front of the exchange (app/src/feeds/kalshi/rateLimiter.ts), in thousandths of a token and
    milliseconds, so that `elapsed * ratePerSec / 1000` is exact. */
module RateLimiter {
  import opened Pricing
  import opened Arithmetic

  datatype Waiter = Waiter(id: nat, cost: int)

  /** `timer` is the time its callback is due. */
  datatype Bucket = Bucket(rate: int, capacity: int, tokens: int, last: int, queue: seq<Waiter>, timer: Option<int>)

  function Refill(b: Bucket, now: int): Bucket {
    b.(tokens := if now > b.last then Min(b.capacity, b.tokens + (now - b.last) * b.rate) else b.tokens, last := now)
  }

  /** How many waiters the tokens serve, strictly from the front. */
  function Served(tokens: int, queue: seq<Waiter>): nat
    ensures Served(tokens, queue) <= |queue|
    decreases |queue|
  {
    if queue == [] || tokens < queue[0].cost then 0 else 1 + Served(tokens - queue[0].cost, queue[1..])
  }

  function TotalCost(queue: seq<Waiter>): int {
    if queue == [] then 0 else TotalCost(queue[..|queue| - 1]) + queue[|queue| - 1].cost
  }

  function WaitMs(cost: int, tokens: int, rate: int): int
    requires rate > 0
  {
    Max(1, CeilDiv(cost - tokens, rate))
  }

  /** The state after `drain` and the waiters it resolved, in order. Nothing happens while a timer is armed. */
  function Drain(b: Bucket, now: int): (Bucket, seq<Waiter>)
    requires b.rate > 0
  {
    if b.timer.Some? then (b, [])
    else
      var r := Refill(b, now);
      var n := Served(r.tokens, r.queue);
      var d := r.(tokens := r.tokens - TotalCost(r.queue[..n]), queue := r.queue[n..]);
      (if d.queue == [] then d else d.(timer := Some(now + WaitMs(d.queue[0].cost, d.tokens, d.rate))), r.queue[..n])
  }

  /** `take` of a cost within the capacity (`take` throws a RangeError for a greater one). */
  function Take(b: Bucket, w: Waiter, now: int): (Bucket, seq<Waiter>)
    requires b.rate > 0
  {
    var r := Refill(b, now);
    if r.queue == [] && r.tokens >= w.cost then (r.(tokens := r.tokens - w.cost), [w])
    else Drain(r.(queue := r.queue + [w]), now)
  }

  /** The timer's callback. */
  function Fire(b: Bucket, now: int): (Bucket, seq<Waiter>)
    requires b.rate > 0
  {
    Drain(b.(timer := None), now)
  }

  /** `b` is `r` after its loop has served the first `n` waiters. */
  predicate ServedTo(r: Bucket, b: Bucket, n: nat) {
    && n <= |r.queue| && b == r.(tokens := r.tokens - TotalCost(r.queue[..n]), queue := r.queue[n..])
    && Served(r.tokens, r.queue) == n + Served(b.tokens, b.queue)
  }

  lemma ServesOneMore(r: Bucket, b: Bucket, n: nat)
    requires ServedTo(r, b, n) && b.queue != [] && b.tokens >= b.queue[0].cost
    ensures ServedTo(r, b.(tokens := b.tokens - b.queue[0].cost, queue := b.queue[1..]), n + 1)
    ensures r.queue[..n] + [b.queue[0]] == r.queue[..n + 1]
  {
    assert r.queue[..n + 1][..n] == r.queue[..n];
    assert r.queue[n..][1..] == r.queue[n + 1..];
  }

  lemma Appended(a: seq<Waiter>, b: seq<Waiter>, w: Waiter)
    ensures (a + b) + [w] == a + (b + [w])
  {
  }

  lemma ServesNone(r: Bucket)
    ensures ServedTo(r, r, 0)
  {
    assert r.queue[..0] == [] && r.queue[0..] == r.queue;
  }

  /** Where the loop stops is where `Drain` says it stops. */
  lemma LoopDrains(b: Bucket, now: int, d: Bucket, n: nat)
    requires b.rate > 0 && b.timer.None? && ServedTo(Refill(b, now), d, n)
    requires d.queue == [] || d.tokens < d.queue[0].cost
    ensures Drain(b, now).1 == Refill(b, now).queue[..n]
    ensures Drain(b, now).0 == if d.queue == [] then d else d.(timer := Some(now + WaitMs(d.queue[0].cost, d.tokens, d.rate)))
  {
    assert Served(d.tokens, d.queue) == 0;
  }

  // ---- the object ---------------------------------------------------------------------------------------

  class TokenBucket {
    const rate: int
    const capacity: int
    var tokens: int
    var last: int
    var queue: seq<Waiter>
    var timer: Option<int>
    /** The waiters whose promise has been resolved, in that order. */
    var resolved: seq<Waiter>

    constructor (ratePerSec: int, capacitySec: int, now: int)
      ensures View() == Bucket(ratePerSec, ratePerSec * capacitySec * 1000, ratePerSec * capacitySec * 1000, now, [], None)
      ensures resolved == []
    {
      rate, capacity := ratePerSec, ratePerSec * capacitySec * 1000;
      tokens, last := ratePerSec * capacitySec * 1000, now;
      queue, timer, resolved := [], None, [];
    }

    function View(): Bucket
      reads this
    {
      Bucket(rate, capacity, tokens, last, queue, timer)
    }

    method RefillAt(now: int)
      modifies this`tokens, this`last
      ensures View() == Refill(old(View()), now)
    {
      if now > last {
        tokens := Min(capacity, tokens + (now - last) * rate);
      }
      last := now;
    }

    /** Whether the request was accepted; a cost above the capacity throws. */
    method TakeAt(w: Waiter, now: int) returns (accepted: bool)
      requires rate > 0
      modifies this
      ensures accepted <==> w.cost <= capacity
      ensures !accepted ==> View() == old(View()) && resolved == old(resolved)
      ensures accepted ==> (View(), resolved) == (Take(old(View()), w, now).0, old(resolved) + Take(old(View()), w, now).1)
    {
      if w.cost > capacity {
        return false;
      }
      RefillAt(now);
      if |queue| == 0 && tokens >= w.cost {
        tokens := tokens - w.cost;
        resolved := resolved + [w];
        return true;
      }
      queue := queue + [w];
      DrainAt(now);
      return true;
    }

    method FireAt(now: int)
      requires rate > 0
      modifies this
      ensures (View(), resolved) == (Fire(old(View()), now).0, old(resolved) + Fire(old(View()), now).1)
    {
      timer := None;
      DrainAt(now);
    }

    method DrainAt(now: int)
      requires rate > 0
      modifies this
      ensures (View(), resolved) == (Drain(old(View()), now).0, old(resolved) + Drain(old(View()), now).1)
    {
      if timer.Some? {
        assert resolved + [] == resolved;
        return;
      }
      RefillAt(now);
      ghost var r, n := View(), 0;
      ServesNone(r);
      while |queue| > 0 && tokens >= queue[0].cost
        invariant ServedTo(r, View(), n) && resolved == old(resolved) + r.queue[..n]
        decreases |queue|
      {
        ServesOneMore(r, View(), n);
        Appended(old(resolved), r.queue[..n], queue[0]);
        tokens := tokens - queue[0].cost;
        resolved := resolved + [queue[0]];
        queue := queue[1..];
        n := n + 1;
      }
      LoopDrains(old(View()), now, View(), n);
      if |queue| > 0 {
        timer := Some(now + WaitMs(queue[0].cost, tokens, rate));
      }
    }
  }

  // ---- invariant ----------------------------------------------------------------------------------------

  predicate CostsOk(queue: seq<Waiter>, capacity: int) {
    forall k :: 0 <= k < |queue| ==> 0 <= queue[k].cost <= capacity
  }

  /** A non-empty queue has a timer armed, and the head can be served when it is due. */
  predicate Valid(b: Bucket) {
    && b.rate > 0 && 0 <= b.tokens <= b.capacity && CostsOk(b.queue, b.capacity)
    && (b.queue != [] <==> b.timer.Some?)
    && (b.timer.Some? ==> b.tokens + Max(0, b.timer.value - b.last) * b.rate >= b.queue[0].cost)
  }

  lemma {:induction false} TotalSplit(q: seq<Waiter>, n: nat)
    requires n <= |q|
    ensures TotalCost(q) == TotalCost(q[..n]) + TotalCost(q[n..])
    decreases |q|
  {
    if n == |q| {
      assert q[..n] == q && q[n..] == [];
    } else {
      var m := |q| - 1;
      TotalSplit(q[..m], n);
      assert q[..m][..n] == q[..n] && q[..m][n..] == q[n..][..m - n];
    }
  }

  /** What is served is paid for, and the next head is not affordable. */
  lemma {:induction false} ServedAffordable(tokens: int, q: seq<Waiter>)
    requires tokens >= 0
    ensures var n := Served(tokens, q);
            TotalCost(q[..n]) <= tokens && (n < |q| ==> tokens - TotalCost(q[..n]) < q[n].cost)
    decreases |q|
  {
    var n := Served(tokens, q);
    if q == [] || tokens < q[0].cost {
      assert q[..0] == [];
    } else {
      ServedAffordable(tokens - q[0].cost, q[1..]);
      TotalSplit(q[..n], 1);
      assert q[..n][..1] == [q[0]] && q[..n][1..] == q[1..][..n - 1];
      assert [q[0]][..0] == [];
    }
  }

  lemma {:induction false} TotalNonNegative(q: seq<Waiter>, capacity: int)
    requires CostsOk(q, capacity)
    ensures TotalCost(q) >= 0
  {
    if q != [] {
      TotalNonNegative(q[..|q| - 1], capacity);
    }
  }

  lemma RefillValid(b: Bucket, now: int)
    requires Valid(b) && b.last <= now
    ensures Valid(Refill(b, now))
  {
    if b.last < now {
      MulNonNegative(now - b.last, b.rate);
      if b.timer.Some? {
        var due := b.timer.value;
        var gap, gap' := Max(0, due - b.last), Max(0, due - now);
        MulMonotone(gap, (now - b.last) + gap', b.rate);
        assert ((now - b.last) + gap') * b.rate == (now - b.last) * b.rate + gap' * b.rate;
        MulNonNegative(gap', b.rate);
      }
    }
  }

  lemma DrainValid(b: Bucket, now: int)
    requires b.rate > 0 && 0 <= b.tokens <= b.capacity && CostsOk(b.queue, b.capacity) && b.timer.None? && b.last <= now
    ensures Valid(Drain(b, now).0)
  {
    var r := Refill(b, now);
    MulNonNegative(now - b.last, b.rate);
    var n := Served(r.tokens, r.queue);
    ServedAffordable(r.tokens, r.queue);
    TotalNonNegative(r.queue[..n], b.capacity);
    var d := r.(tokens := r.tokens - TotalCost(r.queue[..n]), queue := r.queue[n..]);
    if d.queue != [] {
      CeilDivLeast(d.queue[0].cost - d.tokens, b.rate, 0);
      MulMonotone(CeilDiv(d.queue[0].cost - d.tokens, b.rate), WaitMs(d.queue[0].cost, d.tokens, b.rate), b.rate);
    }
  }

  lemma TakeValid(b: Bucket, w: Waiter, now: int)
    requires Valid(b) && b.last <= now && 0 <= w.cost <= b.capacity
    ensures Valid(Take(b, w, now).0)
  {
    RefillValid(b, now);
    var r := Refill(b, now);
    if !(r.queue == [] && r.tokens >= w.cost) && b.timer.None? {
      DrainValid(r.(queue := [w]), now);
      assert r.queue + [w] == [w];
    }
  }

  /** A timer that fires when due serves at least the head, and not because it waited needlessly: a
      millisecond earlier the head could not have been served, unless the wait was the minimum of one. */
  lemma FiringServesHead(b: Bucket, now: int)
    requires Valid(b) && b.timer.Some? && b.timer.value <= now && b.last <= now
    ensures Valid(Fire(b, now).0)
    ensures Fire(b, now).1 != [] && Fire(b, now).1[0] == b.queue[0]
  {
    DrainValid(b.(timer := None), now);
    MulMonotone(Max(0, b.timer.value - b.last), now - b.last, b.rate);
    assert Refill(b, now).tokens >= b.queue[0].cost;
  }

  /** The timer is set to the first whole millisecond after now at which the head can be paid. */
  lemma DeadlineIsEarliest(b: Bucket, now: int)
    requires b.rate > 0 && 0 <= b.tokens <= b.capacity && CostsOk(b.queue, b.capacity) && b.timer.None? && b.last <= now
    requires Drain(b, now).0.timer.Some?
    ensures var d := Drain(b, now).0;
            && d.timer.value > now && d.tokens + (d.timer.value - now) * b.rate >= d.queue[0].cost
            && (d.timer.value == now + 1 || d.tokens + (d.timer.value - 1 - now) * b.rate < d.queue[0].cost)
  {
    var d := Drain(b, now).0;
    CeilDivLeast(d.queue[0].cost - d.tokens, b.rate, d.timer.value - 1 - now);
    MulMonotone(CeilDiv(d.queue[0].cost - d.tokens, b.rate), d.timer.value - now, b.rate);
  }

  // ---- runs ---------------------------------------------------------------------------------------------

  /** A call of `take` or a firing of the timer, with the time it reads. */
  datatype Call = TakeCall(waiter: Waiter, at: int) | FireCall(at: int)

  /** The clock does not step back, costs fit the bucket, timers fire no earlier than due. */
  predicate Possible(b: Bucket, calls: seq<Call>)
    decreases |calls|
  {
    calls == [] ||
    (&& b.rate > 0 && b.last <= calls[0].at
     && (calls[0].TakeCall? ==> 0 <= calls[0].waiter.cost <= b.capacity)
     && (calls[0].FireCall? ==> b.timer.Some? && b.timer.value <= calls[0].at)
     && Possible(After(b, calls[0]).0, calls[1..]))
  }

  function After(b: Bucket, c: Call): (Bucket, seq<Waiter>)
    requires b.rate > 0
  {
    if c.TakeCall? then Take(b, c.waiter, c.at) else Fire(b, c.at)
  }

  function Run(b: Bucket, calls: seq<Call>): (Bucket, seq<Waiter>)
    requires Possible(b, calls)
    decreases |calls|
  {
    if calls == [] then (b, [])
    else
      var first := After(b, calls[0]);
      var rest := Run(first.0, calls[1..]);
      (rest.0, first.1 + rest.1)
  }

  function Arrivals(calls: seq<Call>): seq<Waiter>
    decreases |calls|
  {
    if calls == [] then []
    else (if calls[0].TakeCall? then [calls[0].waiter] else []) + Arrivals(calls[1..])
  }

  lemma AfterValid(b: Bucket, c: Call)
    requires Valid(b) && Possible(b, [c])
    ensures Valid(After(b, c).0) && After(b, c).0.rate == b.rate && After(b, c).0.capacity == b.capacity && After(b, c).0.last == c.at
  {
    if c.TakeCall? { TakeValid(b, c.waiter, c.at); } else { FiringServesHead(b, c.at); }
  }

  lemma PossibleHead(b: Bucket, calls: seq<Call>)
    requires Possible(b, calls) && calls != []
    ensures Possible(b, [calls[0]])
  {
  }

  lemma CallKeepsOrder(b: Bucket, c: Call)
    requires b.rate > 0
    ensures After(b, c).1 + After(b, c).0.queue == b.queue + if c.TakeCall? then [c.waiter] else []
  {
  }

  /** Grants happen strictly in arrival order: what has been granted, followed by what still waits, is exactly
      what arrived. A waiting request always has a timer armed. */
  lemma {:induction false} FirstComeFirstServed(b: Bucket, calls: seq<Call>)
    requires Valid(b) && Possible(b, calls)
    ensures Valid(Run(b, calls).0) && Run(b, calls).0.capacity == b.capacity
    ensures Run(b, calls).1 + Run(b, calls).0.queue == b.queue + Arrivals(calls)
    decreases |calls|
  {
    if calls != [] {
      PossibleHead(b, calls);
      AfterValid(b, calls[0]);
      CallKeepsOrder(b, calls[0]);
      var first := After(b, calls[0]);
      FirstComeFirstServed(first.0, calls[1..]);
      OrderComposes(first.1, Run(first.0, calls[1..]).1, Run(first.0, calls[1..]).0.queue, first.0.queue, Arrivals(calls[1..]),
                    b.queue, if calls[0].TakeCall? then [calls[0].waiter] else []);
    }
  }

  lemma OrderComposes(g: seq<Waiter>, g': seq<Waiter>, q': seq<Waiter>, q: seq<Waiter>, later: seq<Waiter>, before: seq<Waiter>, arrived: seq<Waiter>)
    requires g + q == before + arrived && g' + q' == q + later
    ensures (g + g') + q' == before + (arrived + later)
  {
    assert (g + g') + q' == g + (g' + q') == (g + q) + later;
  }

  /** Tokens flow in at no more than the rate. */
  lemma RefillFlow(b: Bucket, s: int, t: int)
    requires b.rate > 0 && b.last <= s <= t && b.tokens <= b.capacity
    ensures Refill(b, t).tokens <= Refill(b, s).tokens + (t - s) * b.rate
  {
    MulNonNegative(t - s, b.rate);
    assert (t - b.last) * b.rate == (s - b.last) * b.rate + (t - s) * b.rate;
  }

  lemma DrainPays(b: Bucket, now: int)
    requires b.rate > 0
    ensures TotalCost(Drain(b, now).1) + Drain(b, now).0.tokens == if b.timer.Some? then b.tokens else Refill(b, now).tokens
  {
  }

  /** One call pays for its grants out of the tokens there were and what has flowed in since. */
  lemma CallPays(b: Bucket, c: Call, s: int)
    requires Valid(b) && Possible(b, [c]) && b.last <= s <= c.at
    ensures var a := After(b, c);
            TotalCost(a.1) + a.0.tokens <= Refill(b, s).tokens + (c.at - s) * b.rate
  {
    RefillFlow(b, s, c.at);
    var r := Refill(b, c.at);
    assert Refill(r, c.at).tokens == r.tokens;
    if c.TakeCall? {
      DrainPays(r.(queue := r.queue + [c.waiter]), c.at);
      assert TotalCost([c.waiter]) == c.waiter.cost by { assert [c.waiter][..0] == []; }
    } else {
      DrainPays(b.(timer := None), c.at);
    }
  }

  lemma CostOfBoth(g: seq<Waiter>, g': seq<Waiter>)
    ensures TotalCost(g + g') == TotalCost(g) + TotalCost(g')
  {
    TotalSplit(g + g', |g|);
    assert (g + g')[..|g|] == g && (g + g')[|g|..] == g';
  }

  lemma IntervalSplits(s: int, at: int, t: int, rate: int)
    ensures (t - s) * rate == (at - s) * rate + (t - at) * rate
  {
  }

  /** The first call of a run, and what it leaves for the rest. */
  lemma HeadPays(b: Bucket, calls: seq<Call>, s: int)
    requires Valid(b) && Possible(b, calls) && calls != [] && b.last <= s <= calls[0].at
    ensures var a := After(b, calls[0]);
            && Valid(a.0) && Possible(a.0, calls[1..]) && a.0.rate == b.rate && a.0.last == calls[0].at
            && TotalCost(a.1) + Refill(a.0, calls[0].at).tokens <= Refill(b, s).tokens + (calls[0].at - s) * b.rate
  {
    PossibleHead(b, calls);
    AfterValid(b, calls[0]);
    CallPays(b, calls[0], s);
  }

  lemma RunSplits(b: Bucket, calls: seq<Call>)
    requires Possible(b, calls) && calls != []
    ensures var a := After(b, calls[0]);
            && Run(b, calls).0 == Run(a.0, calls[1..]).0
            && TotalCost(Run(b, calls).1) == TotalCost(a.1) + TotalCost(Run(a.0, calls[1..]).1)
  {
    CostOfBoth(After(b, calls[0]).1, Run(After(b, calls[0]).0, calls[1..]).1);
  }

  lemma {:induction false} RunPays(b: Bucket, calls: seq<Call>, s: int, t: int)
    requires Valid(b) && Possible(b, calls) && b.last <= s <= t
    requires forall k :: 0 <= k < |calls| ==> s <= calls[k].at <= t
    ensures TotalCost(Run(b, calls).1) + Run(b, calls).0.tokens <= Refill(b, s).tokens + (t - s) * b.rate
    decreases |calls|
  {
    if calls == [] {
      MulNonNegative(t - s, b.rate);
      MulNonNegative(s - b.last, b.rate);
    } else {
      var after, at := After(b, calls[0]).0, calls[0].at;
      HeadPays(b, calls, s);
      TimesGrow(after, calls[1..]);
      RunPays(after, calls[1..], at, t);
      RunSplits(b, calls);
      IntervalSplits(s, at, t, b.rate);
    }
  }

  lemma {:induction false} TimesGrow(b: Bucket, calls: seq<Call>)
    requires Valid(b) && Possible(b, calls)
    ensures forall k :: 0 <= k < |calls| ==> b.last <= calls[k].at
    decreases |calls|
  {
    if calls != [] {
      PossibleHead(b, calls);
      AfterValid(b, calls[0]);
      TimesGrow(After(b, calls[0]).0, calls[1..]);
    }
  }

  /** The rate bound: over any interval the cost granted is at most the capacity plus the refill of the interval. */
  lemma RateBound(b: Bucket, calls: seq<Call>, s: int, t: int)
    requires Valid(b) && Possible(b, calls) && b.last <= s <= t
    requires forall k :: 0 <= k < |calls| ==> s <= calls[k].at <= t
    ensures TotalCost(Run(b, calls).1) <= b.capacity + (t - s) * b.rate
  {
    RunPays(b, calls, s, t);
    FirstComeFirstServed(b, calls);
    RefillValid(b, s);
  }

  lemma {:induction false} RunValid(b: Bucket, calls: seq<Call>)
    requires Valid(b) && Possible(b, calls)
    ensures Valid(Run(b, calls).0) && Run(b, calls).0.rate == b.rate && Run(b, calls).0.capacity == b.capacity
    decreases |calls|
  {
    if calls != [] {
      PossibleHead(b, calls);
      AfterValid(b, calls[0]);
      RunValid(After(b, calls[0]).0, calls[1..]);
    }
  }

  /** From construction on: after any calls, what the calls of an interval are granted is at most the capacity plus
      the refill of the interval, and a waiting request has a timer armed. */
  lemma RateBoundFromStart(ratePerSec: int, capacitySec: int, now: int, earlier: seq<Call>, calls: seq<Call>, s: int, t: int)
    requires ratePerSec > 0 && capacitySec >= 0
    requires var b0 := Bucket(ratePerSec, ratePerSec * capacitySec * 1000, ratePerSec * capacitySec * 1000, now, [], None);
             Possible(b0, earlier) && Possible(Run(b0, earlier).0, calls) && Run(b0, earlier).0.last <= s <= t
    requires forall k :: 0 <= k < |calls| ==> s <= calls[k].at <= t
    ensures var b := Run(Bucket(ratePerSec, ratePerSec * capacitySec * 1000, ratePerSec * capacitySec * 1000, now, [], None), earlier).0;
            && Valid(b) && (b.queue != [] ==> b.timer.Some?)
            && TotalCost(Run(b, calls).1) <= ratePerSec * capacitySec * 1000 + (t - s) * ratePerSec
  {
    var b0 := Bucket(ratePerSec, ratePerSec * capacitySec * 1000, ratePerSec * capacitySec * 1000, now, [], None);
    FreshValid(ratePerSec, capacitySec, now);
    RunValid(b0, earlier);
    RateBound(Run(b0, earlier).0, calls, s, t);
  }

  /** A fresh bucket is valid. */
  lemma FreshValid(ratePerSec: int, capacitySec: int, now: int)
    requires ratePerSec > 0 && capacitySec >= 0
    ensures Valid(Bucket(ratePerSec, ratePerSec * capacitySec * 1000, ratePerSec * capacitySec * 1000, now, [], None))
  {
    MulNonNegative(ratePerSec, capacitySec);
  }

  // ---- service ------------------------------------------------------------------------------------------

  /** The tokens there are at a time: what was left and what has flowed in since, up to the capacity. */
  function TokensAt(b: Bucket, at: int): int { Min(b.capacity, b.tokens + (at - b.last) * b.rate) }

  lemma RefillIsFlow(b: Bucket, at: int)
    requires Valid(b) && b.last <= at
    ensures Refill(b, at) == b.(tokens := TokensAt(b, at), last := at)
    ensures b.tokens <= TokensAt(b, at) <= b.capacity
  {
    MulNonNegative(at - b.last, b.rate);
  }

  /** An idle bucket grants a request at once, with no timer, exactly when what was left and what has flowed in since,
      up to the capacity, pays for it; the rest of the tokens stays. */
  lemma IdleGrantsExactly(b: Bucket, w: Waiter, at: int)
    requires Valid(b) && b.queue == [] && b.last <= at && 0 <= w.cost <= b.capacity
    ensures var (after, granted) := Take(b, w, at);
            && (granted == [w] <==> Min(b.capacity, b.tokens + (at - b.last) * b.rate) >= w.cost)
            && (granted == [w] ==>
                  after == b.(tokens := Min(b.capacity, b.tokens + (at - b.last) * b.rate) - w.cost, last := at) && after.timer.None?)
            && (granted != [w] ==> granted == [] && after.queue == [w] && after.timer.Some?)
  {
    RefillIsFlow(b, at);
    assert Served(TokensAt(b, at), [w]) == if TokensAt(b, at) < w.cost then 0 else 1 + Served(TokensAt(b, at) - w.cost, []);
    assert [] + [w] == [w];
  }

  /** The next waiter cannot be paid yet, and the timer is set for when it can. */
  predicate WaitsForNext(b: Bucket, at: int) {
    b.queue != [] ==>
      && b.tokens < b.queue[0].cost && b.timer.Some? && b.timer.value > at
      && b.tokens + (b.timer.value - at) * b.rate >= b.queue[0].cost
  }

  /** What one call does, exactly: what it grants and what stays is what was there before it, in order; the cost of the
      grants comes out of what was left and what has flowed in, up to the capacity; while a timer is armed nothing is
      granted and the timer stays; otherwise the next waiter cannot be paid and the timer is set for it. */
  lemma CallExactly(b: Bucket, c: Call)
    requires Valid(b) && b.last <= c.at && (c.TakeCall? ==> 0 <= c.waiter.cost <= b.capacity)
    ensures var (after, granted) := After(b, c);
            && granted + after.queue == b.queue + (if c.TakeCall? then [c.waiter] else [])
            && after.tokens + TotalCost(granted) == Min(b.capacity, b.tokens + (c.at - b.last) * b.rate)
            && after.last == c.at
            && if c.TakeCall? && b.timer.Some? then granted == [] && after.timer == b.timer else WaitsForNext(after, c.at)
  {
    CallKeepsOrder(b, c);
    if c.FireCall? {
      FireCallPays(b, c.at);
    } else if b.timer.None? {
      IdleCall(b, c.waiter, c.at);
    } else {
      ArmedCall(b, c.waiter, c.at);
    }
  }

  lemma FireCallPays(b: Bucket, at: int)
    requires Valid(b) && b.last <= at
    ensures var (after, granted) := Fire(b, at);
            after.tokens + TotalCost(granted) == TokensAt(b, at) && after.last == at && WaitsForNext(after, at)
  {
    RefillIsFlow(b, at);
    DrainExactly(b.(timer := None), at);
  }

  lemma ArmedCall(b: Bucket, w: Waiter, at: int)
    requires Valid(b) && b.timer.Some? && b.last <= at
    ensures var (after, granted) := Take(b, w, at);
            after.tokens == TokensAt(b, at) && after.last == at && after.timer == b.timer && granted == [] && TotalCost(granted) == 0
  {
    RefillIsFlow(b, at);
  }

  lemma DrainExactly(b: Bucket, now: int)
    requires b.rate > 0 && 0 <= b.tokens <= b.capacity && CostsOk(b.queue, b.capacity) && b.timer.None? && b.last <= now
    ensures var (after, granted) := Drain(b, now);
            after.tokens + TotalCost(granted) == Refill(b, now).tokens && after.last == now && WaitsForNext(after, now)
  {
    MulNonNegative(now - b.last, b.rate);
    DrainPays(b, now);
    var r := Refill(b, now);
    ServedAffordable(r.tokens, r.queue);
    if Drain(b, now).0.queue != [] { DeadlineIsEarliest(b, now); }
  }

  lemma IdleCall(b: Bucket, w: Waiter, at: int)
    requires Valid(b) && b.timer.None? && b.last <= at && 0 <= w.cost <= b.capacity
    ensures var (after, granted) := Take(b, w, at);
            after.tokens + TotalCost(granted) == TokensAt(b, at) && after.last == at && WaitsForNext(after, at)
  {
    RefillIsFlow(b, at);
    assert TotalCost([w]) == w.cost by { assert [w][..0] == []; }
    var r := Refill(b, at).(queue := b.queue + [w]);
    assert b.queue + [w] == [w];
    DrainExactly(r, at);
    assert Refill(r, at).tokens == r.tokens;
  }

  /** After any calls that leave nothing waiting, and then `capacity / rate` without a call, any request that the bucket
      accepts is granted at once. */
  lemma IdleBucketServes(b: Bucket, calls: seq<Call>, w: Waiter, at: int)
    requires Valid(b) && Possible(b, calls) && Run(b, calls).0.queue == []
    requires 0 <= w.cost <= b.capacity && Run(b, calls).0.last <= at && (at - Run(b, calls).0.last) * b.rate >= b.capacity
    ensures Run(b, calls).0.rate > 0 && Take(Run(b, calls).0, w, at).1 == [w] && Take(Run(b, calls).0, w, at).0.tokens == b.capacity - w.cost
  {
    RunValid(b, calls);
    IdleGrantsExactly(Run(b, calls).0, w, at);
  }
}
