/** Fee, limit price, sizing and P&L arithmetic in integer units (app/src/core/pricing.ts).
    Prices are in units of $0.0001 (`bp`), counts in hundredths of a contract (`cc`), money in micro-dollars. */
module Pricing {
  import opened Arithmetic

  datatype Option<+T> = None | Some(value: T)

  const MAX_SAFE: int := 9_007_199_254_740_991

  /** The check every pricing function makes on its arguments: a non-negative safe integer. */
  predicate IsCount(v: int) {
    0 <= v <= MAX_SAFE
  }

  predicate IsSafe(v: int) { -MAX_SAFE <= v <= MAX_SAFE }

  function Min(a: int, b: int): int { if a <= b then a else b }

  function Max(a: int, b: int): int { if a >= b then a else b }

  // ---- fees ---------------------------------------------------------------------------------------------

  function CeilDiv(a: int, b: int): int
    requires b > 0
  {
    (a + b - 1) / b
  }

  function CostMicros(cc: int, bp: int): int { cc * bp }

  /** `bp * (10000 - bp)`, the part of the fee that depends on the price alone. */
  function Spread(bp: int): int { bp * (10_000 - bp) }

  function RawFee(cc: int, bp: int, milli: int): int {
    CeilDiv(7 * milli * cc * Spread(bp), 1_000_000_000)
  }

  /** The arguments for which `feeMicros` does not throw a RangeError. */
  predicate FeeInputOk(cc: int, bp: int, milli: int, prec: int) {
    IsCount(cc) && IsCount(bp) && IsCount(milli) && IsCount(prec) && bp <= 10_000 && prec != 0
  }

  function RoundUpTo(a: int, prec: int): int
    requires prec > 0
  {
    CeilDiv(a, prec) * prec
  }

  /** `None` stands for the RangeError. */
  function FeeMicros(cc: int, bp: int, milli: int, prec: int): Option<int> {
    if !FeeInputOk(cc, bp, milli, prec) then None
    else Some(RoundUpTo(CostMicros(cc, bp) + RawFee(cc, bp, milli), prec) - CostMicros(cc, bp))
  }

  /** `CeilDiv` is the least integer whose multiple of `b` reaches `a`. */
  lemma CeilDivLeast(a: int, b: int, k: int)
    requires b > 0
    ensures a <= CeilDiv(a, b) * b < a + b
    ensures a <= k * b ==> CeilDiv(a, b) <= k
  {
    DivMod(a + b - 1, b);
    if a <= k * b {
      MulCancel(CeilDiv(a, b), k, b);
    }
  }

  lemma RoundUpLeast(a: int, prec: int, m: int)
    requires prec > 0
    ensures a <= RoundUpTo(a, prec) < a + prec && RoundUpTo(a, prec) % prec == 0
    ensures a <= m && m % prec == 0 ==> RoundUpTo(a, prec) <= m
  {
    CeilDivLeast(a, prec, m / prec);
    ModOfMultiple(CeilDiv(a, prec), prec);
    DivMod(m, prec);
    if a <= m && m % prec == 0 {
      MulMonotone(CeilDiv(a, prec), m / prec, prec);
    }
  }

  lemma SpreadBound(bp: int)
    requires 0 <= bp <= 10_000
    ensures 0 <= Spread(bp) <= 25_000_000
  {
    var d := bp - 5_000;
    assert Spread(bp) == 25_000_000 - d * d;
    MulNonNegative(bp, 10_000 - bp);
  }

  lemma NumeratorMonotone(milli: int, c: int, c': int, p: int, p': int)
    requires 0 <= milli && 0 <= c <= c' && 0 <= p <= p'
    ensures 0 <= 7 * milli * c * p <= 7 * milli * c' * p'
  {
    var m := 7 * milli;
    MulNonNegative(m, c);
    MulNonNegative(m * c, p);
    assert m * c <= m * c' by { MulMonotone(c, c', m); }
    assert (m * c) * p <= (m * c) * p' by { MulMonotone(p, p', m * c); }
    MulMonotone(m * c, m * c', p');
  }

  lemma RawMonotone(c: int, c': int, bp: int, milli: int)
    requires 0 <= c <= c' && 0 <= bp <= 10_000 && 0 <= milli
    ensures 0 <= RawFee(c, bp, milli) <= RawFee(c', bp, milli)
  {
    SpreadBound(bp);
    NumeratorMonotone(milli, c, c', Spread(bp), Spread(bp));
  }

  /** The raw fee never exceeds the one at 50 cents, where `bp * (10000 - bp)` peaks. */
  lemma RawFeeBound(cc: int, bp: int, milli: int)
    requires 0 <= cc && 0 <= bp <= 10_000 && 0 <= milli
    ensures 0 <= RawFee(cc, bp, milli) <= CeilDiv(7 * milli * cc, 40)
    ensures RawFee(cc, 5_000, milli) == CeilDiv(7 * milli * cc, 40)
  {
    SpreadBound(bp);
    NumeratorMonotone(milli, cc, cc, Spread(bp), 25_000_000);
    RawMonotone(cc, cc, bp, milli);
    CeilDivScales(7 * milli * cc);
    assert Spread(5_000) == 25_000_000;
  }

  lemma CeilDivScales(a: int)
    ensures CeilDiv(a * 25_000_000, 1_000_000_000) == CeilDiv(a, 40)
  {
  }

  lemma RawSubadditive(c: int, d: int, bp: int, milli: int)
    requires 0 <= c && 0 <= d && 0 <= bp <= 10_000 && 0 <= milli
    ensures RawFee(c + d, bp, milli) <= RawFee(c, bp, milli) + RawFee(d, bp, milli)
  {
    var m, p := 7 * milli, Spread(bp);
    assert m * (c + d) == m * c + m * d;
    assert (m * c + m * d) * p == (m * c) * p + (m * d) * p;
  }

  /** `g` covers the raw fee and brings cost plus fee onto the balance grid. */
  ghost predicate OnBalanceGrid(cc: int, bp: int, milli: int, prec: int, g: int) {
    && prec > 0 && 1_000_000_000 * g >= 7 * milli * cc * bp * (10_000 - bp)
    && (cc * bp + g) % prec == 0
  }

  /** Covering the raw fee is covering the product it is rounded up from. */
  lemma CoversProduct(cc: int, bp: int, milli: int, g: int)
    ensures 1_000_000_000 * g >= 7 * milli * cc * bp * (10_000 - bp) <==> g >= RawFee(cc, bp, milli)
  {
    var product := 7 * milli * cc * Spread(bp);
    assert product == 7 * milli * cc * bp * (10_000 - bp);
    CeilDivLeast(product, 1_000_000_000, g);
  }

  /** The fee is the least amount that covers `7 * milli * cc * bp * (10000 - bp)` billionths and puts the debit on
      the balance grid; it exists exactly for well-formed arguments. */
  lemma FeeIsLeast(cc: int, bp: int, milli: int, prec: int)
    ensures FeeMicros(cc, bp, milli, prec).Some?
            <==> 0 <= cc <= MAX_SAFE && 0 <= bp <= 10_000 && 0 <= milli <= MAX_SAFE && 0 < prec <= MAX_SAFE
    ensures FeeInputOk(cc, bp, milli, prec) ==>
              var f := FeeMicros(cc, bp, milli, prec).value;
              && f >= 0 && OnBalanceGrid(cc, bp, milli, prec, f)
              && forall g :: OnBalanceGrid(cc, bp, milli, prec, g) ==> f <= g
  {
    if FeeInputOk(cc, bp, milli, prec) {
      var due := CostMicros(cc, bp) + RawFee(cc, bp, milli);
      FeeWithinStep(cc, bp, milli, prec);
      RoundUpLeast(due, prec, due);
      CoversProduct(cc, bp, milli, FeeMicros(cc, bp, milli, prec).value);
      forall g | OnBalanceGrid(cc, bp, milli, prec, g)
        ensures FeeMicros(cc, bp, milli, prec).value <= g
      {
        CoversProduct(cc, bp, milli, g);
        RoundUpLeast(due, prec, CostMicros(cc, bp) + g);
      }
    }
  }

  /** The fee is less than one grid step above the raw fee. */
  lemma FeeWithinStep(cc: int, bp: int, milli: int, prec: int)
    requires FeeInputOk(cc, bp, milli, prec)
    ensures 0 <= RawFee(cc, bp, milli) <= FeeMicros(cc, bp, milli, prec).value < RawFee(cc, bp, milli) + prec
  {
    var due := CostMicros(cc, bp) + RawFee(cc, bp, milli);
    RawMonotone(cc, cc, bp, milli);
    RoundUpLeast(due, prec, due);
  }

  /** What an order takes out of the balance. */
  function DebitMicros(cc: int, bp: int, milli: int, prec: int): Option<int> {
    var f := FeeMicros(cc, bp, milli, prec);
    if f.None? then None else Some(CostMicros(cc, bp) + f.value)
  }

  /** A larger order at the same price never debits less. */
  lemma DebitMonotone(c: int, c': int, bp: int, milli: int, prec: int)
    requires c <= c' && FeeInputOk(c, bp, milli, prec) && FeeInputOk(c', bp, milli, prec)
    ensures DebitMicros(c, bp, milli, prec).value <= DebitMicros(c', bp, milli, prec).value
  {
    RawMonotone(c, c', bp, milli);
    MulMonotone(c, c', bp);
    var due' := CostMicros(c', bp) + RawFee(c', bp, milli);
    RoundUpLeast(due', prec, due');
    RoundUpLeast(CostMicros(c, bp) + RawFee(c, bp, milli), prec, RoundUpTo(due', prec));
  }

  /** Splitting a fill at one price into two orders never lowers the total fee. */
  lemma SplitNeverCheaper(c: int, d: int, bp: int, milli: int, prec: int)
    requires FeeInputOk(c, bp, milli, prec) && FeeInputOk(d, bp, milli, prec) && FeeInputOk(c + d, bp, milli, prec)
    ensures FeeMicros(c + d, bp, milli, prec).value
            <= FeeMicros(c, bp, milli, prec).value + FeeMicros(d, bp, milli, prec).value
  {
    var dueC, dueD := CostMicros(c, bp) + RawFee(c, bp, milli), CostMicros(d, bp) + RawFee(d, bp, milli);
    RoundUpLeast(dueC, prec, dueC);
    RoundUpLeast(dueD, prec, dueD);
    RawSubadditive(c, d, bp, milli);
    assert CostMicros(c + d, bp) == CostMicros(c, bp) + CostMicros(d, bp);
    var both := RoundUpTo(dueC, prec) + RoundUpTo(dueD, prec);
    assert both % prec == 0 by {
      assert both == (CeilDiv(dueC, prec) + CeilDiv(dueD, prec)) * prec;
      ModOfMultiple(CeilDiv(dueC, prec) + CeilDiv(dueD, prec), prec);
    }
    RoundUpLeast(CostMicros(c + d, bp) + RawFee(c + d, bp, milli), prec, both);
  }

  // ---- the price grid -----------------------------------------------------------------------------------

  /** One `price_ranges` entry: `start, start + step, ...` up to `end`. */
  datatype PriceRange = PriceRange(start: int, end: int, step: int)

  const LINEAR_CENT: seq<PriceRange> := [PriceRange(100, 9_900, 100)]

  function Ranges(ranges: seq<PriceRange>): seq<PriceRange> {
    if |ranges| > 0 then ranges else LINEAR_CENT
  }

  /** Without price ranges the grid is the whole cents from 1 to 99. */
  lemma LinearCentGrid(p: int)
    ensures OnGrid(p, Ranges([])) <==> 100 <= p <= 9_900 && p % 100 == 0
  {
    assert OnGrid(p, LINEAR_CENT) <==> InRange(p, LINEAR_CENT[0]);
  }

  /** The price a range offers at or below `bp`; `None` when the loop skips the range. */
  function SnapInto(bp: int, r: PriceRange): Option<int> {
    if r.step <= 0 || bp < r.start then None
    else Some(r.start + (Min(bp, r.end) - r.start) / r.step * r.step)
  }

  function Better(best: Option<int>, found: Option<int>): Option<int> {
    if found.None? then best
    else if best.None? || found.value > best.value then found
    else best
  }

  function SnapDownOver(bp: int, ranges: seq<PriceRange>): Option<int> {
    if ranges == [] then None
    else Better(SnapDownOver(bp, ranges[..|ranges| - 1]), SnapInto(bp, ranges[|ranges| - 1]))
  }

  function SnapDownBp(bp: int, ranges: seq<PriceRange>): Option<int> {
    SnapDownOver(bp, Ranges(ranges))
  }

  method SnapDown(bp: int, priceRanges: seq<PriceRange>) returns (best: Option<int>)
    ensures best == SnapDownBp(bp, priceRanges)
  {
    var ranges := Ranges(priceRanges);
    best := None;
    var i := 0;
    while i < |ranges|
      invariant 0 <= i <= |ranges|
      invariant best == SnapDownOver(bp, ranges[..i])
    {
      var r := ranges[i];
      assert ranges[..i + 1][..i] == ranges[..i];
      if !(r.step <= 0 || bp < r.start) {
        var top := Min(bp, r.end);
        var snapped := r.start + (top - r.start) / r.step * r.step;
        if best.None? || snapped > best.value {
          best := Some(snapped);
        }
      }
      i := i + 1;
    }
    assert ranges[..|ranges|] == ranges;
  }

  /** `p` is `start + k * step` for some `k >= 0` and does not pass `end`. */
  ghost predicate InRange(p: int, r: PriceRange) {
    r.step > 0 && r.start <= p <= r.end && (p - r.start) % r.step == 0
  }

  ghost predicate OnGrid(p: int, ranges: seq<PriceRange>) {
    exists i :: 0 <= i < |ranges| && InRange(p, ranges[i])
  }

  predicate WellFormed(ranges: seq<PriceRange>) {
    forall i :: 0 <= i < |ranges| ==> ranges[i].step > 0 && ranges[i].start <= ranges[i].end
  }

  /** One well-formed range offers its greatest price at or below `bp`. */
  lemma SnapIntoGreatest(bp: int, r: PriceRange)
    requires r.step > 0 && r.start <= r.end
    ensures SnapInto(bp, r).Some? <==> r.start <= bp
    ensures SnapInto(bp, r).Some? ==> InRange(SnapInto(bp, r).value, r) && SnapInto(bp, r).value <= bp
    ensures forall p :: InRange(p, r) && p <= bp ==> SnapInto(bp, r).Some? && p <= SnapInto(bp, r).value
  {
    if r.start <= bp {
      var top := Min(bp, r.end);
      var k := (top - r.start) / r.step;
      var snapped := r.start + k * r.step;
      DivMod(top - r.start, r.step);
      ModOfMultiple(k, r.step);
      MulCancel(0, k, r.step);
      MulMonotone(0, k, r.step);
      assert InRange(snapped, r);
      forall p | InRange(p, r) && p <= bp
        ensures p <= snapped
      {
        var j := (p - r.start) / r.step;
        DivMod(p - r.start, r.step);
        MulCancel(j, k, r.step);
        MulMonotone(j, k, r.step);
      }
    }
  }

  lemma {:induction false} SnapOverGreatest(bp: int, ranges: seq<PriceRange>)
    requires WellFormed(ranges)
    ensures var best := SnapDownOver(bp, ranges);
            && (best.Some? ==> OnGrid(best.value, ranges) && best.value <= bp)
            && forall p :: OnGrid(p, ranges) && p <= bp ==> best.Some? && p <= best.value
  {
    if ranges != [] {
      var n := |ranges| - 1;
      SnapOverGreatest(bp, ranges[..n]);
      SnapIntoGreatest(bp, ranges[n]);
      var best := SnapDownOver(bp, ranges);
      if best.Some? {
        if best == SnapInto(bp, ranges[n]) {
          assert InRange(best.value, ranges[n]);
        } else {
          var i :| 0 <= i < n && InRange(best.value, ranges[..n][i]);
          assert InRange(best.value, ranges[i]);
        }
      }
      forall p | OnGrid(p, ranges) && p <= bp
        ensures best.Some? && p <= best.value
      {
        var i :| 0 <= i < |ranges| && InRange(p, ranges[i]);
        if i < n {
          assert InRange(p, ranges[..n][i]);
          assert OnGrid(p, ranges[..n]);
        }
      }
    }
  }

  /** For well-formed ranges the snap is the greatest price of the union of the grids at or below `bp`,
      and `None` exactly when there is none. */
  lemma SnapDownGreatest(bp: int, ranges: seq<PriceRange>)
    requires WellFormed(ranges)
    ensures var best := SnapDownBp(bp, ranges);
            && (best.None? <==> !exists p :: OnGrid(p, Ranges(ranges)) && p <= bp)
            && (best.Some? ==>
                  && OnGrid(best.value, Ranges(ranges)) && best.value <= bp
                  && forall p :: OnGrid(p, Ranges(ranges)) && p <= bp ==> p <= best.value)
  {
    assert WellFormed(Ranges(ranges));
    SnapOverGreatest(bp, Ranges(ranges));
  }

  /** The snap at `bp` is what it should be: the greatest price of the union of the grids at or below it, or none. */
  ghost predicate SnapRight(bp: int, ranges: seq<PriceRange>) {
    var best := SnapDownBp(bp, ranges);
    && (best.Some? ==> OnGrid(best.value, Ranges(ranges)) && best.value <= bp)
    && forall p :: OnGrid(p, Ranges(ranges)) && p <= bp ==> best.Some? && p <= best.value
  }

  predicate Inverted(r: PriceRange) { r.step > 0 && r.end < r.start }

  predicate Proper(r: PriceRange) { r.step > 0 && r.start <= r.end }

  /** What an inverted range offers to every bound that reaches its start: a price below its start, on no grid of
      its own. */
  function Invented(r: PriceRange): int
    requires Inverted(r)
  {
    SnapInto(r.start, r).value
  }

  /** Some proper range offers at least `v` at the bound. */
  predicate Outbid(bp: int, ranges: seq<PriceRange>, v: int) {
    exists j :: 0 <= j < |ranges| && Proper(ranges[j]) && SnapInto(bp, ranges[j]).Some? && v <= SnapInto(bp, ranges[j]).value
  }

  predicate OutbidAt(bp: int, ranges: seq<PriceRange>) {
    forall i :: 0 <= i < |ranges| && Inverted(ranges[i]) && ranges[i].start <= bp ==> Outbid(bp, ranges, Invented(ranges[i]))
  }

  /** The snap over a list is the greatest price that any of its ranges offers. */
  lemma {:induction false} SnapOverIsMax(bp: int, ranges: seq<PriceRange>)
    ensures var best := SnapDownOver(bp, ranges);
            && (best.Some? ==> exists i :: 0 <= i < |ranges| && SnapInto(bp, ranges[i]) == best)
            && forall i :: 0 <= i < |ranges| && SnapInto(bp, ranges[i]).Some? ==> best.Some? && SnapInto(bp, ranges[i]).value <= best.value
  {
    if ranges != [] {
      var n := |ranges| - 1;
      SnapOverIsMax(bp, ranges[..n]);
      var best := SnapDownOver(bp, ranges);
      if best.Some? && best != SnapInto(bp, ranges[n]) {
        var i :| 0 <= i < n && SnapInto(bp, ranges[..n][i]) == best;
        assert SnapInto(bp, ranges[i]) == best;
      }
      forall i | 0 <= i < |ranges| && SnapInto(bp, ranges[i]).Some?
        ensures best.Some? && SnapInto(bp, ranges[i]).value <= best.value
      {
        if i < n { assert SnapInto(bp, ranges[..n][i]).Some?; }
      }
    }
  }

  /** An inverted range offers the same price to every bound that reaches its start. */
  lemma InvertedOffer(bp: int, r: PriceRange)
    requires Inverted(r)
    ensures SnapInto(bp, r) == if bp < r.start then None else Some(Invented(r))
  {
  }

  lemma RightIsOutbid(bp: int, ranges: seq<PriceRange>, i: nat)
    requires ranges != [] && SnapRight(bp, ranges) && i < |ranges| && Inverted(ranges[i]) && ranges[i].start <= bp
    ensures Outbid(bp, ranges, Invented(ranges[i]))
  {
    InvertedOffer(bp, ranges[i]);
    SnapOverIsMax(bp, ranges);
    var best := SnapDownBp(bp, ranges).value;
    var j :| 0 <= j < |ranges| && InRange(best, ranges[j]);
    SnapIntoGreatest(bp, ranges[j]);
    assert Proper(ranges[j]) && SnapInto(bp, ranges[j]).Some?;
  }

  lemma OutbidIsRight(bp: int, ranges: seq<PriceRange>)
    requires ranges != [] && OutbidAt(bp, ranges)
    ensures SnapRight(bp, ranges)
  {
    SnapOverIsMax(bp, ranges);
    var best := SnapDownBp(bp, ranges);
    if best.Some? {
      var i :| 0 <= i < |ranges| && SnapInto(bp, ranges[i]) == best;
      if Proper(ranges[i]) {
        SnapIntoGreatest(bp, ranges[i]);
      } else {
        InvertedOffer(bp, ranges[i]);
        var j :| 0 <= j < |ranges| && Proper(ranges[j]) && SnapInto(bp, ranges[j]).Some? && best.value <= SnapInto(bp, ranges[j]).value;
        SnapIntoGreatest(bp, ranges[j]);
        assert InRange(best.value, ranges[j]);
      }
    }
    forall p | OnGrid(p, ranges) && p <= bp
      ensures best.Some? && p <= best.value
    {
      var j :| 0 <= j < |ranges| && InRange(p, ranges[j]);
      SnapIntoGreatest(bp, ranges[j]);
    }
  }

  /** For any list and any bound: the snap is right exactly when each inverted range that the bound reaches is
      outbid there by a proper one. */
  lemma SnapRightExactly(bp: int, ranges: seq<PriceRange>)
    ensures SnapRight(bp, ranges) <==> OutbidAt(bp, Ranges(ranges))
  {
    var all := Ranges(ranges);
    assert SnapRight(bp, ranges) <==> SnapRight(bp, all);
    if SnapRight(bp, all) {
      forall i | 0 <= i < |all| && Inverted(all[i]) && all[i].start <= bp
        ensures Outbid(bp, all, Invented(all[i]))
      {
        RightIsOutbid(bp, all, i);
      }
    }
    if OutbidAt(bp, all) { OutbidIsRight(bp, all); }
  }

  /** Every inverted range is outbid at its own start: a check of the list alone. */
  predicate Harmless(ranges: seq<PriceRange>) {
    forall i :: 0 <= i < |ranges| && Inverted(ranges[i]) ==> Outbid(ranges[i].start, ranges, Invented(ranges[i]))
  }

  /** For any list: the snap is right at every bound exactly when each inverted range is outbid at its start, that
      is, when a grid price lies between the price it invents and its start. */
  lemma SnapRightEverywhere(ranges: seq<PriceRange>)
    ensures (forall bp :: SnapRight(bp, ranges)) <==> Harmless(Ranges(ranges))
  {
    var all := Ranges(ranges);
    if forall bp :: SnapRight(bp, ranges) {
      forall i | 0 <= i < |all| && Inverted(all[i])
        ensures Outbid(all[i].start, all, Invented(all[i]))
      {
        assert SnapRight(all[i].start, ranges);
        SnapRightExactly(all[i].start, ranges);
      }
    }
    if Harmless(all) {
      forall bp
        ensures SnapRight(bp, ranges)
      {
        HarmlessIsOutbid(bp, all);
        SnapRightExactly(bp, ranges);
      }
    }
  }

  /** What outbids a range at its start outbids it at every bound above. */
  lemma HarmlessIsOutbid(bp: int, ranges: seq<PriceRange>)
    requires Harmless(ranges)
    ensures OutbidAt(bp, ranges)
  {
    forall i | 0 <= i < |ranges| && Inverted(ranges[i]) && ranges[i].start <= bp
      ensures Outbid(bp, ranges, Invented(ranges[i]))
    {
      var v, start := Invented(ranges[i]), ranges[i].start;
      var j :| 0 <= j < |ranges| && Proper(ranges[j]) && SnapInto(start, ranges[j]).Some? && v <= SnapInto(start, ranges[j]).value;
      SnapIntoGreatest(start, ranges[j]);
      SnapIntoGreatest(bp, ranges[j]);
      assert SnapInto(bp, ranges[j]).Some?;
    }
  }

  /** The condition in terms of the grid: some grid price lies between the invented price and the range's start. */
  lemma OutbidIsGridPrice(bp: int, ranges: seq<PriceRange>, v: int)
    ensures Outbid(bp, ranges, v) <==> exists p :: OnGrid(p, ranges) && v <= p <= bp
  {
    if Outbid(bp, ranges, v) {
      var j :| 0 <= j < |ranges| && Proper(ranges[j]) && SnapInto(bp, ranges[j]).Some? && v <= SnapInto(bp, ranges[j]).value;
      SnapIntoGreatest(bp, ranges[j]);
      assert OnGrid(SnapInto(bp, ranges[j]).value, ranges);
    }
    if p :| OnGrid(p, ranges) && v <= p <= bp {
      var j :| 0 <= j < |ranges| && InRange(p, ranges[j]);
      SnapIntoGreatest(bp, ranges[j]);
      assert Proper(ranges[j]) && SnapInto(bp, ranges[j]).Some?;
    }
  }

  /** Every price offered is at or below the bound, whatever the ranges. */
  lemma {:induction false} SnapWithin(bp: int, ranges: seq<PriceRange>)
    ensures SnapDownOver(bp, ranges).Some? ==> SnapDownOver(bp, ranges).value <= bp
  {
    if ranges != [] {
      var n := |ranges| - 1;
      SnapWithin(bp, ranges[..n]);
      SnapIntoWithin(bp, ranges[n]);
    }
  }

  lemma SnapIntoWithin(bp: int, r: PriceRange)
    ensures SnapInto(bp, r).Some? ==> SnapInto(bp, r).value <= bp
  {
    if r.step > 0 { DivMod(Min(bp, r.end) - r.start, r.step); }
  }

  /** `None` stands for the RangeError of a negative or unsafe argument. */
  function LimitPriceBp(askBp: int, maxSlippageBp: int, maxPriceBp: int, ranges: seq<PriceRange>): Option<Option<int>> {
    if !(IsCount(askBp) && IsCount(maxSlippageBp) && IsCount(maxPriceBp)) then None
    else Some(SnapDownBp(Min(askBp + maxSlippageBp, maxPriceBp), ranges))
  }

  // ---- sizing -------------------------------------------------------------------------------------------

  /** `floor(stake / (limit * 100))`; `None` stands for the RangeError. */
  function ContractsFor(stake: int, limitBp: int): Option<int> {
    if !IsCount(stake) || !(0 < limitBp <= MAX_SAFE) then None
    else Some(stake / (limitBp * 100))
  }

  /** The most whole contracts the stake pays for at the limit price. */
  lemma ContractsAreMost(stake: int, limitBp: int, k: int)
    requires IsCount(stake) && 0 < limitBp <= MAX_SAFE
    ensures k <= ContractsFor(stake, limitBp).value <==> CostMicros(k * 100, limitBp) <= stake
    ensures ContractsFor(stake, limitBp).value >= 0
  {
    var unit := limitBp * 100;
    var n := stake / unit;
    DivMod(stake, unit);
    assert CostMicros(k * 100, limitBp) == k * unit;
    if k <= n {
      MulMonotone(k, n, unit);
    }
    if k * unit <= stake {
      MulCancel(k, n, unit);
    }
    MulCancel(0, n, unit);
  }

  /** BigInt division truncates toward zero. */
  function TruncDiv(a: int, b: int): int
    requires b > 0
  {
    if a >= 0 then a / b else -((-a) / b)
  }

  /** The arguments for which `stakeMicros` does not throw a RangeError. */
  predicate StakeInputOk(balance: int, percentCenti: int, minStake: int, maxStake: int) {
    IsSafe(balance) && IsSafe(percentCenti) && IsSafe(minStake) && IsSafe(maxStake)
  }

  function StakeMicros(balance: int, percentCenti: int, minStake: int, maxStake: int): int {
    if balance <= 0 then 0
    else Min(Max(TruncDiv(balance * percentCenti, 10_000), minStake), maxStake)
  }

  /** At most 100 % of a positive balance: the stake stays within the balance exactly when one of the two
      clamps does. (A balance below both clamps is overdrawn by the minimum stake.) */
  lemma StakeWithinBalance(balance: int, percentCenti: int, minStake: int, maxStake: int)
    requires 0 < balance && 0 <= percentCenti <= 10_000
    ensures StakeMicros(balance, percentCenti, minStake, maxStake) <= balance
            <==> minStake <= balance || maxStake <= balance
    ensures StakeMicros(balance, percentCenti, minStake, maxStake) <= maxStake
  {
    MulMonotone(percentCenti, 10_000, balance);
    MulNonNegative(balance, percentCenti);
  }

  /** The stake is the percentage of a positive balance, rounded down, moved into the clamps (the upper one wins if
      they cross); nothing is staked from a balance that is not positive. */
  lemma StakeIsPercent(balance: int, percentCenti: int, minStake: int, maxStake: int)
    requires 0 <= percentCenti
    ensures var stake := StakeMicros(balance, percentCenti, minStake, maxStake);
            if balance <= 0 then stake == 0
            else
              && stake <= maxStake
              && (stake < maxStake ==> minStake <= stake && balance * percentCenti < (stake + 1) * 10_000)
              && (minStake < stake ==> stake * 10_000 <= balance * percentCenti)
  {
    if balance > 0 { MulNonNegative(balance, percentCenti); }
    DivMod(balance * percentCenti, 10_000);
  }

  /** Division truncates toward zero. */
  lemma TruncDivMeaning(a: int, b: int)
    requires b > 0
    ensures var q := TruncDiv(a, b);
            if a >= 0 then q * b <= a < q * b + b else q * b - b < a <= q * b
  {
    DivMod(if a >= 0 then a else -a, b);
  }

  // ---- settlement ---------------------------------------------------------------------------------------

  function PayoutMicros(fillCc: int, valueBp: int): int { fillCc * valueBp }

  function RealizedPnlMicros(fillCc: int, avgBp: int, fee: int, payout: int): int {
    payout - CostMicros(fillCc, avgBp) - fee
  }
}
