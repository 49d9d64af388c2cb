/** Exact conversions between decimal strings and integer units (app/src/core/decimal.ts). */
module Decimal {
  import opened Arithmetic
  import opened Pricing

  // ---- digits -------------------------------------------------------------------------------------------

  predicate IsDigit(c: char) { '0' <= c <= '9' }

  predicate AllDigits(s: string) { forall i :: 0 <= i < |s| ==> IsDigit(s[i]) }

  function DigitValue(c: char): nat
    requires IsDigit(c)
  {
    (c - '0') as nat
  }

  /** The number a string of digits denotes. */
  function Value(s: string): nat
    requires AllDigits(s)
  {
    if s == [] then 0 else Value(s[..|s| - 1]) * 10 + DigitValue(s[|s| - 1])
  }

  function Pow10(k: nat): (p: nat)
    ensures p > 0
  {
    if k == 0 then 1 else 10 * Pow10(k - 1)
  }

  function Zeros(k: nat): (z: string)
    ensures |z| == k && AllDigits(z)
  {
    if k == 0 then "" else Zeros(k - 1) + "0"
  }

  function Digits(n: nat): (s: string)
    ensures AllDigits(s) && s != []
  {
    if n < 10 then [('0' as int + n) as char] else Digits(n / 10) + [('0' as int + n % 10) as char]
  }

  lemma {:induction false} ConcatValue(a: string, b: string)
    requires AllDigits(a) && AllDigits(b)
    ensures AllDigits(a + b) && Value(a + b) == Value(a) * Pow10(|b|) + Value(b)
    decreases |b|
  {
    if b == [] {
      assert a + b == a;
    } else {
      var n := |b| - 1;
      assert (a + b)[..|a + b| - 1] == a + b[..n];
      ConcatValue(a, b[..n]);
      Tenfold(Value(a), Pow10(n), Value(b[..n]), DigitValue(b[n]));
    }
  }

  lemma Tenfold(a: int, p: int, b: int, d: int)
    ensures (a * p + b) * 10 + d == a * (10 * p) + (b * 10 + d)
  {
  }

  lemma {:induction false} ZerosValue(k: nat)
    ensures Value(Zeros(k)) == 0
  {
    if k > 0 {
      ZerosValue(k - 1);
      assert Zeros(k)[..k - 1] == Zeros(k - 1);
    }
  }

  lemma {:induction false} DigitsValue(n: nat)
    ensures Value(Digits(n)) == n
  {
    if n >= 10 {
      DigitsValue(n / 10);
      ConcatValue(Digits(n / 10), [('0' as int + n % 10) as char]);
    }
    assert [('0' as int + n % 10) as char][..0] == [];
  }

  // ---- the grammar --------------------------------------------------------------------------------------

  datatype Parts = Parts(negative: bool, whole: string, frac: string)

  /** An optional minus sign, digits, and optionally a point and digits. */
  function Written(p: Parts): string {
    (if p.negative then "-" else "") + p.whole + if p.frac == "" then "" else "." + p.frac
  }

  predicate IsParts(p: Parts) { p.whole != "" && AllDigits(p.whole) && AllDigits(p.frac) }

  /** The length of the leading run of digits. */
  function Run(s: string): nat
    ensures Run(s) <= |s| && AllDigits(s[..Run(s)]) && (Run(s) < |s| ==> !IsDigit(s[Run(s)]))
  {
    if s == [] || !IsDigit(s[0]) then 0 else 1 + Run(s[1..])
  }

  function Split(negative: bool, body: string): Option<Parts> {
    var n := Run(body);
    var rest := body[n..];
    if n == 0 then None
    else if rest == [] then Some(Parts(negative, body[..n], ""))
    else if rest[0] == '.' && |rest| > 1 && Run(rest[1..]) == |rest| - 1 then Some(Parts(negative, body[..n], rest[1..]))
    else None
  }

  /** The regular expression `^(-)?(\d+)(?:\.(\d+))?$`. */
  function Match(s: string): Option<Parts> {
    if s != [] && s[0] == '-' then Split(true, s[1..]) else Split(false, s)
  }

  lemma {:induction false} RunOf(digits: string, rest: string)
    requires AllDigits(digits) && (rest == [] || !IsDigit(rest[0]))
    ensures Run(digits + rest) == |digits|
  {
    if digits == [] {
      assert digits + rest == rest;
    } else {
      assert (digits + rest)[1..] == digits[1..] + rest;
      RunOf(digits[1..], rest);
    }
  }

  function Body(p: Parts): string { p.whole + if p.frac == "" then "" else "." + p.frac }

  lemma BodySplits(p: Parts)
    requires IsParts(p)
    ensures Split(p.negative, Body(p)) == Some(p)
  {
    var rest := if p.frac == "" then "" else "." + p.frac;
    RunOf(p.whole, rest);
    var s := Body(p);
    assert s[..|p.whole|] == p.whole && s[|p.whole|..] == rest;
    if p.frac != "" {
      assert rest[1..] == p.frac;
      RunOf(p.frac, "");
      assert p.frac + "" == p.frac;
    }
  }

  lemma WrittenBody(p: Parts)
    ensures Written(p) == if p.negative then "-" + Body(p) else Body(p)
  {
  }

  lemma BodyStarts(p: Parts)
    requires IsParts(p)
    ensures Body(p) != [] && IsDigit(Body(p)[0])
  {
    assert Body(p)[0] == p.whole[0];
  }

  /** What is written is matched, part by part. */
  lemma WrittenMatches(p: Parts)
    requires IsParts(p)
    ensures Match(Written(p)) == Some(p)
  {
    BodySplits(p);
    WrittenBody(p);
    BodyStarts(p);
    if p.negative {
      assert ("-" + Body(p))[1..] == Body(p);
    }
  }

  lemma SplitIsBody(negative: bool, body: string)
    ensures var m := Split(negative, body); m.Some? ==> IsParts(m.value) && m.value.negative == negative && Body(m.value) == body
  {
    var n := Run(body);
    var rest := body[n..];
    assert body == body[..n] + rest;
    if rest != [] {
      assert rest == [rest[0]] + rest[1..];
      assert rest[1..][..|rest| - 1] == rest[1..];
    }
  }

  /** Only what is written in this form is matched. */
  lemma MatchedIsWritten(s: string)
    ensures Match(s).Some? ==> IsParts(Match(s).value) && Written(Match(s).value) == s
  {
    if s != [] && s[0] == '-' {
      SplitIsBody(true, s[1..]);
      assert s == "-" + s[1..];
    } else {
      SplitIsBody(false, s);
    }
    if Match(s).Some? {
      WrittenBody(Match(s).value);
    }
  }

  // ---- parsing ------------------------------------------------------------------------------------------

  function StripZeros(s: string): string {
    if s != [] && s[|s| - 1] == '0' then StripZeros(s[..|s| - 1]) else s
  }

  datatype Parsed = Exactly(value: int) | NotDecimal | TooPrecise | OutOfRange

  function Signed(negative: bool, n: int): int { if negative then -n else n }

  lemma {:induction false} StripIs(s: string)
    requires AllDigits(s)
    ensures var t := StripZeros(s); |t| <= |s| && AllDigits(t) && s == t + Zeros(|s| - |t|)
  {
    if s != [] && s[|s| - 1] == '0' {
      var n := |s| - 1;
      StripIs(s[..n]);
      var t := StripZeros(s[..n]);
      OneMoreZero(t, n - |t|);
      assert s == s[..n] + "0";
    } else {
      assert s + Zeros(0) == s;
    }
  }

  lemma OneMoreZero(t: string, k: nat)
    ensures (t + Zeros(k)) + "0" == t + Zeros(k + 1)
  {
  }

  /** No digit but zeros from position `k` on. */
  predicate ZerosFrom(s: string, k: nat) { forall i :: k <= i < |s| ==> s[i] == '0' }

  lemma {:induction false} StripExact(s: string, k: nat)
    ensures |StripZeros(s)| <= k <==> ZerosFrom(s, k)
  {
    if s != [] && s[|s| - 1] == '0' {
      var n := |s| - 1;
      StripExact(s[..n], k);
      assert ZerosFrom(s[..n], k) <==> ZerosFrom(s, k) by {
        if ZerosFrom(s, k) {
          assert forall i :: k <= i < n ==> s[..n][i] == s[i];
        }
        if ZerosFrom(s[..n], k) {
          assert forall i :: k <= i < n ==> s[i] == s[..n][i];
        }
      }
    }
  }

  /** The digits without the trailing zeros of the fraction, padded to the scale. */
  function UnitsOf(p: Parts, scale: nat): nat
    requires IsParts(p) && |StripZeros(p.frac)| <= scale
  {
    var frac := StripZeros(p.frac);
    StripIs(p.frac);
    PaddedWhole(p.whole, frac, scale - |frac|);
    Value(p.whole + (frac + Zeros(scale - |frac|)))
  }

  function ParseScaled(input: string, scale: nat): Parsed {
    var m := Match(input);
    if m.None? then NotDecimal
    else
      MatchedIsWritten(input);
      if |StripZeros(m.value.frac)| > scale then TooPrecise
      else
        var v := Signed(m.value.negative, UnitsOf(m.value, scale));
        if IsSafe(v) then Exactly(v) else OutOfRange
  }

  /** `v` units of `10^-scale` are exactly the number that the parts denote. */
  predicate Denotes(p: Parts, scale: nat, v: int)
    requires IsParts(p)
  {
    v * Pow10(|p.frac|) == Signed(p.negative, Value(p.whole + p.frac)) * Pow10(scale)
  }

  lemma {:induction false} Pow10Sum(a: nat, b: nat)
    ensures Pow10(a + b) == Pow10(a) * Pow10(b)
  {
    if a > 0 {
      Pow10Sum(a - 1, b);
      TimesTen(Pow10(a - 1), Pow10(b));
      assert a - 1 + b == a + b - 1;
    }
  }

  lemma TimesTen(x: int, y: int)
    ensures 10 * (x * y) == (10 * x) * y
  {
  }

  /** Padding with zeros scales the value. */
  lemma PaddedValue(digits: string, k: nat)
    requires AllDigits(digits)
    ensures AllDigits(digits + Zeros(k)) && Value(digits + Zeros(k)) == Value(digits) * Pow10(k)
  {
    ConcatValue(digits, Zeros(k));
    ZerosValue(k);
  }

  lemma DigitsConcat(a: string, b: string)
    requires AllDigits(a) && AllDigits(b)
    ensures AllDigits(a + b)
  {
  }

  lemma Associate(a: string, b: string, c: string)
    ensures a + (b + c) == (a + b) + c
  {
  }

  lemma PaddedWhole(whole: string, frac: string, k: nat)
    requires AllDigits(whole) && AllDigits(frac)
    ensures AllDigits(whole + frac) && AllDigits(whole + (frac + Zeros(k)))
    ensures Value(whole + (frac + Zeros(k))) == Value(whole + frac) * Pow10(k)
  {
    DigitsConcat(whole, frac);
    Associate(whole, frac, Zeros(k));
    PaddedValue(whole + frac, k);
  }

  /** Padding with `k` or with `n` zeros stands for the same number. */
  lemma SameNumber(whole: string, frac: string, k: nat, n: nat)
    requires AllDigits(whole) && AllDigits(frac)
    ensures AllDigits(whole + (frac + Zeros(k))) && AllDigits(whole + (frac + Zeros(n)))
    ensures Value(whole + (frac + Zeros(k))) * Pow10(|frac| + n) == Value(whole + (frac + Zeros(n))) * Pow10(|frac| + k)
  {
    PaddedWhole(whole, frac, k);
    PaddedWhole(whole, frac, n);
    Pow10Sum(|frac|, n);
    Pow10Sum(|frac|, k);
    Swap(Value(whole + frac), Pow10(k), Pow10(|frac|), Pow10(n));
  }

  lemma Swap(v: int, k: int, f: int, n: int)
    ensures (v * k) * (f * n) == (v * n) * (f * k)
  {
    assert (v * k) * (f * n) == ((v * k) * f) * n;
    assert ((v * k) * f) * n == ((v * f) * k) * n;
    assert ((v * f) * k) * n == ((v * f) * n) * k;
    assert ((v * f) * n) * k == ((v * n) * f) * k;
    assert ((v * n) * f) * k == (v * n) * (f * k);
  }

  /** Parsing is exact: a string is accepted exactly when it is well formed, has no non-zero digit beyond the
      scale, and what it denotes is a safe integer of units, and the result is that integer. */
  lemma ParsedIsExact(input: string, scale: nat)
    ensures ParseScaled(input, scale) == NotDecimal <==> !exists p :: IsParts(p) && Written(p) == input
    ensures Match(input).Some? ==>
              var p := Match(input).value;
              && IsParts(p) && Written(p) == input
              && (ParseScaled(input, scale).TooPrecise? <==> !ZerosFrom(p.frac, scale))
              && (forall v :: ParseScaled(input, scale) == Exactly(v) <==> ZerosFrom(p.frac, scale) && IsSafe(v) && Denotes(p, scale, v))
  {
    if p :| IsParts(p) && Written(p) == input { WrittenMatches(p); }
    MatchedIsWritten(input);
    if Match(input).Some? {
      ExactValue(input, scale);
    }
  }

  lemma ExactValue(input: string, scale: nat)
    requires Match(input).Some? && IsParts(Match(input).value)
    ensures var p := Match(input).value;
            && (ParseScaled(input, scale).TooPrecise? <==> !ZerosFrom(p.frac, scale))
            && (forall v :: ParseScaled(input, scale) == Exactly(v) <==> ZerosFrom(p.frac, scale) && IsSafe(v) && Denotes(p, scale, v))
  {
    var p := Match(input).value;
    StripExact(p.frac, scale);
    if ZerosFrom(p.frac, scale) {
      var n := UnitsOf(p, scale);
      UnitsDenote(p, scale);
      forall v | Denotes(p, scale, v)
        ensures v == Signed(p.negative, n)
      {
        OneValue(p, scale, v, Signed(p.negative, n));
      }
    }
  }

  lemma UnitsDenote(p: Parts, scale: nat)
    requires IsParts(p) && |StripZeros(p.frac)| <= scale
    ensures Denotes(p, scale, Signed(p.negative, UnitsOf(p, scale)))
  {
    StripIs(p.frac);
    var frac := StripZeros(p.frac);
    SameNumber(p.whole, frac, scale - |frac|, |p.frac| - |frac|);
    SignedProduct(p.negative, UnitsOf(p, scale), Pow10(|p.frac|), Value(p.whole + p.frac), Pow10(scale));
  }

  lemma SignedProduct(negative: bool, a: int, x: int, b: int, y: int)
    requires a * x == b * y
    ensures Signed(negative, a) * x == Signed(negative, b) * y
  {
    assert (-a) * x == -(a * x) && (-b) * y == -(b * y);
  }

  lemma OneValue(p: Parts, scale: nat, v: int, w: int)
    requires IsParts(p) && Denotes(p, scale, v) && Denotes(p, scale, w)
    ensures v == w
  {
    MulCancel(v, w, Pow10(|p.frac|));
    MulCancel(w, v, Pow10(|p.frac|));
  }

  // ---- formatting ---------------------------------------------------------------------------------------

  function PadStart(s: string, width: nat): string { if |s| >= width then s else Zeros(width - |s|) + s }

  function Magnitude(v: int): nat { if v < 0 then -v else v }

  /** `None` stands for the error of an unsafe integer. */
  function FormatScaled(v: int, scale: nat): Option<string> {
    if !IsSafe(v) then None
    else
      var digits := PadStart(Digits(Magnitude(v)), scale + 1);
      var cut := |digits| - scale;
      Some((if v < 0 then "-" else "") + digits[..cut] + if scale > 0 then "." + digits[cut..] else "")
  }

  lemma PadStartIs(n: nat, width: nat)
    ensures var s := PadStart(Digits(n), width); |s| >= width && AllDigits(s) && Value(s) == n
  {
    DigitsValue(n);
    PadValue(Digits(n), width);
  }

  lemma PadValue(d: string, width: nat)
    requires AllDigits(d)
    ensures AllDigits(PadStart(d, width)) && Value(PadStart(d, width)) == Value(d) && |PadStart(d, width)| >= width
  {
    if |d| < width {
      ConcatValue(Zeros(width - |d|), d);
      ZerosValue(width - |d|);
    }
  }

  /** The padded digits, cut at the point. */
  function PartsOf(v: int, scale: nat): (p: Parts)
    ensures IsParts(p) && |p.frac| == scale && AllDigits(p.whole + p.frac) && Signed(p.negative, Value(p.whole + p.frac)) == v
  {
    PadStartIs(Magnitude(v), scale + 1);
    var digits := PadStart(Digits(Magnitude(v)), scale + 1);
    var cut := |digits| - scale;
    assert digits == digits[..cut] + digits[cut..];
    Parts(v < 0, digits[..cut], digits[cut..])
  }

  lemma FormattedIsWritten(v: int, scale: nat)
    requires IsSafe(v)
    ensures FormatScaled(v, scale) == Some(Written(PartsOf(v, scale)))
  {
  }

  lemma {:induction false} DigitsLead(n: nat)
    ensures |Digits(n)| > 1 ==> Digits(n)[0] != '0'
    ensures n >= 10 <==> |Digits(n)| > 1
    ensures n < 10 ==> Digits(n) == [('0' as int + n) as char]
  {
    if n >= 10 {
      DigitsLead(n / 10);
    }
  }

  /** The text has a minus sign exactly for a negative integer, exactly `scale` decimals, and no zero in front that it
      does not need. */
  lemma FormatShape(v: int, scale: nat)
    requires IsSafe(v)
    ensures var p := PartsOf(v, scale);
            && FormatScaled(v, scale) == Some(Written(p)) && IsParts(p)
            && (p.negative <==> v < 0) && |p.frac| == scale && (|p.whole| > 1 ==> p.whole[0] != '0')
  {
    FormattedIsWritten(v, scale);
    PadStartIs(Magnitude(v), scale + 1);
    DigitsLead(Magnitude(v));
  }

  /** What is formatted reads back as the same integer, for every scale and every safe integer. */
  lemma FormattedIsParsed(v: int, scale: nat)
    ensures IsSafe(v) ==> FormatScaled(v, scale).Some? && ParseScaled(FormatScaled(v, scale).value, scale) == Exactly(v)
  {
    if IsSafe(v) {
      var p := PartsOf(v, scale);
      FormattedIsWritten(v, scale);
      WrittenMatches(p);
      ExactValue(Written(p), scale);
      assert Denotes(p, scale, v);
    }
  }

  /** Two integers never have the same text. */
  lemma FormatIsInjective(v: int, w: int, scale: nat)
    requires IsSafe(v) && IsSafe(w) && FormatScaled(v, scale) == FormatScaled(w, scale)
    ensures v == w
  {
    FormattedIsParsed(v, scale);
    FormattedIsParsed(w, scale);
  }
}
