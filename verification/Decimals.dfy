/** Decimal number texts: the parts they consist of, the real number they denote, and the two ways in
    which the digits of a float are laid out (strconv's %e and %f, and Python's repr). */
module Decimals {
  import opened JsonSyntax
  import opened Numerals

  // ----- Powers of ten -----

  // x times ten to the e: the decimal point moves by e places.
  function Shift(x: real, e: int): real
    decreases if e < 0 then -e else e
  {
    if e == 0 then x else if e > 0 then 10.0 * Shift(x, e - 1) else Shift(x, e + 1) / 10.0
  }

  function Ten(e: int): real { Shift(1.0, e) }

  lemma ShiftStep(x: real, e: int)
    ensures Shift(x, e + 1) == 10.0 * Shift(x, e)
  {
  }

  lemma {:induction false} ShiftAdd(x: real, e: int, k: nat)
    ensures Shift(Shift(x, k), e) == Shift(x, e + k)
    decreases if e < 0 then -e else e
  {
    if e > 0 {
      ShiftAdd(x, e - 1, k);
    } else if e < 0 {
      ShiftAdd(x, e + 1, k);
      ShiftStep(x, e + k);
    }
  }

  lemma {:induction false} ShiftLess(x: real, y: real, e: int)
    requires x < y
    ensures Shift(x, e) < Shift(y, e)
    decreases if e < 0 then -e else e
  {
    if e > 0 { ShiftLess(x, y, e - 1); } else if e < 0 { ShiftLess(x, y, e + 1); }
  }

  lemma {:induction false} ShiftZero(e: int)
    ensures Shift(0.0, e) == 0.0
    decreases if e < 0 then -e else e
  {
    if e > 0 { ShiftZero(e - 1); } else if e < 0 { ShiftZero(e + 1); }
  }

  lemma {:induction false} TenMonotone(e: int, k: nat)
    ensures 0.0 < Ten(e) <= Ten(e + k)
  {
    ShiftLess(0.0, 1.0, e);
    ShiftZero(e);
    if k > 0 {
      TenMonotone(e, k - 1);
      ShiftStep(1.0, e + k - 1);
    }
  }

  // ----- Strings of digits -----

  predicate AllDigits(s: string) { forall i | 0 <= i < |s| :: IsDigit(s[i]) }

  function DigitsValue(ds: string): nat
    requires AllDigits(ds)
  {
    if ds == "" then 0 else 10 * DigitsValue(ds[..|ds| - 1]) + DigitValue(ds[|ds| - 1])
  }

  function Zeros(k: nat): (z: string)
    ensures |z| == k && AllDigits(z)
  {
    seq(k, i => '0')
  }

  lemma {:induction false} DecimalValue(n: nat)
    ensures AllDigits(DecimalDigits(n)) && DigitsValue(DecimalDigits(n)) == n
  {
    DecimalShape(n);
    var ds := DecimalDigits(n);
    if n >= 10 {
      DecimalValue(n / 10);
      assert ds[..|ds| - 1] == DecimalDigits(n / 10);
    } else {
      assert ds[..|ds| - 1] == "";
    }
  }

  lemma {:induction false} ZerosInFront(k: nat, ds: string)
    requires AllDigits(ds)
    ensures AllDigits(Zeros(k) + ds) && DigitsValue(Zeros(k) + ds) == DigitsValue(ds)
    decreases |ds|, k
  {
    var t := Zeros(k) + ds;
    if ds != "" {
      ZerosInFront(k, ds[..|ds| - 1]);
      assert t[..|t| - 1] == Zeros(k) + ds[..|ds| - 1];
    } else if k > 0 {
      ZerosInFront(k - 1, "");
      assert t[..|t| - 1] == Zeros(k - 1) + "";
    }
  }

  lemma ZeroBehind(ds: string)
    requires AllDigits(ds)
    ensures AllDigits(ds + "0") && DigitsValue(ds + "0") == 10 * DigitsValue(ds)
  {
    var t := ds + "0";
    assert t[..|t| - 1] == ds;
  }

  lemma {:induction false} ZerosBehind(ds: string, k: nat)
    requires AllDigits(ds)
    ensures AllDigits(ds + Zeros(k))
    ensures DigitsValue(ds + Zeros(k)) as real == Shift(DigitsValue(ds) as real, k)
  {
    if k == 0 {
      assert ds + Zeros(0) == ds;
    } else {
      ZerosBehind(ds, k - 1);
      ZeroBehind(ds + Zeros(k - 1));
      assert ds + Zeros(k) == ds + Zeros(k - 1) + "0";
    }
  }

  lemma {:induction false} DigitsBelow(ds: string)
    requires AllDigits(ds)
    ensures DigitsValue(ds) as real <= Ten(|ds|) - 1.0
  {
    if ds != "" { DigitsBelow(ds[..|ds| - 1]); }
  }

  lemma {:induction false} DigitsAbove(ds: string)
    requires ds != "" && AllDigits(ds) && ds[0] != '0'
    ensures DigitsValue(ds) as real >= Ten(|ds| - 1)
  {
    if |ds| > 1 {
      DigitsAbove(ds[..|ds| - 1]);
    } else {
      assert ds[..|ds| - 1] == "";
    }
  }

  // ----- The parts of a number text -----

  datatype Parts = Parts(negative: bool, whole: string, fraction: string, exponent: string)

  predicate PartsOk(p: Parts) {
    && p.whole != "" && AllDigits(p.whole) && (p.whole[0] == '0' ==> |p.whole| == 1)
    && AllDigits(p.fraction) && ExponentOk(p.exponent)
  }

  function Unsigned(p: Parts): string { p.whole + Tail(p) }

  function Tail(p: Parts): string { (if p.fraction == "" then "" else "." + p.fraction) + p.exponent }

  function Text(p: Parts): string { if p.negative then "-" + Unsigned(p) else Unsigned(p) }

  // The parts of a text of RFC 8259.
  function Split(s: string): (p: Parts)
    requires Literal(s)
    ensures PartsOk(p)
  {
    var u := if s[0] == '-' then s[1..] else s;
    var n := DigitLen(u);
    var (fraction, exponent) := SplitTail(u[n..]);
    Parts(s[0] == '-', u[..n], fraction, exponent)
  }

  // The digits after the point, and the exponent.
  function SplitTail(v: string): (r: (string, string))
    requires FractionOk(v)
    ensures AllDigits(r.0) && ExponentOk(r.1)
  {
    if v != "" && v[0] == '.' then (v[1..][..DigitLen(v[1..])], v[1..][DigitLen(v[1..])..]) else ("", v)
  }

  lemma {:induction false} DigitLenAppend(ds: string, rest: string)
    requires AllDigits(ds) && (rest != "" ==> !IsDigit(rest[0]))
    ensures DigitLen(ds + rest) == |ds|
  {
    if ds == "" {
      assert ds + rest == rest;
    } else {
      assert (ds + rest)[1..] == ds[1..] + rest;
      DigitLenAppend(ds[1..], rest);
    }
  }

  lemma ExponentChars(w: string)
    requires ExponentOk(w)
    ensures forall i | 0 <= i < |w| :: IsNumChar(w[i])
  {
    if w != "" {
      var x := if |w| > 1 && (w[1] == '+' || w[1] == '-') then w[2..] else w[1..];
      var k := |w| - |x|;
      forall i | k <= i < |w| ensures IsNumChar(w[i]) { assert w[i] == x[i - k]; }
    }
  }

  // What follows the digits before the point.
  lemma TailParts(p: Parts)
    requires PartsOk(p)
    ensures var v := Tail(p);
      && FractionOk(v) && (v != "" ==> !IsDigit(v[0])) && (forall i | 0 <= i < |v| :: IsNumChar(v[i]))
      && (p.fraction == "" ==> v == p.exponent && (v != "" ==> v[0] != '.'))
      && (p.fraction != "" ==>
            v[0] == '.' && DigitLen(v[1..]) == |p.fraction| && v[1..] == p.fraction + p.exponent)
  {
    ExponentChars(p.exponent);
    if p.fraction == "" {
      assert Tail(p) == p.exponent;
    } else {
      var v := Tail(p);
      DigitLenAppend(p.fraction, p.exponent);
      assert v[1..] == p.fraction + p.exponent;
      assert v[1..][|p.fraction|..] == p.exponent;
      assert forall i | 1 <= i < |v| :: v[i] == v[1..][i - 1];
    }
  }

  lemma UnsignedParts(p: Parts)
    requires PartsOk(p)
    ensures var u := Unsigned(p);
      && UnsignedOk(u) && DigitLen(u) == |p.whole| && u[..|p.whole|] == p.whole && u[|p.whole|..] == Tail(p)
      && (forall i | 0 <= i < |u| :: IsNumChar(u[i])) && IsDigit(u[0])
  {
    TailParts(p);
    DigitLenAppend(p.whole, Tail(p));
  }

  /** The parts can be read off the text. */
  lemma SplitText(p: Parts)
    requires PartsOk(p)
    ensures Literal(Text(p)) && Split(Text(p)) == p
  {
    UnsignedParts(p);
    TailParts(p);
    if p.negative {
      assert Text(p)[1..] == Unsigned(p);
    }
    assert (p.fraction + p.exponent)[..|p.fraction|] == p.fraction;
    assert (p.fraction + p.exponent)[|p.fraction|..] == p.exponent;
  }

  // ----- What a text denotes -----

  function ExponentValue(w: string): int
    requires ExponentOk(w)
  {
    if w == "" then 0
    else if w[1] == '-' then -(DigitsValue(w[2..]) as int)
    else if w[1] == '+' then DigitsValue(w[2..])
    else DigitsValue(w[1..])
  }

  function Signed(negative: bool, x: real): real { if negative then -x else x }

  // The digits of n, the last of them at the place of 10^e.
  function Placed(negative: bool, n: nat, e: int): real { Signed(negative, Shift(n as real, e)) }

  function PartsValue(p: Parts): real
    requires PartsOk(p)
  {
    Placed(p.negative, DigitsValue(p.whole + p.fraction), ExponentValue(p.exponent) - |p.fraction|)
  }

  function LiteralValue(s: string): real
    requires Literal(s)
  {
    PartsValue(Split(s))
  }

  // ----- Integers -----

  function IntParts(n: int): Parts { Parts(n < 0, DecimalDigits(if n < 0 then -n else n), "", "") }

  lemma IntText(n: int)
    ensures ShowInt(n) == Text(IntParts(n)) && PartsOk(IntParts(n))
    ensures Literal(ShowInt(n)) && Split(ShowInt(n)) == IntParts(n) && LiteralValue(ShowInt(n)) == n as real
  {
    var k: nat := if n < 0 then -n else n;
    var p := IntParts(n);
    DecimalShape(k);
    DecimalValue(k);
    assert p.whole + "" == DecimalDigits(k);
    SplitText(p);
  }

  // ----- Digits and a decimal point -----

  // The number d.ddd times ten to the exp.
  datatype Digits = Digits(negative: bool, digits: string, exp: int)

  predicate DigitsOk(d: Digits) {
    && d.digits != "" && AllDigits(d.digits)
    && (d.digits[0] == '0' ==> d == Digits(false, "0", 0))
  }

  type Decimal = d: Digits | DigitsOk(d) witness Digits(false, "0", 0)

  function Value(d: Decimal): real
  {
    Placed(d.negative, DigitsValue(d.digits), d.exp - (|d.digits| - 1))
  }

  // At least two digits.
  function ExponentText(e: int): string {
    var k := if e < 0 then -e else e;
    (if e < 0 then "e-" else "e+") + (if k < 10 then "0" + DecimalDigits(k) else DecimalDigits(k))
  }

  function Scientific(d: Decimal): Parts
  {
    Parts(d.negative, d.digits[..1], d.digits[1..], ExponentText(d.exp))
  }

  predicate NoPoint(d: Decimal) { |d.digits| <= d.exp + 1 }

  function Fixed(d: Decimal): Parts
  {
    if d.exp < 0 then Parts(d.negative, "0", Zeros(-d.exp - 1) + d.digits, "")
    else if NoPoint(d) then Parts(d.negative, d.digits + Zeros(d.exp + 1 - |d.digits|), "", "")
    else Parts(d.negative, d.digits[..d.exp + 1], d.digits[d.exp + 1..], "")
  }

  // Scientific from 10^limit on, and for very small numbers.
  function Layout(d: Decimal, limit: int): Parts {
    if d.exp < -4 || d.exp >= limit then Scientific(d) else Fixed(d)
  }

  lemma ExponentRead(e: int)
    ensures var w := ExponentText(e); ExponentOk(w) && w != "" && ExponentValue(w) == e
  {
    var k: nat := if e < 0 then -e else e;
    var ds := DecimalDigits(k);
    DecimalShape(k);
    DecimalValue(k);
    ZerosInFront(1, ds);
    assert Zeros(1) == "0";
    var xs := if k < 10 then "0" + ds else ds;
    AllDigitsLen(xs);
    assert ExponentText(e)[2..] == xs && ExponentText(e)[1..][1..] == xs;
  }

  lemma ScientificOk(d: Decimal)
    ensures PartsOk(Scientific(d)) && Scientific(d).exponent != "" && ExponentValue(Scientific(d).exponent) == d.exp
  {
    ExponentRead(d.exp);
  }

  lemma ScientificValue(d: Decimal)
    ensures PartsOk(Scientific(d)) && Scientific(d).exponent != "" && PartsValue(Scientific(d)) == Value(d)
  {
    var p := Scientific(d);
    ScientificOk(d);
    assert p.whole + p.fraction == d.digits;
    SameValue(p, d);
  }

  // The same digits at the same place.
  lemma SameValue(p: Parts, d: Decimal)
    requires PartsOk(p) && p.negative == d.negative
    requires DigitsValue(p.whole + p.fraction) == DigitsValue(d.digits)
    requires ExponentValue(p.exponent) - |p.fraction| == d.exp - (|d.digits| - 1)
    ensures PartsValue(p) == Value(d)
  {
  }

  lemma FixedSmall(d: Decimal)
    requires d.exp < 0
    ensures PartsOk(Fixed(d)) && PartsValue(Fixed(d)) == Value(d)
  {
    var p := Fixed(d);
    ZerosInFront(-d.exp, d.digits);
    assert p.whole + p.fraction == Zeros(-d.exp) + d.digits;
    SameValue(p, d);
  }

  lemma FixedWhole(d: Decimal)
    requires d.exp >= 0 && NoPoint(d)
    ensures PartsOk(Fixed(d)) && PartsValue(Fixed(d)) == Value(d)
    ensures Value(d) == Signed(d.negative, DigitsValue(Fixed(d).whole) as real)
  {
    var p, k: nat := Fixed(d), d.exp + 1 - |d.digits|;
    ZerosBehind(d.digits, k);
    assert p.whole == d.digits + Zeros(k) && p.whole + p.fraction == p.whole;
    assert d.exp - (|d.digits| - 1) == k;
  }

  lemma FixedValue(d: Decimal)
    ensures PartsOk(Fixed(d)) && Fixed(d).exponent == "" && PartsValue(Fixed(d)) == Value(d)
    ensures Fixed(d).fraction == "" <==> NoPoint(d)
  {
    if d.exp < 0 {
      FixedSmall(d);
    } else if NoPoint(d) {
      FixedWhole(d);
    } else {
      assert d.digits[..d.exp + 1] + d.digits[d.exp + 1..] == d.digits;
      SameValue(Fixed(d), d);
    }
  }

  lemma LayoutValue(d: Decimal, limit: int)
    ensures PartsOk(Layout(d, limit)) && PartsValue(Layout(d, limit)) == Value(d)
    ensures Layout(d, limit).exponent != "" <==> d.exp < -4 || d.exp >= limit
  {
    ScientificValue(d);
    FixedValue(d);
  }

  /** A decimal lies between the powers of ten that its exponent names. */
  lemma DecimalBounds(d: Decimal)
    ensures -Ten(d.exp + 1) < Value(d) < Ten(d.exp + 1)
    ensures d.digits[0] != '0' ==> Value(d) <= -Ten(d.exp) || Ten(d.exp) <= Value(d)
  {
    var n, e, x := |d.digits|, d.exp - (|d.digits| - 1), DigitsValue(d.digits) as real;
    DigitsBelow(d.digits);
    ShiftLess(-1.0, x, e);
    ShiftLess(x, Ten(n), e);
    ShiftAdd(1.0, e, n);
    ShiftZero(e);
    ShiftLess(-1.0, 0.0, e);
    assert e + n == d.exp + 1;
    if x > 0.0 { ShiftLess(0.0, x, e); }
    if d.digits[0] != '0' {
      DigitsAbove(d.digits);
      ShiftAdd(1.0, e, n - 1);
      assert e + (n - 1) == d.exp;
      if Ten(n - 1) < x { ShiftLess(Ten(n - 1), x, e); }
    }
  }
}
