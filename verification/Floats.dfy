/** The finite numbers of IEEE 754's binary64, as reals, and what it means to round to one. */
module Floats {
  import opened Options

  // x times two to the e.
  function Binary(x: real, e: int): real
    decreases if e < 0 then -e else e
  {
    if e == 0 then x else if e > 0 then 2.0 * Binary(x, e - 1) else Binary(x, e + 1) / 2.0
  }

  const MAX_EXACT: int := 0x20_0000_0000_0000

  ghost predicate Significand(x: real, m: int, e: int) {
    -MAX_EXACT < m < MAX_EXACT && -1074 <= e <= 971 && x == Binary(m as real, e)
  }

  ghost predicate IsFloat(x: real) { exists m: int, e: int :: Significand(x, m, e) }

  function Zero(): (x: real)
    ensures IsFloat(x)
  {
    assert Significand(0.0, 0, 0);
    0.0
  }

  // -0 is 0, as in both languages' comparisons.
  type Float = x: real | IsFloat(x) witness Zero()

  function Distance(q: real, x: real): real { if x < q then q - x else x - q }

  ghost predicate Nearest(q: real, x: real) {
    IsFloat(x) && forall y | IsFloat(y) :: Distance(q, x) <= Distance(q, y)
  }

  ghost predicate BeyondFloats(q: real) { forall y | IsFloat(y) :: Distance(0.0, y) < Distance(0.0, q) }

  /** A way of rounding to the nearest float, whatever it does in the middle between two; only what
      exceeds every float may have no result. */
  ghost predicate Rounds(nearest: real -> Option<Float>) {
    forall q :: match nearest(q) case Some(x) => Nearest(q, x) case None => BeyondFloats(q)
  }

  predicate IsWhole(x: real) { x == x.Floor as real }

  // ----- Which integers are floats -----

  lemma SmallIntegers(n: int)
    requires -MAX_EXACT <= n <= MAX_EXACT
    ensures IsFloat(n as real)
  {
    if -MAX_EXACT < n < MAX_EXACT {
      assert Significand(n as real, n, 0);
    } else {
      var m := n / 2;
      assert Binary(m as real, 1) == 2.0 * Binary(m as real, 0);
      assert Significand(n as real, m, 1);
    }
  }

  lemma {:induction false} BinaryNegated(x: real, e: int)
    ensures Binary(-x, e) == -Binary(x, e)
    decreases if e < 0 then -e else e
  {
    if e > 0 { BinaryNegated(x, e - 1); } else if e < 0 { BinaryNegated(x, e + 1); }
  }

  lemma FloatNegated(x: real)
    requires IsFloat(x)
    ensures IsFloat(-x)
  {
    var m, e :| Significand(x, m, e);
    BinaryNegated(m as real, e);
    assert Significand(-x, -m, e);
  }

  lemma BinaryFour(x: real, e: int)
    requires e >= 0
    ensures Binary(x, e + 4) == 16.0 * Binary(x, e)
  {
    assert Binary(x, e + 1) == 2.0 * Binary(x, e) && Binary(x, e + 2) == 2.0 * Binary(x, e + 1);
    assert Binary(x, e + 3) == 2.0 * Binary(x, e + 2) && Binary(x, e + 4) == 2.0 * Binary(x, e + 3);
  }

  const MIN_INT64: int := -0x8000_0000_0000_0000
  const MAX_INT64: int := 0x7fff_ffff_ffff_ffff
  const TEN_16: int := 10_000_000_000_000_000

  lemma LargePowers()
    ensures IsFloat(MIN_INT64 as real) && IsFloat((MAX_INT64 + 1) as real) && IsFloat(TEN_16 as real)
  {
    var x := 0x8_0000_0000_0000 as real;
    assert Binary(x, 0) == x;
    BinaryFour(x, 0);
    BinaryFour(x, 4);
    BinaryFour(x, 8);
    assert Significand((MAX_INT64 + 1) as real, 0x8_0000_0000_0000, 12);
    FloatNegated((MAX_INT64 + 1) as real);
    var y := 625_000_000_000_000 as real;
    assert Binary(y, 0) == y;
    BinaryFour(y, 0);
    assert Significand(TEN_16 as real, 625_000_000_000_000, 4);
  }

  function Doubled(m: int, e: nat): int { if e == 0 then m else 2 * Doubled(m, e - 1) }

  lemma {:induction false} BinaryWhole(m: int, e: nat)
    ensures Binary(m as real, e) == Doubled(m, e) as real
  {
    if e > 0 { BinaryWhole(m, e - 1); }
  }

  // A smaller exponent makes a smaller number.
  lemma {:induction false} BinaryAtMost(x: real, e: int, k: nat)
    ensures Distance(0.0, Binary(x, e)) <= Distance(0.0, Binary(x, e + k))
  {
    if k > 0 {
      BinaryAtMost(x, e, k - 1);
      assert Binary(x, e + k) == 2.0 * Binary(x, e + k - 1);
    }
  }

  /** From 2^53 on every float is an integer. */
  lemma LargeFloatsWhole(x: real)
    requires IsFloat(x) && Distance(0.0, x) >= MAX_EXACT as real
    ensures IsWhole(x)
  {
    var m, e :| Significand(x, m, e);
    if e <= 0 {
      BinaryAtMost(m as real, e, -e);
      assert false;
    } else {
      BinaryWhole(m, e);
    }
  }

  lemma WholeOrSmall(x: real)
    requires IsFloat(x)
    ensures IsWhole(x) || -MAX_EXACT as real < x < MAX_EXACT as real
  {
    if Distance(0.0, x) >= MAX_EXACT as real { LargeFloatsWhole(x); }
  }

  // ----- Rounding -----

  lemma FloatsAreExact(q: real, nearest: real -> Option<Float>)
    requires Rounds(nearest) && IsFloat(q)
    ensures nearest(q) == Some(q)
  {
    if nearest(q).Some? {
      assert Distance(q, nearest(q).value) <= Distance(q, q);
    }
  }

  /** Rounding does not cross a float. */
  lemma RoundingBounds(q: real, x: real, t: real)
    requires Nearest(q, x) && IsFloat(t) && t >= 0.0
    ensures Distance(0.0, q) <= t ==> Distance(0.0, x) <= t
    ensures Distance(0.0, q) >= t ==> Distance(0.0, x) >= t
  {
    FloatNegated(t);
    assert Distance(q, x) <= Distance(q, t) && Distance(q, x) <= Distance(q, -t);
  }

  // The floats below 2^63 are multiples of 1024 there.
  lemma BelowMax(y: real)
    requires IsFloat(y) && (MAX_INT64 / 2) as real < y < (MAX_INT64 + 1) as real
    ensures y <= (MAX_INT64 - 1023) as real
  {
    var m, e :| Significand(y, m, e);
    if e <= 9 {
      BinaryAtMost(m as real, e, 9 - e);
      SmallBinary(m);
      assert false;
    } else {
      BinaryWhole(m, e);
      Multiple(m, e - 10);
    }
  }

  lemma SmallBinary(m: int)
    requires -MAX_EXACT < m < MAX_EXACT
    ensures Distance(0.0, Binary(m as real, 9)) <= (MAX_INT64 / 2) as real
  {
    var x := m as real;
    BinaryFour(x, 0);
    BinaryFour(x, 4);
    assert Binary(x, 9) == 2.0 * Binary(x, 8);
  }

  lemma Doubled5(m: int, k: nat)
    ensures Doubled(m, k + 5) == 32 * Doubled(m, k)
  {
    assert Doubled(m, k + 2) == 2 * Doubled(m, k + 1) && Doubled(m, k + 3) == 2 * Doubled(m, k + 2);
    assert Doubled(m, k + 4) == 2 * Doubled(m, k + 3);
  }

  lemma Multiple(m: int, k: nat)
    ensures Doubled(m, k + 10) == 1024 * Doubled(m, k)
  {
    Doubled5(m, k);
    Doubled5(m, k + 5);
  }

  /** The largest 64-bit integer is rounded up to 2^63. */
  lemma MaxRoundsUp(nearest: real -> Option<Float>)
    requires Rounds(nearest)
    ensures IsFloat((MAX_INT64 + 1) as real) && nearest(MAX_INT64 as real) == Some((MAX_INT64 + 1) as real)
  {
    LargePowers();
    var q, t := MAX_INT64 as real, (MAX_INT64 + 1) as real;
    if nearest(q).Some? {
      var x: real := nearest(q).value;
      assert Distance(q, x) <= Distance(q, t);
      if (MAX_INT64 / 2) as real < x < t { BelowMax(x); }
    }
  }
}
