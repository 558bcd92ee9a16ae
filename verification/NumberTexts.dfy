/** The number texts of both printers: each reads back as its float (`GoNumberRead`, `PyNumberRead`), and
    they are the same text in exactly the cases of `IntPortable` and `FloatPortable`. */
module NumberTexts {
  import opened Options
  import opened JsonSyntax
  import opened Numerals
  import opened Decimals
  import opened Floats
  import opened CanonicalJson

  // ----- Reading back -----

  lemma GoNumberRead(x: Float, lib: Lib)
    requires Faithful(lib)
    ensures var t := Text(GoNumber(x, lib)); Literal(t) && lib.nearest(LiteralValue(t)) == Some(x)
  {
    IntText(Int64Of(x, lib));
    LayoutValue(lib.shortest(x), 6);
    SplitText(GoNumber(x, lib));
  }

  lemma PointZero(p: Parts)
    requires PartsOk(p) && p.exponent == "" && p.fraction == ""
    ensures PartsOk(p.(fraction := "0")) && PartsValue(p.(fraction := "0")) == PartsValue(p)
  {
    ZeroBehind(p.whole);
    assert p.whole + "" == p.whole;
    var v: int := DigitsValue(p.whole);
    assert Shift((10 * v) as real, -1) == Shift((10 * v) as real, 0) / 10.0;
  }

  lemma PyNumberRead(x: Float, lib: Lib)
    requires Faithful(lib)
    ensures PartsOk(PyNumber(x, lib))
    ensures var t := Text(PyNumber(x, lib)); Literal(t) && lib.nearest(LiteralValue(t)) == Some(x)
  {
    var p := Layout(lib.shortest(x), 16);
    LayoutValue(lib.shortest(x), 16);
    if p.exponent == "" && p.fraction == "" { PointZero(p); }
    SplitText(PyNumber(x, lib));
  }

  // ----- The branch of the agent's printer -----

  predicate InInt64(n: int) { MIN_INT64 <= n <= MAX_INT64 }

  // The agent prints the float like an integer.
  predicate PrintedAsInteger(x: real, lib: Lib) {
    || (IsWhole(x) && MIN_INT64 as real <= x <= MAX_INT64 as real)
    || (lib.saturates && x == (MAX_INT64 + 1) as real)
  }

  lemma WholeConverted(x: real, n: int, lib: Lib)
    requires x == n as real && InInt64(n)
    ensures Int64Of(x, lib) == n
  {
    assert (-x).Floor == -n && x.Floor == n;
  }

  lemma ConversionInRange(x: Float, lib: Lib)
    requires Faithful(lib) && MIN_INT64 as real <= x <= MAX_INT64 as real
    ensures lib.nearest(Int64Of(x, lib) as real) == Some(x) <==> IsWhole(x)
  {
    if IsWhole(x) {
      WholeConverted(x, x.Floor, lib);
      FloatsAreExact(x, lib.nearest);
    } else {
      FractionConverted(x, lib);
    }
  }

  // A float with a fraction is small, so the integer below it is a float of its own.
  lemma FractionConverted(x: Float, lib: Lib)
    requires Faithful(lib) && !IsWhole(x)
    ensures lib.nearest(Int64Of(x, lib) as real) != Some(x)
  {
    var k := Int64Of(x, lib);
    WholeOrSmall(x);
    SmallIntegers(k);
    FloatsAreExact(k as real, lib.nearest);
  }

  lemma ConversionOutOfRange(x: Float, lib: Lib)
    requires Faithful(lib) && !(MIN_INT64 as real <= x <= MAX_INT64 as real)
    ensures lib.nearest(Int64Of(x, lib) as real) == Some(x) <==> lib.saturates && x == (MAX_INT64 + 1) as real
  {
    LargePowers();
    WholeOrSmall(x);
    FloatsAreExact(MIN_INT64 as real, lib.nearest);
    MaxRoundsUp(lib.nearest);
  }

  /** The test x == float64(int64(x)) succeeds for the integers of 64 bits, and for 2^63 where the
      conversion saturates. */
  lemma IntegerBranch(x: Float, lib: Lib)
    requires Faithful(lib)
    ensures lib.nearest(Int64Of(x, lib) as real) == Some(x) <==> PrintedAsInteger(x, lib)
  {
    if MIN_INT64 as real <= x <= MAX_INT64 as real {
      ConversionInRange(x, lib);
    } else {
      ConversionOutOfRange(x, lib);
    }
  }

  // ----- Where the texts agree -----

  // Integers: an exact float of 64 bits, or the largest one where that is what 2^63 saturates to.
  ghost predicate IntPortable(n: int, lib: Lib) {
    (InInt64(n) && IsFloat(n as real)) || (lib.saturates && n == MAX_INT64)
  }

  // Floats: below a million with a fraction, or integers that the agent does not print as such.
  predicate FloatPortable(x: real, lib: Lib) {
    if IsWhole(x) then !PrintedAsInteger(x, lib) else -1_000_000.0 < x < 1_000_000.0
  }

  // A decimal without a fraction below a million is an integer that is printed as such.
  lemma NoPointWhole(x: Float, lib: Lib)
    requires Faithful(lib)
    ensures var d := lib.shortest(x); d.exp < 6 && NoPoint(d) && d.exp >= 0 ==> PrintedAsInteger(x, lib)
  {
    var d := lib.shortest(x);
    if d.exp < 6 && NoPoint(d) && d.exp >= 0 {
      var n := SmallWhole(d);
      SmallIntegers(n);
      FloatsAreExact(n as real, lib.nearest);
    }
  }

  lemma SmallWhole(d: Decimal) returns (n: int)
    requires 0 <= d.exp < 6 && NoPoint(d)
    ensures Value(d) == n as real && -1_000_000 <= n <= 1_000_000
  {
    var k: int := DigitsValue(Fixed(d).whole);
    n := if d.negative then -k else k;
    FixedWhole(d);
    DecimalBounds(d);
    TenMonotone(d.exp + 1, 6 - (d.exp + 1));
    Millions();
  }

  // The exponent tells the magnitude, as far as the float t = 10^k does.
  lemma ExponentMagnitude(x: Float, k: nat, lib: Lib)
    requires Faithful(lib) && k > 0 && IsFloat(Ten(k)) && Ten(k) > 0.0
    ensures lib.shortest(x).exp < k ==> -Ten(k) <= x <= Ten(k)
    ensures lib.shortest(x).exp >= k ==> x <= -Ten(k) || Ten(k) <= x
  {
    var d := lib.shortest(x);
    DecimalBounds(d);
    assert Nearest(Value(d), x);
    RoundingBounds(Value(d), x, Ten(k));
    if d.exp < k {
      TenMonotone(d.exp + 1, k - (d.exp + 1));
    } else {
      TenMonotone(k, d.exp - k);
    }
  }

  lemma Millions()
    ensures Ten(6) == 1_000_000.0 && Ten(16) == TEN_16 as real && IsFloat(Ten(6)) && IsFloat(Ten(16))
  {
    assert Ten(3) == 1000.0;
    ShiftAdd(1.0, 3, 3);
    SmallIntegers(1_000_000);
    LargePowers();
  }

  // The two layouts of the same digits.
  lemma LayoutsAgree(x: Float, lib: Lib)
    requires Faithful(lib) && !PrintedAsInteger(x, lib)
    ensures FormatG(x, lib) == PyNumber(x, lib) <==> !(6 <= lib.shortest(x).exp < 16)
  {
    var d := lib.shortest(x);
    LayoutValue(d, 6);
    LayoutValue(d, 16);
    FixedValue(d);
    NoPointWhole(x, lib);
  }

  // Python never prints a float like an integer.
  lemma PyNumberMarked(x: Float, n: int, lib: Lib)
    ensures PyNumber(x, lib) != IntParts(n)
  {
  }

  /** The two sides print a float alike exactly when it is portable. */
  lemma FloatAgrees(x: Float, lib: Lib)
    requires Faithful(lib)
    ensures GoNumber(x, lib) == PyNumber(x, lib) <==> FloatPortable(x, lib)
  {
    IntegerBranch(x, lib);
    PyNumberMarked(x, Int64Of(x, lib), lib);
    if !PrintedAsInteger(x, lib) {
      LayoutsAgree(x, lib);
      Millions();
      ExponentMagnitude(x, 6, lib);
      ExponentMagnitude(x, 16, lib);
      WholeOrSmall(x);
    }
  }

  lemma FloatTextsAgree(x: Float, lib: Lib)
    requires Faithful(lib)
    ensures Text(GoNumber(x, lib)) == Text(PyNumber(x, lib)) <==> FloatPortable(x, lib)
  {
    FloatAgrees(x, lib);
    IntText(Int64Of(x, lib));
    LayoutValue(lib.shortest(x), 6);
    PyNumberRead(x, lib);
    SplitText(GoNumber(x, lib));
    SplitText(PyNumber(x, lib));
  }

  // Only an integer text of the agent can be that of an integer.
  lemma GoIntegerText(x: Float, n: int, lib: Lib)
    requires Faithful(lib)
    ensures Text(GoNumber(x, lib)) == ShowInt(n) <==> PrintedAsInteger(x, lib) && Int64Of(x, lib) == n
  {
    IntegerBranch(x, lib);
    IntText(n);
    IntText(Int64Of(x, lib));
    if !PrintedAsInteger(x, lib) {
      LayoutValue(lib.shortest(x), 6);
      FixedValue(lib.shortest(x));
      SplitText(FormatG(x, lib));
      NoPointWhole(x, lib);
    }
  }

  lemma Converted(x: Float, n: int, lib: Lib)
    ensures PrintedAsInteger(x, lib) && Int64Of(x, lib) == n ==> IntPortable(n, lib)
  {
    if IsWhole(x) && MIN_INT64 as real <= x <= MAX_INT64 as real {
      WholeConverted(x, x.Floor, lib);
      assert IsFloat(x);
    }
  }

  lemma MaxConverted(x: real, lib: Lib)
    requires lib.saturates && x == (MAX_INT64 + 1) as real
    ensures Int64Of(x, lib) == MAX_INT64
  {
    assert x.Floor == MAX_INT64 + 1;
  }

  /** The agent prints the float it reads for an integer as the console has, exactly for the portable
      integers. */
  lemma IntAgrees(n: int, lib: Lib)
    requires Faithful(lib)
    ensures Text(GoNumber(Rounded(n as real, lib), lib)) == ShowInt(n) <==> IntPortable(n, lib)
  {
    var x := Rounded(n as real, lib);
    GoIntegerText(x, n, lib);
    Converted(x, n, lib);
    if IsFloat(n as real) && InInt64(n) {
      FloatsAreExact(n as real, lib.nearest);
      WholeConverted(x, n, lib);
    } else if lib.saturates && n == MAX_INT64 {
      MaxRoundsUp(lib.nearest);
      MaxConverted(x, lib);
    }
  }

  lemma ReadAndPrinted(x: Float, n: int, lib: Lib)
    requires Faithful(lib)
    ensures IntPortable(n, lib) && Rounded(n as real, lib) == x <==> PrintedAsInteger(x, lib) && Int64Of(x, lib) == n
  {
    IntAgrees(n, lib);
    GoIntegerText(x, n, lib);
    Converted(x, n, lib);
    IntegerBranch(x, lib);
  }
}
