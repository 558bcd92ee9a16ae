/** Integers in decimal, as strconv.AppendInt and Python's int write them. */
module Numerals {
  import opened JsonSyntax

  function DigitChar(n: nat): char
    requires n < 16
  {
    if n < 10 then ('0' as int + n) as char else ('a' as int + n - 10) as char
  }

  function DecimalDigits(n: nat): string {
    if n < 10 then [DigitChar(n)] else DecimalDigits(n / 10) + [DigitChar(n % 10)]
  }

  // strconv.AppendInt and int.__repr__
  function ShowInt(n: int): string { if n < 0 then "-" + DecimalDigits(-n) else DecimalDigits(n) }

  lemma {:induction false} DecimalShape(n: nat)
    ensures var ds := DecimalDigits(n);
      ds != "" && (forall i | 0 <= i < |ds| :: IsDigit(ds[i])) && (ds[0] == '0' ==> n == 0 && |ds| == 1)
  {
    if n >= 10 { DecimalShape(n / 10); }
  }

  lemma {:induction false} AllDigitsLen(ds: string)
    requires forall i | 0 <= i < |ds| :: IsDigit(ds[i])
    ensures DigitLen(ds) == |ds|
  {
    if ds != "" { AllDigitsLen(ds[1..]); }
  }

  lemma DigitsUnsigned(n: nat)
    ensures UnsignedOk(DecimalDigits(n))
  {
    var ds := DecimalDigits(n);
    DecimalShape(n);
    AllDigitsLen(ds);
    assert ds[|ds|..] == "";
  }

  lemma IntLiteral(n: int)
    ensures Literal(ShowInt(n))
  {
    var k: nat := if n < 0 then -n else n;
    DecimalShape(k);
    DigitsUnsigned(k);
    if n < 0 { assert ShowInt(n)[1..] == DecimalDigits(k); }
  }
}
