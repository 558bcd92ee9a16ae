/** The agent's version comparator (agent/internal/scan/matcher.go).

    A version is split into an epoch, an upstream part and a revision; a part is a list of tokens,
    each a run of non-digits and a run of digits. The two-cursor loop of the source is shown to
    compute the padded order of the token lists, and that order is shown to be a total preorder
    on all strings. A Go string is a list of bytes; here every byte is the character of that code. */
module VersionOrder {
  import opened PaddedOrder

  // ----- Characters and numbers -----

  const NUL: char := 0 as char

  function CharOrder(c: char): int {
    if c == NUL then 0 else if c == '~' then -1 else c as int
  }

  function SignOf(d: int): Sign { if d < 0 then -1 else if d > 0 then 1 else 0 }

  function CharSign(x: char, y: char): Sign { SignOf(CharOrder(x) - CharOrder(y)) }

  predicate IsDigit(c: char) { '0' <= c <= '9' }

  const MAX_INT: int := 0x7fff_ffff_ffff_ffff
  const MAX_UINT: int := 0xffff_ffff_ffff_ffff

  // strconv.ParseUint, left to right: it stops at the first bad character, or before that at the
  // first digit that takes the value out of range.
  datatype Scan = Value(n: nat) | Syntax | Range

  function ScanUint(s: string, n: nat): Scan {
    if s == "" then Value(n)
    else if !IsDigit(s[0]) then Syntax
    else
      var m := 10 * n + (s[0] as int - '0' as int);
      if m > MAX_UINT then Range else ScanUint(s[1..], m)
  }

  // strconv.Atoi with its error ignored: 0 for bad syntax, the nearest int64 when out of range.
  function Atoi(s: string): int {
    var neg := s != "" && s[0] == '-';
    var u := if s != "" && (s[0] == '-' || s[0] == '+') then s[1..] else s;
    if u == "" then 0
    else
      match ScanUint(u, 0)
      case Syntax => 0
      case Range => if neg then -MAX_INT - 1 else MAX_INT
      case Value(n) =>
        if neg then if n > MAX_INT + 1 then -MAX_INT - 1 else -(n as int)
        else if n > MAX_INT then MAX_INT else n
  }

  // ----- Tokens -----

  // The runs at the front of a text, each as long as it can be.
  function RunLen(s: string): (n: nat)
    ensures n <= |s| && (forall i | 0 <= i < n :: !IsDigit(s[i])) && (n < |s| ==> IsDigit(s[n]))
  {
    if s != "" && !IsDigit(s[0]) then 1 + RunLen(s[1..]) else 0
  }

  function DigitLen(s: string): (n: nat)
    ensures n <= |s| && (forall i | 0 <= i < n :: IsDigit(s[i])) && (n < |s| ==> !IsDigit(s[n]))
  {
    if s != "" && IsDigit(s[0]) then 1 + DigitLen(s[1..]) else 0
  }

  datatype Token = Token(run: string, digits: string)

  const EMPTY: Token := Token("", "")

  function Head(s: string): Token {
    var n, u := RunLen(s), s[RunLen(s)..];
    Token(s[..n], u[..DigitLen(u)])
  }

  function Rest(s: string): (r: string)
    ensures s != "" ==> |r| < |s|
  {
    var u := s[RunLen(s)..];
    assert RunLen(s) == 0 ==> u == s;
    u[DigitLen(u)..]
  }

  function Tokens(s: string): seq<Token> {
    if s == "" then [] else [Head(s)] + Tokens(Rest(s))
  }

  function RunSign(a: string, b: string): Sign { Compare(a, b, NUL, CharSign) }

  function TokenSign(t: Token, u: Token): Sign {
    var c := RunSign(t.run, u.run);
    if c != 0 then c else SignOf(Atoi(t.digits) - Atoi(u.digits))
  }

  function PartSign(a: string, b: string): Sign { Compare(Tokens(a), Tokens(b), EMPTY, TokenSign) }

  // ----- Versions -----

  // strings.Index and strings.LastIndex of one character
  function IndexOf(s: string, c: char): (i: int)
    ensures -1 <= i < |s|
  {
    if s == "" then -1
    else if s[0] == c then 0
    else
      var i := IndexOf(s[1..], c);
      if i < 0 then -1 else i + 1
  }

  function LastIndexOf(s: string, c: char): (i: int)
    ensures -1 <= i < |s|
  {
    if s == "" then -1
    else if s[|s| - 1] == c then |s| - 1
    else LastIndexOf(s[..|s| - 1], c)
  }

  datatype Version = Version(epoch: int, upstream: string, revision: string)

  function SplitRevision(epoch: int, s: string): Version {
    var i := LastIndexOf(s, '-');
    if i < 0 then Version(epoch, s, "") else Version(epoch, s[..i], s[i + 1..])
  }

  function SplitVersion(v: string): Version {
    var i := IndexOf(v, ':');
    if i < 0 then SplitRevision(0, v) else SplitRevision(Atoi(v[..i]), v[i + 1..])
  }

  function VersionSign(a: Version, b: Version): Sign {
    if a.epoch != b.epoch then SignOf(a.epoch - b.epoch)
    else
      var c := PartSign(a.upstream, b.upstream);
      if c != 0 then c else PartSign(a.revision, b.revision)
  }

  function CompareVersions(a: string, b: string): Sign { VersionSign(SplitVersion(a), SplitVersion(b)) }

  // ----- The loops of the source -----

  method NonDigitPrefix(s: string) returns (i: nat)
    ensures i <= |s| && (forall k | 0 <= k < i :: !IsDigit(s[k])) && (i < |s| ==> IsDigit(s[i]))
    ensures i == RunLen(s)
  {
    i := 0;
    while i < |s| && (s[i] < '0' || s[i] > '9')
      invariant i <= |s| && RunLen(s) == i + RunLen(s[i..])
    {
      i := i + 1;
      assert s[i - 1..][1..] == s[i..];
    }
  }

  method DigitPrefix(s: string) returns (i: nat)
    ensures i <= |s| && (forall k | 0 <= k < i :: IsDigit(s[k])) && (i < |s| ==> !IsDigit(s[i]))
    ensures i == DigitLen(s)
  {
    i := 0;
    while i < |s| && s[i] >= '0' && s[i] <= '9'
      invariant i <= |s| && DigitLen(s) == i + DigitLen(s[i..])
    {
      i := i + 1;
      assert s[i - 1..][1..] == s[i..];
    }
  }

  function Drop(s: string, i: nat): string { if i <= |s| then s[i..] else "" }

  method CompareNonDigit(a: string, b: string) returns (c: Sign)
    ensures c == RunSign(a, b)
  {
    var maxLen := if |b| > |a| then |b| else |a|;
    assert a[0..] == a && b[0..] == b;
    for i := 0 to maxLen
      invariant RunSign(a, b) == RunSign(Drop(a, i), Drop(b, i))
    {
      var ca := if i < |a| then a[i] else NUL;
      var cb := if i < |b| then b[i] else NUL;
      var va, vb := CharOrder(ca), CharOrder(cb);
      if va != vb {
        return if va < vb then -1 else 1;
      }
      assert Tail(Drop(a, i)) == Drop(a, i + 1) && Tail(Drop(b, i)) == Drop(b, i + 1);
    }
    return 0;
  }

  // The body of the loop of compareVersionParts: one token from each cursor.
  method CompareHeads(a0: string, b0: string) returns (c: Sign, a: string, b: string)
    ensures c == TokenSign(Head(a0), Head(b0))
    ensures c == 0 ==> a == Rest(a0) && b == Rest(b0)
  {
    a, b := a0, b0;
    var na := NonDigitPrefix(a);
    var nb := NonDigitPrefix(b);
    c := CompareNonDigit(a[..na], b[..nb]);
    if c != 0 { return; }
    a, b := a[na..], b[nb..];
    var da := DigitPrefix(a);
    var db := DigitPrefix(b);
    var ia, ib := Atoi(a[..da]), Atoi(b[..db]);
    if ia != ib {
      c := if ia < ib then -1 else 1;
      return;
    }
    a, b := a[da..], b[db..];
  }

  /** compareVersionParts: the two cursors advance token by token. */
  method CompareVersionParts(a0: string, b0: string) returns (c: Sign)
    ensures c == PartSign(a0, b0)
  {
    var a, b := a0, b0;
    while |a| > 0 || |b| > 0
      invariant PartSign(a, b) == PartSign(a0, b0)
      decreases |a| + |b|
    {
      PartStep(a, b);
      c, a, b := CompareHeads(a, b);
      if c != 0 { return; }
    }
    return 0;
  }

  // One turn of the loop, on the specification; an exhausted cursor yields the empty token.
  lemma PartStep(a: string, b: string)
    requires a != "" || b != ""
    ensures var c := TokenSign(Head(a), Head(b));
      PartSign(a, b) == if c != 0 then c else PartSign(Rest(a), Rest(b))
  {
    assert Head("") == EMPTY && Rest("") == "";
    assert At(Tokens(a), EMPTY, 0) == Head(a) && At(Tokens(b), EMPTY, 0) == Head(b);
    assert Tail(Tokens(a)) == Tokens(Rest(a)) && Tail(Tokens(b)) == Tokens(Rest(b));
  }

  // ----- The order is a total preorder -----

  lemma CharPreorder()
    ensures Preorder(CharSign)
  {
  }

  lemma RunPreorder()
    ensures Preorder(RunSign)
  {
    CharPreorder();
    forall a, b ensures RunSign(a, a) == 0 && RunSign(a, b) == -RunSign(b, a) {
      CompareReflexive(a, NUL, CharSign);
      CompareSymmetric(a, b, NUL, CharSign);
    }
    forall a, b, c | RunSign(a, b) <= 0 && RunSign(b, c) <= 0 ensures RunSign(a, c) <= 0 {
      CompareTransitive(a, b, c, NUL, CharSign);
    }
  }

  lemma TokenPreorder()
    ensures Preorder(TokenSign)
  {
    RunPreorder();
    forall t ensures TokenSign(t, t) == 0 { assert RunSign(t.run, t.run) == 0; }
    forall t, u ensures TokenSign(t, u) == -TokenSign(u, t) { assert RunSign(t.run, u.run) == -RunSign(u.run, t.run); }
    forall t, u, w | TokenSign(t, u) <= 0 && TokenSign(u, w) <= 0 ensures TokenSign(t, w) <= 0 {
      PreorderAt(RunSign, t.run, u.run, w.run);
    }
  }

  lemma PartPreorder()
    ensures Preorder(PartSign)
  {
    TokenPreorder();
    forall a, b ensures PartSign(a, a) == 0 && PartSign(a, b) == -PartSign(b, a) {
      CompareReflexive(Tokens(a), EMPTY, TokenSign);
      CompareSymmetric(Tokens(a), Tokens(b), EMPTY, TokenSign);
    }
    forall a, b, c | PartSign(a, b) <= 0 && PartSign(b, c) <= 0 ensures PartSign(a, c) <= 0 {
      CompareTransitive(Tokens(a), Tokens(b), Tokens(c), EMPTY, TokenSign);
    }
  }

  lemma VersionTransitive(x: Version, y: Version, z: Version)
    requires VersionSign(x, y) <= 0 && VersionSign(y, z) <= 0
    ensures VersionSign(x, z) <= 0
  {
    PartPreorder();
    if x.epoch == y.epoch == z.epoch {
      PreorderAt(PartSign, x.upstream, y.upstream, z.upstream);
      PreorderAt(PartSign, x.revision, y.revision, z.revision);
    }
  }

  lemma VersionSymmetric(x: Version, y: Version)
    ensures VersionSign(x, x) == 0 && VersionSign(x, y) == -VersionSign(y, x)
  {
    PartPreorder();
    assert PartSign(x.upstream, y.upstream) == -PartSign(y.upstream, x.upstream);
    assert PartSign(x.revision, y.revision) == -PartSign(y.revision, x.revision);
  }

  /** compareVersions is reflexive, antisymmetric in sign and transitive, on all strings. */
  lemma VersionPreorder()
    ensures Preorder(CompareVersions)
  {
    forall a, b
      ensures CompareVersions(a, a) == 0 && CompareVersions(a, b) == -CompareVersions(b, a)
    {
      VersionSymmetric(SplitVersion(a), SplitVersion(b));
    }
    forall a, b, c | CompareVersions(a, b) <= 0 && CompareVersions(b, c) <= 0 ensures CompareVersions(a, c) <= 0 {
      VersionTransitive(SplitVersion(a), SplitVersion(b), SplitVersion(c));
    }
  }

  /** Versions that compare equal are interchangeable. */
  lemma EqualVersionsCongruent(a: string, b: string, c: string)
    requires CompareVersions(a, b) == 0
    ensures CompareVersions(a, c) == CompareVersions(b, c) && CompareVersions(c, a) == CompareVersions(c, b)
  {
    VersionPreorder();
    PreorderAt(CompareVersions, a, b, c);
  }

  // ----- When two parts compare equal -----

  datatype Normal = Normal(run: string, number: int)

  function Normalize(t: Token): Normal { Normal(Strip(t.run, NUL), Atoi(t.digits)) }

  function NormalizeAll(ts: seq<Token>): (ns: seq<Normal>)
    ensures |ns| == |ts| && forall i | 0 <= i < |ts| :: ns[i] == Normalize(ts[i])
  {
    seq(|ts|, i requires 0 <= i < |ts| => Normalize(ts[i]))
  }

  const BLANK := Normal("", 0)

  function NormalTokens(s: string): seq<Normal> { Strip(NormalizeAll(Tokens(s)), BLANK) }

  lemma NormalAt(ts: seq<Token>, i: nat)
    ensures At(NormalizeAll(ts), BLANK, i) == Normalize(At(ts, EMPTY, i))
  {
    assert Normalize(EMPTY) == BLANK;
  }

  lemma TokenZero(t: Token, u: Token)
    ensures TokenSign(t, u) == 0 <==> Normalize(t) == Normalize(u)
  {
    CharPreorder();
    CompareZero(t.run, u.run, NUL, CharSign);
    StripEqual(t.run, u.run, NUL);
    assert forall x, y :: CharSign(x, y) == 0 <==> x == y;
  }

  /** 0 exactly when the token lists agree once empty tokens at the end (and NULs at the end of a
      run) are dropped, numbers being compared as int64. */
  lemma PartZero(a: string, b: string)
    ensures PartSign(a, b) == 0 <==> NormalTokens(a) == NormalTokens(b)
  {
    TokenPreorder();
    var ts, us := Tokens(a), Tokens(b);
    CompareZero(ts, us, EMPTY, TokenSign);
    StripEqual(NormalizeAll(ts), NormalizeAll(us), BLANK);
    forall i: nat
      ensures TokenSign(At(ts, EMPTY, i), At(us, EMPTY, i)) == 0
         <==> At(NormalizeAll(ts), BLANK, i) == At(NormalizeAll(us), BLANK, i)
    {
      NormalAt(ts, i);
      NormalAt(us, i);
      TokenZero(At(ts, EMPTY, i), At(us, EMPTY, i));
    }
  }
}
