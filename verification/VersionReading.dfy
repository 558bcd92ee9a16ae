/** The comparator read off the texts of two versions: what their tokens are, without the functions
    that cut them, and which of two versions is the lower, without the functions that compare. */
module VersionReading {
  import opened PaddedOrder
  import opened VersionOrder
  import opened DebianOrder
  import JsonSyntax
  import Numerals

  // ----- Tokens -----

  function Joined(ts: seq<Token>): string {
    if ts == [] then "" else ts[0].run + (ts[0].digits + Joined(ts[1..]))
  }

  /** The text is cut into runs of non-digits and runs of digits in turn, each as long as it can be:
      only the first run of non-digits and the last run of digits may be empty. */
  predicate Tokenizes(ts: seq<Token>, s: string) {
    && Joined(ts) == s
    && forall i | 0 <= i < |ts| ::
         && ts[i] != EMPTY && NoDigits(ts[i].run) && AllDigits(ts[i].digits)
         && (i > 0 ==> ts[i].run != "") && (i < |ts| - 1 ==> ts[i].digits != "")
  }

  predicate NoDigits(run: string) { forall i | 0 <= i < |run| :: !IsDigit(run[i]) }

  lemma DigitsAre(c: char)
    ensures IsDigit(c) <==> c in "0123456789"
  {
    var ds := "0123456789";
    if IsDigit(c) { assert ds[c as int - '0' as int] == c; }
  }

  lemma {:induction false} TokensTokenize(s: string)
    ensures Tokenizes(Tokens(s), s)
    decreases |s|
  {
    if s != "" {
      var ts, us := Tokens(s), Tokens(Rest(s));
      TokensTokenize(Rest(s));
      HeadJoins(s);
      assert ts[1..] == us;
      forall i | 0 <= i < |ts|
        ensures ts[i] != EMPTY && NoDigits(ts[i].run) && AllDigits(ts[i].digits)
        ensures (i > 0 ==> ts[i].run != "") && (i < |ts| - 1 ==> ts[i].digits != "")
      {
        if i > 0 { assert ts[i] == us[i - 1]; }
      }
    }
  }

  // The first token, and what remains.
  lemma HeadJoins(s: string)
    requires s != ""
    ensures s == Head(s).run + (Head(s).digits + Rest(s))
    ensures Head(s) != EMPTY && NoDigits(Head(s).run) && AllDigits(Head(s).digits)
    ensures Rest(s) != "" ==> Head(s).digits != "" && !IsDigit(Rest(s)[0])
  {
    var u := s[RunLen(s)..];
    CutAt(s, RunLen(s));
    CutAt(u, DigitLen(u));
    if u != "" { assert u[0] == s[RunLen(s)]; }
  }

  lemma CutAt(s: string, n: nat)
    requires n <= |s|
    ensures s == s[..n] + s[n..]
  {
  }

  lemma RunLenIs(run: string, rest: string)
    requires NoDigits(run) && (rest != "" ==> IsDigit(rest[0]))
    ensures RunLen(run + rest) == |run|
  {
    var s := run + rest;
    assert (forall i | 0 <= i < |run| :: s[i] == run[i]) && (rest != "" ==> s[|run|] == rest[0]);
  }

  lemma DigitLenIs(digits: string, rest: string)
    requires AllDigits(digits) && (rest != "" ==> !IsDigit(rest[0]))
    ensures DigitLen(digits + rest) == |digits|
  {
    var s := digits + rest;
    assert (forall i | 0 <= i < |digits| :: s[i] == digits[i]) && (rest != "" ==> s[|digits|] == rest[0]);
  }

  lemma HeadIs(t: Token, rest: string)
    requires t != EMPTY && NoDigits(t.run) && AllDigits(t.digits)
    requires rest != "" ==> t.digits != "" && !IsDigit(rest[0])
    ensures var s := t.run + (t.digits + rest); s != "" && Head(s) == t && Rest(s) == rest
  {
    var u := t.digits + rest;
    var s := t.run + u;
    RunLenIs(t.run, u);
    assert s[..|t.run|] == t.run && s[|t.run|..] == u;
    DigitLenIs(t.digits, rest);
    assert u[..|t.digits|] == t.digits && u[|t.digits|..] == rest;
  }

  /** The tokens of a text are the only ones into which it can be cut so. */
  lemma {:induction false} TokensExactly(ts: seq<Token>, s: string)
    ensures Tokenizes(ts, s) <==> ts == Tokens(s)
    decreases |ts|
  {
    TokensTokenize(s);
    if Tokenizes(ts, s) && ts != [] {
      TailTokenizes(ts, s);
      HeadIs(ts[0], Joined(ts[1..]));
      TokensExactly(ts[1..], Joined(ts[1..]));
      assert ts == [ts[0]] + ts[1..];
    }
  }

  lemma TailTokenizes(ts: seq<Token>, s: string)
    requires Tokenizes(ts, s) && ts != []
    ensures var rest := Joined(ts[1..]);
      Tokenizes(ts[1..], rest) && (rest != "" ==> ts[0].digits != "" && !IsDigit(rest[0]))
  {
    var us := ts[1..];
    assert forall i | 0 <= i < |us| :: us[i] == ts[i + 1];
    if us != [] {
      assert us[0].run != "" && !IsDigit(us[0].run[0]);
    }
  }

  // ----- The order of characters, runs and tokens -----

  // '~' comes first, then the end of a run, then the other characters by their code.
  predicate CharBelow(x: char, y: char) { y != '~' && (x == '~' || x < y) }

  lemma CharSigns(x: char, y: char)
    ensures CharSign(x, y) == if CharBelow(x, y) then -1 else if CharBelow(y, x) then 1 else 0
    ensures CharSign(x, y) == 0 <==> x == y
  {
  }

  ghost predicate SameRun(r: string, q: string) { forall i: nat :: At(r, NUL, i) == At(q, NUL, i) }

  ghost predicate RunBelow(r: string, q: string) { exists k: nat :: RunBelowAt(r, q, k) }

  ghost predicate RunBelowAt(r: string, q: string, k: nat) {
    (forall i: nat | i < k :: At(r, NUL, i) == At(q, NUL, i)) && CharBelow(At(r, NUL, k), At(q, NUL, k))
  }

  lemma RunSigns(r: string, q: string)
    ensures RunSign(r, q) == 0 <==> SameRun(r, q)
    ensures RunSign(r, q) == -1 <==> RunBelow(r, q)
  {
    CharPreorder();
    forall x, y ensures CharSign(x, y) == 0 <==> x == y { CharSigns(x, y); }
    CompareZero(r, q, NUL, CharSign);
    if RunSign(r, q) == -1 {
      var k := DifferenceExists(r, q, NUL, CharSign);
      FirstDifference(r, q, NUL, CharSign, k);
      CharSigns(At(r, NUL, k), At(q, NUL, k));
      assert RunBelowAt(r, q, k);
    }
    if k: nat :| RunBelowAt(r, q, k) {
      CharSigns(At(r, NUL, k), At(q, NUL, k));
      FirstDifference(r, q, NUL, CharSign, k);
    }
  }

  // Digits count as their number, up to the largest int64.
  function Int64(ds: string): int { if NumberOf(ds) <= MAX_INT then NumberOf(ds) else MAX_INT }

  ghost predicate SameToken(t: Token, u: Token) { SameRun(t.run, u.run) && Int64(t.digits) == Int64(u.digits) }

  ghost predicate TokenBelow(t: Token, u: Token) {
    RunBelow(t.run, u.run) || (SameRun(t.run, u.run) && Int64(t.digits) < Int64(u.digits))
  }

  lemma TokenSigns(t: Token, u: Token)
    requires AllDigits(t.digits) && AllDigits(u.digits)
    ensures TokenSign(t, u) == 0 <==> SameToken(t, u)
    ensures TokenSign(t, u) == -1 <==> TokenBelow(t, u)
  {
    RunSigns(t.run, u.run);
    AtoiNumber(t.digits);
    AtoiNumber(u.digits);
  }

  // ----- The order of parts -----

  ghost predicate PartBelowAt(a: string, b: string, ts: seq<Token>, us: seq<Token>, k: nat) {
    && Tokenizes(ts, a) && Tokenizes(us, b)
    && (forall i: nat | i < k :: SameToken(At(ts, EMPTY, i), At(us, EMPTY, i)))
    && TokenBelow(At(ts, EMPTY, k), At(us, EMPTY, k))
  }

  /** Up to some place the tokens are the same, and there the first text has the lower one; a text that
      has run out has empty tokens. */
  ghost predicate PartBelow(a: string, b: string) { exists ts, us, k: nat :: PartBelowAt(a, b, ts, us, k) }

  lemma SignsAt(a: string, b: string, i: nat)
    ensures var t, u := At(Tokens(a), EMPTY, i), At(Tokens(b), EMPTY, i);
      && (TokenSign(t, u) == 0 <==> SameToken(t, u))
      && (TokenSign(t, u) == -1 <==> TokenBelow(t, u))
  {
    TokenDigits(a);
    TokenDigits(b);
    TokenSigns(At(Tokens(a), EMPTY, i), At(Tokens(b), EMPTY, i));
  }

  /** The loop over two cursors computes exactly this order. */
  lemma PartSignExactly(a: string, b: string)
    ensures PartSign(a, b) == -1 <==> PartBelow(a, b)
    ensures PartSign(a, b) == 1 <==> PartBelow(b, a)
  {
    PartPreorder();
    assert PartSign(a, b) == -PartSign(b, a);
    PartLower(a, b);
    PartLower(b, a);
  }

  lemma PartLower(a: string, b: string)
    ensures PartSign(a, b) == -1 <==> PartBelow(a, b)
  {
    TokenPreorder();
    if PartSign(a, b) == -1 {
      var k := DifferenceExists(Tokens(a), Tokens(b), EMPTY, TokenSign);
      FirstDifference(Tokens(a), Tokens(b), EMPTY, TokenSign, k);
      forall i: nat | i < k ensures SameToken(At(Tokens(a), EMPTY, i), At(Tokens(b), EMPTY, i)) { SignsAt(a, b, i); }
      SignsAt(a, b, k);
      TokensTokenize(a);
      TokensTokenize(b);
      assert PartBelowAt(a, b, Tokens(a), Tokens(b), k);
    }
    if ts, us, k: nat :| PartBelowAt(a, b, ts, us, k) { BelowSigns(a, b, ts, us, k); }
  }

  lemma BelowSigns(a: string, b: string, ts: seq<Token>, us: seq<Token>, k: nat)
    requires PartBelowAt(a, b, ts, us, k)
    ensures PartSign(a, b) == -1
  {
    TokenPreorder();
    TokensExactly(ts, a);
    TokensExactly(us, b);
    forall i: nat | i < k ensures TokenSign(At(ts, EMPTY, i), At(us, EMPTY, i)) == 0 {
      SignsAt(a, b, i);
      assert SameToken(At(ts, EMPTY, i), At(us, EMPTY, i));
    }
    SignsAt(a, b, k);
    FirstDifference(ts, us, EMPTY, TokenSign, k);
  }

  // ----- Epoch, upstream version and revision -----

  // What follows the first colon, and the text before it as an integer.
  ghost predicate EpochOf(v: string, epoch: int, s: string) {
    || (':' !in v && epoch == 0 && s == v)
    || exists e :: ':' !in e && v == e + ([':'] + s) && epoch == Atoi(e)
  }

  // The revision is what follows the last hyphen.
  predicate RevisionOf(s: string, upstream: string, revision: string) {
    || ('-' !in s && upstream == s && revision == "")
    || ('-' !in revision && s == upstream + ['-'] + revision)
  }

  ghost predicate Splits(v: string, x: Version) {
    exists s :: EpochOf(v, x.epoch, s) && RevisionOf(s, x.upstream, x.revision)
  }

  lemma RevisionExactly(epoch: int, s: string, upstream: string, revision: string)
    ensures RevisionOf(s, upstream, revision) <==> SplitRevision(epoch, s) == Version(epoch, upstream, revision)
  {
    if '-' !in s { IndexOfAbsentLast(s); } else { RevisionFound(s); }
    if '-' !in revision && s == upstream + ['-'] + revision { RevisionIs(s, upstream, revision); }
  }

  lemma RevisionFound(s: string)
    requires '-' in s
    ensures var i := LastIndexOf(s, '-'); 0 <= i < |s| && '-' !in s[i + 1..] && s == s[..i] + ['-'] + s[i + 1..]
  {
    var i := LastIndexOf(s, '-');
    HyphenFound(s);
    NoneAfterLast(s);
    SplitAt(s, i);
    CutRegroup(s[..i], ['-'], s[i + 1..]);
  }

  lemma CutRegroup(a: string, b: string, c: string)
    ensures a + (b + c) == a + b + c
  {
  }

  lemma RevisionIs(s: string, upstream: string, revision: string)
    requires '-' !in revision && s == upstream + ['-'] + revision
    ensures LastIndexOf(s, '-') == |upstream| && s[..|upstream|] == upstream && s[|upstream| + 1..] == revision
    ensures '-' in s
  {
    LastIndexOfIs(upstream, '-', revision);
    assert s[|upstream|] == '-';
  }

  lemma {:induction false} NoneAfterLast(s: string)
    ensures '-' !in s[LastIndexOf(s, '-') + 1..]
  {
    if s != "" && s[|s| - 1] != '-' {
      var t := s[..|s| - 1];
      NoneAfterLast(t);
      assert s[LastIndexOf(s, '-') + 1..] == t[LastIndexOf(t, '-') + 1..] + [s[|s| - 1]];
    }
  }

  lemma {:induction false} ColonFound(v: string)
    ensures ':' in v ==> IndexOf(v, ':') >= 0 && v[IndexOf(v, ':')] == ':'
    ensures IndexOf(v, ':') >= 0 ==> ':' in v && ':' !in v[..IndexOf(v, ':')]
  {
    if v != "" && v[0] != ':' {
      ColonFound(v[1..]);
      assert v == [v[0]] + v[1..];
      if IndexOf(v, ':') >= 0 { assert v[..IndexOf(v, ':')] == [v[0]] + v[1..][..IndexOf(v[1..], ':')]; }
    }
  }

  // The epoch as the function takes it.
  function EpochPart(v: string): int { if IndexOf(v, ':') < 0 then 0 else Atoi(v[..IndexOf(v, ':')]) }

  lemma EpochExactly(v: string, epoch: int, s: string)
    ensures EpochOf(v, epoch, s) <==> epoch == EpochPart(v) && s == AfterEpoch(v)
  {
    EpochFound(v);
    if e :| ':' !in e && v == e + ([':'] + s) && epoch == Atoi(e) { EpochIs(v, e, s); }
    if ':' !in v { IndexOfAbsent(v, ':'); }
  }

  lemma EpochFound(v: string)
    ensures EpochOf(v, EpochPart(v), AfterEpoch(v))
  {
    var i := IndexOf(v, ':');
    ColonFound(v);
    if i >= 0 { SplitAt(v, i); }
  }

  lemma EpochIs(v: string, e: string, s: string)
    requires ':' !in e && v == e + ([':'] + s)
    ensures EpochPart(v) == Atoi(e) && AfterEpoch(v) == s
  {
    IndexOfIs(e, ':', s);
    assert v[..|e|] == e && v[|e| + 1..] == s;
  }

  /** Epoch, upstream version and revision are the parts of the text. */
  lemma SplitExactly(v: string, x: Version)
    ensures Splits(v, x) <==> SplitVersion(v) == x
  {
    assert SplitVersion(v) == SplitRevision(EpochPart(v), AfterEpoch(v));
    EpochExactly(v, x.epoch, AfterEpoch(v));
    RevisionExactly(x.epoch, AfterEpoch(v), x.upstream, x.revision);
    if s :| EpochOf(v, x.epoch, s) && RevisionOf(s, x.upstream, x.revision) {
      EpochExactly(v, x.epoch, s);
    }
  }

  /** An epoch is read as strconv.Atoi does with its error dropped: signs count, a number out of range is
      the nearest one, and a text that is no number is 0. */
  lemma EpochTexts(ds: string)
    requires ds != "" && AllDigits(ds)
    ensures Atoi(ds) == (if Number(ds) <= MAX_INT then Number(ds) else MAX_INT) == Atoi("+" + ds)
    ensures Atoi("-" + ds) == if Number(ds) <= MAX_INT + 1 then -(Number(ds) as int) else -MAX_INT - 1
    ensures Atoi("") == 0
  {
    AtoiNumber(ds);
    ScanAll(ds);
    assert IsDigit(ds[0]);
    assert ("+" + ds)[1..] == ds && ("-" + ds)[1..] == ds;
  }

  lemma ScanAll(ds: string)
    requires AllDigits(ds)
    ensures ScanUint(ds, 0) == if Number(ds) <= MAX_UINT then Value(Number(ds)) else Range
  {
    assert "" + ds == ds;
    ScanNumber(ds, 0, "");
  }

  lemma {:induction false} ScanBad(ds: string, c: char, rest: string, n: nat)
    requires AllDigits(ds) && !IsDigit(c)
    ensures ScanUint(ds + [c] + rest, n) == Syntax || ScanUint(ds + [c] + rest, n) == Range
    ensures n == 0 && ds == "" ==> ScanUint(ds + [c] + rest, n) == Syntax
    decreases |ds|
  {
    var s := ds + [c] + rest;
    if ds != "" {
      assert s[1..] == ds[1..] + [c] + rest;
      assert IsDigit(s[0]);
      ScanBad(ds[1..], c, rest, 10 * n + (s[0] as int - '0' as int));
    }
  }

  /** A text with anything but digits in it is 0, unless digits out of range come first. */
  lemma BadEpochs(ds: string, c: char, rest: string)
    requires AllDigits(ds) && !IsDigit(c) && (ds == "" ==> c != '-' && c != '+')
    ensures Atoi(ds + [c] + rest) in {0, MAX_INT} && (ds == "" ==> Atoi(ds + [c] + rest) == 0)
  {
    var s := ds + [c] + rest;
    assert s[0] == if ds == "" then c else ds[0];
    if ds != "" { assert IsDigit(ds[0]); }
    ScanBad(ds, c, rest, 0);
  }

  ghost predicate VersionBelow(x: Version, y: Version) {
    || x.epoch < y.epoch
    || (x.epoch == y.epoch && PartBelow(x.upstream, y.upstream))
    || (x.epoch == y.epoch && !PartBelow(y.upstream, x.upstream) && PartBelow(x.revision, y.revision))
  }

  /** compareVersions, from the parts of the two texts alone. */
  lemma CompareExactly(a: string, b: string, x: Version, y: Version)
    requires Splits(a, x) && Splits(b, y)
    ensures CompareVersions(a, b) == if VersionBelow(x, y) then -1 else if VersionBelow(y, x) then 1 else 0
  {
    SplitExactly(a, x);
    SplitExactly(b, y);
    PartSignExactly(x.upstream, y.upstream);
    PartSignExactly(x.revision, y.revision);
  }

  // ----- Numbers -----

  lemma {:induction false} NumberOfDecimal(n: nat)
    ensures AllDigits(Numerals.DecimalDigits(n)) && Number(Numerals.DecimalDigits(n)) == n
  {
    var ds := Numerals.DecimalDigits(n);
    Numerals.DecimalShape(n);
    assert forall i | 0 <= i < |ds| :: JsonSyntax.IsDigit(ds[i]) ==> IsDigit(ds[i]);
    if n >= 10 {
      NumberOfDecimal(n / 10);
      assert ds[..|ds| - 1] == Numerals.DecimalDigits(n / 10);
    } else {
      assert ds[..|ds| - 1] == "";
    }
  }

  lemma OneNumber(ds: string)
    requires ds != "" && AllDigits(ds)
    ensures Tokens(ds) == [Token("", ds)]
  {
    var ts := [Token("", ds)];
    assert ts[1..] == [] && "" + (ds + "") == ds;
    assert Joined(ts) == "" + (ds + Joined(ts[1..]));
    TokensExactly(ts, ds);
  }

  /** Digits are compared as numbers, whatever their length, up to the largest int64. */
  lemma NumbersCompare(d: string, e: string)
    requires AllDigits(d) && AllDigits(e)
    ensures PartSign(d, e) == SignOf(Int64(d) - Int64(e))
  {
    NumberTokens(d);
    NumberTokens(e);
    TokenPreorder();
    var t, u := At(Tokens(d), EMPTY, 0), At(Tokens(e), EMPTY, 0);
    assert RunSign("", "") == 0;
    AtoiNumber(d);
    AtoiNumber(e);
    CompareStep(Tokens(d), Tokens(e), EMPTY, TokenSign);
    assert Compare([], [], EMPTY, TokenSign) == 0;
  }

  lemma NumberTokens(d: string)
    requires AllDigits(d)
    ensures Tail(Tokens(d)) == [] && At(Tokens(d), EMPTY, 0) == Token("", d)
  {
    if d != "" { OneNumber(d); }
  }
}
