/** The comparator against the order it is meant to implement: Debian Policy Manual, section
    5.6.12. There every letter sorts before every other character, numbers are unbounded and a
    missing revision counts as "0". The two orders are shown to coincide on exactly the alphabets
    in which no letter comes after a non-letter in ASCII. */
module DebianOrder {
  import opened PaddedOrder
  import opened VersionOrder

  // ----- The order of the standard -----

  predicate IsLetter(c: char) { 'a' <= c <= 'z' || 'A' <= c <= 'Z' }

  const NON_LETTERS: int := 0x11_0000   // above every letter

  // NUL stands for the end of a run.
  function DebianChar(c: char): int {
    if c == NUL then 0 else if c == '~' then -1
    else if IsLetter(c) then c as int else NON_LETTERS + c as int
  }

  function DebianCharSign(x: char, y: char): Sign { SignOf(DebianChar(x) - DebianChar(y)) }

  predicate AllDigits(ds: string) { forall i | 0 <= i < |ds| :: IsDigit(ds[i]) }

  function Number(ds: string): nat
    requires AllDigits(ds)
  {
    if ds == "" then 0
    else
      assert IsDigit(ds[|ds| - 1]);
      10 * Number(ds[..|ds| - 1]) + (ds[|ds| - 1] as int - '0' as int)
  }

  // The digits of a token, and 0 for anything else.
  function NumberOf(ds: string): nat {
    if AllDigits(ds) then Number(ds) else 0
  }

  function DebianTokenSign(t: Token, u: Token): Sign {
    var c := Compare(t.run, u.run, NUL, DebianCharSign);
    if c != 0 then c else SignOf(NumberOf(t.digits) - NumberOf(u.digits))
  }

  function DebianPart(a: string, b: string): Sign { Compare(Tokens(a), Tokens(b), EMPTY, DebianTokenSign) }

  // An epoch, if there is one, is an unsigned number.
  predicate ValidVersion(v: string) {
    var i := IndexOf(v, ':');
    i >= 0 ==> i > 0 && forall k | 0 <= k < i :: IsDigit(v[k])
  }

  function DebianSplit(v: string): Version {
    var i := IndexOf(v, ':');
    var epoch := if i < 0 then 0 else NumberOf(v[..i]);
    var s := if i < 0 then v else v[i + 1..];
    var j := LastIndexOf(s, '-');
    if j < 0 then Version(epoch, s, "0") else Version(epoch, s[..j], s[j + 1..])
  }

  function DebianCompare(a: string, b: string): Sign {
    var x, y := DebianSplit(a), DebianSplit(b);
    if x.epoch != y.epoch then SignOf(x.epoch - y.epoch)
    else
      var c := DebianPart(x.upstream, y.upstream);
      if c != 0 then c else DebianPart(x.revision, y.revision)
  }

  // ----- The versions over an alphabet -----

  // Runs of non-digits use the alphabet and '~'; numbers fit an int64.
  predicate TokenOver(t: Token, letters: set<char>) {
    (forall i | 0 <= i < |t.run| :: t.run[i] in letters || t.run[i] == '~') && NumberOf(t.digits) <= MAX_INT
  }

  predicate PartOver(s: string, letters: set<char>) {
    forall i | 0 <= i < |Tokens(s)| :: TokenOver(Tokens(s)[i], letters)
  }

  predicate VersionOver(v: string, letters: set<char>) {
    var d := DebianSplit(v);
    ValidVersion(v) && d.epoch <= MAX_INT && PartOver(d.upstream, letters) && PartOver(d.revision, letters)
  }

  /** No letter of the alphabet comes after one of its other characters. */
  predicate LettersFirst(letters: set<char>) {
    forall x, y | x in letters && y in letters && IsLetter(x) && !IsLetter(y) && y != '~' :: x < y
  }

  // A run alphabet holds neither digits nor the end-of-run mark.
  predicate RunAlphabet(letters: set<char>) {
    NUL !in letters && forall c | c in letters :: !IsDigit(c)
  }

  // ----- Numbers that fit -----

  lemma {:induction false} ScanNumber(s: string, n: nat, pre: string)
    requires AllDigits(s) && AllDigits(pre) && Number(pre) == n <= MAX_UINT
    ensures ScanUint(s, n) ==
      if AllDigits(pre + s) && Number(pre + s) <= MAX_UINT then Value(Number(pre + s)) else Range
  {
    if s == "" {
      assert pre + s == pre;
    } else {
      var q := pre + [s[0]];
      NumberNext(pre, s[0]);
      assert q + s[1..] == pre + s;
      NumberGrows(q, s[1..]);
      if Number(q) <= MAX_UINT { ScanNumber(s[1..], Number(q), q); }
    }
  }

  lemma NumberNext(pre: string, c: char)
    requires AllDigits(pre) && IsDigit(c)
    ensures AllDigits(pre + [c]) && Number(pre + [c]) == 10 * Number(pre) + (c as int - '0' as int)
  {
    assert (pre + [c])[..|pre|] == pre;
  }

  lemma {:induction false} NumberGrows(q: string, s: string)
    requires AllDigits(q + s)
    ensures AllDigits(q) && Number(q) <= Number(q + s)
  {
    assert forall i | 0 <= i < |q| :: q[i] == (q + s)[i];
    if s == "" {
      assert q + s == q;
    } else {
      var t := s[..|s| - 1];
      assert (q + s)[..|q + s| - 1] == q + t;
      NumberGrows(q, t);
    }
  }

  /** Digits are read as their number, or as the largest integer. */
  lemma AtoiNumber(ds: string)
    requires AllDigits(ds)
    ensures Atoi(ds) == if Number(ds) <= MAX_INT then Number(ds) else MAX_INT
  {
    assert "" + ds == ds;
    if ds != "" {
      assert IsDigit(ds[0]);
      ScanNumber(ds, 0, "");
    }
  }

  lemma {:induction false} TokenDigits(s: string)
    ensures forall i | 0 <= i < |Tokens(s)| :: AllDigits(Tokens(s)[i].digits)
    decreases |s|
  {
    if s != "" {
      TokenDigits(Rest(s));
      assert AllDigits(Head(s).digits);
    }
  }

  // ----- Same characters, same order -----

  // Two characters of an alphabet, the mark '~' or the end of a run.
  predicate Known(c: char, letters: set<char>) { c in letters || c == '~' || c == NUL }

  lemma CharsAgree(letters: set<char>, x: char, y: char)
    requires LettersFirst(letters) && RunAlphabet(letters) && Known(x, letters) && Known(y, letters)
    ensures CharSign(x, y) == DebianCharSign(x, y)
  {
  }

  lemma {:induction false} RunsAgree(letters: set<char>, a: string, b: string)
    requires LettersFirst(letters) && RunAlphabet(letters)
    requires forall i | 0 <= i < |a| :: Known(a[i], letters)
    requires forall i | 0 <= i < |b| :: Known(b[i], letters)
    ensures RunSign(a, b) == Compare(a, b, NUL, DebianCharSign)
    decreases |a| + |b|
  {
    if a != "" || b != "" {
      CharsAgree(letters, At(a, NUL, 0), At(b, NUL, 0));
      RunsAgree(letters, Tail(a), Tail(b));
    }
  }

  predicate TokenFits(t: Token, letters: set<char>) {
    TokenOver(t, letters) && AllDigits(t.digits)
  }

  lemma TokensAgree(letters: set<char>, t: Token, u: Token)
    requires LettersFirst(letters) && RunAlphabet(letters) && TokenFits(t, letters) && TokenFits(u, letters)
    ensures TokenSign(t, u) == DebianTokenSign(t, u)
  {
    RunsAgree(letters, t.run, u.run);
    AtoiNumber(t.digits);
    AtoiNumber(u.digits);
  }

  lemma {:induction false} TokenListsAgree(letters: set<char>, ts: seq<Token>, us: seq<Token>)
    requires LettersFirst(letters) && RunAlphabet(letters)
    requires forall i | 0 <= i < |ts| :: TokenFits(ts[i], letters)
    requires forall i | 0 <= i < |us| :: TokenFits(us[i], letters)
    ensures Compare(ts, us, EMPTY, TokenSign) == Compare(ts, us, EMPTY, DebianTokenSign)
    decreases |ts| + |us|
  {
    if ts != [] || us != [] {
      TokensAgree(letters, At(ts, EMPTY, 0), At(us, EMPTY, 0));
      TokenListsAgree(letters, Tail(ts), Tail(us));
    }
  }

  lemma PartsAgree(letters: set<char>, a: string, b: string)
    requires LettersFirst(letters) && RunAlphabet(letters) && PartOver(a, letters) && PartOver(b, letters)
    ensures PartSign(a, b) == DebianPart(a, b)
  {
    TokenDigits(a);
    TokenDigits(b);
    TokenListsAgree(letters, Tokens(a), Tokens(b));
  }

  lemma ZeroTokens()
    ensures Tokens("0") == [Token("", "0")] && Tokens("") == []
  {
    var s := "0";
    assert s[1..] == "" && s[0..] == s && DigitLen(s) == 1 && RunLen(s) == 0;
    assert Rest(s) == "" && Head(s) == Token("", "0");
  }

  lemma OneToken(c: char)
    requires !IsDigit(c)
    ensures Tokens([c]) == [Token([c], "")]
  {
    var s := [c];
    assert !IsDigit(s[0]) && RunLen(s) == 1;
    assert s[..1] == s && s[1..] == "" && DigitLen("") == 0;
    assert Head(s) == Token([c], "") && Rest(s) == "" && Tokens("") == [];
  }

  // An absent revision is "" here and "0" in the standard; both compare alike with everything.
  lemma NoRevision(s: string)
    ensures PartSign("", s) == PartSign("0", s) && PartSign(s, "") == PartSign(s, "0")
  {
    PartPreorder();
    assert NormalTokens("0") == NormalTokens("") by {
      ZeroTokens();
      assert Normalize(Token("", "0")) == Normal("", 0) by { AtoiNumber("0"); }
    }
    PartZero("", "0");
    PreorderAt(PartSign, "", "0", s);
  }

  lemma SplitsAgree(v: string)
    requires ValidVersion(v) && DebianSplit(v).epoch <= MAX_INT
    ensures var s, d := SplitVersion(v), DebianSplit(v);
      s.epoch == d.epoch && s.upstream == d.upstream
        && (s.revision == d.revision || (s.revision == "" && d.revision == "0"))
  {
    var i := IndexOf(v, ':');
    if i >= 0 { AtoiNumber(v[..i]); }
  }

  lemma VersionsAgree(letters: set<char>, a: string, b: string)
    requires LettersFirst(letters) && RunAlphabet(letters) && VersionOver(a, letters) && VersionOver(b, letters)
    ensures CompareVersions(a, b) == DebianCompare(a, b)
  {
    SplitsAgree(a);
    SplitsAgree(b);
    var x, y, p, q := SplitVersion(a), SplitVersion(b), DebianSplit(a), DebianSplit(b);
    PartsAgree(letters, p.upstream, q.upstream);
    PartsAgree(letters, p.revision, q.revision);
    NoRevision(x.revision);
    NoRevision(y.revision);
    NoRevision(q.revision);
  }

  // ----- Finding the separators -----

  lemma {:induction false} IndexOfAbsent(w: string, c: char)
    requires c !in w
    ensures IndexOf(w, c) == -1
  {
    if w != "" { IndexOfAbsent(w[1..], c); }
  }

  lemma {:induction false} IndexOfAppend(v: string, w: string, c: char)
    requires c !in w
    ensures IndexOf(v + w, c) == IndexOf(v, c)
  {
    if v == "" {
      assert v + w == w;
      IndexOfAbsent(w, c);
    } else {
      assert (v + w)[1..] == v[1..] + w;
      IndexOfAppend(v[1..], w, c);
    }
  }

  lemma {:induction false} LastIndexOfAppend(v: string, w: string, c: char)
    requires c !in w
    ensures LastIndexOf(v + w, c) == LastIndexOf(v, c)
  {
    if w == "" {
      assert v + w == v;
    } else {
      var t := v + w;
      assert t[|t| - 1] == w[|w| - 1] && t[..|t| - 1] == v + w[..|w| - 1];
      assert w[|w| - 1] in w;
      LastIndexOfAppend(v, w[..|w| - 1], c);
    }
  }

  lemma {:induction false} IndexOfIs(p: string, c: char, r: string)
    requires c !in p
    ensures IndexOf(p + ([c] + r), c) == |p|
  {
    var s := p + ([c] + r);
    if p != "" {
      assert s[1..] == p[1..] + ([c] + r);
      IndexOfIs(p[1..], c, r);
    }
  }

  lemma LastIndexOfIs(p: string, c: char, r: string)
    requires c !in r
    ensures LastIndexOf(p + [c] + r, c) == |p|
  {
    LastIndexOfAppend(p + [c], r, c);
    assert (p + [c])[|p + [c]| - 1] == c;
  }

  // ----- Where they part -----

  function Witness(c: char): string { "0:" + [c] + "-0" }

  lemma WitnessSeparators(c: char)
    ensures var v, s := Witness(c), [c] + "-0";
      && IndexOf(v, ':') == 1 && v[..1] == "0" && v[2..] == s
      && LastIndexOf(s, '-') == 1 && s[..1] == [c] && s[2..] == "0"
  {
    var s := [c] + "-0";
    IndexOfIs("0", ':', s);
    assert Witness(c) == "0" + ([':'] + s);
    LastIndexOfIs([c], '-', "0");
    assert s == [c] + ['-'] + "0";
  }

  lemma WitnessParts(c: char)
    requires !IsDigit(c)
    ensures SplitVersion(Witness(c)) == DebianSplit(Witness(c)) == Version(0, [c], "0")
    ensures ValidVersion(Witness(c))
  {
    WitnessSeparators(c);
    AtoiNumber("0");
  }

  lemma WitnessOver(c: char, letters: set<char>)
    requires !IsDigit(c) && c in letters
    ensures VersionOver(Witness(c), letters)
  {
    WitnessParts(c);
    OneToken(c);
    ZeroTokens();
  }

  lemma WitnessSigns(x: char, y: char)
    requires !IsDigit(x) && !IsDigit(y) && x != NUL && y != NUL && CharSign(x, y) != 0
    ensures CompareVersions(Witness(x), Witness(y)) == CharSign(x, y)
    ensures DebianCompare(Witness(x), Witness(y)) == DebianCharSign(x, y)
  {
    WitnessParts(x);
    WitnessParts(y);
    OneToken(x);
    OneToken(y);
    assert RunSign([x], [y]) == CharSign(x, y);
    assert Compare([x], [y], NUL, DebianCharSign) == DebianCharSign(x, y);
  }

  /** The comparator implements the standard on exactly the alphabets that put letters first. */
  lemma AgreesWithDebian(letters: set<char>)
    requires RunAlphabet(letters)
    ensures LettersFirst(letters)
      <==> forall a, b | VersionOver(a, letters) && VersionOver(b, letters) ::
        CompareVersions(a, b) == DebianCompare(a, b)
  {
    if LettersFirst(letters) {
      forall a, b | VersionOver(a, letters) && VersionOver(b, letters)
        ensures CompareVersions(a, b) == DebianCompare(a, b)
      {
        VersionsAgree(letters, a, b);
      }
    } else {
      var x, y :| x in letters && y in letters && IsLetter(x) && !IsLetter(y) && y != '~' && !(x < y);
      WitnessOver(x, letters);
      WitnessOver(y, letters);
      WitnessSigns(x, y);
      assert CompareVersions(Witness(x), Witness(y)) != DebianCompare(Witness(x), Witness(y));
    }
  }

  const PUNCTUATION: set<char> := {'.', '+', '-', ':'}

  /** Of the characters the standard allows in a version, letters and punctuation must not mix. */
  lemma LegalAlphabets(letters: set<char>)
    requires forall c | c in letters :: IsLetter(c) || c in PUNCTUATION || c == '~'
    ensures RunAlphabet(letters)
    ensures LettersFirst(letters)
      <==> (forall c | c in letters :: !IsLetter(c)) || (forall c | c in letters :: c !in PUNCTUATION)
  {
    if x, y :| x in letters && y in letters && IsLetter(x) && y in PUNCTUATION {
      assert !(x < y);
    }
  }

  // ----- Pre-releases -----

  // A run that goes on with a mark compares with the run as the mark does with its end.
  lemma {:induction false} MarkedRun(r: string, y: string)
    requires y != "" && CharSign(y[0], NUL) != 0
    ensures RunSign(r + y, r) == CharSign(y[0], NUL)
  {
    if r == "" {
      assert r + y == y;
    } else {
      assert Tail(r + y) == r[1..] + y;
      MarkedRun(r[1..], y);
    }
  }

  lemma {:induction false} RunLenAppend(v: string, w: string)
    ensures RunLen(v) < |v| ==> RunLen(v + w) == RunLen(v)
    ensures RunLen(v) == |v| ==> RunLen(v + w) == |v| + RunLen(w)
  {
    if v == "" {
      assert v + w == w;
    } else {
      assert (v + w)[1..] == v[1..] + w;
      RunLenAppend(v[1..], w);
    }
  }

  lemma {:induction false} DigitLenAppend(v: string, w: string)
    requires w != "" && !IsDigit(w[0])
    ensures DigitLen(v + w) == DigitLen(v)
  {
    if v == "" {
      assert v + w == w;
    } else {
      assert (v + w)[1..] == v[1..] + w;
      DigitLenAppend(v[1..], w);
    }
  }

  lemma HeadRun(s: string, n: nat)
    requires RunLen(s) == n
    ensures Head(s).run == s[..n]
  {
  }

  lemma TakePastAppend(v: string, w: string, n: nat)
    requires n <= |w|
    ensures (v + w)[..|v| + n] == v + w[..n] && v[..|v|] == v
  {
  }

  // All of v is one run of non-digits.
  lemma MarkedHead(v: string, tail: string)
    requires RunLen(v) == |v| && RunLen(tail) > 0 && CharSign(tail[0], NUL) != 0
    ensures RunSign(Head(v + tail).run, Head(v).run) == CharSign(tail[0], NUL)
  {
    var n := RunLen(tail);
    RunLenAppend(v, tail);
    HeadRun(v + tail, |v| + n);
    HeadRun(v, |v|);
    TakePastAppend(v, tail, n);
    MarkedRun(v, tail[..n]);
  }

  // The first token of v is complete.
  lemma SplitStep(v: string, tail: string, n: nat)
    requires n <= |v|
    ensures (v + tail)[..n] == v[..n] && (v + tail)[n..] == v[n..] + tail
  {
  }

  lemma MarkedStep(v: string, tail: string)
    requires RunLen(v) < |v| && tail != "" && !IsDigit(tail[0])
    ensures Head(v + tail) == Head(v) && Rest(v + tail) == Rest(v) + tail
  {
    RunLenAppend(v, tail);
    SplitStep(v, tail, RunLen(v));
    var u := v[RunLen(v)..];
    DigitLenAppend(u, tail);
    SplitStep(u, tail, DigitLen(u));
  }

  /** A part followed by a mark and anything sorts before the part alone if the mark is '~', and after
      it for every other mark. */
  lemma {:induction false} MarkedPart(v: string, mark: char, w: string)
    requires !IsDigit(mark) && mark != NUL
    ensures PartSign(v + ([mark] + w), v) == if mark == '~' then -1 else 1
    decreases |v|
  {
    var tail := [mark] + w;
    PartStep(v + tail, v);
    if RunLen(v) == |v| {
      MarkedHead(v, tail);
    } else {
      MarkedStep(v, tail);
      MarkedPart(Rest(v), mark, w);
      assert TokenSign(Head(v), Head(v)) == 0 by { TokenPreorder(); }
    }
  }

  // A suffix without separators lands in the last component.
  lemma SplitRevisionAppend(epoch: int, s: string, tail: string)
    requires '-' !in tail
    ensures var x, y := SplitRevision(epoch, s), SplitRevision(epoch, s + tail);
      y == x.(upstream := x.upstream + tail) || y == x.(revision := x.revision + tail)
  {
    LastIndexOfAppend(s, tail, '-');
    var j := LastIndexOf(s, '-');
    if j >= 0 {
      assert (s + tail)[..j] == s[..j];
      assert (s + tail)[j + 1..] == s[j + 1..] + tail;
    }
  }

  lemma {:induction false} IndexOfFirst(v: string, w: string, c: char)
    requires c in v
    ensures IndexOf(v + w, c) == IndexOf(v, c) >= 0
  {
    if v[0] != c {
      assert (v + w)[1..] == v[1..] + w;
      IndexOfFirst(v[1..], w, c);
    }
  }

  lemma {:induction false} LastIndexOfLast(v: string, w: string, c: char)
    requires c in w
    ensures LastIndexOf(v + w, c) == |v| + LastIndexOf(w, c) && LastIndexOf(w, c) >= 0
  {
    var t, n := v + w, |w| - 1;
    assert t[|t| - 1] == w[n] && t[..|t| - 1] == v + w[..n];
    if w[n] != c {
      assert w == w[..n] + [w[n]];
      LastIndexOfLast(v, w[..n], c);
    }
  }

  // What remains after the epoch.
  function AfterEpoch(v: string): string { var i := IndexOf(v, ':'); if i < 0 then v else v[i + 1..] }

  lemma SplitAfterEpoch(v: string, tail: string)
    requires ':' in v || ':' !in tail
    ensures exists epoch ::
      && SplitVersion(v) == SplitRevision(epoch, AfterEpoch(v))
      && SplitVersion(v + tail) == SplitRevision(epoch, AfterEpoch(v) + tail)
  {
    if ':' in v { IndexOfFirst(v, tail, ':'); } else { IndexOfAppend(v, tail, ':'); IndexOfAbsent(v, ':'); }
    var i := IndexOf(v, ':');
    if i >= 0 {
      assert (v + tail)[..i] == v[..i];
      assert (v + tail)[i + 1..] == v[i + 1..] + tail;
      assert SplitVersion(v) == SplitRevision(Atoi(v[..i]), AfterEpoch(v));
    } else {
      assert SplitVersion(v) == SplitRevision(0, AfterEpoch(v));
    }
  }

  lemma SameEpoch(x: Version, y: Version)
    requires x.epoch == y.epoch
    ensures PartSign(x.upstream, y.upstream) != 0 ==> VersionSign(x, y) == PartSign(x.upstream, y.upstream)
    ensures x.upstream == y.upstream ==> VersionSign(x, y) == PartSign(x.revision, y.revision)
  {
    assert PartSign(x.upstream, x.upstream) == 0 by { PartPreorder(); }
  }

  lemma {:induction false} IndexOfAbsentLast(s: string)
    requires '-' !in s
    ensures LastIndexOf(s, '-') == -1
  {
    if s != "" {
      assert s[|s| - 1] in s;
      IndexOfAbsentLast(s[..|s| - 1]);
    }
  }

  lemma {:induction false} LastIndexOfAt(s: string)
    requires LastIndexOf(s, '-') >= 0
    ensures s[LastIndexOf(s, '-')] == '-'
  {
    if s[|s| - 1] != '-' { LastIndexOfAt(s[..|s| - 1]); }
  }

  // A suffix without a hyphen lands in the last component.
  lemma PlainSuffix(epoch: int, s: string, w: string)
    requires '-' !in w
    ensures VersionSign(SplitRevision(epoch, s + ("~" + w)), SplitRevision(epoch, s)) == -1
  {
    var tail := "~" + w;
    assert tail == ['~'] + w;
    var x, y := SplitRevision(epoch, s + tail), SplitRevision(epoch, s);
    SplitRevisionAppend(epoch, s, tail);
    MarkedPart(y.upstream, '~', w);
    MarkedPart(y.revision, '~', w);
    SameEpoch(x, y);
  }

  // One with a hyphen makes its head a part of the upstream version.
  lemma HyphenSplits(epoch: int, s: string, w: string) returns (head: string)
    requires '-' in w
    ensures SplitRevision(epoch, s + ("~" + w)).epoch == epoch
    ensures SplitRevision(epoch, s + ("~" + w)).upstream == s + (['~'] + head)
  {
    var tail := "~" + w;
    assert tail == ['~'] + w && tail[1..] == w;
    LastIndexOfLast(s, tail, '-');
    LastIndexOfAt(tail);
    var k := LastIndexOf(tail, '-');
    assert k > 0;
    head := w[..k - 1];
    assert (s + tail)[..|s| + k] == s + (['~'] + head);
  }

  lemma HyphenOnPlain(epoch: int, s: string, w: string)
    requires '-' in w && '-' !in s
    ensures VersionSign(SplitRevision(epoch, s + ("~" + w)), SplitRevision(epoch, s)) == -1
  {
    var head := HyphenSplits(epoch, s, w);
    IndexOfAbsentLast(s);
    MarkedPart(s, '~', head);
    SameEpoch(SplitRevision(epoch, s + ("~" + w)), SplitRevision(epoch, s));
  }

  lemma AtLastHyphen(epoch: int, s: string)
    requires '-' in s
    ensures var y := SplitRevision(epoch, s); y.epoch == epoch && s == y.upstream + (['-'] + y.revision)
  {
    HyphenFound(s);
    SplitAt(s, LastIndexOf(s, '-'));
  }

  lemma HyphenFound(s: string)
    requires '-' in s
    ensures 0 <= LastIndexOf(s, '-') < |s| && s[LastIndexOf(s, '-')] == '-'
  {
    LastIndexOfLast("", s, '-');
    assert "" + s == s;
    LastIndexOfAt(s);
  }

  lemma SplitAt(s: string, i: nat)
    requires i < |s|
    ensures s == s[..i] + ([s[i]] + s[i + 1..])
  {
  }

  lemma Regroup(a: string, m: string, b: string, c: string)
    ensures (a + (m + b)) + c == a + (m + (b + c))
  {
  }

  lemma HyphenOnRevision(epoch: int, s: string, w: string)
    requires '-' in w && '-' in s
    ensures VersionSign(SplitRevision(epoch, s + ("~" + w)), SplitRevision(epoch, s)) == 1
  {
    var head := HyphenSplits(epoch, s, w);
    var x, y := SplitRevision(epoch, s + ("~" + w)), SplitRevision(epoch, s);
    AtLastHyphen(epoch, s);
    Regroup(y.upstream, ['-'], y.revision, ['~'] + head);
    MarkedPart(y.upstream, '-', y.revision + (['~'] + head));
    SameEpoch(x, y);
  }

  // What the suffix does after the epoch.
  lemma SuffixSign(epoch: int, s: string, w: string)
    ensures VersionSign(SplitRevision(epoch, s + ("~" + w)), SplitRevision(epoch, s)) 
      == if '-' in w && '-' in s then 1 else -1
  {
    if '-' !in w { PlainSuffix(epoch, s, w); }
    else if '-' !in s { HyphenOnPlain(epoch, s, w); }
    else { HyphenOnRevision(epoch, s, w); }
  }

  /** matcher.go:239-243 promises "1.2.3~rc1" < "1.2.3". So it is for every version and suffix, as long
      as the suffix does not bring the first colon, except that a suffix with a hyphen, on a version
      that has a revision, makes the revision part of the upstream version, and the result newer. */
  lemma PreReleaseExactly(v: string, w: string)
    requires ':' in v || ':' !in w
    ensures CompareVersions(v + ("~" + w), v) == if '-' in w && '-' in AfterEpoch(v) then 1 else -1
  {
    var tail := "~" + w;
    assert ':' in tail ==> ':' in w by { assert tail == ['~'] + w; }
    SplitAfterEpoch(v, tail);
    var epoch :| SplitVersion(v) == SplitRevision(epoch, AfterEpoch(v))
      && SplitVersion(v + tail) == SplitRevision(epoch, AfterEpoch(v) + tail);
    SuffixSign(epoch, AfterEpoch(v), w);
  }

  /** In particular a suffix without separators always makes an older version. */
  lemma PreReleaseIsOlder(v: string, w: string)
    requires ':' !in w && '-' !in w
    ensures CompareVersions(v + ("~" + w), v) == -1
  {
    PreReleaseExactly(v, w);
  }
}
