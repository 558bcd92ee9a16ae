/** The order in which both JSON printers emit the keys of an object.

    Strings are compared by code point; the UTF-8 encoding keeps that order, so it is also the
    byte order of Go's sort.Strings, and it is the order of Python's str. */
module KeyOrder {
  import Sorting

  predicate StrLess(a: string, b: string) {
    if b == "" then false
    else if a == "" then true
    else if a[0] != b[0] then a[0] < b[0]
    else StrLess(a[1..], b[1..])
  }

  predicate StrictlySorted(ks: seq<string>) {
    forall i, j | 0 <= i < j < |ks| :: StrLess(ks[i], ks[j])
  }

  predicate Distinct(ks: seq<string>) {
    forall i, j | 0 <= i < j < |ks| :: ks[i] != ks[j]
  }

  function Elements(ks: seq<string>): set<string> { set k | k in ks }

  lemma {:induction false} LessTransitive(a: string, b: string, c: string)
    requires StrLess(a, b) && StrLess(b, c)
    ensures StrLess(a, c)
  {
    if a != "" && a[0] == b[0] == c[0] { LessTransitive(a[1..], b[1..], c[1..]); }
  }

  lemma {:induction false} LessTotal(a: string, b: string)
    ensures !(StrLess(a, b) && StrLess(b, a))
    ensures a == b || StrLess(a, b) || StrLess(b, a)
    ensures !StrLess(a, a)
  {
    if a != "" && b != "" && a[0] == b[0] {
      LessTotal(a[1..], b[1..]);
      assert a == [a[0]] + a[1..] && b == [b[0]] + b[1..];
    }
    if a != "" { LessTotal(a[1..], a[1..]); }
  }

  predicate BelowAt(a: string, b: string, i: nat) {
    i <= |a| && i < |b| && a[..i] == b[..i] && (i < |a| ==> a[i] < b[i])
  }

  // Up to some place the same, and there the lower character, or nothing more.
  ghost predicate TextBelow(a: string, b: string) { exists i: nat :: BelowAt(a, b, i) }

  lemma BelowTail(a: string, b: string, i: nat)
    requires a != "" && b != ""
    ensures BelowAt(a, b, i + 1) <==> a[0] == b[0] && BelowAt(a[1..], b[1..], i)
  {
    if i < |a| && i < |b| {
      assert a[..i + 1] == [a[0]] + a[1..][..i] && b[..i + 1] == [b[0]] + b[1..][..i];
      assert a[..i + 1][1..] == a[1..][..i] && b[..i + 1][1..] == b[1..][..i];
    }
  }

  /** StrLess is this order. */
  lemma {:induction false} LessExactly(a: string, b: string)
    ensures StrLess(a, b) <==> TextBelow(a, b)
    decreases |a|
  {
    assert BelowAt(a, b, 0) <==> b != "" && (a == "" || a[0] < b[0]);
    if a != "" && b != "" {
      LessExactly(a[1..], b[1..]);
      if i: nat :| BelowAt(a[1..], b[1..], i) { BelowTail(a, b, i); }
      if i: nat :| BelowAt(a, b, i) && i > 0 { BelowTail(a, b, i - 1); }
    }
  }

  lemma ElementsCons(k: string, ks: seq<string>)
    ensures Elements([k] + ks) == {k} + Elements(ks)
  {
    assert ([k] + ks)[0] == k;
    forall x | x in ks ensures x in [k] + ks {
      var i :| 0 <= i < |ks| && ks[i] == x;
      assert ([k] + ks)[i + 1] == x;
    }
  }

  lemma NoElements(ks: seq<string>)
    ensures ks != [] ==> Elements(ks) != {}
  {
    if ks != [] { assert ks[0] in Elements(ks); }
  }

  lemma LessWeak()
    ensures Sorting.WeakOrder(StrLess)
  {
    forall a, b ensures !(StrLess(a, b) && StrLess(b, a)) { LessTotal(a, b); }
    forall a, b, c ensures !StrLess(b, a) && !StrLess(c, b) ==> !StrLess(c, a) {
      LessTotal(a, b);
      LessTotal(b, c);
      LessTotal(c, a);
      if StrLess(a, b) && StrLess(b, c) { LessTransitive(a, b, c); }
    }
  }

  lemma SameElements(a: seq<string>, b: seq<string>)
    requires multiset(a) == multiset(b)
    ensures Elements(a) == Elements(b)
  {
    forall k ensures k in a <==> k in b { Sorting.SameMembers(a, b, k); }
  }

  function Sort(ks: seq<string>): (r: seq<string>)
    ensures Elements(r) == Elements(ks) && |r| == |ks|
  {
    SameElements(Sorting.Sort(ks, StrLess), ks);
    Sorting.Sort(ks, StrLess)
  }

  lemma {:induction false} CountOnce(ks: seq<string>, k: string)
    requires Distinct(ks)
    ensures multiset(ks)[k] <= 1
  {
    if ks != [] {
      CountOnce(ks[1..], k);
      assert ks == [ks[0]] + ks[1..];
      if ks[0] == k { assert k !in ks[1..]; }
    }
  }

  lemma PermutationDistinct(a: seq<string>, b: seq<string>)
    requires multiset(a) == multiset(b) && Distinct(a)
    ensures Distinct(b)
  {
    forall i, j | 0 <= i < j < |b| ensures b[i] != b[j] {
      CountOnce(a, b[i]);
      if b[i] == b[j] { Sorting.CountsTwice(b, i, j); }
    }
  }

  lemma SortSorted(ks: seq<string>)
    requires Distinct(ks)
    ensures StrictlySorted(Sort(ks))
  {
    var r := Sort(ks);
    LessWeak();
    Sorting.SortAscending(ks, StrLess);
    PermutationDistinct(ks, r);
    forall i, j | 0 <= i < j < |r| ensures StrLess(r[i], r[j]) { LessTotal(r[i], r[j]); }
  }

  /** A strictly sorted list is determined by its elements. */
  lemma {:induction false} SortedUnique(a: seq<string>, b: seq<string>)
    requires StrictlySorted(a) && StrictlySorted(b) && Elements(a) == Elements(b)
    ensures a == b
  {
    if a == [] {
      NoElements(b);
    } else {
      assert a[0] in Elements(b);
      assert b != [] && b[0] in Elements(a);
      LessTotal(a[0], b[0]);
      assert a[0] == b[0];
      assert a == [a[0]] + a[1..] && b == [b[0]] + b[1..];
      SortedDistinct(a);
      SortedDistinct(b);
      assert Elements(a[1..]) == Elements(a) - {a[0]};
      assert Elements(b[1..]) == Elements(b) - {b[0]};
      SortedUnique(a[1..], b[1..]);
    }
  }

  lemma SortedDistinct(a: seq<string>)
    requires StrictlySorted(a)
    ensures Distinct(a)
  {
    forall i, j | 0 <= i < j < |a| ensures a[i] != a[j] { LessTotal(a[i], a[i]); }
  }

  /** Some list holding exactly the elements of a set, each once: the iteration order of a Go map. */
  ghost predicate Enumerates(ks: seq<string>, s: set<string>) { Distinct(ks) && Elements(ks) == s }

  lemma {:induction false} EnumerationExists(s: set<string>)
    ensures exists ks :: Enumerates(ks, s)
  {
    if s == {} {
      assert Enumerates([], s);
    } else {
      var k :| k in s;
      EnumerationExists(s - {k});
      var ks :| Enumerates(ks, s - {k});
      assert k !in Elements(ks);
      ElementsCons(k, ks);
      assert Enumerates([k] + ks, s);
    }
  }

  /** The keys of an object in ascending order: what sorting any enumeration of them gives. */
  ghost function SortedKeys(s: set<string>): (r: seq<string>)
    ensures StrictlySorted(r) && Elements(r) == s
  {
    EnumerationExists(s);
    var ks :| Enumerates(ks, s);
    SortSorted(ks);
    Sort(ks)
  }

  /** Sorting forgets the order in which the keys came. */
  lemma SortAnyOrder(ks: seq<string>, s: set<string>)
    requires Enumerates(ks, s)
    ensures Sort(ks) == SortedKeys(s)
  {
    SortSorted(ks);
    SortedUnique(Sort(ks), SortedKeys(s));
  }
}
