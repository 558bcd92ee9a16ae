/** Stable sorting; it stands for Python's sorted and list.sort. */
module Sorting {

  // A strict order in which "neither is below the other" is an equivalence.
  ghost predicate WeakOrder<T(!new)>(below: (T, T) -> bool) {
    && (forall a, b :: !(below(a, b) && below(b, a)))
    && (forall a, b, c :: !below(b, a) && !below(c, b) ==> !below(c, a))
  }

  predicate Ascending<T>(s: seq<T>, below: (T, T) -> bool) {
    forall i, j | 0 <= i < j < |s| :: !below(s[j], s[i])
  }

  function Insert<T>(x: T, s: seq<T>, below: (T, T) -> bool): (r: seq<T>)
    ensures multiset(r) == multiset(s) + multiset{x}
  {
    if s == [] || !below(s[0], x) then [x] + s
    else
      assert s == [s[0]] + s[1..];
      [s[0]] + Insert(x, s[1..], below)
  }

  function Sort<T>(s: seq<T>, below: (T, T) -> bool): (r: seq<T>)
    ensures multiset(r) == multiset(s) && |r| == |s|
  {
    if s == [] then []
    else
      assert s == [s[0]] + s[1..];
      var r := Insert(s[0], Sort(s[1..], below), below);
      assert |r| == |multiset(r)| == |multiset(s)|;
      r
  }

  lemma {:induction false} InsertAscending<T(!new)>(x: T, s: seq<T>, below: (T, T) -> bool)
    requires WeakOrder(below) && Ascending(s, below)
    ensures Ascending(Insert(x, s, below), below)
  {
    var r := Insert(x, s, below);
    if s == [] {
    } else if !below(s[0], x) {
      forall j | 0 < j < |r| ensures !below(r[j], x) {
        if j > 1 { assert !below(s[j - 1], s[0]); }
      }
    } else {
      var rest := Insert(x, s[1..], below);
      InsertAscending(x, s[1..], below);
      forall j | 0 <= j < |rest| ensures !below(rest[j], s[0]) {
        assert rest[j] in multiset(rest);
        if rest[j] != x {
          assert rest[j] in multiset(s[1..]);
          var k :| 0 <= k < |s[1..]| && s[1..][k] == rest[j];
          assert s[k + 1] == rest[j];
        }
      }
    }
  }

  lemma {:induction false} SortAscending<T(!new)>(s: seq<T>, below: (T, T) -> bool)
    requires WeakOrder(below)
    ensures Ascending(Sort(s, below), below)
  {
    if s != [] {
      SortAscending(s[1..], below);
      InsertAscending(s[0], Sort(s[1..], below), below);
    }
  }

  lemma SameMembers<T>(a: seq<T>, b: seq<T>, x: T)
    requires multiset(a) == multiset(b)
    ensures x in a <==> x in b
  {
    assert x in multiset(a) <==> x in multiset(b);
  }

  // An element at two positions counts twice.
  lemma CountsTwice<T>(s: seq<T>, i: nat, j: nat)
    requires i < j < |s| && s[i] == s[j]
    ensures multiset(s)[s[i]] >= 2
  {
    assert s == s[..j] + ([s[j]] + s[j + 1..]);
    assert s[..j][i] in multiset(s[..j]);
  }
}
