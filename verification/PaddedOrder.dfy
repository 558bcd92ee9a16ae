/** Comparing lists element by element as if each were followed by an endless supply of a filler.

    Version strings are ordered this way twice: non-digit runs character by character with "end of
    run" as filler, and versions token by token with the empty token as filler. */
module PaddedOrder {

  // A sign: the result of a three-way comparison.
  type Sign = s: int | -1 <= s <= 1

  function At<T>(s: seq<T>, filler: T, i: nat): T { if i < |s| then s[i] else filler }

  /** The sign of the first difference. */
  function Compare<T>(a: seq<T>, b: seq<T>, filler: T, cmp: (T, T) -> Sign): Sign
    decreases |a| + |b|
  {
    if a == [] && b == [] then 0
    else
      var c := cmp(At(a, filler, 0), At(b, filler, 0));
      if c != 0 then c
      else Compare(if a == [] then a else a[1..], if b == [] then b else b[1..], filler, cmp)
  }

  ghost predicate Preorder<T(!new)>(cmp: (T, T) -> Sign) {
    && (forall x :: cmp(x, x) == 0)
    && (forall x, y :: cmp(x, y) == -cmp(y, x))
    && (forall x, y, z :: cmp(x, y) <= 0 && cmp(y, z) <= 0 ==> cmp(x, z) <= 0)
  }

  /** What a preorder says of three elements at once. */
  lemma PreorderAt<T(!new)>(cmp: (T, T) -> Sign, x: T, y: T, z: T)
    requires Preorder(cmp)
    ensures cmp(x, y) == 0 ==> cmp(x, z) == cmp(y, z) && cmp(z, x) == cmp(z, y)
    ensures cmp(x, y) <= 0 && cmp(y, z) < 0 ==> cmp(x, z) < 0
    ensures cmp(x, y) < 0 && cmp(y, z) <= 0 ==> cmp(x, z) < 0
  {
    assert cmp(x, y) == -cmp(y, x) && cmp(y, z) == -cmp(z, y) && cmp(x, z) == -cmp(z, x);
    assert cmp(z, x) <= 0 && cmp(x, y) <= 0 ==> cmp(z, y) <= 0;
    assert cmp(y, z) <= 0 && cmp(z, x) <= 0 ==> cmp(y, x) <= 0;
    assert cmp(x, z) <= 0 && cmp(z, y) <= 0 ==> cmp(x, y) <= 0;
    assert cmp(y, x) <= 0 && cmp(x, z) <= 0 ==> cmp(y, z) <= 0;
  }

  function Tail<T>(s: seq<T>): seq<T> { if s == [] then s else s[1..] }

  lemma {:induction false} CompareReflexive<T(!new)>(a: seq<T>, filler: T, cmp: (T, T) -> Sign)
    requires Preorder(cmp)
    ensures Compare(a, a, filler, cmp) == 0
  {
    if a != [] { CompareReflexive(a[1..], filler, cmp); }
  }

  lemma {:induction false} CompareSymmetric<T(!new)>(a: seq<T>, b: seq<T>, filler: T, cmp: (T, T) -> Sign)
    requires Preorder(cmp)
    ensures Compare(a, b, filler, cmp) == -Compare(b, a, filler, cmp)
    decreases |a| + |b|
  {
    if a != [] || b != [] {
      assert cmp(At(a, filler, 0), At(b, filler, 0)) == -cmp(At(b, filler, 0), At(a, filler, 0));
      CompareSymmetric(Tail(a), Tail(b), filler, cmp);
    }
  }

  // Compare, also where both lists have run out.
  lemma CompareStep<T(!new)>(a: seq<T>, b: seq<T>, filler: T, cmp: (T, T) -> Sign)
    requires Preorder(cmp)
    ensures var c := cmp(At(a, filler, 0), At(b, filler, 0));
      Compare(a, b, filler, cmp) == if c != 0 then c else Compare(Tail(a), Tail(b), filler, cmp)
  {
    assert cmp(filler, filler) == 0;
  }

  lemma {:induction false} CompareTransitive<T(!new)>(a: seq<T>, b: seq<T>, c: seq<T>, filler: T, cmp: (T, T) -> Sign)
    requires Preorder(cmp)
    requires Compare(a, b, filler, cmp) <= 0 && Compare(b, c, filler, cmp) <= 0
    ensures Compare(a, c, filler, cmp) <= 0
    decreases |a| + |b| + |c|
  {
    if a != [] || b != [] || c != [] {
      var x, y, z := At(a, filler, 0), At(b, filler, 0), At(c, filler, 0);
      CompareStep(a, b, filler, cmp);
      CompareStep(b, c, filler, cmp);
      CompareStep(a, c, filler, cmp);
      PreorderAt(cmp, x, y, z);
      if cmp(x, y) == 0 && cmp(y, z) == 0 {
        CompareTransitive(Tail(a), Tail(b), Tail(c), filler, cmp);
      }
    }
  }

  /** Lists compare equal exactly when they agree at every position, the filler included. */
  lemma {:induction false} CompareZero<T(!new)>(a: seq<T>, b: seq<T>, filler: T, cmp: (T, T) -> Sign)
    requires Preorder(cmp)
    ensures Compare(a, b, filler, cmp) == 0 <==> forall i: nat :: cmp(At(a, filler, i), At(b, filler, i)) == 0
    decreases |a| + |b|
  {
    if a == [] && b == [] {
      assert cmp(filler, filler) == 0;
    } else {
      CompareZero(Tail(a), Tail(b), filler, cmp);
      CompareStep(a, b, filler, cmp);
      ShiftPositions(a, b, filler, cmp);
    }
  }

  /** The first position at which they differ decides. */
  lemma {:induction false} FirstDifference<T(!new)>(a: seq<T>, b: seq<T>, filler: T, cmp: (T, T) -> Sign, k: nat)
    requires Preorder(cmp)
    requires forall i: nat | i < k :: cmp(At(a, filler, i), At(b, filler, i)) == 0
    requires cmp(At(a, filler, k), At(b, filler, k)) != 0
    ensures Compare(a, b, filler, cmp) == cmp(At(a, filler, k), At(b, filler, k))
    decreases k
  {
    CompareStep(a, b, filler, cmp);
    if k > 0 {
      assert forall i: nat :: At(Tail(a), filler, i) == At(a, filler, i + 1);
      assert forall i: nat :: At(Tail(b), filler, i) == At(b, filler, i + 1);
      FirstDifference(Tail(a), Tail(b), filler, cmp, k - 1);
    }
  }

  lemma {:induction false} DifferenceExists<T(!new)>(a: seq<T>, b: seq<T>, filler: T, cmp: (T, T) -> Sign)
    returns (k: nat)
    requires Preorder(cmp) && Compare(a, b, filler, cmp) != 0
    ensures forall i: nat | i < k :: cmp(At(a, filler, i), At(b, filler, i)) == 0
    ensures cmp(At(a, filler, k), At(b, filler, k)) != 0
    decreases |a| + |b|
  {
    CompareStep(a, b, filler, cmp);
    if cmp(At(a, filler, 0), At(b, filler, 0)) != 0 {
      k := 0;
    } else {
      var l := DifferenceExists(Tail(a), Tail(b), filler, cmp);
      assert forall i: nat :: At(Tail(a), filler, i) == At(a, filler, i + 1);
      assert forall i: nat :: At(Tail(b), filler, i) == At(b, filler, i + 1);
      k := l + 1;
      forall i: nat | i < k ensures cmp(At(a, filler, i), At(b, filler, i)) == 0 {
        if i > 0 { assert cmp(At(Tail(a), filler, i - 1), At(Tail(b), filler, i - 1)) == 0; }
      }
    }
  }

  lemma ShiftPositions<T>(a: seq<T>, b: seq<T>, filler: T, cmp: (T, T) -> Sign)
    ensures (forall i: nat :: cmp(At(a, filler, i), At(b, filler, i)) == 0)
      <==> cmp(At(a, filler, 0), At(b, filler, 0)) == 0
           && forall i: nat :: cmp(At(Tail(a), filler, i), At(Tail(b), filler, i)) == 0
  {
    assert forall i: nat :: At(Tail(a), filler, i) == At(a, filler, i + 1);
    assert forall i: nat :: At(Tail(b), filler, i) == At(b, filler, i + 1);
    if forall i: nat :: cmp(At(Tail(a), filler, i), At(Tail(b), filler, i)) == 0 {
      forall i: nat | i > 0 ensures cmp(At(a, filler, i), At(b, filler, i)) == 0 {
        assert cmp(At(Tail(a), filler, i - 1), At(Tail(b), filler, i - 1)) == 0;
      }
    }
  }

  /** A list without the fillers at its end. */
  function Strip<T(==)>(s: seq<T>, filler: T): seq<T> {
    if s != [] && s[|s| - 1] == filler then Strip(s[..|s| - 1], filler) else s
  }

  lemma {:induction false} StripAt<T>(s: seq<T>, filler: T)
    ensures var r := Strip(s, filler);
      && (forall i: nat :: At(r, filler, i) == At(s, filler, i))
      && (r != [] ==> r[|r| - 1] != filler)
  {
    if s != [] && s[|s| - 1] == filler { StripAt(s[..|s| - 1], filler); }
  }

  /** Lists agree at every position exactly when they are equal without their final fillers. */
  lemma StripEqual<T>(a: seq<T>, b: seq<T>, filler: T)
    ensures Strip(a, filler) == Strip(b, filler) <==> forall i: nat :: At(a, filler, i) == At(b, filler, i)
  {
    StripAt(a, filler);
    StripAt(b, filler);
    var x, y := Strip(a, filler), Strip(b, filler);
    if forall i: nat :: At(a, filler, i) == At(b, filler, i) {
      assert At(x, filler, |x|) == At(y, filler, |x|) && At(x, filler, |y|) == At(y, filler, |y|);
      assert |x| > 0 ==> At(x, filler, |x| - 1) == At(y, filler, |x| - 1);
      assert |y| > 0 ==> At(x, filler, |y| - 1) == At(y, filler, |y| - 1);
      assert |x| == |y|;
      forall i | 0 <= i < |x| ensures x[i] == y[i] { assert At(x, filler, i) == At(y, filler, i); }
    }
  }
}
