/** Stable descending sort by a real-valued key, as Python's
    `list.sort(key=..., reverse=True)` orders records: non-increasing key,
    records with equal keys kept in their input order. */
module Sorting {

  predicate SortedDesc<T>(s: seq<T>, key: T -> real) {
    forall i, j :: 0 <= i < j < |s| ==> key(s[i]) >= key(s[j])
  }

  /** The records of `s` whose key is exactly `v`, in order. */
  function WithKey<T>(s: seq<T>, key: T -> real, v: real): seq<T> {
    if s == [] then []
    else (if key(s[0]) == v then [s[0]] else []) + WithKey(s[1..], key, v)
  }

  /** Inserts `x` into a sorted sequence after every record whose key is at
      least `key(x)`. */
  function InsertDesc<T>(x: T, t: seq<T>, key: T -> real): seq<T> {
    if t == [] then [x]
    else if key(t[0]) >= key(x) then [t[0]] + InsertDesc(x, t[1..], key)
    else [x] + t
  }

  /** Insertion sort: the reference ordering the in-place sort is proved
      against. */
  function SortDesc<T>(s: seq<T>, key: T -> real): seq<T> {
    if s == [] then []
    else InsertDesc(s[|s| - 1], SortDesc(s[..|s| - 1], key), key)
  }

  // ---------------------------------------------------------------------------
  // Insertion

  lemma {:induction false} InsertMultiset<T>(x: T, t: seq<T>, key: T -> real)
    ensures multiset(InsertDesc(x, t, key)) == multiset(t) + multiset{x}
  {
    if t != [] && key(t[0]) >= key(x) {
      InsertMultiset(x, t[1..], key);
      assert t == [t[0]] + t[1..];
    }
  }

  lemma {:induction false} InsertSorted<T>(x: T, t: seq<T>, key: T -> real)
    requires SortedDesc(t, key)
    ensures SortedDesc(InsertDesc(x, t, key), key)
  {
    if t != [] {
      HeadBounds(t, key);
      if key(t[0]) >= key(x) {
        SortedTail(t, key);
        InsertSorted(x, t[1..], key);
        InsertBounded(x, t[1..], key, key(t[0]));
        ConsSorted(t[0], InsertDesc(x, t[1..], key), key);
      } else {
        ConsSorted(x, t, key);
      }
    }
  }

  /** The head of a sorted sequence bounds every key in it. */
  lemma HeadBounds<T>(t: seq<T>, key: T -> real)
    requires t != [] && SortedDesc(t, key)
    ensures forall k :: 0 <= k < |t| ==> key(t[k]) <= key(t[0])
  {
  }

  /** A record whose key bounds a sorted sequence can go in front of it. */
  lemma ConsSorted<T>(h: T, r: seq<T>, key: T -> real)
    requires SortedDesc(r, key)
    requires forall k :: 0 <= k < |r| ==> key(r[k]) <= key(h)
    ensures SortedDesc([h] + r, key)
  {
    var c := [h] + r;
    forall i, j | 0 <= i < j < |c|
      ensures key(c[i]) >= key(c[j])
    {
      assert c[j] == r[j - 1];
      if i > 0 {
        assert c[i] == r[i - 1];
      }
    }
  }

  /** Insertion keeps every key under a bound that `x` and `t` are under. */
  lemma {:induction false} InsertBounded<T>(x: T, t: seq<T>, key: T -> real, b: real)
    requires key(x) <= b && forall k :: 0 <= k < |t| ==> key(t[k]) <= b
    ensures forall k :: 0 <= k < |InsertDesc(x, t, key)| ==> key(InsertDesc(x, t, key)[k]) <= b
  {
    if t != [] && key(t[0]) >= key(x) {
      InsertBounded(x, t[1..], key, b);
      var r := InsertDesc(x, t[1..], key);
      assert InsertDesc(x, t, key) == [t[0]] + r;
      assert forall k :: 1 <= k < |r| + 1 ==> ([t[0]] + r)[k] == r[k - 1];
    } else if t != [] {
      assert forall k :: 1 <= k < |t| + 1 ==> ([x] + t)[k] == t[k - 1];
    }
  }

  /** The keys of a sorted sequence that all lie below `v` hold no record
      with key `v`. */
  lemma {:induction false} WithKeyBelow<T>(t: seq<T>, key: T -> real, v: real)
    requires forall k :: 0 <= k < |t| ==> key(t[k]) < v
    ensures WithKey(t, key, v) == []
  {
    if t != [] {
      WithKeyBelow(t[1..], key, v);
    }
  }

  lemma {:induction false} WithKeyConcat<T>(a: seq<T>, b: seq<T>, key: T -> real, v: real)
    ensures WithKey(a + b, key, v) == WithKey(a, key, v) + WithKey(b, key, v)
  {
    if a != [] {
      assert (a + b)[0] == a[0];
      assert (a + b)[1..] == a[1..] + b;
      WithKeyConcat(a[1..], b, key, v);
      var h := if key(a[0]) == v then [a[0]] else [];
      assert WithKey(a + b, key, v) == h + WithKey(a[1..] + b, key, v);
      assert WithKey(a, key, v) == h + WithKey(a[1..], key, v);
    } else {
      assert a + b == b;
    }
  }

  /** Insertion keeps the order among equal keys: `x` lands after every
      record already present with the same key. */
  lemma {:induction false} InsertWithKey<T>(x: T, t: seq<T>, key: T -> real, v: real)
    requires SortedDesc(t, key)
    ensures WithKey(InsertDesc(x, t, key), key, v)
         == WithKey(t, key, v) + (if key(x) == v then [x] else [])
  {
    if t == [] {
    } else if key(t[0]) >= key(x) {
      SortedTail(t, key);
      InsertWithKey(x, t[1..], key, v);
      WithKeyCons(t[0], InsertDesc(x, t[1..], key), key, v);
      WithKeyCons(t[0], t[1..], key, v);
      assert [t[0]] + t[1..] == t;
    } else {
      WithKeyCons(x, t, key, v);
      if key(x) == v {
        HeadBounds(t, key);
        WithKeyBelow(t, key, v);
      }
    }
  }

  lemma WithKeyCons<T>(h: T, r: seq<T>, key: T -> real, v: real)
    ensures WithKey([h] + r, key, v) == (if key(h) == v then [h] else []) + WithKey(r, key, v)
  {
    assert ([h] + r)[1..] == r;
  }

  lemma SortedTail<T>(t: seq<T>, key: T -> real)
    requires t != [] && SortedDesc(t, key)
    ensures SortedDesc(t[1..], key)
  {
    forall i, j | 0 <= i < j < |t| - 1
      ensures key(t[1..][i]) >= key(t[1..][j])
    {
      assert t[1..][i] == t[i + 1] && t[1..][j] == t[j + 1];
    }
  }

  /** Inserting at a position `j` that splits the keys at `key(x)` is what
      `InsertDesc` does. */
  lemma {:induction false} InsertAt<T>(x: T, t: seq<T>, j: nat, key: T -> real)
    requires j <= |t|
    requires forall k :: 0 <= k < j ==> key(t[k]) >= key(x)
    requires forall k :: j <= k < |t| ==> key(t[k]) < key(x)
    ensures InsertDesc(x, t, key) == t[..j] + [x] + t[j..]
  {
    if j == 0 {
      if t != [] {
        assert key(t[0]) < key(x);
      }
    } else {
      InsertAt(x, t[1..], j - 1, key);
      assert t[1..][..j - 1] == t[1..j];
      assert t[1..][j - 1..] == t[j..];
      assert [t[0]] + t[1..j] == t[..j];
    }
  }

  // ---------------------------------------------------------------------------
  // The whole sort

  lemma {:induction false} SortDescPermutation<T>(s: seq<T>, key: T -> real)
    ensures multiset(SortDesc(s, key)) == multiset(s)
  {
    if s != [] {
      var n := |s| - 1;
      var front := SortDesc(s[..n], key);
      SortDescPermutation(s[..n], key);
      InsertMultiset(s[n], front, key);
      assert SortDesc(s, key) == InsertDesc(s[n], front, key);
      assert s == s[..n] + [s[n]];
      assert multiset(s) == multiset(s[..n]) + multiset{s[n]};
    }
  }

  lemma {:induction false} SortDescSorted<T>(s: seq<T>, key: T -> real)
    ensures SortedDesc(SortDesc(s, key), key)
  {
    if s != [] {
      var n := |s| - 1;
      SortDescSorted(s[..n], key);
      InsertSorted(s[n], SortDesc(s[..n], key), key);
    }
  }

  /** Stability: for every key value, the records with that key come out in
      the order they went in. */
  lemma {:induction false} SortDescStable<T>(s: seq<T>, key: T -> real, v: real)
    ensures WithKey(SortDesc(s, key), key, v) == WithKey(s, key, v)
  {
    if s != [] {
      var n := |s| - 1;
      SortDescStable(s[..n], key, v);
      InsertSortedWithKey(s[n], s[..n], key, v);
      assert s == s[..n] + [s[n]];
      WithKeyConcat(s[..n], [s[n]], key, v);
    }
  }

  /** `InsertWithKey` for the sorted prefix that `SortDesc` builds. */
  lemma InsertSortedWithKey<T>(x: T, front: seq<T>, key: T -> real, v: real)
    ensures WithKey(InsertDesc(x, SortDesc(front, key), key), key, v)
         == WithKey(SortDesc(front, key), key, v) + (if key(x) == v then [x] else [])
  {
    SortDescSorted(front, key);
    InsertWithKey(x, SortDesc(front, key), key, v);
  }

  // ---------------------------------------------------------------------------
  // In place

  /** Sorts `a` in place, stably, by non-increasing key. */
  method SortByKeyDesc<T>(a: array<T>, key: T -> real)
    modifies a
    ensures a[..] == SortDesc(old(a[..]), key)
  {
    ghost var input := a[..];
    var i := 0;
    while i < a.Length
      invariant 0 <= i <= a.Length
      invariant a[..i] == SortDesc(input[..i], key)
      invariant a[i..] == input[i..]
    {
      SortDescSorted(input[..i], key);
      InsertInPlace(a, i, key);
      assert input[..i + 1][..i] == input[..i];
      i := i + 1;
    }
    assert a[..] == a[..a.Length];
    assert input == input[..a.Length];
  }

  /** Moves `a[i]` left into the sorted run `a[..i]`, shifting the records
      with a smaller key one place right. */
  method InsertInPlace<T>(a: array<T>, i: nat, key: T -> real)
    requires i < a.Length && SortedDesc(a[..i], key)
    modifies a
    ensures a[..i + 1] == InsertDesc(old(a[i]), old(a[..i]), key)
    ensures a[i + 1..] == old(a[i + 1..])
  {
    var x := a[i];
    ghost var sorted := a[..i];
    var j := i;
    while j > 0 && key(a[j - 1]) < key(x)
      invariant 0 <= j <= i
      invariant forall k :: 0 <= k < j ==> a[k] == sorted[k]
      invariant forall k :: j < k <= i ==> a[k] == sorted[k - 1]
      invariant forall k :: j <= k < i ==> key(sorted[k]) < key(x)
      invariant forall k :: i < k < a.Length ==> a[k] == old(a[k])
    {
      a[j] := a[j - 1];
      j := j - 1;
    }
    a[j] := x;
    InsertedShape(a[..], sorted, x, j, key);
    assert forall k :: i < k < a.Length ==> a[..][k] == old(a[..])[k];
  }

  /** The array after the shifting loop: the sorted run with `x` dropped in at
      `j`, where every key before is at least `x`'s and every key after is
      smaller. */
  lemma InsertedShape<T>(b: seq<T>, sorted: seq<T>, x: T, j: nat, key: T -> real)
    requires SortedDesc(sorted, key) && j <= |sorted| < |b|
    requires forall k :: 0 <= k < j ==> b[k] == sorted[k]
    requires b[j] == x
    requires forall k :: j < k <= |sorted| ==> b[k] == sorted[k - 1]
    requires forall k :: j <= k < |sorted| ==> key(sorted[k]) < key(x)
    requires j > 0 ==> key(sorted[j - 1]) >= key(x)
    ensures b[..|sorted| + 1] == InsertDesc(x, sorted, key)
  {
    SortedPrefixAtLeast(sorted, j, key, key(x));
    InsertAt(x, sorted, j, key);
    Splice(b, sorted, x, j);
  }

  /** In a sorted sequence every key before position `j` is at least the key
      at `j - 1`. */
  lemma SortedPrefixAtLeast<T>(sorted: seq<T>, j: nat, key: T -> real, v: real)
    requires SortedDesc(sorted, key) && j <= |sorted|
    requires j > 0 ==> key(sorted[j - 1]) >= v
    ensures forall k :: 0 <= k < j ==> key(sorted[k]) >= v
  {
    forall k | 0 <= k < j
      ensures key(sorted[k]) >= v
    {
      assert key(sorted[k]) >= key(sorted[j - 1]);
    }
  }

  lemma Splice<T>(b: seq<T>, sorted: seq<T>, x: T, j: nat)
    requires j <= |sorted| < |b|
    requires forall k :: 0 <= k < j ==> b[k] == sorted[k]
    requires b[j] == x
    requires forall k :: j < k <= |sorted| ==> b[k] == sorted[k - 1]
    ensures b[..|sorted| + 1] == sorted[..j] + [x] + sorted[j..]
  {
    var c := sorted[..j] + [x] + sorted[j..];
    forall k | 0 <= k <= |sorted|
      ensures b[k] == c[k]
    {
      if k < j {
        assert c[k] == sorted[..j][k];
      } else if k > j {
        assert c[k] == sorted[j..][k - j - 1];
      }
    }
  }
}
