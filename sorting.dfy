/**
 * Sorting as Go's sort.Strings and sort.Slice do it: in place, by a
 * comparison, with no promise of stability. `le(x, y)` reads "x may stand
 * before y"; for sort.Slice with a strict `less` it is `!less(y, x)`.
 */
module Sorting {
  import opened Seqs

  ghost predicate Total<T(!new)>(le: (T, T) -> bool) {
    forall x, y :: le(x, y) || le(y, x)
  }

  ghost predicate Transitive<T(!new)>(le: (T, T) -> bool) {
    forall x, y, z :: le(x, y) && le(y, z) ==> le(x, z)
  }

  ghost predicate Antisymmetric<T(!new)>(le: (T, T) -> bool) {
    forall x, y :: le(x, y) && le(y, x) ==> x == y
  }

  predicate SortedBy<T>(s: seq<T>, le: (T, T) -> bool) {
    forall i, j :: 0 <= i < j < |s| ==> le(s[i], s[j])
  }

  /** Sorts `a` in place: afterwards it is ordered by `le` and holds the same
      elements as before. */
  method SortInPlace<T(!new)>(a: array<T>, le: (T, T) -> bool)
    requires Total(le) && Transitive(le)
    modifies a
    ensures SortedBy(a[..], le)
    ensures multiset(a[..]) == old(multiset(a[..]))
  {
    var i := 0;
    while i < a.Length
      invariant 0 <= i <= a.Length
      invariant forall k, l :: 0 <= k < l < i ==> le(a[k], a[l])
      invariant multiset(a[..]) == old(multiset(a[..]))
    {
      SinkInto(a, i, le);
      i := i + 1;
    }
  }

  /** One round of insertion sort: `a[i]` sinks into the sorted `a[..i]`. */
  method SinkInto<T(!new)>(a: array<T>, i: nat, le: (T, T) -> bool)
    requires i < a.Length
    requires Total(le) && Transitive(le)
    requires forall k, l :: 0 <= k < l < i ==> le(a[k], a[l])
    modifies a
    ensures forall k, l :: 0 <= k < l <= i ==> le(a[k], a[l])
    ensures multiset(a[..]) == old(multiset(a[..]))
  {
    var j := i;
    while j > 0 && !le(a[j - 1], a[j])
      invariant 0 <= j <= i
      invariant multiset(a[..]) == old(multiset(a[..]))
      invariant forall k, l :: 0 <= k < l < j ==> le(a[k], a[l])
      invariant forall k, l :: j < k < l <= i ==> le(a[k], a[l])
      invariant forall k, l :: 0 <= k < j < l <= i ==> le(a[k], a[l])
      invariant forall l :: j < l <= i ==> le(a[j], a[l])
    {
      Swap(a, j - 1, j);
      j := j - 1;
    }
  }

  method Swap<T>(a: array<T>, i: nat, j: nat)
    requires i < j < a.Length
    modifies a
    ensures a[i] == old(a[j]) && a[j] == old(a[i])
    ensures forall k :: 0 <= k < a.Length && k != i && k != j ==> a[k] == old(a[k])
    ensures multiset(a[..]) == old(multiset(a[..]))
  {
    a[i], a[j] := a[j], a[i];
  }

  // ---------------------------------------------------------------------
  // A functional sort, to name "the sorted order" of a sequence.

  function Insert<T>(x: T, s: seq<T>, le: (T, T) -> bool): seq<T> {
    if s == [] then [x]
    else if le(x, s[0]) then [x] + s
    else [s[0]] + Insert(x, s[1..], le)
  }

  function InsertionSort<T>(s: seq<T>, le: (T, T) -> bool): seq<T> {
    if s == [] then [] else Insert(s[0], InsertionSort(s[1..], le), le)
  }

  lemma {:induction false} InsertPermutes<T>(x: T, s: seq<T>, le: (T, T) -> bool)
    ensures multiset(Insert(x, s, le)) == multiset{x} + multiset(s)
  {
    if s != [] && !le(x, s[0]) {
      InsertPermutes(x, s[1..], le);
      assert s == [s[0]] + s[1..];
    }
  }

  lemma {:induction false} InsertCorrect<T(!new)>(x: T, s: seq<T>, le: (T, T) -> bool)
    requires Total(le) && Transitive(le) && SortedBy(s, le)
    ensures SortedBy(Insert(x, s, le), le)
    ensures multiset(Insert(x, s, le)) == multiset{x} + multiset(s)
  {
    InsertPermutes(x, s, le);
    if s != [] && !le(x, s[0]) {
      var t := s[1..];
      InsertCorrect(x, t, le);
      InsertPermutes(x, t, le);
      var r := Insert(x, t, le);
      assert le(s[0], x);
      assert forall k :: 0 <= k < |t| ==> le(s[0], t[k]) by {
        forall k | 0 <= k < |t| ensures le(s[0], t[k]) {
          assert t[k] == s[k + 1];
        }
      }
      BoundBelow(s[0], x, t, r, le);
      ConsSorted(s[0], r, le);
    }
  }

  /** A lower bound of x and of t is one of any arrangement of x and t. */
  lemma BoundBelow<T>(b: T, x: T, t: seq<T>, r: seq<T>, le: (T, T) -> bool)
    requires le(b, x) && forall k :: 0 <= k < |t| ==> le(b, t[k])
    requires multiset(r) == multiset{x} + multiset(t)
    ensures forall k :: 0 <= k < |r| ==> le(b, r[k])
  {
    forall k | 0 <= k < |r| ensures le(b, r[k]) {
      assert r[k] in multiset(r);
      if r[k] != x {
        assert r[k] in multiset(t);
        var m :| 0 <= m < |t| && t[m] == r[k];
      }
    }
  }

  /** A lower bound put in front of a sorted sequence keeps it sorted. */
  lemma ConsSorted<T>(b: T, r: seq<T>, le: (T, T) -> bool)
    requires SortedBy(r, le) && forall k :: 0 <= k < |r| ==> le(b, r[k])
    ensures SortedBy([b] + r, le)
  {
    var u := [b] + r;
    forall i, j | 0 <= i < j < |u| ensures le(u[i], u[j]) {
      if i == 0 {
        assert u[j] == r[j - 1];
      } else {
        assert u[i] == r[i - 1] && u[j] == r[j - 1];
      }
    }
  }

  /** The functional sort orders its input and is a permutation of it. */
  lemma {:induction false} InsertionSortCorrect<T(!new)>(s: seq<T>, le: (T, T) -> bool)
    requires Total(le) && Transitive(le)
    ensures SortedBy(InsertionSort(s, le), le)
    ensures multiset(InsertionSort(s, le)) == multiset(s)
  {
    if s != [] {
      InsertionSortCorrect(s[1..], le);
      InsertCorrect(s[0], InsertionSort(s[1..], le), le);
      assert s == [s[0]] + s[1..];
    }
  }

  /** Under an antisymmetric order there is only one sorted arrangement of a
      multiset of elements. */
  lemma {:induction false} SortedUnique<T(!new)>(s: seq<T>, t: seq<T>, le: (T, T) -> bool)
    requires Antisymmetric(le)
    requires SortedBy(s, le) && SortedBy(t, le)
    requires multiset(s) == multiset(t)
    ensures s == t
  {
    if s == [] {
      assert |t| == |multiset(t)| == 0;
    } else {
      assert |t| == |multiset(t)| == |s|;
      assert s[0] in multiset(t);
      var k :| 0 <= k < |t| && t[k] == s[0];
      assert t[0] in multiset(s);
      var m :| 0 <= m < |s| && s[m] == t[0];
      assert s[0] == t[0];
      assert s == [s[0]] + s[1..];
      assert t == [t[0]] + t[1..];
      assert multiset(s) == multiset{s[0]} + multiset(s[1..]);
      assert multiset(t) == multiset{t[0]} + multiset(t[1..]);
      assert multiset(s[1..]) == multiset(s) - multiset{s[0]};
      assert multiset(t[1..]) == multiset(t) - multiset{t[0]};
      SortedUnique(s[1..], t[1..], le);
    }
  }

  /** Any sorted permutation of `s` is the one InsertionSort produces. */
  lemma SortedIsInsertionSort<T(!new)>(s: seq<T>, t: seq<T>, le: (T, T) -> bool)
    requires Total(le) && Transitive(le) && Antisymmetric(le)
    requires SortedBy(t, le) && multiset(t) == multiset(s)
    ensures t == InsertionSort(s, le)
  {
    InsertionSortCorrect(s, le);
    SortedUnique(t, InsertionSort(s, le), le);
  }

  /** Sorting by a key fixes the sequence of keys, though not the order of
      elements whose keys tie: the keys come out in their one sorted order. */
  lemma SortedByKey<T(!new), K(!new)>(s: seq<T>, t: seq<T>, le: (T, T) -> bool, key: T -> K, kle: (K, K) -> bool)
    requires Total(kle) && Transitive(kle) && Antisymmetric(kle)
    requires forall x, y :: le(x, y) == kle(key(x), key(y))
    requires SortedBy(t, le) && multiset(t) == multiset(s)
    ensures Map(key, t) == InsertionSort(Map(key, s), kle)
  {
    var keys := Map(key, t);
    forall i, j | 0 <= i < j < |keys| ensures kle(keys[i], keys[j]) {
      MapAt(key, t, i);
      MapAt(key, t, j);
    }
    MapPermutation(key, t, s);
    SortedIsInsertionSort(Map(key, s), keys, kle);
  }
}
