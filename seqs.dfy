/**
 * Sequences seen through a function, and rearrangements of them: the
 * scheduler's freedom in the hash pipeline is a choice of order.
 */
module Seqs {

  /** Concatenation is associative. */
  lemma AppendAssoc<T>(a: seq<T>, b: seq<T>, c: seq<T>)
    ensures (a + b) + c == a + (b + c)
  {
  }

  /** `f` applied to every element. */
  function Map<A, B>(f: A -> B, s: seq<A>): (r: seq<B>)
    ensures |r| == |s|
  {
    if s == [] then [] else [f(s[0])] + Map(f, s[1..])
  }

  /** The indices 0, 1, ..., n - 1 in order. */
  function Iota(n: nat): (r: seq<nat>)
    ensures |r| == n && forall i :: 0 <= i < n ==> r[i] == i
  {
    if n == 0 then [] else Iota(n - 1) + [n - 1]
  }

  /** `order` lists every index below `n` exactly once. */
  predicate IsOrder(order: seq<nat>, n: nat) {
    multiset(order) == multiset(Iota(n))
  }

  lemma OrderBounded(order: seq<nat>, n: nat, k: nat)
    requires IsOrder(order, n) && k < |order|
    ensures order[k] < n && |order| == n
  {
    assert order[k] in multiset(Iota(n));
    assert |multiset(order)| == |multiset(Iota(n))|;
  }

  lemma {:induction false} MapAt<A, B>(f: A -> B, s: seq<A>, k: nat)
    requires k < |s|
    ensures Map(f, s)[k] == f(s[k])
  {
    if k > 0 {
      MapAt(f, s[1..], k - 1);
    }
  }

  lemma MapSnoc<A, B>(f: A -> B, s: seq<A>, k: nat)
    requires k < |s|
    ensures Map(f, s[..k + 1]) == Map(f, s[..k]) + [f(s[k])]
  {
    assert s[..k + 1] == s[..k] + [s[k]];
    MapConcat(f, s[..k], [s[k]]);
    assert Map(f, [s[k]]) == [f(s[k])] + Map(f, []);
  }

  /** Mapping a function of the index over 0..|s| - 1 maps the elements of `s`. */
  lemma MapIndices<A, B>(g: A -> B, s: seq<A>, f: nat -> B)
    requires forall i :: 0 <= i < |s| ==> f(i) == g(s[i])
    ensures Map(f, Iota(|s|)) == Map(g, s)
  {
    forall k | 0 <= k < |s| ensures Map(f, Iota(|s|))[k] == Map(g, s)[k] {
      MapAt(f, Iota(|s|), k);
      MapAt(g, s, k);
    }
  }

  // Rearranging the input rearranges the mapped output the same way.

  lemma {:induction false} MapConcat<A, B>(f: A -> B, s: seq<A>, t: seq<A>)
    ensures Map(f, s + t) == Map(f, s) + Map(f, t)
  {
    if s != [] {
      MapConcat(f, s[1..], t);
      assert (s + t)[1..] == s[1..] + t;
    } else {
      assert s + t == t;
    }
  }

  lemma {:induction false} MapPermutation<A, B>(f: A -> B, s: seq<A>, t: seq<A>)
    requires multiset(s) == multiset(t)
    ensures multiset(Map(f, s)) == multiset(Map(f, t))
  {
    if s == [] {
      assert |t| == |multiset(t)| == 0;
    } else {
      assert s[0] in multiset(t);
      var k :| 0 <= k < |t| && t[k] == s[0];
      RemoveMatching(s, t, k);
      MapPermutation(f, s[1..], t[..k] + t[k + 1..]);
      MapAround(f, t, k);
      assert Map(f, s) == [f(s[0])] + Map(f, s[1..]);
    }
  }

  lemma RemoveMatching<A>(s: seq<A>, t: seq<A>, k: nat)
    requires multiset(s) == multiset(t) && s != [] && k < |t| && t[k] == s[0]
    ensures multiset(s[1..]) == multiset(t[..k] + t[k + 1..])
  {
    assert s == [s[0]] + s[1..];
    assert t == t[..k] + [t[k]] + t[k + 1..];
    assert multiset(s[1..]) == multiset(s) - multiset{s[0]};
    assert multiset(t[..k] + t[k + 1..]) == multiset(t) - multiset{t[k]};
  }

  /** The mapped multiset, seen around position `k`. */
  lemma MapAround<A, B>(f: A -> B, t: seq<A>, k: nat)
    requires k < |t|
    ensures multiset(Map(f, t)) == multiset{f(t[k])} + multiset(Map(f, t[..k] + t[k + 1..]))
  {
    var before, x, after := t[..k], t[k], t[k + 1..];
    var m1, m2 := Map(f, before), Map(f, after);
    assert Map(f, t) == m1 + ([f(x)] + m2) by {
      SplitAt(t, k);
      MapConcat(f, before, [x] + after);
      MapConcat(f, [x], after);
      assert Map(f, [x]) == [f(x)] by {
        assert [x][1..] == [];
      }
    }
    assert Map(f, before + after) == m1 + m2 by {
      MapConcat(f, before, after);
    }
    MultisetAround(m1, f(x), m2);
  }

  lemma SplitAt<A>(t: seq<A>, k: nat)
    requires k < |t|
    ensures t == t[..k] + ([t[k]] + t[k + 1..])
  {
  }

  lemma MultisetAround<B>(m1: seq<B>, y: B, m2: seq<B>)
    ensures multiset(m1 + ([y] + m2)) == multiset{y} + multiset(m1 + m2)
  {
  }
}
