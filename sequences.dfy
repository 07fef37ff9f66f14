/**
 * Generic sequence operations behind the renderer's `Set`, `filter` and `map` calls,
 * with the facts the rest of the model uses about them.
 */
module Sequences {

  predicate NoDuplicates<T(==)>(xs: seq<T>)
  {
    forall i, j :: 0 <= i < j < |xs| ==> xs[i] != xs[j]
  }

  /** The position of the first occurrence of `x` in `xs`. */
  function FirstIndex<T(==)>(xs: seq<T>, x: T): (i: nat)
    requires x in xs
    ensures i < |xs| && xs[i] == x && x !in xs[..i]
  {
    if xs[0] == x then 0 else 1 + FirstIndex(xs[1..], x)
  }

  /**
   * `[...new Set(xs)]`: a `Set` is filled by visiting `xs` from left to right and keeps
   * its elements in insertion order, so each element appears once, where it first occurs.
   */
  function Distinct<T(==)>(xs: seq<T>): (unique: seq<T>)
    ensures |unique| <= |xs|
    ensures |xs| > 0 ==> |unique| > 0
  {
    if |xs| == 0 then []
    else
      var earlier := Distinct(xs[..|xs| - 1]);
      if xs[|xs| - 1] in earlier then earlier else earlier + [xs[|xs| - 1]]
  }

  /** The set holds exactly the elements of `xs`, each once. */
  lemma {:induction false} DistinctMembers<T>(xs: seq<T>)
    ensures forall x :: x in Distinct(xs) ==> x in xs
    ensures forall x :: x in xs ==> x in Distinct(xs)
    ensures NoDuplicates(Distinct(xs))
  {
    if |xs| > 0 {
      var init := xs[..|xs| - 1];
      DistinctMembers(init);
      assert xs == init + [xs[|xs| - 1]];
    }
  }

  lemma FirstIndexOfPrefix<T>(a: seq<T>, b: seq<T>, x: T)
    requires x in a
    ensures FirstIndex(a + b, x) == FirstIndex(a, x)
  {
    if a[0] != x {
      assert (a + b)[1..] == a[1..] + b;
      FirstIndexOfPrefix(a[1..], b, x);
    }
  }

  /** The set lists its elements in the order of their first occurrence in `xs`. */
  lemma {:induction false} DistinctOrder<T>(xs: seq<T>)
    ensures forall i, j :: 0 <= i < j < |Distinct(xs)| ==>
      Distinct(xs)[i] in xs && Distinct(xs)[j] in xs &&
      FirstIndex(xs, Distinct(xs)[i]) < FirstIndex(xs, Distinct(xs)[j])
  {
    if |xs| > 0 {
      var init, last := xs[..|xs| - 1], xs[|xs| - 1];
      assert xs == init + [last];
      DistinctOrder(init);
      DistinctMembers(init);
      var d := Distinct(init);
      forall x | x in d
        ensures x in xs && FirstIndex(xs, x) == FirstIndex(init, x) < |init|
      {
        assert x in init;
        FirstIndexOfPrefix(init, [last], x);
      }
      var k := FirstIndex(xs, last);
      if last !in d {
        assert last !in init;
        assert k == |init|;
      }
      var all := Distinct(xs);
      assert all == if last in d then d else d + [last];
      forall i, j | 0 <= i < j < |all|
        ensures all[i] in xs && all[j] in xs && FirstIndex(xs, all[i]) < FirstIndex(xs, all[j])
      {
        assert all[i] == d[i] && d[i] in d;
        if j < |d| {
          assert all[j] == d[j] && d[j] in d;
        } else {
          assert all[j] == last;
        }
      }
    } else {
      assert Distinct(xs) == [];
    }
  }

  /** The positions of `xs` at which `p` holds, in increasing order. */
  function Positions<T>(xs: seq<T>, p: T -> bool): (ps: seq<nat>)
    ensures forall k :: 0 <= k < |ps| ==> ps[k] < |xs| && p(xs[ps[k]])
    ensures forall k, l :: 0 <= k < l < |ps| ==> ps[k] < ps[l]
    ensures forall i :: 0 <= i < |xs| && p(xs[i]) ==> i in ps
  {
    if |xs| == 0 then []
    else
      var n := |xs| - 1;
      Positions(xs[..n], p) + (if p(xs[n]) then [n] else [])
  }

  /** `xs.filter(p).map(f)`. */
  function FilterMap<T, U>(xs: seq<T>, p: T -> bool, f: T -> U): (ys: seq<U>)
    ensures |ys| <= |xs|
  {
    if |xs| == 0 then []
    else
      var n := |xs| - 1;
      FilterMap(xs[..n], p, f) + (if p(xs[n]) then [f(xs[n])] else [])
  }

  /**
   * `xs.filter(p).map(f)` holds one value per element that passes `p`, in input order:
   * the k-th value comes from the k-th passing position.
   */
  lemma {:induction false} FilterMapAtPositions<T, U>(xs: seq<T>, p: T -> bool, f: T -> U)
    ensures var ps := Positions(xs, p);
      |FilterMap(xs, p, f)| == |ps| &&
      forall k :: 0 <= k < |ps| ==> FilterMap(xs, p, f)[k] == f(xs[ps[k]])
  {
    if |xs| > 0 {
      var n := |xs| - 1;
      FilterMapAtPositions(xs[..n], p, f);
      var ps' := Positions(xs[..n], p);
      forall k | 0 <= k < |ps'|
        ensures xs[..n][ps'[k]] == xs[ps'[k]]
      {
      }
    }
  }

  /** `xs.map(f)`: one value per element, in order. */
  function MapEach<T, U>(xs: seq<T>, f: T -> U): (ys: seq<U>)
    ensures |ys| == |xs|
    ensures forall i :: 0 <= i < |xs| ==> ys[i] == f(xs[i])
  {
    seq(|xs|, i requires 0 <= i < |xs| => f(xs[i]))
  }

  /** `a` can be obtained from `b` by deleting elements. */
  predicate IsSubsequence<T(==)>(a: seq<T>, b: seq<T>)
    decreases |b|
  {
    |a| == 0 || (|b| > 0 && if a[0] == b[0] then IsSubsequence(a[1..], b[1..]) else IsSubsequence(a, b[1..]))
  }

  /** The concatenation of `parts`, from left to right. */
  function Concat(parts: seq<string>): string
  {
    if |parts| == 0 then "" else Concat(parts[..|parts| - 1]) + parts[|parts| - 1]
  }
}
