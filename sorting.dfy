/**
 * The numpy index operations `sort_values` is built from: `np.argsort`
 * (indices that order a vector increasingly) and `np.flip` (reversal).
 */
module Sorting {

  /** `p` lists each of `0 .. n-1` exactly once. */
  predicate IsPermutation(p: seq<nat>, n: nat) {
    && |p| == n
    && (forall i :: 0 <= i < n ==> p[i] < n)
    && (forall i, j :: 0 <= i < j < n ==> p[i] != p[j])
    && (forall k :: 0 <= k < n ==> k in p)
  }

  /** Every index in `p` can be used to read `v`. */
  predicate IndexesInto(p: seq<nat>, v: seq<real>) {
    forall i :: 0 <= i < |p| ==> p[i] < |v|
  }

  /** Reading `v` at the indices `p` gives a non-decreasing sequence. */
  predicate AscendingBy(p: seq<nat>, v: seq<real>)
    requires IndexesInto(p, v)
  {
    forall i, j :: 0 <= i < j < |p| ==> v[p[i]] <= v[p[j]]
  }

  /** Reading `v` at the indices `p` gives a non-increasing sequence. */
  predicate DescendingBy(p: seq<nat>, v: seq<real>)
    requires IndexesInto(p, v)
  {
    forall i, j :: 0 <= i < j < |p| ==> v[p[i]] >= v[p[j]]
  }

  /** The indices in `p` are pairwise different. */
  predicate Distinct(p: seq<nat>) {
    forall i, j :: 0 <= i < j < |p| ==> p[i] != p[j]
  }

  /**
   * Inserts index `x` into `p`, which is ascending by `v`, before the first
   * index whose value is not smaller than `v[x]`.
   */
  function Insert(x: nat, p: seq<nat>, v: seq<real>): (r: seq<nat>)
    requires x < |v| && IndexesInto(p, v) && AscendingBy(p, v)
    ensures |r| == |p| + 1
    ensures forall y :: y in r <==> y in p || y == x
    ensures IndexesInto(r, v) && AscendingBy(r, v)
    ensures Distinct(p) && x !in p ==> Distinct(r)
  {
    if |p| == 0 || v[x] <= v[p[0]] then
      [x] + p
    else
      var rest := Insert(x, p[1..], v);
      HeadBelowRest(p[0], x, p[1..], rest, v);
      assert Distinct(p) && x !in p ==> p[0] !in p[1..] && Distinct(p[1..]);
      [p[0]] + rest
  }

  /** The head of an ascending list stays below whatever is inserted after it. */
  lemma HeadBelowRest(h: nat, x: nat, tail: seq<nat>, rest: seq<nat>, v: seq<real>)
    requires h < |v| && x < |v| && IndexesInto(tail, v) && IndexesInto(rest, v)
    requires v[h] < v[x]
    requires forall k :: 0 <= k < |tail| ==> v[h] <= v[tail[k]]
    requires forall y :: y in rest <==> y in tail || y == x
    ensures forall k :: 0 <= k < |rest| ==> v[h] <= v[rest[k]]
  {
    forall k | 0 <= k < |rest|
      ensures v[h] <= v[rest[k]]
    {
      assert rest[k] in rest;
      if rest[k] != x {
        var m :| 0 <= m < |tail| && tail[m] == rest[k];
      }
    }
  }

  /** Indices `0 .. k-1` ordered so that `v` read at them is non-decreasing. */
  function ArgSortPrefix(v: seq<real>, k: nat): (r: seq<nat>)
    requires k <= |v|
    ensures |r| == k
    ensures forall i :: 0 <= i < k ==> r[i] < k
    ensures Distinct(r)
    ensures forall j :: 0 <= j < k ==> j in r
    ensures IndexesInto(r, v) && AscendingBy(r, v)
  {
    if k == 0 then
      []
    else
      var p := ArgSortPrefix(v, k - 1);
      var r := Insert(k - 1, p, v);
      assert forall i :: 0 <= i < k ==> r[i] in r;
      r
  }

  /**
   * `np.argsort(v)`: the indices of `v` in an order that makes `v`
   * non-decreasing. Which of several equal values comes first is left open
   * by numpy's default sort; this insertion sort is one admissible order.
   */
  function ArgSort(v: seq<real>): (r: seq<nat>)
    ensures IsPermutation(r, |v|)
    ensures IndexesInto(r, v) && AscendingBy(r, v)
  {
    ArgSortPrefix(v, |v|)
  }

  /** `np.flip(p)`: the same indices, last first. */
  function Flip(p: seq<nat>): (r: seq<nat>)
    ensures |r| == |p|
    ensures forall i :: 0 <= i < |p| ==> r[i] == p[|p| - 1 - i]
  {
    seq(|p|, i requires 0 <= i < |p| => p[|p| - 1 - i])
  }

  /**
   * Reversing an increasing ranking gives a decreasing one over the same
   * indices.
   */
  lemma FlipAscending(p: seq<nat>, v: seq<real>)
    requires IndexesInto(p, v) && AscendingBy(p, v)
    ensures IndexesInto(Flip(p), v) && DescendingBy(Flip(p), v)
    ensures IsPermutation(p, |v|) ==> IsPermutation(Flip(p), |v|)
  {
    var r := Flip(p);
    var n := |p|;
    forall k | 0 <= k < n && k in p
      ensures k in r
    {
      var i :| 0 <= i < n && p[i] == k;
      assert r[n - 1 - i] == k;
    }
  }

  /** The set of the first `m` indices listed in `p`. */
  function Image(p: seq<nat>, m: nat): (s: set<nat>)
    requires m <= |p|
  {
    set j | 0 <= j < m :: p[j]
  }

  /** At most `m` indices, and exactly `m` when `p` has no repeats. */
  lemma {:induction false} ImageSize(p: seq<nat>, m: nat)
    requires m <= |p|
    ensures |Image(p, m)| <= m
    ensures Distinct(p) ==> |Image(p, m)| == m
  {
    if m > 0 {
      ImageSize(p, m - 1);
      assert Image(p, m) == Image(p, m - 1) + {p[m - 1]};
      if Distinct(p) {
        assert p[m - 1] !in Image(p, m - 1);
      }
    }
  }

  /** Removing a subset `a` from `b` leaves `|b| - |a|` elements. */
  lemma SubsetSize(a: set<nat>, b: set<nat>)
    requires a <= b
    ensures |b - a| == |b| - |a|
  {
  }

  /** Removing `b` from `a` removes at most `|b|` elements. */
  lemma DifferenceSize(a: set<nat>, b: set<nat>)
    ensures |a - b| >= |a| - |b|
  {
  }

  /** The indices at which `v` holds a value of at least `t`. */
  function AtLeast(v: seq<real>, t: real): (s: set<nat>) {
    set k: nat | k < |v| && v[k] >= t
  }

  /**
   * In a descending ranking the first `i + 1` positions all hold values of
   * at least `v[p[i]]`, so at least `i + 1` indices do.
   */
  lemma AtLeastRank(v: seq<real>, p: seq<nat>, i: nat)
    requires IsPermutation(p, |v|) && IndexesInto(p, v) && DescendingBy(p, v)
    requires i < |v|
    ensures |AtLeast(v, v[p[i]])| >= i + 1
  {
    ImageSize(p, i + 1);
    assert Image(p, i + 1) <= AtLeast(v, v[p[i]]);
    SubsetSize(Image(p, i + 1), AtLeast(v, v[p[i]]));
  }

  /**
   * Two descending rankings of the same values cannot disagree upwards at a
   * position: at least `i + 1` indices hold a value `>= v[p[i]]`, and the
   * first `i` positions of `q` cannot cover them all.
   */
  lemma RankNotAbove(v: seq<real>, p: seq<nat>, q: seq<nat>, i: nat)
    requires IsPermutation(p, |v|) && IsPermutation(q, |v|)
    requires IndexesInto(p, v) && DescendingBy(p, v)
    requires IndexesInto(q, v) && DescendingBy(q, v)
    requires i < |v|
    ensures v[p[i]] <= v[q[i]]
  {
    var above := AtLeast(v, v[p[i]]);
    AtLeastRank(v, p, i);
    ImageSize(q, i);
    DifferenceSize(above, Image(q, i));
    var k :| k in above - Image(q, i);
    assert k in q;
    var j :| 0 <= j < |q| && q[j] == k;
    assert j >= i;
  }

  /**
   * Every ranking that is a permutation and non-increasing reads the same
   * values position by position: how ties between equal values are ordered
   * changes the indices, never the ranked values.
   */
  lemma RankedValuesAgree(v: seq<real>, p: seq<nat>, q: seq<nat>)
    requires IsPermutation(p, |v|) && IsPermutation(q, |v|)
    requires IndexesInto(p, v) && DescendingBy(p, v)
    requires IndexesInto(q, v) && DescendingBy(q, v)
    ensures forall i :: 0 <= i < |v| ==> v[p[i]] == v[q[i]]
  {
    forall i | 0 <= i < |v|
      ensures v[p[i]] == v[q[i]]
    {
      RankNotAbove(v, p, q, i);
      RankNotAbove(v, q, p, i);
    }
  }
}
