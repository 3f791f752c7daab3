/** The index-array primitives `recommend_from_keypoints` is built from:
    `np.argsort`, `np.argpartition`, the slice `s[-n:]` and the reversal
    `s[::-1]`. Sorting and partitioning are specified up to ties, as numpy
    leaves the order of equal values unspecified. */
module Selection {
  import opened Wrappers

  /** `p` lists each of the indices 0..n-1 exactly once. */
  predicate IsIndexPermutation(p: seq<nat>, n: nat) {
    && |p| == n
    && (forall i :: 0 <= i < n ==> p[i] < n)
    && (forall i, j :: 0 <= i < j < n ==> p[i] != p[j])
    && (forall x :: 0 <= x < n ==> x in p)
  }

  /** Every index in `p` is a position of a vector of length n. */
  predicate IndicesBelow(p: seq<nat>, n: nat) {
    forall i :: 0 <= i < |p| ==> p[i] < n
  }

  /** The values of `v` read through `p` do not decrease. */
  predicate AscendingBy(v: seq<real>, p: seq<nat>) {
    IndicesBelow(p, |v|) && forall i, j :: 0 <= i < j < |p| ==> v[p[i]] <= v[p[j]]
  }

  /** The values of `v` read through `p` do not increase. */
  predicate DescendingBy(v: seq<real>, p: seq<nat>) {
    IndicesBelow(p, |v|) && forall i, j :: 0 <= i < j < |p| ==> v[p[i]] >= v[p[j]]
  }

  /** The guarantee of `np.argpartition(v, kth)` after the index is
      normalised to m: nothing before position m is larger than the value
      at m, and nothing after it is smaller. */
  predicate PartitionedAt(v: seq<real>, p: seq<nat>, m: int) {
    && 0 <= m < |p|
    && IndicesBelow(p, |v|)
    && (forall i :: 0 <= i < m ==> v[p[i]] <= v[p[m]])
    && (forall j :: m < j < |p| ==> v[p[m]] <= v[p[j]])
  }

  function Swap(p: seq<nat>, i: nat, j: nat): seq<nat>
    requires i < |p| && j < |p|
  {
    p[i := p[j]][j := p[i]]
  }

  lemma SwapPermutation(p: seq<nat>, n: nat, i: nat, j: nat)
    requires IsIndexPermutation(p, n) && i < n && j < n
    ensures IsIndexPermutation(Swap(p, i, j), n)
  {
    var q := Swap(p, i, j);
    assert forall a :: 0 <= a < n ==> q[a] == p[if a == i then j else if a == j then i else a];
    forall x | 0 <= x < n
      ensures x in q
    {
      assert x in p;
      var m :| 0 <= m < |p| && p[m] == x;
      var m' := if m == i then j else if m == j then i else m;
      assert q[m'] == x;
    }
  }

  /** `np.argsort(v)`: an arrangement of v's indices under which v does not
      decrease (insertion sort on the index sequence). */
  method ArgSort(v: seq<real>) returns (p: seq<nat>)
    ensures IsIndexPermutation(p, |v|)
    ensures AscendingBy(v, p)
  {
    var n := |v|;
    p := seq(n, i => i);
    forall x | 0 <= x < n
      ensures x in p
    {
      assert p[x] == x;
    }
    for i := 0 to n
      invariant IsIndexPermutation(p, n)
      invariant forall a, b :: 0 <= a < b < i ==> v[p[a]] <= v[p[b]]
    {
      p := Insert(v, p, i);
    }
  }

  /** One insertion step: moves the index at position i left past every
      index with a larger value, so that positions 0..i end up sorted. */
  method Insert(v: seq<real>, p0: seq<nat>, i: nat) returns (p: seq<nat>)
    requires IsIndexPermutation(p0, |v|) && i < |v|
    requires forall a, b :: 0 <= a < b < i ==> v[p0[a]] <= v[p0[b]]
    ensures IsIndexPermutation(p, |v|)
    ensures forall a, b :: 0 <= a < b <= i ==> v[p[a]] <= v[p[b]]
  {
    p := p0;
    var j := i;
    while j > 0 && v[p[j - 1]] > v[p[j]]
      invariant 0 <= j <= i
      invariant IsIndexPermutation(p, |v|)
      invariant forall a, b :: 0 <= a < b <= i && a != j && b != j ==> v[p[a]] <= v[p[b]]
      invariant forall b :: j < b <= i ==> v[p[j]] < v[p[b]]
    {
      SwapPermutation(p, |v|, j - 1, j);
      var q := Swap(p, j - 1, j);
      assert q[j - 1] == p[j] && q[j] == p[j - 1];
      assert forall a :: 0 <= a < |v| && a != j - 1 && a != j ==> q[a] == p[a];
      p := q;
      j := j - 1;
    }
  }

  /** numpy's "kth out of bounds" error. */
  datatype SelectionError = KthOutOfBounds(kth: int)

  /** Python's reading of a possibly negative index into a sequence of length n. */
  function NormalizeIndex(i: int, n: nat): int {
    if i < 0 then i + n else i
  }

  /** `np.argpartition(v, kth)`: fails unless -|v| <= kth < |v|; otherwise an
      arrangement of v's indices partitioned at the normalised kth. A sorted
      arrangement is one such partition. */
  method ArgPartition(v: seq<real>, kth: int) returns (r: Result<seq<nat>, SelectionError>)
    ensures r.Failure? <==> !(-|v| <= kth < |v|)
    ensures r.Success? ==> IsIndexPermutation(r.value, |v|) && PartitionedAt(v, r.value, NormalizeIndex(kth, |v|))
  {
    if !(-|v| <= kth < |v|) {
      return Failure(KthOutOfBounds(kth));
    }
    var p := ArgSort(v);
    r := Success(p);
  }

  /** Python's slice `s[-n:]` for a count n >= 0: since `-0` is `0`, n == 0
      selects the WHOLE sequence, as does any n > |s|. */
  function PyTail<T>(s: seq<T>, n: nat): seq<T> {
    if n == 0 || n > |s| then s else s[|s| - n..]
  }

  /** The last n items of s. */
  function Tail<T>(s: seq<T>, n: nat): (t: seq<T>)
    requires n <= |s|
    ensures |t| == n
    ensures forall i :: 0 <= i < n ==> t[i] == s[|s| - n + i]
  {
    s[|s| - n..]
  }

  /** The slice as written agrees with the last-n reading whenever n >= 1
      (or there is nothing to slice). */
  lemma PyTailIsTail<T>(s: seq<T>, n: nat)
    requires n <= |s| && (n >= 1 || s == [])
    ensures PyTail(s, n) == Tail(s, n)
  {
  }

  /** ...and disagrees at n == 0: `s[-0:]` is all of s, not none of it. */
  lemma PyTailOfZero<T>(s: seq<T>)
    ensures PyTail(s, 0) == s && Tail(s, 0) == []
    ensures |s| >= 1 ==> PyTail(s, 0) != Tail(s, 0)
  {
  }

  /** `s[::-1]`. */
  function Reverse<T>(s: seq<T>): (r: seq<T>)
    ensures |r| == |s|
    ensures forall i :: 0 <= i < |s| ==> r[i] == s[|s| - 1 - i]
  {
    seq(|s|, i requires 0 <= i < |s| => s[|s| - 1 - i])
  }

  /** Reversing twice gives back the original sequence. */
  lemma ReverseReverse<T>(s: seq<T>)
    ensures Reverse(Reverse(s)) == s
  {
    var r := Reverse(Reverse(s));
    assert forall i :: 0 <= i < |s| ==> r[i] == s[i];
  }
  /** The indices in `s` are pairwise distinct. */
  predicate Distinct(s: seq<nat>) {
    forall i, j :: 0 <= i < j < |s| ==> s[i] != s[j]
  }

  /** After a partition at |v| - nb, the last nb indices of the arrangement
      are distinct, and no index outside them has a larger value than any
      index inside them. */
  lemma {:induction false} TopOfPartition(v: seq<real>, p: seq<nat>, nb: nat)
    requires IsIndexPermutation(p, |v|) && 1 <= nb <= |v|
    requires PartitionedAt(v, p, |v| - nb)
    ensures IndicesBelow(Tail(p, nb), |v|) && Distinct(Tail(p, nb))
    ensures forall x :: 0 <= x < |v| && x !in Tail(p, nb) ==>
              forall i :: 0 <= i < nb ==> v[x] <= v[Tail(p, nb)[i]]
  {
    var t, m := Tail(p, nb), |v| - nb;
    forall x | 0 <= x < |v| && x !in t
      ensures forall i :: 0 <= i < nb ==> v[x] <= v[t[i]]
    {
      assert x in p;
      var q :| 0 <= q < |p| && p[q] == x;
      forall i | 0 <= i < nb
        ensures v[x] <= v[t[i]]
      {
        assert t[i] == p[m + i];
        assert v[p[q]] <= v[p[m]];
      }
    }
  }

  /** A sorted arrangement is partitioned at every position. */
  lemma SortedIsPartitioned(v: seq<real>, p: seq<nat>, m: nat)
    requires AscendingBy(v, p) && m < |p|
    ensures PartitionedAt(v, p, m)
  {
  }

  /** Reading `ind` through an arrangement `order` of its positions
      (`ind[order]`) keeps exactly the same indices, still distinct. */
  lemma {:induction false} Rearranged(ind: seq<nat>, order: seq<nat>)
    requires Distinct(ind) && IsIndexPermutation(order, |ind|)
    ensures var s := seq(|ind|, i requires 0 <= i < |ind| => ind[order[i]]);
            Distinct(s) && forall x :: x in s <==> x in ind
  {
    var s := seq(|ind|, i requires 0 <= i < |ind| => ind[order[i]]);
    forall x | x in ind
      ensures x in s
    {
      var q :| 0 <= q < |ind| && ind[q] == x;
      assert q in order;
      var i :| 0 <= i < |order| && order[i] == q;
      assert s[i] == x;
    }
  }
}
