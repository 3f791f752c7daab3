/** The discrete parts of `recommend_from_keypoints`: the keypoint mask and
    ratings vector, the k-nearest-rows selection, their weighted average,
    the item scores, and the threshold / top-k / descending-order step that
    maps the chosen items back to their global column indices. The ridge
    solve, the distances and the Gaussian kernel that turn the mask and the
    ratings into row weights are a function parameter `kernel`. */
module Recommend {
  import opened Wrappers
  import opened Matrices
  import opened Selection

  /** A keypoint `(id, rating)`. */
  datatype Keypoint = Keypoint(id: int, rating: real)

  datatype RecommendError =
    | UnknownId(id: int)          // KeyError: an id missing from idmap
    | IndexOutOfRange(index: int) // IndexError: a keypoint index outside the mask
    | NoSurvivors                 // argpartition on an empty vector: no score above threshold

  /** `mask_idx`: each keypoint's id, or `idmap[id]` when a map is given;
      the lookup fails on the first id the map lacks. */
  function MaskIndices(keypoints: seq<Keypoint>, idmap: Option<map<int, int>>): (r: Result<seq<int>, RecommendError>)
    ensures r.Success? <==> (idmap.Some? ==> forall t :: 0 <= t < |keypoints| ==> keypoints[t].id in idmap.value)
    ensures r.Success? ==> |r.value| == |keypoints|
    ensures r.Success? ==> forall t :: 0 <= t < |keypoints| ==>
              r.value[t] == if idmap.Some? then idmap.value[keypoints[t].id] else keypoints[t].id
    ensures r.Failure? ==>
              && r.error.UnknownId? && idmap.Some? && r.error.id !in idmap.value
              && exists t :: 0 <= t < |keypoints| && keypoints[t].id == r.error.id
                   && forall u :: 0 <= u < t ==> keypoints[u].id in idmap.value
  {
    if keypoints == [] then Success([])
    else
      var head := keypoints[0];
      if idmap.Some? && head.id !in idmap.value then Failure(UnknownId(head.id))
      else
        var index := if idmap.Some? then idmap.value[head.id] else head.id;
        match MaskIndices(keypoints[1..], idmap)
        case Failure(e) => Failure(e)
        case Success(rest) => Success([index] + rest)
  }

  /** numpy accepts an index i into a vector of length n when -n <= i < n. */
  predicate InBounds(i: int, n: nat) {
    -(n as int) <= i < n
  }

  /** The keypoints can be written into vectors of the given length: every
      id resolves and every resulting index is in bounds. */
  predicate KeypointsAccepted(keypoints: seq<Keypoint>, idmap: Option<map<int, int>>, length: nat) {
    var r := MaskIndices(keypoints, idmap);
    r.Success? && forall t :: 0 <= t < |r.value| ==> InBounds(r.value[t], length)
  }

  /** Position j is one of the first `t` keypoint indices (negative ones
      counted from the end). */
  function Marked(idx: seq<int>, length: nat, j: nat, t: nat): bool
    requires t <= |idx|
  {
    t > 0 && (NormalizeIndex(idx[t - 1], length) == j || Marked(idx, length, j, t - 1))
  }

  /** The value `ratings[idx[:t]] = values[:t]` leaves at position j: the
      last write to j wins, and 0 stays where nothing was written. */
  function WrittenRating(idx: seq<int>, values: seq<real>, length: nat, j: nat, t: nat): real
    requires t <= |idx| == |values|
  {
    if t == 0 then 0.0
    else if NormalizeIndex(idx[t - 1], length) == j then values[t - 1]
    else WrittenRating(idx, values, length, j, t - 1)
  }

  function Ratings(keypoints: seq<Keypoint>): (r: seq<real>)
    ensures |r| == |keypoints| && forall t :: 0 <= t < |keypoints| ==> r[t] == keypoints[t].rating
  {
    seq(|keypoints|, t requires 0 <= t < |keypoints| => keypoints[t].rating)
  }

  /** The confidence mask (its diagonal: `np.diag` of it is what the solve
      uses) and the ratings vector, both of length `length`: 0.1 and 0
      everywhere, then 1.0 and the keypoint's rating at each keypoint index. */
  method KeypointMask(keypoints: seq<Keypoint>, idmap: Option<map<int, int>>, length: nat)
    returns (r: Result<(seq<real>, seq<real>), RecommendError>)
    ensures r.Success? <==> KeypointsAccepted(keypoints, idmap, length)
    ensures MaskIndices(keypoints, idmap).Failure? ==> r == Failure(MaskIndices(keypoints, idmap).error)
    ensures r.Failure? && MaskIndices(keypoints, idmap).Success? ==>
              r.error.IndexOutOfRange? && !InBounds(r.error.index, length) && r.error.index in MaskIndices(keypoints, idmap).value
    ensures r.Success? ==>
              var idx, (mask, ratings) := MaskIndices(keypoints, idmap).value, r.value;
              && |mask| == length && |ratings| == length
              && (forall j :: 0 <= j < length ==> mask[j] == if Marked(idx, length, j, |idx|) then 1.0 else 0.1)
              && (forall j :: 0 <= j < length ==> ratings[j] == WrittenRating(idx, Ratings(keypoints), length, j, |idx|))
  {
    var resolved := MaskIndices(keypoints, idmap);
    if resolved.Failure? {
      return Failure(resolved.error);
    }
    var idx := resolved.value;
    for t := 0 to |idx|
      invariant forall u :: 0 <= u < t ==> InBounds(idx[u], length)
    {
      if !InBounds(idx[t], length) {
        return Failure(IndexOutOfRange(idx[t]));
      }
    }
    var mask := MarkKeypoints(idx, length);
    var ratings := WriteRatings(idx, Ratings(keypoints), length);
    r := Success((mask, ratings));
  }

  /** `mask = np.ones(length) * 0.1; mask[mask_idx] = 1.0`. */
  method MarkKeypoints(idx: seq<int>, length: nat) returns (mask: seq<real>)
    requires forall t :: 0 <= t < |idx| ==> InBounds(idx[t], length)
    ensures |mask| == length
    ensures forall j :: 0 <= j < length ==> mask[j] == if Marked(idx, length, j, |idx|) then 1.0 else 0.1
  {
    mask := seq(length, _ => 0.1);
    for t := 0 to |idx|
      invariant |mask| == length
      invariant forall j :: 0 <= j < length ==> mask[j] == if Marked(idx, length, j, t) then 1.0 else 0.1
    {
      mask := mask[NormalizeIndex(idx[t], length) := 1.0];
    }
  }

  /** `ratings = np.zeros(length); ratings[mask_idx] = values`. */
  method WriteRatings(idx: seq<int>, values: seq<real>, length: nat) returns (ratings: seq<real>)
    requires |idx| == |values|
    requires forall t :: 0 <= t < |idx| ==> InBounds(idx[t], length)
    ensures |ratings| == length
    ensures forall j :: 0 <= j < length ==> ratings[j] == WrittenRating(idx, values, length, j, |idx|)
  {
    ratings := seq(length, _ => 0.0);
    for t := 0 to |idx|
      invariant |ratings| == length
      invariant forall j :: 0 <= j < length ==> ratings[j] == WrittenRating(idx, values, length, j, t)
    {
      ratings := ratings[NormalizeIndex(idx[t], length) := values[t]];
    }
  }

  /** The mask is 1.0 exactly at the keypoint indices. */
  lemma {:induction false} MarkedIsKeypointIndex(idx: seq<int>, length: nat, j: nat, t: nat)
    requires t <= |idx|
    ensures Marked(idx, length, j, t) <==> exists u :: 0 <= u < t && NormalizeIndex(idx[u], length) == j
  {
    if t > 0 {
      MarkedIsKeypointIndex(idx, length, j, t - 1);
    }
  }

  /** A keypoint that no later keypoint overwrites leaves its own rating at
      its index; in particular, when the normalised indices are pairwise
      distinct, every keypoint does. */
  lemma {:induction false} RatingAtKeypoint(idx: seq<int>, values: seq<real>, length: nat, t: nat, n: nat)
    requires n <= |idx| == |values| && t < n
    requires forall u :: t < u < n ==> NormalizeIndex(idx[u], length) != NormalizeIndex(idx[t], length)
    requires 0 <= NormalizeIndex(idx[t], length)
    ensures WrittenRating(idx, values, length, NormalizeIndex(idx[t], length), n) == values[t]
  {
    if n - 1 != t {
      RatingAtKeypoint(idx, values, length, t, n - 1);
    }
  }

  /** Positions that are not keypoint indices keep rating 0. */
  lemma {:induction false} RatingOffKeypoints(idx: seq<int>, values: seq<real>, length: nat, j: nat, n: nat)
    requires n <= |idx| == |values|
    requires !Marked(idx, length, j, n)
    ensures WrittenRating(idx, values, length, j, n) == 0.0
  {
    if n > 0 {
      RatingOffKeypoints(idx, values, length, j, n - 1);
    }
  }

  /** The mask and ratings vectors that accepted keypoints give: 0.1 and 0
      everywhere, then 1.0 and the last rating written at each keypoint
      index. */
  function KeypointVectors(keypoints: seq<Keypoint>, idmap: Option<map<int, int>>, length: nat): (v: (seq<real>, seq<real>))
    requires KeypointsAccepted(keypoints, idmap, length)
    ensures |v.0| == length && |v.1| == length
  {
    var idx := MaskIndices(keypoints, idmap).value;
    (seq(length, j requires 0 <= j < length => if Marked(idx, length, j, |idx|) then 1.0 else 0.1),
     seq(length, j requires 0 <= j < length => WrittenRating(idx, Ratings(keypoints), length, j, |idx|)))
  }

  /** What `top_idx` and `top_w` promise: min(knn_A, len(w)) distinct rows,
      in ascending order of weight, with their weights, and no row left out
      has a larger weight than a selected one. */
  predicate IsNeighbourSelection(w: seq<real>, knnA: nat, top: seq<nat>, topW: seq<real>) {
    && |top| == Min(knnA, |w|) && |topW| == |top|
    && IndicesBelow(top, |w|) && Distinct(top)
    && (forall i :: 0 <= i < |top| ==> topW[i] == w[top[i]])
    && AscendingBy(w, top)
    && (forall x :: 0 <= x < |w| && x !in top ==> forall i :: 0 <= i < |top| ==> w[x] <= w[top[i]])
  }

  /** `np.argsort(w)[-nb:]` with nb = min(knn_A, len(w)), and the matching
      weights `w[idx][-nb:]`: the nb largest weights, in ascending order. */
  method SelectNeighbours(w: seq<real>, knnA: nat) returns (top: seq<nat>, topW: seq<real>)
    requires knnA >= 1
    ensures IsNeighbourSelection(w, knnA, top, topW)
  {
    var idx := ArgSort(w);
    var nb := Min(knnA, |w|);
    PyTailIsTail(idx, nb);
    top := Tail(idx, nb);
    var sortedW := seq(|idx|, i requires 0 <= i < |idx| => w[idx[i]]);
    topW := Tail(sortedW, nb);
    if nb >= 1 {
      SortedIsPartitioned(w, idx, |w| - nb);
      TopOfPartition(w, idx, nb);
    }
  }

  /** The sum of topW[i] * a[top[i]][c] over the first n selected rows. */
  function WeightedColumnSum(a: Matrix, rank: nat, top: seq<nat>, topW: seq<real>, c: nat, n: nat): real
    requires IsMatrix(a, |a|, rank) && c < rank
    requires IndicesBelow(top, |a|) && n <= |top| == |topW|
  {
    if n == 0 then 0.0 else WeightedColumnSum(a, rank, top, topW, c, n - 1) + topW[n - 1] * a[top[n - 1]][c]
  }

  /** `np.sum(A[top_idx] * top_w[:, np.newaxis], axis=0) / np.sum(top_w)`. */
  function WeightedAverage(a: Matrix, rank: nat, top: seq<nat>, topW: seq<real>): (row: seq<real>)
    requires IsMatrix(a, |a|, rank) && IndicesBelow(top, |a|) && |top| == |topW|
    requires Sum(topW) != 0.0
    ensures |row| == rank
  {
    seq(rank, c requires 0 <= c < rank => WeightedColumnSum(a, rank, top, topW, c, |top|) / Sum(topW))
  }

  lemma {:induction false} WeightedColumnSumBounds(a: Matrix, rank: nat, top: seq<nat>, topW: seq<real>, c: nat, n: nat, lo: real, hi: real)
    requires IsMatrix(a, |a|, rank) && c < rank
    requires IndicesBelow(top, |a|) && n <= |top| == |topW|
    requires forall i :: 0 <= i < |top| ==> topW[i] >= 0.0 && lo <= a[top[i]][c] <= hi
    ensures lo * Sum(topW[..n]) <= WeightedColumnSum(a, rank, top, topW, c, n) <= hi * Sum(topW[..n])
  {
    if n > 0 {
      WeightedColumnSumBounds(a, rank, top, topW, c, n - 1, lo, hi);
      assert topW[..n][..n - 1] == topW[..n - 1];
      assert Sum(topW[..n]) == Sum(topW[..n - 1]) + topW[n - 1];
      AddBetween(Sum(topW[..n - 1]), WeightedColumnSum(a, rank, top, topW, c, n - 1), topW[n - 1], a[top[n - 1]][c], lo, hi);
    }
  }

  /** One more non-negative weight wt on a value x in [lo, hi] keeps the
      weighted sum s between lo and hi times the total weight. */
  lemma AddBetween(total: real, s: real, wt: real, x: real, lo: real, hi: real)
    requires lo * total <= s <= hi * total
    requires wt >= 0.0 && lo <= x <= hi
    ensures lo * (total + wt) <= s + wt * x <= hi * (total + wt)
  {
    assert wt * (x - lo) >= 0.0;
    assert wt * (hi - x) >= 0.0;
  }

  /** The average is a convex combination of the selected rows: with
      non-negative weights of positive total, each component lies between
      the least and the greatest value the selected rows have there. */
  lemma WeightedAverageBounds(a: Matrix, rank: nat, top: seq<nat>, topW: seq<real>, c: nat, lo: real, hi: real)
    requires IsMatrix(a, |a|, rank) && IndicesBelow(top, |a|) && |top| == |topW| && c < rank
    requires Sum(topW) > 0.0
    requires forall i :: 0 <= i < |top| ==> topW[i] >= 0.0 && lo <= a[top[i]][c] <= hi
    ensures lo <= WeightedAverage(a, rank, top, topW)[c] <= hi
  {
    WeightedColumnSumBounds(a, rank, top, topW, c, |top|, lo, hi);
    assert topW[..|top|] == topW;
    QuotientBounds(WeightedColumnSum(a, rank, top, topW, c, |top|), Sum(topW), lo, hi);
  }

  lemma QuotientBounds(s: real, total: real, lo: real, hi: real)
    requires total > 0.0 && lo * total <= s <= hi * total
    ensures lo <= s / total <= hi
  {
    var q := s / total;
    assert q * total == s;
    assert (q - lo) * total >= 0.0;
    assert (hi - q) * total >= 0.0;
  }

  /** Non-negative weights have a non-negative total. */
  lemma {:induction false} SumNonNegative(s: seq<real>)
    requires forall i :: 0 <= i < |s| ==> s[i] >= 0.0
    ensures Sum(s) >= 0.0
  {
    if s != [] {
      SumNonNegative(s[..|s| - 1]);
    }
  }

  /** Non-negative weights, one of them (at p) positive, have a positive total. */
  lemma {:induction false} SumWithPositive(s: seq<real>, p: nat)
    requires p < |s| && s[p] > 0.0
    requires forall i :: 0 <= i < |s| ==> s[i] >= 0.0
    ensures Sum(s) > 0.0
  {
    var n := |s| - 1;
    if p == n {
      SumNonNegative(s[..n]);
    } else {
      SumWithPositive(s[..n], p);
    }
  }

  /** With non-negative weights of which one is positive, the selected
      weights have a positive total, so `np.sum(top_w)` never divides by
      zero: the largest weight is always among the selected ones. */
  lemma SelectedWeightsPositive(w: seq<real>, knnA: nat, top: seq<nat>, topW: seq<real>, p: nat)
    requires knnA >= 1 && IsNeighbourSelection(w, knnA, top, topW)
    requires p < |w| && w[p] > 0.0
    requires forall i :: 0 <= i < |w| ==> w[i] >= 0.0
    ensures Sum(topW) > 0.0
  {
    if p in top {
      var q :| 0 <= q < |top| && top[q] == p;
      SumWithPositive(topW, q);
    } else {
      assert w[p] <= w[top[0]];
      SumWithPositive(topW, 0);
    }
  }

  /** The score of item column j: row . b[:, j] over the first n components. */
  function ColumnScore(row: seq<real>, b: Matrix, length: nat, j: nat, n: nat): real
    requires IsMatrix(b, |row|, length) && j < length && n <= |row|
  {
    if n == 0 then 0.0 else ColumnScore(row, b, length, j, n - 1) + row[n - 1] * b[n - 1][j]
  }

  /** `raw = row_a.dot(B)`: one score per item column. */
  function Scores(row: seq<real>, b: Matrix, length: nat): (raw: seq<real>)
    requires IsMatrix(b, |row|, length)
    ensures |raw| == length
  {
    seq(length, j requires 0 <= j < length => ColumnScore(row, b, length, j, |row|))
  }

  /** Non-negative factors (what training's clamp keeps) give non-negative
      scores. */
  lemma {:induction false} ColumnScoreNonNegative(row: seq<real>, b: Matrix, length: nat, j: nat, n: nat)
    requires IsMatrix(b, |row|, length) && j < length && n <= |row|
    requires forall c :: 0 <= c < |row| ==> row[c] >= 0.0 && b[c][j] >= 0.0
    ensures ColumnScore(row, b, length, j, n) >= 0.0
  {
    if n > 0 {
      ColumnScoreNonNegative(row, b, length, j, n - 1);
      assert row[n - 1] * b[n - 1][j] >= 0.0;
    }
  }

  /** `np.arange(len(raw))[raw > threshold]`: the positions of the scores
      above the threshold, in increasing order, all of them. */
  function Survivors(raw: seq<real>, threshold: real): (pos: seq<nat>)
    ensures forall i :: 0 <= i < |pos| ==> pos[i] < |raw| && raw[pos[i]] > threshold
    ensures forall i, j :: 0 <= i < j < |pos| ==> pos[i] < pos[j]
    ensures forall s :: 0 <= s < |raw| && raw[s] > threshold ==> s in pos
  {
    if raw == [] then []
    else
      var n := |raw| - 1;
      Survivors(raw[..n], threshold) + (if raw[n] > threshold then [n] else [])
  }

  /** What the returned `elems` promise: min(k, #survivors) distinct
      positions of scores above the threshold, in non-increasing order of
      score, and no survivor left out scores higher than one returned. */
  ghost predicate IsTopK(raw: seq<real>, threshold: real, k: nat, elems: seq<nat>) {
    && |elems| == Min(k, |Survivors(raw, threshold)|)
    && (forall i :: 0 <= i < |elems| ==> elems[i] < |raw| && raw[elems[i]] > threshold)
    && Distinct(elems)
    && (forall i, j :: 0 <= i < j < |elems| ==> raw[elems[i]] >= raw[elems[j]])
    && (forall s :: 0 <= s < |raw| && raw[s] > threshold && s !in elems ==>
          forall i :: 0 <= i < |elems| ==> raw[s] <= raw[elems[i]])
  }

  /** The end of `recommend_from_keypoints`: filter by threshold, take the nb = min(k, #survivors)
      largest with `argpartition(points, -nb)[-nb:]`, sort those ascending
      with `argsort`, reverse, and map back to global positions. */
  method SelectTopK(raw: seq<real>, k: nat, threshold: real) returns (r: Result<seq<nat>, RecommendError>)
    requires k >= 1
    ensures r.Failure? <==> forall s :: 0 <= s < |raw| ==> raw[s] <= threshold
    ensures r.Failure? ==> r.error == NoSurvivors
    ensures r.Success? ==> IsTopK(raw, threshold, k, r.value)
  {
    var position := Survivors(raw, threshold);
    var points := seq(|position|, i requires 0 <= i < |position| => raw[position[i]]);
    var top := LargestPoints(points, k);
    NoSurvivorsIffEmpty(raw, threshold);
    if top.Failure? {
      return Failure(NoSurvivors);
    }
    var ind := top.value;
    var desc := SortDescending(points, ind);
    var elems := seq(|desc|, i requires 0 <= i < |desc| => position[desc[i]]);
    MapBack(raw, threshold, k, position, points, ind, desc, elems);
    r := Success(elems);
  }

  /** `np.argpartition(points, -nb)[-nb:]` with nb = min(k, len(points)):
      the positions of the nb largest points, in no particular order; numpy
      raises when there are no points at all. */
  method LargestPoints(points: seq<real>, k: nat) returns (r: Result<seq<nat>, SelectionError>)
    requires k >= 1
    ensures r.Failure? <==> points == []
    ensures r.Success? ==>
              && |r.value| == Min(k, |points|)
              && IndicesBelow(r.value, |points|) && Distinct(r.value)
              && forall x :: 0 <= x < |points| && x !in r.value ==>
                   forall i :: 0 <= i < |r.value| ==> points[x] <= points[r.value[i]]
  {
    var nb := Min(k, |points|);
    var part := ArgPartition(points, -nb);
    if part.Failure? {
      return Failure(part.error);
    }
    PyTailIsTail(part.value, nb);
    TopOfPartition(points, part.value, nb);
    r := Success(Tail(part.value, nb));
  }

  /** There is nothing to select exactly when no score is above the threshold. */
  lemma NoSurvivorsIffEmpty(raw: seq<real>, threshold: real)
    ensures Survivors(raw, threshold) == [] <==> forall s :: 0 <= s < |raw| ==> raw[s] <= threshold
  {
    var position := Survivors(raw, threshold);
    if position != [] {
      assert position[0] < |raw| && raw[position[0]] > threshold;
    }
  }

  /** `ind[np.argsort(points[ind])][::-1]`: the same indices, ordered by
      non-increasing value. */
  method SortDescending(points: seq<real>, ind: seq<nat>) returns (desc: seq<nat>)
    requires IndicesBelow(ind, |points|) && Distinct(ind)
    ensures |desc| == |ind| && Distinct(desc) && (forall x :: x in desc <==> x in ind)
    ensures DescendingBy(points, desc)
  {
    var values := seq(|ind|, i requires 0 <= i < |ind| => points[ind[i]]);
    var order := ArgSort(values);
    var ascending := seq(|ind|, i requires 0 <= i < |ind| => ind[order[i]]);
    Rearranged(ind, order);
    desc := Reverse(ascending);
    ReversedDescending(points, ascending);
  }

  /** Reversing an ascending arrangement gives a descending one with the
      same, still distinct, indices. */
  lemma ReversedDescending(points: seq<real>, ascending: seq<nat>)
    requires AscendingBy(points, ascending) && Distinct(ascending)
    ensures var desc := Reverse(ascending);
            Distinct(desc) && DescendingBy(points, desc) && forall x :: x in desc <==> x in ascending
  {
    var desc := Reverse(ascending);
    forall x | x in ascending
      ensures x in desc
    {
      var i :| 0 <= i < |ascending| && ascending[i] == x;
      assert desc[|ascending| - 1 - i] == x;
    }
  }

  /** The proof of SelectTopK's result, from the properties of its steps. */
  lemma MapBack(raw: seq<real>, threshold: real, k: nat, position: seq<nat>, points: seq<real>,
                ind: seq<nat>, desc: seq<nat>, elems: seq<nat>)
    requires position == Survivors(raw, threshold)
    requires |ind| == Min(k, |position|)
    requires |points| == |position| && forall i :: 0 <= i < |position| ==> points[i] == raw[position[i]]
    requires IndicesBelow(ind, |points|) && Distinct(ind)
    requires forall x :: 0 <= x < |points| && x !in ind ==> forall i :: 0 <= i < |ind| ==> points[x] <= points[ind[i]]
    requires |desc| == |ind| && Distinct(desc) && (forall x :: x in desc <==> x in ind)
    requires DescendingBy(points, desc)
    requires |elems| == |desc| && forall i :: 0 <= i < |desc| ==> elems[i] == position[desc[i]]
    ensures IsTopK(raw, threshold, k, elems)
  {
    MapBackDistinct(position, desc, elems);
    forall s | 0 <= s < |raw| && raw[s] > threshold && s !in elems
      ensures forall i :: 0 <= i < |elems| ==> raw[s] <= raw[elems[i]]
    {
      MapBackDominates(raw, threshold, position, points, ind, desc, elems, s);
    }
  }

  /** Strictly increasing positions keep distinct subset indices distinct. */
  lemma MapBackDistinct(position: seq<nat>, desc: seq<nat>, elems: seq<nat>)
    requires forall i, j :: 0 <= i < j < |position| ==> position[i] < position[j]
    requires IndicesBelow(desc, |position|) && Distinct(desc)
    requires |elems| == |desc| && forall i :: 0 <= i < |desc| ==> elems[i] == position[desc[i]]
    ensures Distinct(elems)
  {
    forall i, j | 0 <= i < j < |elems|
      ensures elems[i] != elems[j]
    {
      if desc[i] < desc[j] {
        assert position[desc[i]] < position[desc[j]];
      } else {
        assert position[desc[j]] < position[desc[i]];
      }
    }
  }

  /** A survivor that was not returned scores no higher than any returned one. */
  lemma MapBackDominates(raw: seq<real>, threshold: real, position: seq<nat>, points: seq<real>,
                         ind: seq<nat>, desc: seq<nat>, elems: seq<nat>, s: nat)
    requires position == Survivors(raw, threshold)
    requires |points| == |position| && forall i :: 0 <= i < |position| ==> points[i] == raw[position[i]]
    requires IndicesBelow(ind, |points|) && IndicesBelow(desc, |points|)
    requires forall x :: 0 <= x < |points| && x !in ind ==> forall i :: 0 <= i < |ind| ==> points[x] <= points[ind[i]]
    requires |desc| == |ind| && (forall x :: x in desc <==> x in ind)
    requires |elems| == |desc| && forall i :: 0 <= i < |desc| ==> elems[i] == position[desc[i]]
    requires s < |raw| && raw[s] > threshold && s !in elems
    ensures forall i :: 0 <= i < |elems| ==> raw[s] <= raw[elems[i]]
  {
    assert s in position;
    var m :| 0 <= m < |position| && position[m] == s;
    assert m !in ind;
    forall i | 0 <= i < |elems|
      ensures raw[s] <= raw[elems[i]]
    {
      assert desc[i] in ind;
      var q :| 0 <= q < |ind| && ind[q] == desc[i];
      assert points[m] <= points[ind[q]];
    }
  }

  /** Some weight in w is positive. */
  ghost predicate HasPositive(w: seq<real>) {
    exists i :: 0 <= i < |w| && w[i] > 0.0
  }

  /** `raw` is `row_a.dot(B)` for the weighted average `row_a` of some
      choice of the knn_A rows of A with the largest weights w (a choice,
      because equal weights may be ordered either way). */
  ghost predicate ScoresFromNeighbours(a: Matrix, b: Matrix, length: nat, w: seq<real>, knnA: nat, raw: seq<real>) {
    && IsMatrix(b, |b|, length) && IsMatrix(a, |a|, |b|) && |w| == |a|
    && exists top, topW :: IsNeighbourSelection(w, knnA, top, topW) && Sum(topW) > 0.0
                           && raw == Scores(WeightedAverage(a, |b|, top, topW), b, length)
  }

  /** `recommend_from_keypoints(A, B, keypoints, k, idmap, threshold, knn_A)`
      with the ridge solve, the distances to the rows of A and the Gaussian
      kernel given as `kernel`, which turns the mask and the ratings into
      one non-negative weight per row of A, the nearest row's positive.
      Returns the chosen item columns and the raw score vector they were
      chosen from. */
  method RecommendFromKeypoints(a: Matrix, b: Matrix, length: nat, keypoints: seq<Keypoint>, k: nat,
                                idmap: Option<map<int, int>>, threshold: real, knnA: nat,
                                kernel: (seq<real>, seq<real>) -> seq<real>)
    returns (r: Result<(seq<nat>, seq<real>), RecommendError>)
    requires IsMatrix(b, |b|, length) && IsMatrix(a, |a|, |b|) && |a| >= 1
    requires k >= 1 && knnA >= 1
    requires forall mask, ratings :: |kernel(mask, ratings)| == |a|
    requires forall mask, ratings, i :: 0 <= i < |kernel(mask, ratings)| ==> kernel(mask, ratings)[i] >= 0.0
    requires forall mask, ratings :: HasPositive(kernel(mask, ratings))
    ensures !KeypointsAccepted(keypoints, idmap, length) ==> r.Failure? && !r.error.NoSurvivors?
    ensures KeypointsAccepted(keypoints, idmap, length) ==> r.Success? || r.error == NoSurvivors
    ensures MaskIndices(keypoints, idmap).Failure? ==> r == Failure(MaskIndices(keypoints, idmap).error)
    ensures r.Failure? && MaskIndices(keypoints, idmap).Success? && !r.error.NoSurvivors? ==>
              r.error.IndexOutOfRange? && !InBounds(r.error.index, length) && r.error.index in MaskIndices(keypoints, idmap).value
    ensures r.Success? ==> |r.value.0| >= 1
    ensures r.Failure? && r.error.NoSurvivors? ==>
              && KeypointsAccepted(keypoints, idmap, length)
              && var (mask, ratings) := KeypointVectors(keypoints, idmap, length);
                 exists raw :: ScoresFromNeighbours(a, b, length, kernel(mask, ratings), knnA, raw)
                               && forall s :: 0 <= s < |raw| ==> raw[s] <= threshold
    ensures r.Success? ==>
              && KeypointsAccepted(keypoints, idmap, length)
              && |r.value.1| == length
              && IsTopK(r.value.1, threshold, k, r.value.0)
              && var (mask, ratings) := KeypointVectors(keypoints, idmap, length);
                 ScoresFromNeighbours(a, b, length, kernel(mask, ratings), knnA, r.value.1)
  {
    var masks := KeypointMask(keypoints, idmap, length);
    if masks.Failure? {
      return Failure(masks.error);
    }
    var (mask, ratings) := masks.value;
    ghost var vectors := KeypointVectors(keypoints, idmap, length);
    assert forall j :: 0 <= j < length ==> mask[j] == vectors.0[j] && ratings[j] == vectors.1[j];
    assert mask == vectors.0 && ratings == vectors.1;
    var w := kernel(mask, ratings);
    var top, topW := SelectNeighbours(w, knnA);
    assert HasPositive(w);
    var p :| 0 <= p < |w| && w[p] > 0.0;
    SelectedWeightsPositive(w, knnA, top, topW, p);
    var row := WeightedAverage(a, |b|, top, topW);
    var raw := Scores(row, b, length);
    assert ScoresFromNeighbours(a, b, length, w, knnA, raw);
    var elems := SelectTopK(raw, k, threshold);
    if elems.Failure? {
      return Failure(elems.error);
    }
    r := Success((elems.value, raw));
  }
}
