# Verified model of the recommender's discrete core

This project models, in Dafny, the parts of `recog/recommender.py` that behave exactly and can be checked exactly. The file is a graph-regularised matrix-factorisation recommender. It learns row factors A and column factors B from an interaction matrix C, with total-variation smoothing over two relation graphs. It then recommends items for a partial rating vector of "keypoints". Entries are Dafny `real`s, which stand for float64 values without rounding.

What is modelled:

- **`soft_thresholding`** (module `SoftThresholding`). This is the element-wise shrinkage, written as its three `np.where` passes. The model proves the in-band, above-band and below-band behaviour, the boundaries, the identity at `value = 0`, and agreement with the textbook shrinkage. It also proves the identity behind the dual total-variation step of `update_factor`: `p - s * soft_thresholding(p / s, t / s)` is the projection of `p` onto [-t, t].
- **`graph_gradient_operator`** (module `GradientOperator`). The `dok_matrix` filled edge by edge is a map from (row, column) to value. A missing key reads as 0. An endpoint outside [0, N) is an error, as with the source's IndexError. The model proves the shape and each entry, including the self-loop case where the `-w` write wins. It also proves that the operator maps a node signal x to `w * (x[src] - x[tgt])` per edge, so rows sum to zero when the graph has no self-loops.
- **The default observation mask of `proximal_training`** (module `ObservationMask`). The mask starts as all 0.1. A masked assignment then writes 1.0 where C > 0. A mask the caller supplies is used as given.
- **The discrete parts of `recommend_from_keypoints`** (modules `Recommend` and `Selection`):
  - the keypoint confidence mask and the ratings vector;
  - the kNN row selection through `argsort`;
  - the weighted average of the selected rows;
  - the scores `row_a . B`;
  - the threshold filter, the top-k via `argpartition`, the descending sort, and the map back to global column indices.

  The ridge solve, the distances and the Gaussian kernel are a function parameter. It turns the mask and the ratings into one non-negative weight per row of A, at least one of them positive.
- **`update_factor`, `update_step` and the loop of `proximal_training`** (module `Training`). The Euclidean norm, the initial duals and the numeric step of each inner iteration are uninterpreted functions. The model states the rest exactly:
  - both loops run exactly their iteration budget, because `stop` and `error` are never set;
  - the rows of X and the columns of Y are divided by their norm plus 1e-6 before the inner loop;
  - `np.maximum(X, 0)` is applied after every inner step;
  - the extrapolation `2 X - Xold` is modelled, and Xold equals X at the head of every inner iteration;
  - each outer step updates B before A, and updates A on the transposes;
  - so after one or more outer steps with at least one inner iteration, both factors are non-negative.

`Selection` holds the numpy index primitives: `argsort`, `argpartition`, the slice `s[-n:]` and `s[::-1]`. Sorting is an insertion sort over index sequences. It is specified only up to ties, because numpy leaves the order of equal values open. `argpartition` is implemented by sorting, since a sorted arrangement meets numpy's partition guarantee.

## Model

| member | source | states |
|---|---|---|
| SoftThresholding.ThresholdEntry | recog/recommender.py:31-38 | for value >= 0: an entry strictly inside (-value, value) becomes `substitute` (passes 2 and 3 add and then remove value); d >= value gives d - value; d <= -value gives d + value; value = 0 is the identity; with substitute 0 the result is 0 exactly when abs(d) <= value, keeps the sign of d outside the band and never grows in magnitude |
| SoftThresholding.SoftThreshold | recog/recommender.py:31-38 | the output has the input's length and entry i depends only on input entry i |
| SoftThresholding.SoftThresholdIsShrink | recog/recommender.py:31-38 | with value >= 0 and substitute 0 the three passes equal the textbook shrinkage sign(d) * max(abs(d) - value, 0) on every entry |
| SoftThresholding.SoftThresholdZeroIsIdentity | recog/recommender.py:31-38 | value = 0 returns the input unchanged, including zero entries, whatever the substitute |
| SoftThresholding.DualStepIsProjection | recog/recommender.py:127-128 | for sigma > 0 and theta >= 0, `p - sigma * soft_thresholding(p / sigma, theta / sigma)` is the projection of p onto [-theta, theta] |
| GradientOperator.GraphGradientOperator | recog/recommender.py:66-71 | fails exactly when some edge names a node outside [0, N), reporting the first such edge; otherwise returns an E x N matrix whose row i is +w at src, -w at tgt and 0 elsewhere for edge i = (src, tgt, w), with -w on a self-loop, and no entry stored outside the shape |
| GradientOperator.EdgeDifference | recog/recommender.py:66-71 | applying the operator to a node signal x gives w * (x[src] - x[tgt]) for edge (src, tgt, w), and -w * x[src] for a self-loop |
| GradientOperator.RowsSumToZero | recog/recommender.py:66-71 | on a graph without self-loops every row sums to zero: a constant signal has zero gradient |
| ObservationMask.DefaultObservationMask | recog/recommender.py:195-201 | the mask has C's shape and is 1.0 exactly where C > 0 and 0.1 exactly where C <= 0 |
| ObservationMask.ResolveObservationMask | recog/recommender.py:195-201 | a caller-supplied mask is returned unchanged; without one, the default mask is built |
| Selection.ArgSort | recog/recommender.py:265 | the result lists every index of v exactly once, in an order under which v does not decrease |
| Selection.ArgPartition | recog/recommender.py:281 | fails exactly when kth is outside [-len, len); otherwise every index appears once, and relative to the normalised kth position nothing before it is larger and nothing after it is smaller |
| Selection.TopOfPartition | recog/recommender.py:281 | after a partition at len - nb, the last nb indices are distinct and no index outside them has a larger value than any inside them |
| Selection.Rearranged | recog/recommender.py:283 | reading an index list through a permutation of its positions (`ind[order]`) keeps the same indices, still distinct |
| Selection.Reverse | recog/recommender.py:283 | `s[::-1]` has the same length and holds s[len - 1 - i] at position i |
| Selection.ReverseReverse | recog/recommender.py:283 | reversing twice gives back the original sequence |
| Selection.Tail | recog/recommender.py:267-268 | the last n items: exactly n of them, the i-th being s[len - n + i] |
| Selection.PyTail | recog/recommender.py:267-281 | Python's `s[-n:]` as written: the whole of s when n is 0 (since `-0` is `0`) or larger than len(s), the last n items otherwise; its contracts are PyTailIsTail and PyTailOfZero |
| Selection.PyTailIsTail | recog/recommender.py:267-268 | the slice `s[-n:]` as Python evaluates it equals the last n items whenever n >= 1 or s is empty |
| Selection.PyTailOfZero | recog/recommender.py:281 | for every sequence s, `s[-0:]` is all of s while the last 0 items are none, so the two differ whenever s is non-empty |
| Recommend.MaskIndices | recog/recommender.py:244-247 | succeeds exactly when there is no idmap or every keypoint id is in it; on success it gives one index per keypoint, `idmap[id]` or the id itself; on failure it names the first id missing from the map |
| Recommend.KeypointMask | recog/recommender.py:242-252 | succeeds exactly when every id resolves and every index is within [-length, length), with KeyError before IndexError; on success mask and ratings both have length B.shape[1], the mask is 1.0 at the (normalised) keypoint indices and 0.1 elsewhere, and ratings hold what the writes `ratings[mask_idx] = values` leave |
| Recommend.MarkKeypoints | recog/recommender.py:243-248 | after `mask[mask_idx] = 1.0` on a 0.1 vector, each position is 1.0 if some keypoint index points to it and 0.1 otherwise |
| Recommend.WriteRatings | recog/recommender.py:251-252 | after `ratings[mask_idx] = values` on a zero vector, each position holds the value of the last keypoint written there, or 0 |
| Recommend.MarkedIsKeypointIndex | recog/recommender.py:248 | a position is marked exactly when some keypoint index, negative ones counted from the end, points to it |
| Recommend.RatingAtKeypoint | recog/recommender.py:251-252 | a keypoint whose normalised index no later keypoint writes leaves its own rating there; when the normalised indices are pairwise distinct, every keypoint does |
| Recommend.RatingOffKeypoints | recog/recommender.py:251-252 | positions that no keypoint points to keep rating 0 |
| Recommend.SelectNeighbours | recog/recommender.py:264-268 | with knn_A >= 1 it selects exactly min(knn_A, len(w)) distinct row indices in ascending order of weight, with `top_w[i] == w[top_idx[i]]`, and every unselected weight is <= every selected weight |
| Recommend.WeightedAverage | recog/recommender.py:271 | the weighted average of the selected rows has one entry per rank component |
| Recommend.SelectedWeightsPositive | recog/recommender.py:264-271 | with non-negative weights of which one is positive, `np.sum(top_w)` is positive, because the largest weight is always selected |
| Recommend.WeightedAverageBounds | recog/recommender.py:271 | with non-negative weights of positive total, each component of the average lies between the least and the greatest value the selected rows have there |
| Recommend.Scores | recog/recommender.py:273 | `row_a.dot(B)` has one score per item column of B |
| Recommend.ColumnScoreNonNegative | recog/recommender.py:273 | a non-negative row embedding and non-negative factor B give non-negative scores |
| Recommend.Survivors | recog/recommender.py:275-279 | the surviving positions are strictly increasing, each has a score above the threshold, and every position with a score above the threshold is among them |
| Recommend.LargestPoints | recog/recommender.py:277-281 | fails exactly when there are no points; otherwise it returns min(k, len(points)) distinct positions, and no point outside them is larger than any point inside |
| Recommend.SortDescending | recog/recommender.py:283 | the same indices, still distinct, in non-increasing order of value |
| Recommend.NoSurvivorsIffEmpty | recog/recommender.py:275-281 | the filtered score vector is empty exactly when no score exceeds the threshold |
| Recommend.MapBack | recog/recommender.py:285 | mapping the sorted subset indices through `position` gives indices that meet every top-k guarantee of SelectTopK |
| Recommend.SelectTopK | recog/recommender.py:274-285 | for k >= 1 it fails exactly when no score exceeds the threshold; otherwise it returns min(k, #survivors) distinct indices into raw, all scoring above the threshold, in non-increasing order of score, and no survivor left out scores higher than any returned index |
| Recommend.RecommendFromKeypoints | recog/recommender.py:237-286 | an unknown id gives the first missing id's KeyError; otherwise an out-of-bounds index gives IndexError; accepted keypoints always lead to success or NoSurvivors. On success the returned raw vector is `row_a.dot(B)`, where `row_a` is the weighted average of a knn_A-nearest selection under the kernel weights of the keypoint mask and ratings (KeypointVectors), and at least one index is returned, all meeting SelectTopK's guarantees for that vector. A no-survivor failure means every score so computed is at or below the threshold |
| Training.ClampNonNegative | recog/recommender.py:137 | `np.maximum(X, 0)` keeps X's shape, is non-negative, keeps non-negative entries and zeroes negative ones |
| Training.ClampFixesNonNegative | recog/recommender.py:137 | clamping a non-negative matrix changes nothing |
| Training.Extrapolate | recog/recommender.py:155 | `2 * X - Xold` has the shape of X |
| Training.NormaliseRows | recog/recommender.py:84-85 | each row is divided by its norm plus 1e-6: multiplying back restores X, and every entry keeps its sign |
| Training.NormaliseColumns | recog/recommender.py:87 | each column is divided by its norm plus 1e-6: multiplying back restores Y, and every entry keeps its sign |
| Training.InnerRun | recog/recommender.py:89-159 | with the normalised companion Y fixed and passed to every step, after any number of inner iterations X keeps its initial shape and Xold equals X at the head of the loop; after at least one, X is non-negative |
| Training.UpdateFactor | recog/recommender.py:81-161 | normalises X and Y, runs exactly nb_iter_max inner iterations, and returns the X InnerRun gives with the normalised Y, which is one application of FactorUpdateOf; with zero iterations X is just normalised; after at least one, X is non-negative |
| Training.FactorUpdateOf | recog/recommender.py:81-161 | `update_factor` as a function of (X, Y): normalise X's rows and Y's columns, run nb_iter_max inner iterations whose step sees the normalised Y, and return the new X with the normalised Y; its contract states the returned companion is exactly the normalised Y |
| Training.FactorUpdateClamps | recog/recommender.py:117-161 | with nb_iter_max >= 1, `update_factor` returns a non-negative factor for every input |
| Training.FactorUpdateKeepsCompanion | recog/recommender.py:87 | the returned companion is Y divided by positive numbers, so a non-negative Y stays non-negative |
| Training.TransposedKeepsGuarantees | recog/recommender.py:76-77 | calling `update_factor` on `a.T, b.T` and transposing the results back keeps both non-negativity guarantees |
| Training.Transposed | recog/recommender.py:76-77 | `update_factor(theta_tv_a, a.T, b.T, ...)` followed by `a, b = a.T, b.T`: the update applied to the transposed factors and its results transposed back; its guarantees are in TransposedKeepsGuarantees |
| Matrices.Transpose | recog/recommender.py:76-77 | `m.T` has as many rows as m has columns, each of length len(m), and holds m[i][j] at (j, i) |
| Matrices.TransposeTwice | recog/recommender.py:76-77 | a matrix with at least one column, transposed twice, is itself; with no columns the row count is lost, where numpy keeps shape (rows, 0) |
| Training.UpdateStep | recog/recommender.py:74-78 | B is updated first with A as companion, then A with the new B; if each update clamps its factor and renormalising keeps a non-negative companion non-negative, both factors leave the step non-negative |
| Training.ProximalTraining | recog/recommender.py:206-212 | the outer loop runs exactly max_outer_iter steps and returns the max_outer_iter-fold UpdateStep of the initial factors; zero steps return them unchanged; after one or more steps both factors are non-negative under UpdateStep's hypotheses |
| Training.Train | recog/recommender.py:206-212 | the factors after n outer steps: the initial factors at n = 0; after one or more steps both non-negative when the updates clamp their factor and keep a non-negative companion non-negative |
| Training.TrainedFactorsNonNegative | recog/recommender.py:74-78 | with the two `update_factor` calls of `update_step` and max_inner_iter >= 1, UpdateStep's hypotheses hold, so after one or more outer steps both factors are non-negative |

## Left out

- The numeric body of each `update_factor` iteration (recog/recommender.py:97-134) is left out. This covers the largest singular value of Y, the step sizes, the closed-form P1 update with `sqrt`, the P2 ascent and the primal step. It is floating-point linear algebra, so the model takes it as the uninterpreted step `PrimalDualStep`. The Euclidean norm (`VectorNorm`, of which only non-negativity is used) and the initial duals P1 = Y X and P2 = K X^T (`DualInit`) are parameters too.
- Training.UpdateStep: the two factor updates are parameters. Training.TrainedFactorsNonNegative instantiates them with FactorUpdateOf, B directly and A through Transposed, and discharges UpdateStep's hypotheses.
- `update_factor` divides X and Y in place, so the caller's arrays change. The model returns new values instead. `update_step` rebinds both names to the results, so the aliasing is not observable there. It is observable to a caller of `proximal_training` who passes their own A and B: lines 75-76 reach the divisions at lines 85 and 87, so on the first outer step both arrays are normalised in place, and the model does not capture that.
- The Dirichlet branch (line 131) and the commented-out acceleration (lines 139-149) are not modelled. The extrapolation with theta1 = theta2 = 1 (line 155) is modelled.
- Several parts of `proximal_training` are left out: `convert_adjacency_matrix`, NMF and random initialisation (randomness and a foreign library), `svds`, `np.load` and `np.savez` (I/O), timing, printing, the validation callback and the final residual. The model keeps only the Obs default and the outer loop. C is modelled by its entries, which is what `C.toarray()` gives for a sparse C; a dense C would raise AttributeError at line 204, although lines 198-199 handle a dense C.
- `create_recommendation_matrix` and `init_factor_matrices` are not part of this model. They do pandas iteration, call `utils` code that is not shown, and use randomness.
- The ridge solve, the distances and the Gaussian kernel of `recommend_from_keypoints` (lines 254-262) are left out. They become the parameter `kernel`. Its weights are required to be non-negative, with at least one positive. `exp` is non-negative, and the nearest row has distance at most mean(z), so with sigma > 0 its weight is at least exp(-16). The degenerate case is left out: when every distance is 0, sigma = 0, line 262 divides 0 by 0, and every weight is NaN.
- `np.diag(mask)` is represented by the mask vector, its diagonal.
- Recommend.WriteRatings and Recommend.KeypointMask choose "last write wins" when two keypoints land on the same position. numpy documents no order for repeated indices in an advanced assignment.
- Keypoint ids are integers, and `idmap` maps integers to integers. Non-integer ids are not modelled.
- Edges carry their weight directly. A missing `key` in an edge's data dictionary (a KeyError) is not modelled. Node indices are natural numbers, so the negative indices `dok_matrix` would accept do not arise.
- `soft_thresholding` takes a scalar `value`. Array-valued broadcasting is not modelled, because the only caller passes a scalar.
- `np.argsort` and `np.argpartition` are specified up to ties. numpy does not fix the order of equal values, and the model does not either.
- Recommend.SelectTopK: requires k >= 1. Recommend.SelectNeighbours: requires knn_A >= 1. Recommend.RecommendFromKeypoints requires both and a non-empty A. With a count of 0, the source's `[-0:]` slices select everything (see Findings).
- With no score above the threshold, `np.argpartition(points, 0)` on an empty array raises, so `SelectTopK` returns `NoSurvivors`.
- A self-loop row of the gradient operator holds only -w, because the write at line 70 comes last. `RowsSumToZero` therefore assumes there are no self-loops.

## Findings

| source | as written | input that shows it | evidently intended | confidence | as-written member | corrected member |
|---|---|---|---|---|---|---|
| recog/recommender.py:277-281 | `nb_elems = min(k, len(points))`, then `argpartition(points, -nb_elems)[-nb_elems:]` | k = 0 with at least one score above the threshold: `-0` is `0`, so `[-0:]` keeps every survivor and all of them are returned | return the k = 0 best items, that is none | medium, not executed | Selection.PyTailOfZero | Selection.Tail |
| recog/recommender.py:266-268 | `nb_elems = min(knn_A, len(w))`, then `idx[-nb_elems:]` | knn_A = 0 with a non-empty A: `[-0:]` selects every row, so the average is taken over all rows | knn_A counts neighbours, so 0 should not mean all rows; averaging no rows would divide by a zero `np.sum(top_w)` at line 271, so rejecting knn_A = 0 is the likely intent | low, not executed | Selection.PyTailOfZero | Selection.Tail |
