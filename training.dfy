/** `update_factor`, `update_step` and the loop of `proximal_training`.
    Their numerical content (the Euclidean norm, the initial duals, the dual
    updates and the linear algebra of the primal step) is given as
    functions; what is modelled exactly is what surrounds it: the
    normalisations by norm plus 1e-6, the iteration counts (the `stop` and
    `error` flags are never set, so both loops are plain counters), the
    non-negativity clamp, the extrapolation `2 X - Xold`, the order of the
    two factor updates in one outer step and the transposes around the
    second. */
module Training {
  import opened Matrices

  predicate NonNegative(x: Matrix) {
    forall i, j :: 0 <= i < |x| && 0 <= j < |x[i]| ==> x[i][j] >= 0.0
  }

  /** `np.maximum(X, 0)`: negative entries become 0, the others stay. */
  function ClampNonNegative(x: Matrix): (r: Matrix)
    ensures SameShape(r, x) && NonNegative(r)
    ensures forall i, j :: 0 <= i < |x| && 0 <= j < |x[i]| ==>
              (x[i][j] >= 0.0 ==> r[i][j] == x[i][j]) && (x[i][j] < 0.0 ==> r[i][j] == 0.0)
  {
    seq(|x|, i requires 0 <= i < |x| =>
      seq(|x[i]|, j requires 0 <= j < |x[i]| => if x[i][j] < 0.0 then 0.0 else x[i][j]))
  }

  /** Clamping changes nothing in a matrix that is already non-negative. */
  lemma ClampFixesNonNegative(x: Matrix)
    requires NonNegative(x)
    ensures ClampNonNegative(x) == x
  {
    var r := ClampNonNegative(x);
    forall i | 0 <= i < |x|
      ensures r[i] == x[i]
    {
    }
  }

  /** `2 * X - Xold`, entry by entry. */
  function Extrapolate(x: Matrix, xold: Matrix): (r: Matrix)
    requires SameShape(x, xold)
    ensures SameShape(r, x)
  {
    seq(|x|, i requires 0 <= i < |x| =>
      seq(|x[i]|, j requires 0 <= j < |x[i]| => 2.0 * x[i][j] - xold[i][j]))
  }

  /** The Euclidean norm of a vector. It is a square root, so the model
      takes it as a parameter and uses only that it is never negative. */
  type VectorNorm = seq<real> -> real

  ghost predicate IsNorm(norm: VectorNorm) {
    forall v :: norm(v) >= 0.0
  }

  /** In `update_factor`, `X /= (np.linalg.norm(X, axis=1) + 1e-6)[:, np.newaxis]`:
      multiplying each row back by its norm plus 1e-6 gives X again, and
      the signs of the entries are kept. */
  function NormaliseRows(x: Matrix, norm: VectorNorm): (r: Matrix)
    requires IsNorm(norm)
    ensures SameShape(r, x)
    ensures forall i, j :: 0 <= i < |x| && 0 <= j < |x[i]| ==>
              r[i][j] * (norm(x[i]) + 0.000001) == x[i][j] && (r[i][j] >= 0.0 <==> x[i][j] >= 0.0)
  {
    seq(|x|, i requires 0 <= i < |x| =>
      seq(|x[i]|, j requires 0 <= j < |x[i]| => x[i][j] / (norm(x[i]) + 0.000001)))
  }

  /** Column j of y; a row too short to have one contributes 0. */
  function Column(y: Matrix, j: nat): seq<real> {
    seq(|y|, i requires 0 <= i < |y| => if j < |y[i]| then y[i][j] else 0.0)
  }

  /** In `update_factor`, `Y /= np.linalg.norm(Y, axis=0) + 1e-6`: multiplying each
      column back by its norm plus 1e-6 gives Y again, and the signs of the
      entries are kept. */
  function NormaliseColumns(y: Matrix, norm: VectorNorm): (r: Matrix)
    requires IsNorm(norm)
    ensures SameShape(r, y)
    ensures forall i, j :: 0 <= i < |y| && 0 <= j < |y[i]| ==>
              r[i][j] * (norm(Column(y, j)) + 0.000001) == y[i][j] && (r[i][j] >= 0.0 <==> y[i][j] >= 0.0)
  {
    seq(|y|, i requires 0 <= i < |y| =>
      seq(|y[i]|, j requires 0 <= j < |y[i]| => y[i][j] / (norm(Column(y, j)) + 0.000001)))
  }

  /** The dual variables P1 (data fidelity) and P2 (total variation). */
  datatype Duals = Duals(p1: Matrix, p2: Matrix)

  /** The state at the head of the inner loop: X, the extrapolated Xb, Xold
      and the duals. */
  datatype InnerState = InnerState(x: Matrix, xb: Matrix, xold: Matrix, duals: Duals)

  /** In `update_factor`, before its loop: the initial duals `P1 = Y.dot(X)` and `P2 = K.dot(X.T)`
      from the normalised X and Y. */
  type DualInit = (Matrix, Matrix) -> Duals

  /** The numeric part of one `update_factor` iteration: from the
      normalised companion Y (which fixes normY and the step sizes, and
      enters both the P1 update and the primal step), X, Xb and the duals,
      the updated duals and the new primal X before the clamp. */
  type PrimalDualStep = (Matrix, Matrix, Matrix, Duals) -> (Matrix, Duals)

  /** The primal step returns a matrix of the shape of X. */
  ghost predicate PreservesShape(step: PrimalDualStep) {
    forall y, x, xb, d :: SameShape(step(y, x, xb, d).0, x)
  }

  /** The inner state after n iterations with companion y, from
      X = Xb = Xold = x0; Xold equals X at the head of every iteration. */
  ghost function InnerRun(step: PrimalDualStep, y: Matrix, x0: Matrix, duals0: Duals, n: nat): (s: InnerState)
    requires PreservesShape(step)
    ensures SameShape(s.x, x0) && s.xold == s.x
    ensures n >= 1 ==> NonNegative(s.x)
  {
    if n == 0 then InnerState(x0, x0, x0, duals0)
    else
      var prev := InnerRun(step, y, x0, duals0, n - 1);
      var (raw, duals) := step(y, prev.x, prev.xb, prev.duals);
      var x := ClampNonNegative(raw);
      InnerState(x, Extrapolate(x, prev.xold), x, duals)
  }

  /** One call of `update_factor(theta_tv, X, Y, ...)`: normalise the rows
      of X and the columns of Y, run nbIterMax inner iterations from the
      normalised X, and return the new X with the normalised Y. */
  ghost function FactorUpdateOf(norm: VectorNorm, initDuals: DualInit, step: PrimalDualStep, nbIterMax: nat): (update: FactorUpdate)
    requires IsNorm(norm) && PreservesShape(step)
    ensures forall x, y :: update(x, y).1 == NormaliseColumns(y, norm)
  {
    (x, y) =>
      var xn := NormaliseRows(x, norm);
      var yn := NormaliseColumns(y, norm);
      (InnerRun(step, yn, xn, initDuals(xn, yn), nbIterMax).x, yn)
  }

  /** What one call of FactorUpdateOf returns. */
  lemma FactorUpdateOfApplied(norm: VectorNorm, initDuals: DualInit, step: PrimalDualStep, nbIterMax: nat, x0: Matrix, y0: Matrix)
    requires IsNorm(norm) && PreservesShape(step)
    ensures var xn, yn := NormaliseRows(x0, norm), NormaliseColumns(y0, norm);
            FactorUpdateOf(norm, initDuals, step, nbIterMax)(x0, y0) == (InnerRun(step, yn, xn, initDuals(xn, yn), nbIterMax).x, yn)
  {
  }

  /** `update_factor`: the normalisations, then its `while` loop, which runs exactly nbIterMax iterations; after at least
      one the primal factor is non-negative. */
  method UpdateFactor(x0: Matrix, y0: Matrix, norm: VectorNorm, initDuals: DualInit, step: PrimalDualStep, nbIterMax: nat)
    returns (x: Matrix, y: Matrix, nbIter: nat)
    requires IsNorm(norm) && PreservesShape(step)
    ensures nbIter == nbIterMax
    ensures (x, y) == FactorUpdateOf(norm, initDuals, step, nbIterMax)(x0, y0)
    ensures SameShape(x, x0) && SameShape(y, y0)
    ensures nbIterMax == 0 ==> x == NormaliseRows(x0, norm)
    ensures nbIterMax >= 1 ==> NonNegative(x)
  {
    var xn := NormaliseRows(x0, norm);
    y := NormaliseColumns(y0, norm);
    var duals0 := initDuals(xn, y);
    x := xn;
    var xb, xold, duals := xn, xn, duals0;
    nbIter := 0;
    while nbIter < nbIterMax
      invariant nbIter <= nbIterMax
      invariant InnerRun(step, y, xn, duals0, nbIter) == InnerState(x, xb, xold, duals)
    {
      var raw, newDuals := step(y, x, xb, duals).0, step(y, x, xb, duals).1;
      duals := newDuals;
      x := ClampNonNegative(raw);
      xb := Extrapolate(x, xold);
      xold := x;
      nbIter := nbIter + 1;
    }
    FactorUpdateOfApplied(norm, initDuals, step, nbIterMax, x0, y0);
  }

  /** One call of `update_factor`: from the factor to update and its fixed
      companion, the updated factor and the (renormalised) companion. */
  type FactorUpdate = (Matrix, Matrix) -> (Matrix, Matrix)

  /** The updated factor is always non-negative (the clamp of the inner loop). */
  ghost predicate ClampsFactor(update: FactorUpdate) {
    forall x, y :: NonNegative(update(x, y).0)
  }

  /** Renormalising the companion (division by positive norms) keeps it
      non-negative. */
  ghost predicate KeepsCompanionNonNegative(update: FactorUpdate) {
    forall x, y :: NonNegative(y) ==> NonNegative(update(x, y).1)
  }

  /** With at least one inner iteration, `update_factor` returns a
      non-negative factor whatever its inputs. */
  lemma FactorUpdateClamps(norm: VectorNorm, initDuals: DualInit, step: PrimalDualStep, nbIterMax: nat)
    requires IsNorm(norm) && PreservesShape(step) && nbIterMax >= 1
    ensures ClampsFactor(FactorUpdateOf(norm, initDuals, step, nbIterMax))
  {
    var update := FactorUpdateOf(norm, initDuals, step, nbIterMax);
    forall x, y
      ensures NonNegative(update(x, y).0)
    {
      var xn := NormaliseRows(x, norm);
      var yn := NormaliseColumns(y, norm);
      assert update(x, y).0 == InnerRun(step, yn, xn, initDuals(xn, yn), nbIterMax).x;
    }
  }

  /** `update_factor` returns its companion Y divided by positive numbers,
      so a non-negative companion stays non-negative. */
  lemma FactorUpdateKeepsCompanion(norm: VectorNorm, initDuals: DualInit, step: PrimalDualStep, nbIterMax: nat)
    requires IsNorm(norm) && PreservesShape(step)
    ensures KeepsCompanionNonNegative(FactorUpdateOf(norm, initDuals, step, nbIterMax))
  {
    var update := FactorUpdateOf(norm, initDuals, step, nbIterMax);
    forall x, y | NonNegative(y)
      ensures NonNegative(update(x, y).1)
    {
      assert update(x, y).1 == NormaliseColumns(y, norm);
    }
  }

  /** In `update_step`, `update_factor(theta_tv_a, a.T, b.T, ...)` followed by
      `a, b = a.T, b.T`, an update of the transposed factors seen on the
      factors themselves. */
  ghost function Transposed(update: FactorUpdate): FactorUpdate {
    (a, b) =>
      var r := update(Transpose(a), Transpose(b));
      (Transpose(r.0), Transpose(r.1))
  }

  /** Transposing keeps a matrix non-negative. */
  lemma TransposeNonNegative(m: Matrix)
    requires NonNegative(m)
    ensures NonNegative(Transpose(m))
  {
    var t := Transpose(m);
    forall j, i | 0 <= j < |t| && 0 <= i < |t[j]|
      ensures t[j][i] >= 0.0
    {
    }
  }

  /** Transposing around an update keeps both non-negativity guarantees. */
  lemma TransposedKeepsGuarantees(update: FactorUpdate)
    ensures ClampsFactor(update) ==> ClampsFactor(Transposed(update))
    ensures KeepsCompanionNonNegative(update) ==> KeepsCompanionNonNegative(Transposed(update))
  {
    var tu := Transposed(update);
    forall a, b
      ensures ClampsFactor(update) ==> NonNegative(tu(a, b).0)
      ensures KeepsCompanionNonNegative(update) && NonNegative(b) ==> NonNegative(tu(a, b).1)
    {
      var r := update(Transpose(a), Transpose(b));
      assert tu(a, b) == (Transpose(r.0), Transpose(r.1));
      if ClampsFactor(update) {
        TransposeNonNegative(r.0);
      }
      if KeepsCompanionNonNegative(update) && NonNegative(b) {
        TransposeNonNegative(b);
        TransposeNonNegative(r.1);
      }
    }
  }

  /** `update_step`: B first, with A as companion; then A, with the B just
      computed as companion (the transposes that let one routine serve both
      factors are part of `updateA`). Because B is updated first, its
      clamped value is what the A update renormalises, so both factors end
      the step non-negative. */
  function UpdateStep(updateB: FactorUpdate, updateA: FactorUpdate, a: Matrix, b: Matrix): (r: (Matrix, Matrix))
    ensures ClampsFactor(updateB) && ClampsFactor(updateA) && KeepsCompanionNonNegative(updateA) ==>
              NonNegative(r.0) && NonNegative(r.1)
  {
    var (b1, a1) := updateB(b, a);
    var (a2, b2) := updateA(a1, b1);
    (a2, b2)
  }

  /** The factors after n outer steps. */
  function Train(updateB: FactorUpdate, updateA: FactorUpdate, a0: Matrix, b0: Matrix, n: nat): (r: (Matrix, Matrix))
    ensures n == 0 ==> r == (a0, b0)
    ensures n >= 1 && ClampsFactor(updateB) && ClampsFactor(updateA) && KeepsCompanionNonNegative(updateA) ==>
              NonNegative(r.0) && NonNegative(r.1)
  {
    if n == 0 then (a0, b0)
    else
      var prev := Train(updateB, updateA, a0, b0, n - 1);
      UpdateStep(updateB, updateA, prev.0, prev.1)
  }

  /** The outer `while` loop of `proximal_training`: exactly
      maxOuterIter steps; zero steps return the initial factors. */
  method ProximalTraining(a0: Matrix, b0: Matrix, updateB: FactorUpdate, updateA: FactorUpdate, maxOuterIter: nat)
    returns (a: Matrix, b: Matrix, nbIter: nat)
    ensures nbIter == maxOuterIter
    ensures (a, b) == Train(updateB, updateA, a0, b0, maxOuterIter)
    ensures maxOuterIter == 0 ==> a == a0 && b == b0
    ensures maxOuterIter >= 1 && ClampsFactor(updateB) && ClampsFactor(updateA) && KeepsCompanionNonNegative(updateA) ==>
              NonNegative(a) && NonNegative(b)
  {
    a, b := a0, b0;
    nbIter := 0;
    while nbIter < maxOuterIter
      invariant nbIter <= maxOuterIter
      invariant (a, b) == Train(updateB, updateA, a0, b0, nbIter)
      invariant nbIter >= 1 && ClampsFactor(updateB) && ClampsFactor(updateA) && KeepsCompanionNonNegative(updateA) ==>
                  NonNegative(a) && NonNegative(b)
    {
      a, b := UpdateStep(updateB, updateA, a, b).0, UpdateStep(updateB, updateA, a, b).1;
      nbIter := nbIter + 1;
    }
  }

  /** Training with the two `update_factor` calls of `update_step` (for B,
      then for A on the transposes) and at least one inner iteration meets
      UpdateStep's hypotheses, so after one or more outer steps both
      factors are non-negative. */
  lemma TrainedFactorsNonNegative(norm: VectorNorm, initB: DualInit, stepB: PrimalDualStep,
                                  initA: DualInit, stepA: PrimalDualStep, maxInnerIter: nat,
                                  a0: Matrix, b0: Matrix, maxOuterIter: nat)
    requires IsNorm(norm) && PreservesShape(stepB) && PreservesShape(stepA)
    requires maxInnerIter >= 1 && maxOuterIter >= 1
    ensures var updateB := FactorUpdateOf(norm, initB, stepB, maxInnerIter);
            var updateA := Transposed(FactorUpdateOf(norm, initA, stepA, maxInnerIter));
            var (a, b) := Train(updateB, updateA, a0, b0, maxOuterIter);
            NonNegative(a) && NonNegative(b)
  {
    var updateB := FactorUpdateOf(norm, initB, stepB, maxInnerIter);
    var inner := FactorUpdateOf(norm, initA, stepA, maxInnerIter);
    FactorUpdateClamps(norm, initB, stepB, maxInnerIter);
    FactorUpdateClamps(norm, initA, stepA, maxInnerIter);
    FactorUpdateKeepsCompanion(norm, initA, stepA, maxInnerIter);
    TransposedKeepsGuarantees(inner);
    var prev := Train(updateB, Transposed(inner), a0, b0, maxOuterIter - 1);
    assert Train(updateB, Transposed(inner), a0, b0, maxOuterIter) == UpdateStep(updateB, Transposed(inner), prev.0, prev.1);
  }
}
