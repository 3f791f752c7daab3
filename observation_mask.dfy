/** The observation mask of `proximal_training`: when the caller gives no
    mask, observed entries of C (C > 0) weigh 1.0 and all others 0.1. */
module ObservationMask {
  import opened Wrappers
  import opened Matrices

  /** The weight the default mask gives an entry of C. */
  function DefaultWeight(c: real): real {
    if c > 0.0 then 1.0 else 0.1
  }

  /** Allocates a matrix of 0.1 with C's shape, then writes 1.0 at every
      entry where C > 0 (`Obs[C > 0] = 1.0`), entry by entry. */
  method DefaultObservationMask(c: Matrix, cols: nat) returns (obs: Matrix)
    requires IsMatrix(c, |c|, cols)
    ensures IsMatrix(obs, |c|, cols)
    ensures forall i, j :: 0 <= i < |c| && 0 <= j < cols ==> (obs[i][j] == 1.0 <==> c[i][j] > 0.0)
    ensures forall i, j :: 0 <= i < |c| && 0 <= j < cols ==> (obs[i][j] == 0.1 <==> c[i][j] <= 0.0)
  {
    obs := Fill(|c|, cols, 0.1);
    for i := 0 to |c|
      invariant IsMatrix(obs, |c|, cols)
      invariant forall r, j :: 0 <= r < i && 0 <= j < cols ==> obs[r][j] == DefaultWeight(c[r][j])
      invariant forall r, j :: i <= r < |c| && 0 <= j < cols ==> obs[r][j] == 0.1
    {
      for j := 0 to cols
        invariant IsMatrix(obs, |c|, cols)
        invariant forall r, q :: 0 <= r < i && 0 <= q < cols ==> obs[r][q] == DefaultWeight(c[r][q])
        invariant forall q :: 0 <= q < j ==> obs[i][q] == DefaultWeight(c[i][q])
        invariant forall q :: j <= q < cols ==> obs[i][q] == 0.1
        invariant forall r, q :: i < r < |c| && 0 <= q < cols ==> obs[r][q] == 0.1
      {
        if c[i][j] > 0.0 {
          obs := obs[i := obs[i][j := 1.0]];
        }
      }
    }
  }

  /** `if Obs is None`: a mask the caller supplies is used unchanged;
      otherwise the default one is built. */
  method ResolveObservationMask(c: Matrix, cols: nat, given: Option<Matrix>) returns (obs: Matrix)
    requires IsMatrix(c, |c|, cols)
    ensures given.Some? ==> obs == given.value
    ensures given.None? ==> IsMatrix(obs, |c|, cols)
                            && forall i, j :: 0 <= i < |c| && 0 <= j < cols ==> obs[i][j] == DefaultWeight(c[i][j])
  {
    if given.None? {
      obs := DefaultObservationMask(c, cols);
    } else {
      obs := given.value;
    }
  }
}
