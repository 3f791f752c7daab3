/** Dense real matrices as sequences of rows, and the small sums the rest of
    the model is built from. */
module Matrices {

  type Matrix = seq<seq<real>>

  /** `m` has `rows` rows of `cols` entries each (numpy's `m.shape == (rows, cols)`). */
  predicate IsMatrix(m: Matrix, rows: nat, cols: nat) {
    |m| == rows && forall i :: 0 <= i < rows ==> |m[i]| == cols
  }

  /** `a` and `b` have the same shape, row by row. */
  predicate SameShape(a: Matrix, b: Matrix) {
    |a| == |b| && forall i :: 0 <= i < |a| ==> |a[i]| == |b[i]|
  }

  /** A `rows` x `cols` matrix holding `v` everywhere (`v * np.ones((rows, cols))`). */
  function Fill(rows: nat, cols: nat, v: real): (m: Matrix)
    ensures IsMatrix(m, rows, cols)
    ensures forall i, j :: 0 <= i < rows && 0 <= j < cols ==> m[i][j] == v
  {
    seq(rows, _ => seq(cols, _ => v))
  }

  /** `m.T`: as many rows as `m` has columns (read from its first row), and
      entry (j, i) is m[i][j]; a row too short to have column j reads as 0. */
  function Transpose(m: Matrix): (t: Matrix)
    ensures |t| == (if m == [] then 0 else |m[0]|)
    ensures forall j :: 0 <= j < |t| ==> |t[j]| == |m|
    ensures forall i, j :: 0 <= i < |m| && 0 <= j < |m[i]| && j < |t| ==> t[j][i] == m[i][j]
  {
    var cols := if m == [] then 0 else |m[0]|;
    seq(cols, j requires 0 <= j < cols => seq(|m|, i requires 0 <= i < |m| => if j < |m[i]| then m[i][j] else 0.0))
  }

  /** Transposing a matrix with at least one column twice gives it back. */
  lemma TransposeTwice(m: Matrix, rows: nat, cols: nat)
    requires IsMatrix(m, rows, cols) && cols >= 1
    ensures Transpose(Transpose(m)) == m
  {
    var t := Transpose(m);
    var tt := Transpose(t);
    if rows >= 1 {
      assert |t[0]| == rows;
      forall i | 0 <= i < rows
        ensures tt[i] == m[i]
      {
        assert forall j :: 0 <= j < cols ==> tt[i][j] == t[j][i] == m[i][j];
      }
    }
  }

  function Min(a: int, b: int): int {
    if a <= b then a else b
  }

  /** The sum of the entries of `s`. */
  function Sum(s: seq<real>): real {
    if s == [] then 0.0 else Sum(s[..|s| - 1]) + s[|s| - 1]
  }
}
