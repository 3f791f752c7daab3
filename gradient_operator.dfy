/** `graph_gradient_operator`: the signed edge x node incidence matrix of a
    weighted graph. The source fills a dictionary-of-keys sparse matrix
    (`dok_matrix`) in place, one edge per row, and converts it to CSR; the
    model keeps the dictionary of keys as a map from (row, column) to value,
    with missing keys reading as 0. */
module GradientOperator {
  import opened Wrappers

  /** An edge `(src, tgt, data)` as the graph's edge iterator yields it, with
      `data[key]` already looked up. */
  datatype Edge = Edge(src: nat, tgt: nat, weight: real)

  /** A sparse matrix: its shape and its stored entries. */
  datatype SparseMatrix = SparseMatrix(rows: nat, cols: nat, entries: map<(nat, nat), real>)

  /** Writing outside the matrix's shape raises IndexError in the source. */
  datatype GraphError = OutOfRangeNode(edge: nat)

  /** The value at (i, j); entries that were never stored are 0. */
  function Entry(m: SparseMatrix, i: nat, j: nat): real {
    if (i, j) in m.entries then m.entries[(i, j)] else 0.0
  }

  predicate InRange(e: Edge, n: nat) {
    e.src < n && e.tgt < n
  }

  /** Column j of the row that edge `e` contributes: the write of `-w` at the
      target comes second, so it wins on a self-loop. */
  function IncidenceEntry(e: Edge, j: nat): real {
    if j == e.tgt then -e.weight else if j == e.src then e.weight else 0.0
  }

  /** `m` is the gradient operator of the graph with `n` nodes and `edges`:
      every edge joins two of the nodes, one row per edge, one column per
      node, row i given by edge i, and no entry stored outside the shape. */
  ghost predicate IsGradientOperator(m: SparseMatrix, n: nat, edges: seq<Edge>) {
    && (forall i :: 0 <= i < |edges| ==> InRange(edges[i], n))
    && m.rows == |edges| && m.cols == n
    && (forall key :: key in m.entries ==> key.0 < m.rows && key.1 < m.cols)
    && (forall i, j :: 0 <= i < |edges| && 0 <= j < n ==> Entry(m, i, j) == IncidenceEntry(edges[i], j))
  }

  /** Builds the operator edge by edge; fails at the first edge that names a
      node outside [0, n). */
  method GraphGradientOperator(n: nat, edges: seq<Edge>) returns (r: Result<SparseMatrix, GraphError>)
    ensures r.Failure? <==> exists i :: 0 <= i < |edges| && !InRange(edges[i], n)
    ensures r.Failure? ==> r.error.edge < |edges| && !InRange(edges[r.error.edge], n)
                           && forall i :: 0 <= i < r.error.edge ==> InRange(edges[i], n)
    ensures r.Success? ==> IsGradientOperator(r.value, n, edges)
  {
    var k: map<(nat, nat), real> := map[];
    var i := 0;
    while i < |edges|
      invariant 0 <= i <= |edges|
      invariant forall e :: 0 <= e < i ==> InRange(edges[e], n)
      invariant forall key :: key in k ==> key.0 < i && key.1 < n
      invariant forall e, j :: 0 <= e < i && 0 <= j < n ==>
                  (if (e, j) in k then k[(e, j)] else 0.0) == IncidenceEntry(edges[e], j)
    {
      var edge := edges[i];
      if !InRange(edge, n) {
        return Failure(OutOfRangeNode(i));
      }
      k := k[(i, edge.src) := edge.weight];
      k := k[(i, edge.tgt) := -edge.weight];
      i := i + 1;
    }
    r := Success(SparseMatrix(|edges|, n, k));
  }

  /** Row i of `m` applied to the node signal x: the sum of Entry(m, i, j) * x[j]
      over the first `cols` columns. */
  function RowApply(m: SparseMatrix, i: nat, x: seq<real>, cols: nat): real
    requires cols <= |x|
  {
    if cols == 0 then 0.0 else RowApply(m, i, x, cols - 1) + Entry(m, i, cols - 1) * x[cols - 1]
  }

  /** `K.dot(x)`: one value per edge. */
  function Apply(m: SparseMatrix, x: seq<real>): (y: seq<real>)
    requires |x| == m.cols
    ensures |y| == m.rows
  {
    seq(m.rows, i requires 0 <= i < m.rows => RowApply(m, i, x, m.cols))
  }

  /** The contribution of the first `cols` columns of an edge's row. */
  lemma {:induction false} RowApplyPrefix(m: SparseMatrix, n: nat, edges: seq<Edge>, i: nat, x: seq<real>, cols: nat)
    requires IsGradientOperator(m, n, edges) && i < |edges| && |x| == n && cols <= n
    ensures var e := edges[i];
            RowApply(m, i, x, cols)
            == (if e.src < cols && e.src != e.tgt then e.weight * x[e.src] else 0.0)
             - (if e.tgt < cols then e.weight * x[e.tgt] else 0.0)
  {
    if cols > 0 {
      RowApplyPrefix(m, n, edges, i, x, cols - 1);
      assert Entry(m, i, cols - 1) == IncidenceEntry(edges[i], cols - 1);
    }
  }

  /** The operator maps a node signal to weighted differences along the
      edges: for edge i = (src, tgt, w), (K x)[i] = w * (x[src] - x[tgt]); a
      self-loop keeps only the second write, -w * x[src]. */
  lemma EdgeDifference(m: SparseMatrix, n: nat, edges: seq<Edge>, x: seq<real>, i: nat)
    requires IsGradientOperator(m, n, edges) && |x| == n && i < |edges|
    ensures var e := edges[i];
            Apply(m, x)[i] == if e.src != e.tgt then e.weight * (x[e.src] - x[e.tgt]) else -e.weight * x[e.src]
  {
    RowApplyPrefix(m, n, edges, i, x, n);
  }

  /** Every row of the operator of a graph without self-loops sums to zero:
      a constant signal has zero gradient. */
  lemma RowsSumToZero(m: SparseMatrix, n: nat, edges: seq<Edge>, c: real)
    requires IsGradientOperator(m, n, edges)
    requires forall i :: 0 <= i < |edges| ==> edges[i].src != edges[i].tgt
    ensures Apply(m, seq(n, _ => c)) == seq(|edges|, _ => 0.0)
  {
    var x := seq(n, _ => c);
    forall i | 0 <= i < |edges|
      ensures Apply(m, x)[i] == 0.0
    {
      EdgeDifference(m, n, edges, x, i);
    }
  }
}
