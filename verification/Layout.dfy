/**
 `GGUFColumnPermutedTensor`: the blocks stay as stored, the activation is gathered into
 stored column order, and the result is that of the logical weight `stored[:, index]`.
 */
module Layout {
  import opened Arith
  import opened Permutations
  import opened Qmv
  import opened QuantTensors
  import opened RawBlocks
  import opened RawTensors
  import opened Sums
  import opened Wrappers

  /** A stored tensor whose input columns are in another order. */
  datatype ColumnPermuted = ColumnPermuted(tensor: Quantized, columnIndex: seq<int>) {
    ghost predicate Valid() {
      tensor.Valid() && Permutes(columnIndex, tensor.Columns())
    }

    /** Computed once: the inverse of the column index. */
    function StoredOrder(): seq<nat> {
      ArgSort(columnIndex)
    }
  }

  /** `rows[:, index]`. */
  function GatherColumns<T>(rows: seq<seq<T>>, index: seq<int>): (r: seq<seq<T>>)
    requires forall i | 0 <= i < |rows| :: InBounds(index, |rows[i]|)
    ensures |r| == |rows| && forall i | 0 <= i < |rows| :: r[i] == Gather(rows[i], index)
  {
    seq(|rows|, i requires 0 <= i < |rows| => Gather(rows[i], index))
  }

  // ---- Permuted dot products ----

  lemma SameMultiset(a: seq<int>, b: seq<int>)
    requires SameCounts(a, b)
    ensures multiset(a) == multiset(b)
  {
    forall v
      ensures multiset(a)[v] == multiset(b)[v]
    {
      CountIs(a, v);
      CountIs(b, v);
      assert Count(a, v) == Count(b, v);
    }
  }

  /** A sum over a range may visit it in any order. */
  lemma SumPermuted(index: seq<int>, n: nat, f: int -> int, g: int -> int)
    requires Permutes(index, n) && forall j | 0 <= j < n :: g(j) == f(index[j])
    ensures Sum(n, g) == Sum(n, f)
  {
    PermutationCounts(index, n);
    SameMultiset(index, Range(n));
    SumOverReordered(index, Range(n), f);
    SumOverIndices(index, f, g);
    SumOverIndices(Range(n), f, f);
  }

  /** `n` entries of `z` from `at` on are those of `x` from `base` on, in stored order. */
  ghost predicate Gathered(z: seq<int>, at: nat, x: seq<int>, base: nat, order: seq<nat>) {
    && at + |order| <= |z|
    && forall k | 0 <= k < |order| :: base + order[k] < |x| && z[at + k] == x[base + order[k]]
  }

  /** The stored row against the gathered activation is the logical row against the activation. */
  lemma PermutedDot(dense: seq<int>, index: seq<int>, z: seq<int>, at: nat, x: seq<int>, base: nat)
    requires Permutes(index, |dense|) && Gathered(z, at, x, base, ArgSort(index))
    ensures RowDot(dense, z, at) == RowDot(Gather(dense, index), x, base)
  {
    var n, order := |dense|, ArgSort(index);
    ArgSortInverts(index, n);
    var f, g := RowTerm(dense, z, at), RowTerm(Gather(dense, index), x, base);
    forall j | 0 <= j < n
      ensures g(j) == f(index[j])
    {
      var k := index[j];
      assert order[k] == j;
      assert z[at + k] == x[base + order[k]];
    }
    SumPermuted(index, n, f, g);
  }

  // ---- Gathering the activation ----

  /** The first `b` lines of the gathered activation are in place. */
  ghost predicate LinesGathered(z: seq<int>, x: Matrix, order: seq<nat>, b: nat) {
    |z| == Flat(b, |order|, 0) &&
    forall c: nat | c < b :: Gathered(z, Flat(c, |order|, 0), x.data, Flat(c, x.columns, 0), order)
  }

  lemma LineGathered(z: seq<int>, line: seq<int>, x: Matrix, order: seq<nat>, b: nat)
    requires LinesGathered(z, x, order, b) && |line| == |order|
    requires forall k | 0 <= k < |order| ::
        Flat(b, x.columns, 0) + order[k] < |x.data| && line[k] == x.data[Flat(b, x.columns, 0) + order[k]]
    ensures LinesGathered(z + line, x, order, b + 1)
  {
    FlatNext(b, |order|);
    forall c: nat | c < b + 1
      ensures Gathered(z + line, Flat(c, |order|, 0), x.data, Flat(c, x.columns, 0), order)
    {
      if c < b {
        FlatInside(c, 0, |order|, b, |order|);
        assert Gathered(z, Flat(c, |order|, 0), x.data, Flat(c, x.columns, 0), order);
      }
    }
  }

  /** What a gather reads beyond the end of a line, which MLX does not check: some number for each place. */
  type Stray = (nat, nat) -> int

  /** Line `b` gathered. */
  function LineOf(x: Matrix, order: seq<nat>, b: nat, stray: Stray): (line: seq<int>)
    requires x.Valid() && b < x.rows
    ensures |line| == |order|
    ensures forall k | 0 <= k < |order| && order[k] < x.columns ::
        Flat(b, x.columns, 0) + order[k] < |x.data| && line[k] == x.data[Flat(b, x.columns, 0) + order[k]]
  {
    FlatInside(b, 0, x.columns, x.rows, x.columns);
    seq(|order|, k requires 0 <= k < |order| =>
      if order[k] < x.columns then x.data[Flat(b, x.columns, 0) + order[k]] else stray(b, order[k]))
  }

  /** `take(x, order, axis=-1)`. */
  method TakeLast(x: Matrix, order: seq<nat>, stray: Stray) returns (z: seq<int>)
    requires x.Valid()
    ensures |z| == Flat(x.rows, |order|, 0)
    ensures (forall k | 0 <= k < |order| :: order[k] < x.columns) ==> LinesGathered(z, x, order, x.rows)
  {
    z := [];
    for b := 0 to x.rows
      invariant |z| == Flat(b, |order|, 0)
      invariant (forall k | 0 <= k < |order| :: order[k] < x.columns) ==> LinesGathered(z, x, order, b)
    {
      var line := LineOf(x, order, b, stray);
      if forall k | 0 <= k < |order| :: order[k] < x.columns {
        LineGathered(z, line, x, order, b);
      }
      FlatNext(b, |order|);
      z := z + line;
    }
  }

  /** The product with the stored weight on the gathered activation is the product with the logical weight. */
  lemma GatheredProduct(y: seq<int>, dense: seq<seq<int>>, index: seq<int>, z: seq<int>, x: Matrix, n: nat)
    requires Permutes(index, n) && forall r | 0 <= r < |dense| :: |dense[r]| == n
    requires LinesGathered(z, x, ArgSort(index), x.rows) && IsProduct(y, dense, z, x.rows, n)
    ensures IsProduct(y, GatherColumns(dense, index), x.data, x.rows, x.columns)
  {
    var logical := GatherColumns(dense, index);
    forall b: nat, r: nat | b < x.rows && r < |logical| && Flat(b, |logical|, r) < |y|
      ensures y[Flat(b, |logical|, r)] == RowDot(logical[r], x.data, Flat(b, x.columns, 0))
    {
      PermutedDot(dense[r], index, z, Flat(b, n, 0), x.data, Flat(b, x.columns, 0));
    }
    ProductLines(y, logical, x);
  }

  lemma ProductLines(y: seq<int>, logical: seq<seq<int>>, x: Matrix)
    requires |y| == Flat(x.rows, |logical|, 0)
    requires forall b: nat, r: nat | b < x.rows && r < |logical| && Flat(b, |logical|, r) < |y| ::
        y[Flat(b, |logical|, r)] == RowDot(logical[r], x.data, Flat(b, x.columns, 0))
    ensures IsProduct(y, logical, x.data, x.rows, x.columns)
  {
  }

  /**
   `matmul` with the logical weight, for a stored tensor in either representation.  The
   gather hides the activation's own width from the stored tensor's check, so no width
   is rejected: of a wider activation only the leading columns count, and a narrower one
   is multiplied with whatever the gather finds beyond its lines.
   */
  method Matmul(h: Half, t: ColumnPermuted, x: Matrix, stray: Stray) returns (r: Result<seq<int>, MatmulError>)
    requires t.Valid() && x.Valid()
    ensures r.Ok? && |r.value| == Flat(x.rows, t.tensor.Rows(), 0)
    ensures x.columns >= t.tensor.Columns() ==>
              IsProduct(r.value, GatherColumns(WeightsOf(h, t.tensor), t.columnIndex), x.data, x.rows, x.columns)
  {
    var n := t.tensor.Columns();
    var z := TakeLast(x, t.StoredOrder(), stray);
    r := QuantTensors.Matmul(h, t.tensor, Matrix(x.rows, n, z));
    if x.columns >= n {
      GatheredProduct(r.value, WeightsOf(h, t.tensor), t.columnIndex, z, x, n);
    }
  }

  /** `embedding`: stored rows, then their columns in logical order. */
  method Embedding(h: Half, t: ColumnPermuted, ids: seq<nat>, stray: Stray) returns (flat: seq<int>)
    requires t.Valid() && InBounds(ids, t.tensor.Rows())
    ensures |flat| == Flat(|ids|, t.tensor.Columns(), 0)
    ensures RowsSelected(flat, t.tensor.Columns(), GatherColumns(WeightsOf(h, t.tensor), t.columnIndex), ids)
  {
    var n := t.tensor.Columns();
    var rows := QuantTensors.Embedding(h, t.tensor, ids);
    flat := TakeLast(Matrix(|ids|, n, rows), t.columnIndex, stray);
    ReorderedRows(flat, rows, n, WeightsOf(h, t.tensor), t.columnIndex, ids);
  }

  lemma ReorderedRows(flat: seq<int>, rows: seq<int>, n: nat, w: Weights, index: seq<int>, ids: seq<nat>)
    requires Permutes(index, n) && InBounds(ids, |w|) && forall r | 0 <= r < |w| :: |w[r]| == n
    requires RowsSelected(rows, n, w, ids) && LinesGathered(flat, Matrix(|ids|, n, rows), index, |ids|)
    ensures RowsSelected(flat, n, GatherColumns(w, index), ids)
  {
    forall i: nat, k: nat | i < |ids| && k < n
      ensures Flat(i, n, k) < |flat| && flat[Flat(i, n, k)] == w[ids[i]][index[k]]
    {
      assert Gathered(flat, Flat(i, n, 0), rows, Flat(i, n, 0), index);
      ReorderedCell(flat, rows, n, w, index, ids, i, k);
    }
  }

  lemma ReorderedCell(flat: seq<int>, rows: seq<int>, n: nat, w: Weights, order: seq<nat>,
                      ids: seq<nat>, i: nat, k: nat)
    requires RowsSelected(rows, n, w, ids) && i < |ids| && k < |order| && order[k] < n
    requires Gathered(flat, Flat(i, n, 0), rows, Flat(i, n, 0), order)
    ensures Flat(i, n, k) < |flat| && ids[i] < |w| && order[k] < |w[ids[i]]|
    ensures flat[Flat(i, n, k)] == w[ids[i]][order[k]]
  {
    FlatShift(i, n, 0, k);
    FlatShift(i, n, 0, order[k]);
    assert rows[Flat(i, n, order[k])] == w[ids[i]][order[k]];
  }
}
