/**
 The two representations of a quantized GGUF weight and the operations that both offer:
 the product with an activation, the gather of embedding rows, and the row permutation.
 */
module QuantTensors {
  import opened Arith
  import opened BlockFormats
  import opened Permutations
  import opened Qmv
  import opened RawBlocks
  import opened RawTensors
  import opened Repack
  import opened Wrappers

  type Weights = seq<seq<int>>

  /** A quantized tensor in either representation, with its input width. */
  datatype Quantized = Affine(triple: AffineTensor, columns: nat) | RawRows(raw: RawTensor) {
    ghost predicate Valid() {
      match this
      case Affine(t, columns) =>
        && |t.scales| == |t.biases| == |t.qweight|
        && forall r | 0 <= r < |t.qweight| :: |t.scales[r]| * GROUP == |t.biases[r]| * GROUP == columns
      case RawRows(raw) => raw.Valid()
    }

    function Rows(): nat {
      match this
      case Affine(t, _) => |t.qweight|
      case RawRows(raw) => |raw.rows|
    }

    function Columns(): nat {
      match this
      case Affine(_, columns) => columns
      case RawRows(raw) => raw.InFeatures()
    }
  }

  /** One row of the affine triple, dequantized. */
  function AffineRow(t: AffineTensor, r: nat, columns: nat): (row: seq<int>)
    requires r < |t.qweight| && r < |t.scales| && r < |t.biases|
    requires |t.scales[r]| * GROUP == |t.biases[r]| * GROUP == columns
    ensures |row| == columns
  {
    seq(columns, k requires 0 <= k < columns => AffineAt(t.qweight[r], t.scales[r], t.biases[r], t.width, k))
  }

  /** The logical weights a quantized tensor stands for. */
  function WeightsOf(h: Half, q: Quantized): (w: Weights)
    requires q.Valid()
    ensures |w| == q.Rows() && forall r | 0 <= r < |w| :: |w[r]| == q.Columns()
  {
    match q
    case Affine(t, columns) => seq(|t.qweight|, r requires 0 <= r < |t.qweight| => AffineRow(t, r, columns))
    case RawRows(raw) => Dense(h, raw.qtype, raw.rows)
  }

  datatype PermuteError = BadLength | NotPermutation

  /** `permute_rows`: the packed rows of every array gathered together. */
  function PermuteRows(q: Quantized, index: seq<int>): Result<Quantized, PermuteError>
    requires q.Valid()
  {
    if |index| != q.Rows() then Err(BadLength)
    else if !Accepted(index, q.Rows()) then Err(NotPermutation)
    else
      AcceptedIff(index, q.Rows());
      match q
      case Affine(t, columns) =>
        var (qweight, scales, biases) := (Gather(t.qweight, index), Gather(t.scales, index), Gather(t.biases, index));
        Ok(Affine(AffineTensor(qweight, scales, biases, t.width), columns))
      case RawRows(raw) => Ok(RawRows(RawTensor(raw.qtype, raw.per, Gather(raw.rows, index))))
  }

  /** `permute_rows` succeeds exactly for the permutations of the rows, and commutes with decoding. */
  lemma PermuteCommutes(h: Half, q: Quantized, index: seq<int>)
    requires q.Valid()
    ensures PermuteRows(q, index).Ok? <==> Permutes(index, q.Rows())
    ensures PermuteRows(q, index) == Err(BadLength) <==> |index| != q.Rows()
    ensures PermuteRows(q, index).Ok? ==>
              var p := PermuteRows(q, index).value;
              && p.Valid() && p.Rows() == q.Rows() && p.Columns() == q.Columns()
              && WeightsOf(h, p) == Gather(WeightsOf(h, q), index)
  {
    AcceptedIff(index, q.Rows());
    if Permutes(index, q.Rows()) {
      var p := PermuteRows(q, index).value;
      forall r | 0 <= r < q.Rows()
        ensures p.Valid() && WeightsOf(h, p)[r] == WeightsOf(h, q)[index[r]]
      {
      }
    }
  }

  // ---- Products ----

  /** Entry `i` of `x @ w.T`, laid out row-major. */
  function ProductAt(w: Weights, x: Matrix, i: nat): int
    requires |w| > 0
  {
    RowDot(w[Rem(i, |w|)], x.data, Flat(Quot(i, |w|), x.columns, 0))
  }

  /** `mx.quantized_matmul`: the product with the dequantized weight. */
  function AffineProduct(w: Weights, x: Matrix): seq<int> {
    seq(Flat(x.rows, |w|, 0), i requires 0 <= i < Flat(x.rows, |w|, 0) => if |w| == 0 then 0 else ProductAt(w, x, i))
  }

  lemma AffineProductIs(w: Weights, x: Matrix)
    ensures IsProduct(AffineProduct(w, x), w, x.data, x.rows, x.columns)
  {
    var y := AffineProduct(w, x);
    forall b: nat, r: nat | b < x.rows && r < |w| && Flat(b, |w|, r) < |y|
      ensures y[Flat(b, |w|, r)] == RowDot(w[r], x.data, Flat(b, x.columns, 0))
    {
      QuotFlat(b, |w|, r);
    }
  }

  /** `matmul` of either representation: `x @ W.T`, or a wrong last dimension. */
  method Matmul(h: Half, q: Quantized, x: Matrix) returns (r: Result<seq<int>, MatmulError>)
    requires q.Valid() && x.Valid()
    ensures r.Err? <==> x.columns != q.Columns()
    ensures r.Ok? ==> IsProduct(r.value, WeightsOf(h, q), x.data, x.rows, x.columns)
  {
    match q
    case Affine(t, columns) =>
      AffineProductIs(WeightsOf(h, q), x);
      return if x.columns != columns then Err(WrongColumns) else Ok(AffineProduct(WeightsOf(h, q), x));
    case RawRows(raw) =>
      r := RawTensors.Matmul(h, raw, x);
  }

  // ---- Embedding rows ----

  /** The flat rows are those of `w` that `ids` selects. */
  ghost predicate RowsSelected(flat: seq<int>, n: nat, w: Weights, ids: seq<nat>) {
    forall i: nat, k: nat | i < |ids| && k < n && Flat(i, n, k) < |flat| ::
      ids[i] < |w| && k < |w[ids[i]]| && flat[Flat(i, n, k)] == w[ids[i]][k]
  }

  /** `mx.dequantize` of the gathered rows, laid out row-major. */
  function AffineRows(w: Weights, n: nat, ids: seq<nat>): seq<int>
    requires InBounds(ids, |w|) && forall r | 0 <= r < |w| :: |w[r]| == n
  {
    var rows := Gather(w, ids);
    seq(Flat(|ids|, n, 0), i requires 0 <= i < Flat(|ids|, n, 0) =>
      if n > 0 && Quot(i, n) < |rows| then rows[Quot(i, n)][Rem(i, n)] else 0)
  }

  lemma AffineRowsAre(w: Weights, n: nat, ids: seq<nat>)
    requires InBounds(ids, |w|) && forall r | 0 <= r < |w| :: |w[r]| == n
    ensures RowsSelected(AffineRows(w, n, ids), n, w, ids)
  {
    var flat := AffineRows(w, n, ids);
    forall i: nat, k: nat | i < |ids| && k < n && Flat(i, n, k) < |flat|
      ensures flat[Flat(i, n, k)] == w[ids[i]][k]
    {
      QuotFlat(i, n, k);
    }
  }

  /** `embedding` of either representation: the rows that `ids` selects, dequantized. */
  method Embedding(h: Half, q: Quantized, ids: seq<nat>) returns (flat: seq<int>)
    requires q.Valid() && InBounds(ids, q.Rows())
    ensures |flat| == Flat(|ids|, q.Columns(), 0) && RowsSelected(flat, q.Columns(), WeightsOf(h, q), ids)
  {
    match q
    case Affine(t, columns) =>
      AffineRowsAre(WeightsOf(h, q), columns, ids);
      flat := AffineRows(WeightsOf(h, q), columns, ids);
    case RawRows(raw) =>
      flat := RawTensors.Embedding(h, raw, ids);
  }
}
