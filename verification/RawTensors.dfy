/**
 `GGUFRawBlockTensor`: matmul through the fused kernel for small batches and through
 a transient dense copy for large ones, and embedding by gathering packed rows.
 */
module RawTensors {
  import opened Arith
  import opened BlockGrid
  import opened Permutations
  import opened Qmv
  import opened RawBlocks
  import opened Sums
  import opened Wrappers

  /** A weight kept as raw blocks, `per` superblocks to the output row. */
  datatype RawTensor = RawTensor(qtype: RawType, per: nat, rows: seq<seq<Block>>) {

    ghost predicate Valid() {
      per >= 1 && GridOf(RawBytes(qtype), per, rows)
    }

    function InFeatures(): nat {
      per * SUPER
    }
  }

  datatype MatmulError = WrongColumns

  /** Activations with all leading dimensions flattened into rows. */
  datatype Matrix = Matrix(rows: nat, columns: nat, data: seq<int>) {
    ghost predicate Valid() {
      |data| == Flat(rows, columns, 0)
    }
  }

  /** The dequantized weight. */
  function Dense(h: Half, q: RawType, rows: seq<seq<Block>>): (dense: seq<seq<int>>)
    requires forall row | 0 <= row < |rows| :: BlocksOf(RawBytes(q), rows[row])
    ensures |dense| == |rows|
    ensures forall r | 0 <= r < |rows| :: dense[r] == DenseRow(h, q, rows[r])
  {
    seq(|rows|, r requires 0 <= r < |rows| => DenseRow(h, q, rows[r]))
  }

  /** The output columns of the first `n` weight rows hold `x @ dense.T`. */
  ghost predicate ProductUpTo(y: seq<int>, dense: seq<seq<int>>, x: seq<int>, batches: nat, columns: nat, n: nat) {
    forall b: nat, r: nat | b < batches && r < n && r < |dense| && Flat(b, |dense|, r) < |y| ::
      y[Flat(b, |dense|, r)] == RowDot(dense[r], x, Flat(b, columns, 0))
  }

  /** `y` is `x @ dense.T`, row-major with one line per batch row. */
  ghost predicate IsProduct(y: seq<int>, dense: seq<seq<int>>, x: seq<int>, batches: nat, columns: nat) {
    |y| == Flat(batches, |dense|, 0) && ProductUpTo(y, dense, x, batches, columns, |dense|)
  }

  /** The product is determined: the two branches of `matmul` cannot differ. */
  lemma ProductUnique(y: seq<int>, z: seq<int>, dense: seq<seq<int>>, x: seq<int>, batches: nat, columns: nat)
    requires IsProduct(y, dense, x, batches, columns) && IsProduct(z, dense, x, batches, columns)
    ensures y == z
  {
    forall i | 0 <= i < |y|
      ensures y[i] == z[i]
    {
      var b, r := FlatCover(i, batches, |dense|);
    }
  }

  /** The cells of weight row `row` hold the totals for the batch rows below `done`, the rest is as before. */
  ghost predicate RowWritten(before: seq<int>, after: seq<int>, totals: seq<int>, out: nat, row: nat, done: nat) {
    && |after| == |before|
    && forall b: nat, r: nat | r < out && Flat(b, out, r) < |before| ::
         after[Flat(b, out, r)] == if r == row && b < done && b < |totals| then totals[b] else before[Flat(b, out, r)]
  }

  lemma WriteCell(before: seq<int>, now: seq<int>, totals: seq<int>, out: nat, row: nat, t: nat, position: nat)
    requires RowWritten(before, now, totals, out, row, t) && row < out && t < |totals|
    requires position == Flat(t, out, row) < |now|
    ensures RowWritten(before, now[position := totals[t]], totals, out, row, t + 1)
  {
    var after := now[position := totals[t]];
    forall b: nat, r: nat | r < out && Flat(b, out, r) < |before|
      ensures after[Flat(b, out, r)] ==
                if r == row && b < t + 1 && b < |totals| then totals[b] else before[Flat(b, out, r)]
    {
      if Flat(b, out, r) == position {
        FlatInjective(b, r, t, row, out);
      }
    }
  }

  /** The last step of the kernel: thread `t < NB` writes `y[t * out_features + row]`. */
  method WriteTotals(y: array<int>, totals: seq<int>, out: nat, row: nat)
    requires row < out && y.Length == Flat(|totals|, out, 0)
    modifies y
    ensures RowWritten(old(y[..]), y[..], totals, out, row, |totals|)
  {
    for t := 0 to |totals|
      invariant RowWritten(old(y[..]), y[..], totals, out, row, t)
    {
      FlatInside(t, row, 1, |totals|, out);
      ghost var now := y[..];
      var position := Flat(t, out, row);
      WriteCell(old(y[..]), now, totals, out, row, t, position);
      y[position] := totals[t];
      assert y[..] == now[position := totals[t]];
    }
  }

  lemma RowAdded(before: seq<int>, after: seq<int>, totals: seq<int>, dense: seq<seq<int>>, x: seq<int>,
                 batches: nat, row: nat)
    requires row < |dense| && |before| == Flat(batches, |dense|, 0)
    requires ProductUpTo(before, dense, x, batches, |dense[row]|, row)
    requires TotalsUpTo(dense[row], x, totals, batches)
    requires RowWritten(before, after, totals, |dense|, row, |totals|)
    ensures ProductUpTo(after, dense, x, batches, |dense[row]|, row + 1)
  {
  }

  /** The fused kernel over the whole weight. */
  method QmvKernel(h: Half, t: RawTensor, x: seq<int>, batches: nat) returns (y: seq<int>)
    requires t.Valid() && |x| == Flat(batches, t.InFeatures(), 0)
    ensures IsProduct(y, Dense(h, t.qtype, t.rows), x, batches, t.InFeatures())
  {
    var out := |t.rows|;
    var buffer := new int[Flat(batches, out, 0)](_ => 0);
    for row := 0 to out
      invariant ProductUpTo(buffer[..], Dense(h, t.qtype, t.rows), x, batches, t.InFeatures(), row)
    {
      var totals := QmvRow(h, t.qtype, t.rows[row], x, batches);
      ghost var before := buffer[..];
      WriteTotals(buffer, totals, out, row);
      RowAdded(before, buffer[..], totals, Dense(h, t.qtype, t.rows), x, batches, row);
    }
    y := buffer[..];
  }

  // ---- The dense branch ----

  /** The row, block and position within the block that flat element `elem` belongs to. */
  lemma ElementCoordinates(row: nat, per: nat, k: nat, elem: nat)
    requires per > 0 && k < per * SUPER && elem == Flat(row, per * SUPER, k)
    ensures elem / SUPER == Flat(row, per, k / SUPER) && elem % SUPER == k % SUPER
    ensures elem / SUPER / per == row && elem / SUPER % per == k / SUPER
  {
    ElementBlock(row, per, k);
    FlatIs(row, per, k / SUPER);
    DivModUnique(row, k / SUPER, per);
  }

  lemma {:induction false} ElementBlock(row: nat, per: nat, k: nat)
    requires k < per * SUPER
    ensures Flat(row, per * SUPER, k) / SUPER == Flat(row, per, k / SUPER)
    ensures Flat(row, per * SUPER, k) % SUPER == k % SUPER
  {
    if row > 0 {
      ElementBlock(row - 1, per, k);
      MovedBlock(Flat(row - 1, per * SUPER, k), per);
    }
  }

  lemma MovedBlock(x: nat, per: nat)
    ensures (per * SUPER + x) / SUPER == per + x / SUPER && (per * SUPER + x) % SUPER == x % SUPER
  {
  }

  /** The first `n` elements of the flat dense copy are in place. */
  ghost predicate DenseUpTo(flat: seq<int>, dense: seq<seq<int>>, columns: nat, n: nat) {
    forall r: nat, k: nat | r < |dense| && k < columns && k < |dense[r]| && Flat(r, columns, k) < n ::
      Flat(r, columns, k) < |flat| && flat[Flat(r, columns, k)] == dense[r][k]
  }

  lemma DenseStep(flat: seq<int>, dense: seq<seq<int>>, columns: nat, value: int, row: nat, k: nat)
    requires row < |dense| && k < columns && k < |dense[row]| && value == dense[row][k]
    requires |flat| == Flat(row, columns, k) && DenseUpTo(flat, dense, columns, |flat|)
    ensures DenseUpTo(flat + [value], dense, columns, |flat| + 1)
  {
    forall r: nat, c: nat | r < |dense| && c < columns && c < |dense[r]| && Flat(r, columns, c) < |flat| + 1
      ensures (flat + [value])[Flat(r, columns, c)] == dense[r][c]
    {
      if Flat(r, columns, c) == |flat| {
        FlatInjective(r, c, row, k, columns);
      }
    }
  }

  /** One thread of the dequantize kernel: element `elem` of the packed rows. */
  method DequantizeElement(h: Half, q: RawType, rows: seq<seq<Block>>, per: nat, elem: nat) returns (value: int)
    requires GridOf(RawBytes(q), per, rows) && per > 0 && elem < Flat(|rows|, per * SUPER, 0)
    ensures Quot(elem, per * SUPER) < |rows|
    ensures value == Dense(h, q, rows)[Quot(elem, per * SUPER)][Rem(elem, per * SUPER)]
  {
    ghost var row, k := FlatCover(elem, |rows|, per * SUPER);
    QuotFlat(row, per * SUPER, k);
    ElementCoordinates(row, per, k, elem);
    var block := elem / SUPER;
    value := Dequant(h, q, rows[block / per][block % per], elem % SUPER);
  }

  /** `_dequantize_rows`: one thread per element of the packed rows. */
  method DequantizeRows(h: Half, q: RawType, rows: seq<seq<Block>>, per: nat) returns (flat: seq<int>)
    requires GridOf(RawBytes(q), per, rows) && per > 0
    ensures |flat| == Flat(|rows|, per * SUPER, 0) && DenseUpTo(flat, Dense(h, q, rows), per * SUPER, |flat|)
  {
    var n := Flat(|rows|, per * SUPER, 0);
    flat := [];
    for elem := 0 to n
      invariant |flat| == elem && DenseUpTo(flat, Dense(h, q, rows), per * SUPER, elem)
    {
      var value := DequantizeElement(h, q, rows, per, elem);
      FlatQuot(elem, per * SUPER);
      DenseStep(flat, Dense(h, q, rows), per * SUPER, value, Quot(elem, per * SUPER), Rem(elem, per * SUPER));
      flat := flat + [value];
    }
  }

  lemma DenseTerm(flat: seq<int>, dense: seq<seq<int>>, columns: nat, x: seq<int>, base: nat, r: nat, k: nat)
    requires r < |dense| && k < columns == |dense[r]| && base + columns <= |x|
    requires |flat| == Flat(|dense|, columns, 0) && DenseUpTo(flat, dense, columns, |flat|)
    ensures Flat(r, columns, k) < |flat|
    ensures x[base + k] * flat[Flat(r, columns, k)] == RowTerm(dense[r], x, base)(k)
  {
    FlatInside(r, k, 1, |dense|, columns);
    assert flat[Flat(r, columns, k)] == dense[r][k];
  }

  /** One cell of the GEMM, from the flat dense copy. */
  method DenseCell(flat: seq<int>, ghost dense: seq<seq<int>>, columns: nat, x: seq<int>, base: nat,
                   r: nat) returns (total: int)
    requires r < |dense| && |dense[r]| == columns && base + columns <= |x|
    requires |flat| == Flat(|dense|, columns, 0) && DenseUpTo(flat, dense, columns, |flat|)
    ensures total == RowDot(dense[r], x, base)
  {
    total := 0;
    for k := 0 to columns
      invariant total == Sum(k, RowTerm(dense[r], x, base))
    {
      DenseTerm(flat, dense, columns, x, base, r, k);
      total := total + x[base + k] * flat[Flat(r, columns, k)];
    }
  }

  lemma LineAdded(y: seq<int>, line: seq<int>, dense: seq<seq<int>>, x: seq<int>, columns: nat, b: nat)
    requires IsProduct(y, dense, x, b, columns) && |line| == |dense|
    requires forall r | 0 <= r < |line| :: line[r] == RowDot(dense[r], x, Flat(b, columns, 0))
    ensures IsProduct(y + line, dense, x, b + 1, columns)
  {
    FlatNext(b, |dense|);
    forall c: nat, r: nat | c < b + 1 && r < |dense| && Flat(c, |dense|, r) < |y + line|
      ensures (y + line)[Flat(c, |dense|, r)] == RowDot(dense[r], x, Flat(c, columns, 0))
    {
      if c < b {
        FlatInside(c, r, 1, b, |dense|);
      } else {
        FlatShift(b, |dense|, 0, r);
      }
    }
  }

  /** One line of the GEMM: the dot products of one batch row with every weight row. */
  method DenseLine(flat: seq<int>, ghost dense: seq<seq<int>>, out: nat, columns: nat, x: seq<int>, base: nat)
    returns (line: seq<int>)
    requires out == |dense| && (forall r | 0 <= r < out :: |dense[r]| == columns) && base + columns <= |x|
    requires |flat| == Flat(out, columns, 0) && DenseUpTo(flat, dense, columns, |flat|)
    ensures |line| == out && forall r | 0 <= r < out :: line[r] == RowDot(dense[r], x, base)
  {
    line := [];
    for r := 0 to out
      invariant |line| == r && forall i | 0 <= i < r :: line[i] == RowDot(dense[i], x, base)
    {
      var total := DenseCell(flat, dense, columns, x, base, r);
      line := line + [total];
    }
  }

  /** The dense GEMM, line by line. */
  method DenseLines(flat: seq<int>, ghost dense: seq<seq<int>>, out: nat, columns: nat, x: seq<int>, batches: nat)
    returns (y: seq<int>)
    requires out == |dense| && (forall r | 0 <= r < out :: |dense[r]| == columns) && |x| == Flat(batches, columns, 0)
    requires |flat| == Flat(out, columns, 0) && DenseUpTo(flat, dense, columns, |flat|)
    ensures IsProduct(y, dense, x, batches, columns)
  {
    y := [];
    for b := 0 to batches
      invariant IsProduct(y, dense, x, b, columns)
    {
      FlatInside(b, 0, columns, batches, columns);
      var line := DenseLine(flat, dense, out, columns, x, Flat(b, columns, 0));
      LineAdded(y, line, dense, x, columns, b);
      y := y + line;
    }
  }

  /** The large-batch branch: a transient dense copy and one GEMM. */
  method DenseMatmul(h: Half, t: RawTensor, x: seq<int>, batches: nat) returns (y: seq<int>)
    requires t.Valid() && |x| == Flat(batches, t.InFeatures(), 0)
    ensures IsProduct(y, Dense(h, t.qtype, t.rows), x, batches, t.InFeatures())
  {
    var flat := DequantizeRows(h, t.qtype, t.rows, t.per);
    y := DenseLines(flat, Dense(h, t.qtype, t.rows), |t.rows|, t.InFeatures(), x, batches);
  }

  /**
   `matmul`: a wrong last dimension is rejected, an empty batch gives an empty result,
   and every other batch gives `x @ dequantize(self).T` whichever branch runs.
   */
  method Matmul(h: Half, t: RawTensor, x: Matrix) returns (r: Result<seq<int>, MatmulError>)
    requires t.Valid() && x.Valid()
    ensures r.Err? <==> x.columns != t.InFeatures()
    ensures r.Ok? ==> IsProduct(r.value, Dense(h, t.qtype, t.rows), x.data, x.rows, x.columns)
  {
    if x.columns != t.InFeatures() {
      return Err(WrongColumns);
    }
    if x.rows == 0 {
      return Ok([]);
    }
    if x.rows <= QMV_MAX_BATCH {
      var y := QmvKernel(h, t, x.data, x.rows);
      r := Ok(y);
    } else {
      var y := DenseMatmul(h, t, x.data, x.rows);
      r := Ok(y);
    }
  }

  /** `embedding`: packed rows are gathered first and only they are dequantized. */
  method Embedding(h: Half, t: RawTensor, ids: seq<nat>) returns (flat: seq<int>)
    requires t.Valid() && forall i | 0 <= i < |ids| :: ids[i] < |t.rows|
    ensures |flat| == Flat(|ids|, t.InFeatures(), 0)
    ensures forall i: nat, k: nat | i < |ids| && k < t.InFeatures() && Flat(i, t.InFeatures(), k) < |flat| ::
        flat[Flat(i, t.InFeatures(), k)] == Dense(h, t.qtype, t.rows)[ids[i]][k]
  {
    if |ids| == 0 {
      return [];
    }
    flat := DequantizeRows(h, t.qtype, Gather(t.rows, ids), t.per);
  }
}
