/**
 From the bytes of a GGUF tensor to what its packed form computes: every product and
 every embedding row in terms of the block format's values of the file's own bytes.
 */
module FileTensors {
  import opened Arith
  import opened Bits
  import opened BlockFormats
  import opened BlockGrid
  import opened Qmv
  import opened QuantTensors
  import opened RawBlocks
  import opened RawTensors
  import opened Repack
  import opened Sums

  /** The bytes of block `k` of row `row`, with `per` blocks of `size` bytes to the row. */
  ghost function FileBlock(data: seq<Byte>, size: nat, per: nat, row: nat, k: nat): Block {
    var offset := Flat(row, Flat(per, size, 0), Flat(k, size, 0));
    if offset + size <= |data| then data[offset..offset + size] else []
  }

  /** The weight that the file holds at `row` and `col`. */
  ghost function FileValue(t: Tables, q: QType, data: seq<Byte>, per: nat, row: nat, col: nat): int
    requires t.Valid()
  {
    var block := FileBlock(data, BlockBytes(q), per, row, col / BlockElems(q));
    if |block| == BlockBytes(q) then Element(t, q, block, col % BlockElems(q)) else 0
  }

  /** `r` is what `from_raw_blocks` returns for the payload. */
  ghost predicate Loaded(t: Tables, q: QType, data: seq<Byte>, rows: nat, per: nat, r: AffineTensor) {
    && t.Valid() && |data| == Flat(rows, Flat(per, BlockBytes(q), 0), 0)
    && Repacked(FormatOf(t, q), Grid(BlockBytes(q), rows, per, data), r)
  }

  lemma LoadedRow(f: Format, per: nat, row: seq<Block>, words: seq<nat>, scales: seq<int>, biases: seq<int>)
    requires f.Sound() && BlocksOf(f.bytes, row) && |row| == per && RowRepacked(f, row, words, scales, biases)
    ensures |scales| * GROUP == |biases| * GROUP == per * f.elems
  {
    ParseBlocksShape(f, row);
    Associate(per, GROUP, f.groups);
  }

  /** The packed tensor has the file's rows and columns. */
  lemma LoadedIsValid(t: Tables, q: QType, data: seq<Byte>, rows: nat, per: nat, r: AffineTensor, columns: nat)
    requires Loaded(t, q, data, rows, per, r) && columns == per * BlockElems(q)
    ensures QuantTensors.Affine(r, columns).Valid() && QuantTensors.Affine(r, columns).Rows() == rows
  {
    var f := FormatOf(t, q);
    FormatsSound(t, q);
    GridIsGrid(f.bytes, rows, per, data);
    forall row | 0 <= row < rows
      ensures |r.scales[row]| * GROUP == |r.biases[row]| * GROUP == columns
    {
      LoadedRow(f, per, Grid(f.bytes, rows, per, data)[row], r.qweight[row], r.scales[row], r.biases[row]);
    }
  }

  lemma ColumnBlock(col: nat, elems: nat, per: nat)
    requires elems > 0 && col < per * elems
    ensures col / elems < per && col % elems < elems && col == col / elems * elems + col % elems
  {
    if col / elems >= per {
      ProductMonotone(per, col / elems, elems);
    }
  }

  lemma BlockInFile(data: seq<Byte>, size: nat, rows: nat, per: nat, row: nat, k: nat)
    requires |data| == Flat(rows, Flat(per, size, 0), 0) && row < rows && k < per && size > 0
    ensures InFile(data, size, per, row, k, FileBlock(data, size, per, row, k))
    ensures |FileBlock(data, size, per, row, k)| == size
  {
    GridBlock(size, rows, per, data, row, k);
  }

  lemma Positive(q: QType)
    ensures BlockElems(q) > 0 && BlockBytes(q) > 0
  {
  }

  lemma FileValueIs(t: Tables, q: QType, data: seq<Byte>, rows: nat, per: nat, r: AffineTensor, row: nat, col: nat)
    requires Loaded(t, q, data, rows, per, r) && row < rows && col < per * BlockElems(q)
    ensures row < |r.qweight| && row < |r.scales| && row < |r.biases|
    ensures col / GROUP < |r.scales[row]| && col / GROUP < |r.biases[row]|
    ensures r.Weight(row, col) == FileValue(t, q, data, per, row, col)
  {
    Positive(q);
    ColumnBlock(col, BlockElems(q), per);
    var k, e := col / BlockElems(q), col % BlockElems(q);
    BlockInFile(data, BlockBytes(q), rows, per, row, k);
    FileWeight(t, q, data, rows, per, r, row, k, e, col, FileBlock(data, BlockBytes(q), per, row, k));
  }

  /** The logical weight of the packed tensor is, entry by entry, what the file holds. */
  lemma LoadedValue(h: Half, t: Tables, q: QType, data: seq<Byte>, rows: nat, per: nat, r: AffineTensor, columns: nat,
                    row: nat, col: nat)
    requires Loaded(t, q, data, rows, per, r) && columns == per * BlockElems(q) && row < rows && col < columns
    ensures QuantTensors.Affine(r, columns).Valid() && QuantTensors.Affine(r, columns).Rows() == rows
    ensures WeightsOf(h, QuantTensors.Affine(r, columns))[row][col] == FileValue(t, q, data, per, row, col)
  {
    LoadedIsValid(t, q, data, rows, per, r, columns);
    FileValueIs(t, q, data, rows, per, r, row, col);
  }

  // ---- Products and embedding rows ----

  /** Term `col` of the product of the file's row with the activation line that starts at `base`. */
  ghost function FileTerm(t: Tables, q: QType, data: seq<Byte>, per: nat, row: nat, x: seq<int>, base: nat): int -> int
    requires t.Valid()
  {
    col => if 0 <= col && base + col < |x| then x[base + col] * FileValue(t, q, data, per, row, col) else 0
  }

  /** Every entry of the product is the sum over the columns of activation times the file's weight. */
  lemma FileProduct(h: Half, t: Tables, q: QType, data: seq<Byte>, rows: nat, per: nat, r: AffineTensor, columns: nat,
                    x: Matrix, y: seq<int>, b: nat, row: nat)
    requires Loaded(t, q, data, rows, per, r) && columns == per * BlockElems(q) && x.Valid() && x.columns == columns
    requires QuantTensors.Affine(r, columns).Valid()
    requires IsProduct(y, WeightsOf(h, QuantTensors.Affine(r, columns)), x.data, x.rows, columns)
    requires b < x.rows && row < rows
    ensures Flat(b, rows, row) < |y|
    ensures y[Flat(b, rows, row)] == Sum(columns, FileTerm(t, q, data, per, row, x.data, Flat(b, columns, 0)))
  {
    LoadedIsValid(t, q, data, rows, per, r, columns);
    var w, base := WeightsOf(h, QuantTensors.Affine(r, columns)), Flat(b, columns, 0);
    FlatInside(b, row, 1, x.rows, rows);
    FlatInside(b, 0, columns, x.rows, columns);
    forall col | 0 <= col < columns
      ensures RowTerm(w[row], x.data, base)(col) == FileTerm(t, q, data, per, row, x.data, base)(col)
    {
      LoadedValue(h, t, q, data, rows, per, r, columns, row, col);
    }
    SumEqual(columns, RowTerm(w[row], x.data, base), FileTerm(t, q, data, per, row, x.data, base));
  }

  /** Every embedding entry is the file's weight at the selected row. */
  lemma FileEmbedding(h: Half, t: Tables, q: QType, data: seq<Byte>, rows: nat, per: nat, r: AffineTensor, columns: nat,
                      ids: seq<nat>, flat: seq<int>, i: nat, col: nat)
    requires Loaded(t, q, data, rows, per, r) && columns == per * BlockElems(q)
    requires QuantTensors.Affine(r, columns).Valid() && |flat| == Flat(|ids|, columns, 0)
    requires RowsSelected(flat, columns, WeightsOf(h, QuantTensors.Affine(r, columns)), ids)
    requires i < |ids| && ids[i] < rows && col < columns
    ensures Flat(i, columns, col) < |flat|
    ensures flat[Flat(i, columns, col)] == FileValue(t, q, data, per, ids[i], col)
  {
    FlatInside(i, col, 1, |ids|, columns);
    LoadedValue(h, t, q, data, rows, per, r, columns, ids[i], col);
  }
}
