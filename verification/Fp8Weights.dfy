/** Dequantizing FP8 checkpoint weights with one scale per 128-by-128 block. */
module Fp8Weights {
  import opened Arith
  import opened Wrappers

  const BLOCK: nat := 128

  /** A row-major array; FP8 codes are given as the numbers they stand for. */
  datatype Array = Array(shape: seq<nat>, data: seq<int>)

  datatype ScaleError = BadScaleShape

  ghost predicate Valid(a: Array) {
    |a.data| == Elements(a.shape)
  }

  // ---- The stages on flat data: `lead` matrices of `rows` by `cols` ----

  /** Coordinates of a flat position among matrices of `rows` by `cols`. */
  function Col(x: nat, cols: nat): nat
    requires cols > 0
  {
    Rem(x, cols)
  }

  function Row(x: nat, rows: nat, cols: nat): nat
    requires rows > 0 && cols > 0
  {
    Rem(Quot(x, cols), rows)
  }

  function Lead(x: nat, rows: nat, cols: nat): nat
    requires rows > 0 && cols > 0
  {
    Quot(Quot(x, cols), rows)
  }

  function At(l: nat, rows: nat, i: nat, cols: nat, j: nat): nat {
    Flat(Flat(l, rows, i), cols, j)
  }

  lemma CoordinatesOf(l: nat, rows: nat, i: nat, cols: nat, j: nat)
    requires i < rows && j < cols
    ensures var x := At(l, rows, i, cols, j);
            Col(x, cols) == j && Row(x, rows, cols) == i && Lead(x, rows, cols) == l
  {
    QuotFlat(Flat(l, rows, i), cols, j);
    QuotFlat(l, rows, i);
  }

  lemma AtInside(lead: nat, l: nat, rows: nat, i: nat, cols: nat, j: nat)
    requires l < lead && i < rows && j < cols
    ensures At(l, rows, i, cols, j) < At(lead, rows, 0, cols, 0)
  {
    FlatInside(l, i, 1, lead, rows);
    FlatInside(Flat(l, rows, i), j, 1, Flat(lead, rows, 0), cols);
  }

  /** `mx.pad`: zeros below and to the right of every matrix. */
  function Pad(data: seq<int>, lead: nat, rows: nat, cols: nat, toRows: nat, toCols: nat): (r: seq<int>)
    requires toRows > 0 && toCols > 0
    ensures |r| == At(lead, toRows, 0, toCols, 0)
  {
    seq(At(lead, toRows, 0, toCols, 0), x requires 0 <= x < At(lead, toRows, 0, toCols, 0) =>
      var l, i, j := Lead(x, toRows, toCols), Row(x, toRows, toCols), Col(x, toCols);
      if i < rows && j < cols && At(l, rows, i, cols, j) < |data| then data[At(l, rows, i, cols, j)] else 0)
  }

  /** The scale of a position of the `(lead, blockRows, 128, blockCols, 128)` view. */
  function ScaleIndex(x: nat, blockRows: nat, blockCols: nat): nat
    requires blockRows > 0 && blockCols > 0
  {
    var band := Quot(Quot(x, BLOCK), blockCols);
    At(Quot(Quot(band, BLOCK), blockRows), blockRows, Rem(Quot(band, BLOCK), blockRows),
       blockCols, Rem(Quot(x, BLOCK), blockCols))
  }

  /** The broadcast product with `scale[..., :, None, :, None]`. */
  function Multiply(data: seq<int>, scale: seq<int>, blockRows: nat, blockCols: nat): (r: seq<int>)
    requires blockRows > 0 && blockCols > 0
    ensures |r| == |data|
  {
    seq(|data|, x requires 0 <= x < |data| =>
      var k := ScaleIndex(x, blockRows, blockCols);
      if k < |scale| then data[x] * scale[k] else 0)
  }

  /** `[..., :rows, :cols]`. */
  function Crop(data: seq<int>, lead: nat, rows: nat, cols: nat, fromRows: nat, fromCols: nat): (r: seq<int>)
    requires rows > 0 && cols > 0
    ensures |r| == At(lead, rows, 0, cols, 0)
  {
    seq(At(lead, rows, 0, cols, 0), x requires 0 <= x < At(lead, rows, 0, cols, 0) =>
      var k := At(Lead(x, rows, cols), fromRows, Row(x, rows, cols), fromCols, Col(x, cols));
      if k < |data| then data[k] else 0)
  }

  function Padding(n: int): nat {
    (-n) % 128
  }

  /** The padded size is a whole number of blocks. */
  lemma PaddedSize(n: nat)
    ensures n + Padding(n) == CeilDiv(n, BLOCK) * BLOCK && (n + Padding(n)) / 128 == CeilDiv(n, BLOCK)
    ensures n > 0 ==> CeilDiv(n, BLOCK) > 0
  {
  }

  /** The four stages, for a padded size and its number of blocks. */
  function Staged(lead: nat, rows: nat, cols: nat, data: seq<int>, scale: seq<int>, toRows: nat, toCols: nat,
                  blockRows: nat, blockCols: nat): seq<int>
    requires rows > 0 && cols > 0 && toRows > 0 && toCols > 0 && blockRows > 0 && blockCols > 0
  {
    Crop(Multiply(Pad(data, lead, rows, cols, toRows, toCols), scale, blockRows, blockCols),
         lead, rows, cols, toRows, toCols)
  }

  function Blocks(lead: nat, rows: nat, cols: nat, data: seq<int>, scale: seq<int>): seq<int> {
    if rows == 0 || cols == 0 then []
    else
      var toRows, toCols := rows + Padding(rows), cols + Padding(cols);
      PaddedSize(rows);
      PaddedSize(cols);
      Staged(lead, rows, cols, data, scale, toRows, toCols, toRows / 128, toCols / 128)
  }

  /** Vectors and scalars pass through; a scale array of any other shape is rejected. */
  function Dequantize(weight: Array, scale: Array): Result<Array, ScaleError> {
    var n := |weight.shape|;
    if n < 2 then Ok(weight)
    else
      var leading, rows, cols := weight.shape[..n - 2], weight.shape[n - 2], weight.shape[n - 1];
      if scale.shape != leading + [CeilDiv(rows, BLOCK), CeilDiv(cols, BLOCK)] then Err(BadScaleShape)
      else Ok(Array(weight.shape, Blocks(Elements(leading), rows, cols, weight.data, scale.data)))
  }

  // ---- What the stages compute ----

  /** A position of the padded array belongs to the block of its coordinates. */
  lemma ScaleIndexIs(l: nat, blockRows: nat, i: nat, blockCols: nat, j: nat, toRows: nat, toCols: nat)
    requires toRows == blockRows * BLOCK && toCols == blockCols * BLOCK && i < toRows && j < toCols
    ensures blockRows > 0 && blockCols > 0 && Quot(i, BLOCK) < blockRows && Quot(j, BLOCK) < blockCols
    ensures ScaleIndex(At(l, toRows, i, toCols, j), blockRows, blockCols) ==
              At(l, blockRows, Quot(i, BLOCK), blockCols, Quot(j, BLOCK))
  {
    var bi, ri, bj, rj := Quot(i, BLOCK), Rem(i, BLOCK), Quot(j, BLOCK), Rem(j, BLOCK);
    FlatIs(blockRows, BLOCK, 0);
    FlatIs(blockCols, BLOCK, 0);
    QuotBelow(i, blockRows, BLOCK);
    QuotBelow(j, blockCols, BLOCK);
    FlatQuot(i, BLOCK);
    FlatQuot(j, BLOCK);
    var m := Flat(l, toRows, i);
    FlatNested(m, blockCols, bj, BLOCK, rj, toCols);
    FlatNested(l, blockRows, bi, BLOCK, ri, toRows);
    QuotFlat(Flat(m, blockCols, bj), BLOCK, rj);
    QuotFlat(m, blockCols, bj);
    QuotFlat(Flat(l, blockRows, bi), BLOCK, ri);
    QuotFlat(l, blockRows, bi);
  }

  lemma PadAt(data: seq<int>, lead: nat, rows: nat, cols: nat, toRows: nat, toCols: nat, l: nat, i: nat, j: nat)
    requires l < lead && i < rows <= toRows && j < cols <= toCols && |data| == At(lead, rows, 0, cols, 0)
    ensures At(l, toRows, i, toCols, j) < |Pad(data, lead, rows, cols, toRows, toCols)|
    ensures At(l, rows, i, cols, j) < |data|
    ensures Pad(data, lead, rows, cols, toRows, toCols)[At(l, toRows, i, toCols, j)] == data[At(l, rows, i, cols, j)]
  {
    AtInside(lead, l, toRows, i, toCols, j);
    AtInside(lead, l, rows, i, cols, j);
    CoordinatesOf(l, toRows, i, toCols, j);
  }

  lemma CropAt(data: seq<int>, lead: nat, rows: nat, cols: nat, fromRows: nat, fromCols: nat, l: nat, i: nat, j: nat)
    requires l < lead && i < rows && j < cols && At(l, fromRows, i, fromCols, j) < |data|
    ensures At(l, rows, i, cols, j) < |Crop(data, lead, rows, cols, fromRows, fromCols)|
    ensures Crop(data, lead, rows, cols, fromRows, fromCols)[At(l, rows, i, cols, j)] ==
            data[At(l, fromRows, i, fromCols, j)]
  {
    AtInside(lead, l, rows, i, cols, j);
    CoordinatesOf(l, rows, i, cols, j);
  }

  lemma MultiplyAt(data: seq<int>, scale: seq<int>, blockRows: nat, blockCols: nat, x: nat, k: nat)
    requires blockRows > 0 && blockCols > 0 && x < |data|
    requires k == ScaleIndex(x, blockRows, blockCols) < |scale|
    ensures Multiply(data, scale, blockRows, blockCols)[x] == data[x] * scale[k]
  {
  }

  /** Padding, the block view, the broadcast and the crop together scale each entry by its block's scale. */
  lemma StagedAt(lead: nat, rows: nat, cols: nat, data: seq<int>, scale: seq<int>, toRows: nat, toCols: nat,
                 blockRows: nat, blockCols: nat, l: nat, i: nat, j: nat)
    requires toRows == blockRows * BLOCK && toCols == blockCols * BLOCK && blockRows > 0 && blockCols > 0
    requires l < lead && i < rows <= toRows && j < cols <= toCols && |data| == At(lead, rows, 0, cols, 0)
    requires |scale| == At(lead, blockRows, 0, blockCols, 0)
    ensures At(l, rows, i, cols, j) < |data|
    ensures At(l, rows, i, cols, j) < |Staged(lead, rows, cols, data, scale, toRows, toCols, blockRows, blockCols)|
    ensures At(l, blockRows, Quot(i, BLOCK), blockCols, Quot(j, BLOCK)) < |scale|
    ensures Staged(lead, rows, cols, data, scale, toRows, toCols, blockRows, blockCols)[At(l, rows, i, cols, j)] ==
              data[At(l, rows, i, cols, j)] * scale[At(l, blockRows, Quot(i, BLOCK), blockCols, Quot(j, BLOCK))]
  {
    var padded := Pad(data, lead, rows, cols, toRows, toCols);
    var k := At(l, blockRows, Quot(i, BLOCK), blockCols, Quot(j, BLOCK));
    PadAt(data, lead, rows, cols, toRows, toCols, l, i, j);
    ScaleIndexIs(l, blockRows, i, blockCols, j, toRows, toCols);
    AtInside(lead, l, blockRows, Quot(i, BLOCK), blockCols, Quot(j, BLOCK));
    MultiplyAt(padded, scale, blockRows, blockCols, At(l, toRows, i, toCols, j), k);
    CropAt(Multiply(padded, scale, blockRows, blockCols), lead, rows, cols, toRows, toCols, l, i, j);
  }

  lemma ShapeSplit(leading: seq<nat>, rows: nat, cols: nat)
    ensures Elements(leading + [rows, cols]) == At(Elements(leading), rows, 0, cols, 0)
  {
    var shape := leading + [rows, cols];
    assert shape[..|shape| - 1] == leading + [rows];
    assert (leading + [rows])[..|leading|] == leading;
  }

  lemma DequantizeIs(leading: seq<nat>, rows: nat, cols: nat, weight: Array, scale: Array)
    requires weight.shape == leading + [rows, cols] && rows > 0 && cols > 0
    requires scale.shape == leading + [CeilDiv(rows, BLOCK), CeilDiv(cols, BLOCK)]
    ensures CeilDiv(rows, BLOCK) > 0 && CeilDiv(cols, BLOCK) > 0
    ensures Dequantize(weight, scale) ==
              Ok(Array(weight.shape,
                       Staged(Elements(leading), rows, cols, weight.data, scale.data, rows + Padding(rows),
                              cols + Padding(cols), CeilDiv(rows, BLOCK), CeilDiv(cols, BLOCK))))
  {
    var n := |weight.shape|;
    assert weight.shape[..n - 2] == leading && weight.shape[n - 2] == rows && weight.shape[n - 1] == cols;
    PaddedSize(rows);
    PaddedSize(cols);
  }

  /** Fewer than two axes pass through; else the scales must be one for each 128-by-128 block of each matrix. */
  lemma DequantizeIff(weight: Array, scale: Array)
    ensures |weight.shape| < 2 ==> Dequantize(weight, scale) == Ok(weight)
    ensures |weight.shape| >= 2 ==>
              var n := |weight.shape|;
              var blocks := [(weight.shape[n - 2] + 127) / 128, (weight.shape[n - 1] + 127) / 128];
              Dequantize(weight, scale).Ok? <==> scale.shape == weight.shape[..n - 2] + blocks
    ensures Dequantize(weight, scale).Ok? ==> Dequantize(weight, scale).value.shape == weight.shape
  {
  }

  /** Entry `(i, j)` of matrix `l` is scaled by its block's scale. */
  ghost predicate ScaledAt(result: seq<int>, weight: seq<int>, scale: seq<int>, rows: nat, cols: nat, l: nat,
                           i: nat, j: nat) {
    var x := At(l, rows, i, cols, j);
    var k := At(l, CeilDiv(rows, BLOCK), Quot(i, BLOCK), CeilDiv(cols, BLOCK), Quot(j, BLOCK));
    x < |weight| && x < |result| && k < |scale| && result[x] == weight[x] * scale[k]
  }

  /**
   For an array of any leading shape, any number of rows and columns and a scale array of
   the right shape, entry `(i, j)` is scaled by scale `(i / 128, j / 128)` of its matrix.
   */
  lemma DequantizedAt(leading: seq<nat>, rows: nat, cols: nat, weight: Array, scale: Array, result: Array,
                      l: nat, i: nat, j: nat)
    requires Valid(weight) && weight.shape == leading + [rows, cols]
    requires Valid(scale) && scale.shape == leading + [CeilDiv(rows, BLOCK), CeilDiv(cols, BLOCK)]
    requires Dequantize(weight, scale) == Ok(result) && l < Elements(leading) && i < rows && j < cols
    ensures result.shape == weight.shape && ScaledAt(result.data, weight.data, scale.data, rows, cols, l, i, j)
  {
    DequantizeIs(leading, rows, cols, weight, scale);
    ShapeSplit(leading, rows, cols);
    ShapeSplit(leading, CeilDiv(rows, BLOCK), CeilDiv(cols, BLOCK));
    StagedScales(Elements(leading), rows, cols, weight.data, scale.data, result.data, l, i, j);
  }

  lemma StagedScales(lead: nat, rows: nat, cols: nat, data: seq<int>, scale: seq<int>, result: seq<int>,
                     l: nat, i: nat, j: nat)
    requires CeilDiv(rows, BLOCK) > 0 && CeilDiv(cols, BLOCK) > 0 && l < lead && i < rows && j < cols
    requires |data| == At(lead, rows, 0, cols, 0) &&
             |scale| == At(lead, CeilDiv(rows, BLOCK), 0, CeilDiv(cols, BLOCK), 0)
    requires result == Staged(lead, rows, cols, data, scale, rows + Padding(rows), cols + Padding(cols),
                              CeilDiv(rows, BLOCK), CeilDiv(cols, BLOCK))
    ensures ScaledAt(result, data, scale, rows, cols, l, i, j)
  {
    PaddedSize(rows);
    PaddedSize(cols);
    StagedAt(lead, rows, cols, data, scale, rows + Padding(rows), cols + Padding(cols),
             CeilDiv(rows, BLOCK), CeilDiv(cols, BLOCK), l, i, j);
  }
}
