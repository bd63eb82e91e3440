/**
 `GGUFMLXQuantizedTensor.from_raw_blocks`: raw block bytes to packed words, scales
 and biases, row chunk by row chunk.  The result is a function of the bytes alone
 and every logical weight is the one the block format defines.
 */
module Repack {
  import opened Arith
  import opened Bits
  import opened BlockFormats
  import opened BlockGrid
  import opened PackCodes
  import opened Wrappers

  /**
   A block format as the loader sees it: sizes, the parser picked for the qtype,
   and the element-wise meaning of a block.
   */
  datatype Format = Format(
    elems: nat, groups: nat, bytes: nat, width: nat, parse: Block -> Parsed, element: (Block, nat) -> int)
  {

    ghost predicate Shaped(p: Parsed) {
      |p.codes| == elems && |p.scales| == |p.biases| == groups && CodesFit(p.codes, width)
    }

    /** Every block parses to the right shape and the affine triple means the block. */
    ghost predicate Sound() {
      && elems > 0 && elems == groups * GROUP && bytes > 0 && 1 <= width <= WORD
      && (forall b: Block | |b| == bytes :: Shaped(parse(b)))
      && (forall b: Block, e: nat | |b| == bytes && e < elems :: Affine(parse(b), e) == element(b, e))
    }
  }

  function FormatOf(t: Tables, q: QType): Format
    requires t.Valid()
  {
    Format(BlockElems(q), BlockElems(q) / GROUP, BlockBytes(q), CodeWidth(q),
           b requires true => if |b| == BlockBytes(q) then Parse(t, q, b) else Parsed([], [], []),
           (b: Block, e: nat) => if |b| == BlockBytes(q) && e < BlockElems(q) then Element(t, q, b, e) else 0)
  }

  /** All ten formats are sound. */
  lemma FormatsSound(t: Tables, q: QType)
    requires t.Valid()
    ensures FormatOf(t, q).Sound()
  {
    var f := FormatOf(t, q);
    forall b: Block | |b| == f.bytes
      ensures f.Shaped(f.parse(b))
    {
      BlockExact(t, q, b, 0);
    }
    forall b: Block, e: nat | |b| == f.bytes && e < f.elems
      ensures Affine(f.parse(b), e) == f.element(b, e)
    {
      BlockExact(t, q, b, e);
    }
  }

  datatype LoadError = BadShape | NotBlockMultiple | WrongByteCount

  /** `scale * code + bias` at one column of a packed row, the code read from the packed bits. */
  function AffineAt(words: seq<nat>, scales: seq<int>, biases: seq<int>, width: nat, col: nat): int
    requires col / GROUP < |scales| && col / GROUP < |biases|
  {
    scales[col / GROUP] * Unpack(words, width, col) + biases[col / GROUP]
  }

  /** The validated affine triple; one entry per output row. */
  datatype AffineTensor = AffineTensor(
    qweight: seq<seq<nat>>, scales: seq<seq<int>>, biases: seq<seq<int>>, width: nat)
  {
    function Weight(row: nat, col: nat): int
      requires row < |scales| && row < |biases| && row < |qweight|
      requires col / GROUP < |scales[row]| && col / GROUP < |biases[row]|
    {
      AffineAt(qweight[row], scales[row], biases[row], width, col)
    }
  }

  /** Consecutive blocks parsed, with their codes, scales and biases laid end to end. */
  function ParseBlocks(f: Format, blocks: seq<Block>): Parsed {
    if |blocks| == 0 then Parsed([], [], []) else
      var before := ParseBlocks(f, blocks[..|blocks| - 1]);
      var last := f.parse(blocks[|blocks| - 1]);
      Parsed(before.codes + last.codes, before.scales + last.scales, before.biases + last.biases)
  }

  lemma {:induction false} ParseBlocksConcat(f: Format, a: seq<Block>, b: seq<Block>)
    ensures var pa, pb := ParseBlocks(f, a), ParseBlocks(f, b);
            ParseBlocks(f, a + b) == Parsed(pa.codes + pb.codes, pa.scales + pb.scales, pa.biases + pb.biases)
  {
    if |b| == 0 {
      assert a + b == a;
    } else {
      var b' := b[..|b| - 1];
      assert (a + b)[..|a + b| - 1] == a + b';
      ParseBlocksConcat(f, a, b');
    }
  }

  lemma {:induction false} ParseBlocksShape(f: Format, blocks: seq<Block>)
    requires f.Sound() && BlocksOf(f.bytes, blocks)
    ensures var p := ParseBlocks(f, blocks);
            && |p.codes| == |blocks| * f.elems
            && |p.scales| == |p.biases| == |blocks| * f.groups
            && CodesFit(p.codes, f.width)
  {
    if |blocks| > 0 {
      var n := |blocks| - 1;
      ParseBlocksShape(f, blocks[..n]);
      assert f.Shaped(f.parse(blocks[n]));
      OneMore(n, f.elems);
      OneMore(n, f.groups);
    }
  }

  /** Element `e` of block `k`, found in the flat parsed arrays. */
  lemma {:induction false} ParsedElement(f: Format, blocks: seq<Block>, k: nat, e: nat)
    requires f.Sound() && BlocksOf(f.bytes, blocks) && k < |blocks| && e < f.elems
    ensures var p, b := ParseBlocks(f, blocks), f.parse(blocks[k]);
            var c, g := k * f.elems + e, k * f.groups + e / GROUP;
            && f.Shaped(b)
            && c < |p.codes| && p.codes[c] == b.codes[e]
            && g < |p.scales| && p.scales[g] == b.scales[e / GROUP]
            && g < |p.biases| && p.biases[g] == b.biases[e / GROUP]
  {
    var n := |blocks| - 1;
    ParseBlocksShape(f, blocks);
    ParseBlocksShape(f, blocks[..n]);
    if k < n {
      ParsedElement(f, blocks[..n], k, e);
    } else {
      assert f.Shaped(f.parse(blocks[k]));
    }
  }

  /** One packed row means one row of blocks. */
  ghost predicate RowRepacked(f: Format, row: seq<Block>, words: seq<nat>, scales: seq<int>, biases: seq<int>)
    requires f.width > 0
  {
    var p := ParseBlocks(f, row);
    Packed(words, p.codes, f.width) && scales == p.scales && biases == p.biases
  }

  lemma GroupOfColumn(elems: nat, per: nat, k: nat, e: nat)
    requires elems == per * GROUP && e < elems
    ensures (k * elems + e) / GROUP == k * per + e / GROUP
  {
    assert k * elems + e == (k * per + e / GROUP) * GROUP + e % GROUP;
  }

  lemma ElementOfRow(f: Format, row: seq<Block>, words: seq<nat>, scales: seq<int>, biases: seq<int>, k: nat,
                     e: nat, col: nat)
    requires f.Sound() && BlocksOf(f.bytes, row) && RowRepacked(f, row, words, scales, biases)
    requires k < |row| && e < f.elems && col == k * f.elems + e
    ensures col / GROUP < |scales| && col / GROUP < |biases|
    ensures f.Shaped(f.parse(row[k]))
    ensures scales[col / GROUP] == f.parse(row[k]).scales[e / GROUP]
    ensures biases[col / GROUP] == f.parse(row[k]).biases[e / GROUP]
    ensures Unpack(words, f.width, col) == f.parse(row[k]).codes[e]
  {
    GroupOfColumn(f.elems, f.groups, k, e);
    ParsedElement(f, row, k, e);
    ParseBlocksShape(f, row);
    UnpackPacked(words, ParseBlocks(f, row).codes, f.width, col);
  }

  lemma RowExact(f: Format, row: seq<Block>, words: seq<nat>, scales: seq<int>, biases: seq<int>, k: nat,
                 e: nat, col: nat)
    requires f.Sound() && BlocksOf(f.bytes, row) && RowRepacked(f, row, words, scales, biases)
    requires k < |row| && e < f.elems && col == k * f.elems + e
    ensures col / GROUP < |scales| && col / GROUP < |biases|
    ensures AffineAt(words, scales, biases, f.width, col) == f.element(row[k], e)
  {
    ElementOfRow(f, row, words, scales, biases, k, e, col);
    assert Affine(f.parse(row[k]), e) == f.element(row[k], e);
  }

  ghost predicate Repacked(f: Format, grid: seq<seq<Block>>, r: AffineTensor)
    requires f.width > 0
  {
    && r.width == f.width
    && |r.qweight| == |r.scales| == |r.biases| == |grid|
    && forall row | 0 <= row < |grid| :: RowRepacked(f, grid[row], r.qweight[row], r.scales[row], r.biases[row])
  }

  lemma RowUnique(f: Format, row: seq<Block>, v: seq<nat>, w: seq<nat>, s: seq<int>, u: seq<int>, b: seq<int>,
                  c: seq<int>)
    requires f.width > 0 && RowRepacked(f, row, v, s, b) && RowRepacked(f, row, w, u, c)
    ensures v == w && s == u && b == c
  {
    PackedUnique(v, w, ParseBlocks(f, row).codes, f.width);
  }

  /** The repacked tensor depends on the bytes only, not on how rows were chunked. */
  lemma RepackedUnique(f: Format, grid: seq<seq<Block>>, r: AffineTensor, s: AffineTensor)
    requires f.width > 0 && Repacked(f, grid, r) && Repacked(f, grid, s)
    ensures r == s
  {
    forall row | 0 <= row < |grid|
      ensures r.qweight[row] == s.qweight[row] && r.scales[row] == s.scales[row] && r.biases[row] == s.biases[row]
    {
      RowUnique(f, grid[row], r.qweight[row], s.qweight[row], r.scales[row], s.scales[row],
                r.biases[row], s.biases[row]);
    }
  }

  /**
   End to end: for every sound format and every row, the weight at column
   `k * elems + e`, read back from the packed bits with the stored scale and bias, is
   the element `e` that the row's raw block `k` defines.
   */
  lemma RepackPreservesWeights(f: Format, per: nat, grid: seq<seq<Block>>, r: AffineTensor, row: nat, k: nat,
                               e: nat, col: nat)
    requires f.Sound() && GridOf(f.bytes, per, grid) && Repacked(f, grid, r)
    requires row < |grid| && k < per && e < f.elems && col == k * f.elems + e
    ensures col / GROUP < |r.scales[row]| && col / GROUP < |r.biases[row]|
    ensures r.Weight(row, col) == f.element(grid[row][k], e)
  {
    RowExact(f, grid[row], r.qweight[row], r.scales[row], r.biases[row], k, e, col);
  }

  /** The bytes of block `k` of row `row` in the file. */
  ghost predicate InFile(data: seq<Byte>, size: nat, per: nat, row: nat, k: nat, block: Block) {
    var offset := Flat(row, Flat(per, size, 0), Flat(k, size, 0));
    offset + size <= |data| && block == data[offset..offset + size]
  }

  lemma InFileIs(size: nat, rows: nat, per: nat, data: seq<Byte>, row: nat, k: nat, block: Block)
    requires |data| == Flat(rows, Flat(per, size, 0), 0) && row < rows && k < per && size > 0
    requires InFile(data, size, per, row, k, block)
    ensures GridOf(size, per, Grid(size, rows, per, data)) && Grid(size, rows, per, data)[row][k] == block
  {
    GridIsGrid(size, rows, per, data);
    GridBlock(size, rows, per, data, row, k);
  }

  lemma FormatWeight(f: Format, data: seq<Byte>, rows: nat, per: nat, r: AffineTensor, row: nat, k: nat, e: nat,
                     col: nat, block: Block)
    requires f.Sound() && |data| == Flat(rows, Flat(per, f.bytes, 0), 0)
    requires Repacked(f, Grid(f.bytes, rows, per, data), r)
    requires row < rows && k < per && e < f.elems && col == k * f.elems + e
    requires InFile(data, f.bytes, per, row, k, block)
    ensures col / GROUP < |r.scales[row]| && col / GROUP < |r.biases[row]|
    ensures r.Weight(row, col) == f.element(block, e)
  {
    var grid := Grid(f.bytes, rows, per, data);
    InFileIs(f.bytes, rows, per, data, row, k, block);
    RepackPreservesWeights(f, per, grid, r, row, k, e, col);
  }

  /** The weight at `row` and `col` is element `e` of the raw block `block`. */
  ghost predicate WeightIs(t: Tables, q: QType, r: AffineTensor, row: nat, col: nat, block: Block, e: nat)
    requires t.Valid()
  {
    && |block| == BlockBytes(q) && e < BlockElems(q)
    && row < |r.qweight| && row < |r.scales| && row < |r.biases|
    && col / GROUP < |r.scales[row]| && col / GROUP < |r.biases[row]|
    && r.Weight(row, col) == Element(t, q, block, e)
  }

  lemma FormatIs(t: Tables, q: QType, r: AffineTensor, row: nat, col: nat, block: Block, e: nat)
    requires t.Valid() && |block| == BlockBytes(q) && e < BlockElems(q)
    requires row < |r.qweight| && row < |r.scales| && row < |r.biases|
    requires col / GROUP < |r.scales[row]| && col / GROUP < |r.biases[row]|
    requires r.Weight(row, col) == FormatOf(t, q).element(block, e)
    ensures WeightIs(t, q, r, row, col, block, e)
  {
  }

  /**
   From the file to the weight: what `from_raw_blocks` returns has at every row and
   column the value that the block format gives to that element of the file's bytes.
   */
  lemma FileWeight(t: Tables, q: QType, data: seq<Byte>, rows: nat, per: nat, r: AffineTensor, row: nat, k: nat, e: nat,
                   col: nat, block: Block)
    requires t.Valid() && |data| == Flat(rows, Flat(per, BlockBytes(q), 0), 0)
    requires Repacked(FormatOf(t, q), Grid(BlockBytes(q), rows, per, data), r)
    requires row < rows && k < per && e < BlockElems(q) && col == k * BlockElems(q) + e
    requires InFile(data, BlockBytes(q), per, row, k, block)
    ensures WeightIs(t, q, r, row, col, block, e)
  {
    FormatsSound(t, q);
    FormatWeight(FormatOf(t, q), data, rows, per, r, row, k, e, col, block);
    FormatIs(t, q, r, row, col, block, e);
  }

  /** The width of the packed codes: four, five or eight bits by format. */
  lemma WidthIs(t: Tables, q: QType, grid: seq<seq<Block>>, r: AffineTensor)
    requires t.Valid() && Repacked(FormatOf(t, q), grid, r)
    ensures q in {Q4_0, Q4_1, Q4_K, IQ3_S} ==> r.width == 4
    ensures q in {Q5_0, Q5_1, Q5_K} ==> r.width == 5
    ensures q in {Q8_0, IQ4_NL, IQ4_XS} ==> r.width == 8
  {
  }

  /** The blocks of consecutive rows in file order. */
  function Flatten(rows: seq<seq<Block>>): seq<Block> {
    if |rows| == 0 then [] else Flatten(rows[..|rows| - 1]) + rows[|rows| - 1]
  }

  lemma {:induction false} FlattenShape(f: Format, per: nat, rows: seq<seq<Block>>)
    requires GridOf(f.bytes, per, rows)
    ensures |Flatten(rows)| == |rows| * per && BlocksOf(f.bytes, Flatten(rows))
  {
    if |rows| > 0 {
      FlattenShape(f, per, rows[..|rows| - 1]);
      OneMore(|rows| - 1, per);
    }
  }

  /** Cutting a chunk's flat arrays at a row's offsets gives the parse of that row. */
  lemma ChunkRow(f: Format, a: seq<Block>, b: seq<Block>, c: seq<Block>)
    requires f.Sound() && BlocksOf(f.bytes, a) && BlocksOf(f.bytes, b) && BlocksOf(f.bytes, c)
    ensures var p, pb := ParseBlocks(f, a + b + c), ParseBlocks(f, b);
            && |a| * f.elems + |b| * f.elems <= |p.codes|
            && p.codes[|a| * f.elems..|a| * f.elems + |b| * f.elems] == pb.codes
            && |a| * f.groups + |b| * f.groups <= |p.scales| == |p.biases|
            && p.scales[|a| * f.groups..|a| * f.groups + |b| * f.groups] == pb.scales
            && p.biases[|a| * f.groups..|a| * f.groups + |b| * f.groups] == pb.biases
  {
    ParseBlocksConcat(f, a, b);
    ParseBlocksConcat(f, a + b, c);
    ParseBlocksShape(f, a);
    ParseBlocksShape(f, b);
    ParseBlocksShape(f, c);
  }

  /** The reshape of a chunk's parsed arrays to (rows, columns). */
  ghost predicate RowCut(p: Parsed, i: nat, columns: nat, groups: nat, row: Parsed) {
    && i * columns + columns <= |p.codes| && p.codes[i * columns..i * columns + columns] == row.codes
    && i * groups + groups <= |p.scales| == |p.biases|
    && p.scales[i * groups..i * groups + groups] == row.scales
    && p.biases[i * groups..i * groups + groups] == row.biases
  }

  lemma ProductAssociative(i: nat, per: nat, m: nat)
    ensures (i * per) * m == i * (per * m)
  {
  }

  lemma RowOfChunk(f: Format, per: nat, chunk: seq<seq<Block>>, i: nat, columns: nat, groups: nat)
    requires f.Sound() && GridOf(f.bytes, per, chunk) && i < |chunk|
    requires columns == per * f.elems && groups == per * f.groups
    ensures RowCut(ParseBlocks(f, Flatten(chunk)), i, columns, groups, ParseBlocks(f, chunk[i]))
  {
    var before, after := chunk[..i], chunk[i + 1..];
    FlattenAround(chunk, i);
    FlattenShape(f, per, before);
    FlattenShape(f, per, after);
    ProductAssociative(i, per, f.elems);
    ProductAssociative(i, per, f.groups);
    ChunkRow(f, Flatten(before), chunk[i], Flatten(after));
  }

  lemma {:induction false} FlattenAround(chunk: seq<seq<Block>>, i: nat)
    requires i < |chunk|
    ensures Flatten(chunk) == Flatten(chunk[..i]) + chunk[i] + Flatten(chunk[i + 1..])
  {
    var n := |chunk| - 1;
    if i < n {
      var shorter, after := chunk[..n], chunk[i + 1..];
      FlattenAround(shorter, i);
      assert shorter[..i] == chunk[..i];
      assert after[..|after| - 1] == shorter[i + 1..];
      assert Flatten(after) == Flatten(shorter[i + 1..]) + chunk[n];
    }
  }

  /**
   `from_raw_blocks`: validate the payload, then fill the three preallocated arrays
   chunk by chunk.  `chunkElements` only bounds the temporaries of one chunk.
   */
  method FromRawBlocks(t: Tables, q: QType, data: seq<Byte>, outFeatures: int, inFeatures: int, chunkElements: nat)
    returns (r: Result<AffineTensor, LoadError>)
    requires t.Valid()
    ensures r == Err(BadShape) <==> outFeatures < 1 || inFeatures < 1
    ensures r == Err(NotBlockMultiple) <==>
              outFeatures >= 1 && inFeatures >= 1 && inFeatures % BlockElems(q) != 0
    ensures r.Ok? <==>
              && outFeatures >= 1 && inFeatures >= 1 && inFeatures % BlockElems(q) == 0
              && |data| == Flat(outFeatures, Flat(inFeatures / BlockElems(q), BlockBytes(q), 0), 0)
    ensures r.Ok? ==>
              Repacked(FormatOf(t, q), Grid(BlockBytes(q), outFeatures, inFeatures / BlockElems(q), data), r.value)
  {
    if outFeatures < 1 || inFeatures < 1 {
      return Err(BadShape);
    }
    if inFeatures % BlockElems(q) != 0 {
      return Err(NotBlockMultiple);
    }
    var per := inFeatures / BlockElems(q);
    FlatIs(per, BlockBytes(q), 0);
    FlatIs(outFeatures, per * BlockBytes(q), 0);
    if |data| != outFeatures * (per * BlockBytes(q)) {
      return Err(WrongByteCount);
    }
    var f := FormatOf(t, q);
    FormatsSound(t, q);
    var grid := Grid(f.bytes, outFeatures, per, data);
    GridIsGrid(f.bytes, outFeatures, per, data);
    var tensor := RepackRows(f, grid, per, inFeatures, chunkElements);
    r := Ok(tensor);
  }

  method RepackRows(f: Format, grid: seq<seq<Block>>, per: nat, inFeatures: nat, chunkElements: nat)
    returns (r: AffineTensor)
    requires f.Sound() && GridOf(f.bytes, per, grid)
    requires inFeatures > 0 && inFeatures == per * f.elems
    ensures Repacked(f, grid, r)
  {
    var rows := |grid|;
    var qweight := new seq<nat>[rows](_ => []);
    var scales := new seq<int>[rows](_ => []);
    var biases := new seq<int>[rows](_ => []);
    var chunkRows := ChunkRows(chunkElements, inFeatures);
    var start := 0;
    while start < rows
      invariant 0 <= start <= rows
      invariant RowsDone(f, grid, start, qweight[..], scales[..], biases[..])
    {
      var stop := if start + chunkRows < rows then start + chunkRows else rows;
      RepackChunk(f, grid, per, inFeatures, start, stop, qweight, scales, biases);
      start := stop;
    }
    r := AffineTensor(qweight[..], scales[..], biases[..], f.width);
  }

  /** Rows per chunk: about `chunkElements` weights, and at least one row. */
  function ChunkRows(chunkElements: nat, inFeatures: nat): (n: nat)
    requires inFeatures > 0
    ensures n >= 1
  {
    if chunkElements / inFeatures >= 1 then chunkElements / inFeatures else 1
  }

  method RepackChunk(f: Format, grid: seq<seq<Block>>, per: nat, inFeatures: nat, start: nat, stop: nat,
                     qweight: array<seq<nat>>, scales: array<seq<int>>, biases: array<seq<int>>)
    requires f.Sound() && GridOf(f.bytes, per, grid) && inFeatures == per * f.elems
    requires start <= stop <= |grid| && scales != biases
    requires RowsDone(f, grid, start, qweight[..], scales[..], biases[..])
    modifies qweight, scales, biases
    ensures RowsDone(f, grid, stop, qweight[..], scales[..], biases[..])
  {
    var chunk := grid[start..stop];
    var p := ParseBlocks(f, Flatten(chunk));
    var numGroups := per * f.groups;
    for row := start to stop
      invariant RowsDone(f, grid, row, qweight[..], scales[..], biases[..])
    {
      RowOfChunk(f, per, chunk, row - start, inFeatures, numGroups);
      assert chunk[row - start] == grid[row];
      var words, s, b := CutRow(f, p, row - start, inFeatures, numGroups, grid[row]);
      ghost var q0, s0, b0 := qweight[..], scales[..], biases[..];
      qweight[row] := words;
      scales[row] := s;
      biases[row] := b;
      RowDone(f, grid, row, q0, s0, b0, words, s, b);
      assert qweight[..] == q0[row := words] && scales[..] == s0[row := s] && biases[..] == b0[row := b];
    }
  }

  /** One row of the chunk's reshaped arrays, with its codes packed. */
  method CutRow(f: Format, p: Parsed, i: nat, columns: nat, groups: nat, ghost row: seq<Block>)
    returns (words: seq<nat>, scales: seq<int>, biases: seq<int>)
    requires f.Sound() && BlocksOf(f.bytes, row)
    requires RowCut(p, i, columns, groups, ParseBlocks(f, row))
    ensures RowRepacked(f, row, words, scales, biases)
  {
    RowWidth(f, row);
    words := PackRow(p.codes[i * columns..i * columns + columns], f.width);
    scales := p.scales[i * groups..i * groups + groups];
    biases := p.biases[i * groups..i * groups + groups];
  }

  /** The first `n` rows of the three buffers are filled in. */
  ghost predicate RowsDone(f: Format, grid: seq<seq<Block>>, n: nat, qweight: seq<seq<nat>>,
                           scales: seq<seq<int>>, biases: seq<seq<int>>)
    requires f.width > 0
  {
    && n <= |grid| == |qweight| == |scales| == |biases|
    && forall row | 0 <= row < n :: RowRepacked(f, grid[row], qweight[row], scales[row], biases[row])
  }

  lemma RowDone(f: Format, grid: seq<seq<Block>>, n: nat, qweight: seq<seq<nat>>, scales: seq<seq<int>>,
                biases: seq<seq<int>>,
                words: seq<nat>, s: seq<int>, b: seq<int>)
    requires f.width > 0 && RowsDone(f, grid, n, qweight, scales, biases) && n < |grid|
    requires RowRepacked(f, grid[n], words, s, b)
    ensures RowsDone(f, grid, n + 1, qweight[n := words], scales[n := s], biases[n := b])
  {
  }

  lemma RowWidth(f: Format, row: seq<Block>)
    requires f.Sound() && BlocksOf(f.bytes, row)
    ensures |ParseBlocks(f, row).codes| % WORD == 0 && CodesFit(ParseBlocks(f, row).codes, f.width)
  {
    ParseBlocksShape(f, row);
    assert |row| * f.elems == (|row| * f.groups) * WORD + 0;
    DivModUnique(|row| * f.groups, 0, WORD);
  }
}
