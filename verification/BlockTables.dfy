/** Block tables for kernels with small pages, and the cache addresses that go through them. */
module BlockTables {
  import opened Arith
  import opened Wrappers

  /** The page sizes that the kernels are compiled for. */
  predicate Supported(size: nat) {
    size == 32 || size == 16 || size == 8
  }

  type Table = seq<nat>

  datatype TableError = Indivisible(blockSize: nat)

  /** Which entry of a block table holds a position. */
  function BlockIndex(blockSize: nat, position: nat): nat
    requires blockSize > 0
  {
    Quot(position, blockSize)
  }

  /** The flat cache row of a position: its block's first row plus its place in the block. */
  function Slot(table: Table, blockSize: nat, position: nat): nat
    requires blockSize > 0 && BlockIndex(blockSize, position) < |table|
  {
    Flat(table[BlockIndex(blockSize, position)], blockSize, Rem(position, blockSize))
  }

  /** The same in the source's arithmetic. */
  lemma SlotIs(table: Table, blockSize: nat, position: nat)
    requires blockSize > 0
    ensures BlockIndex(blockSize, position) == position / blockSize
    ensures position / blockSize < |table| ==>
              Slot(table, blockSize, position) == table[position / blockSize] * blockSize + position % blockSize
  {
    QuotIs(position, blockSize);
    if position / blockSize < |table| {
      FlatIs(table[position / blockSize], blockSize, position % blockSize);
    }
  }

  /** Positions below `n` have a block. */
  ghost predicate Covers(table: Table, blockSize: nat, n: nat)
    requires blockSize > 0
  {
    forall p: nat | p < n :: BlockIndex(blockSize, p) < |table|
  }

  // ---- The page size ----

  /** The first of the sizes, in descending order, that divides the cache's. */
  function PickKernelBlockSize(blockSize: nat): Result<nat, TableError> {
    if blockSize % 32 == 0 then Ok(32)
    else if blockSize % 16 == 0 then Ok(16)
    else if blockSize % 8 == 0 then Ok(8)
    else Err(Indivisible(blockSize))
  }

  predicate Splits(size: nat, blockSize: nat) {
    size > 0 && blockSize % size == 0
  }

  /** The pick is the largest supported divisor, and it fails exactly off the multiples of eight. */
  lemma PickIs(blockSize: nat, k: nat)
    ensures PickKernelBlockSize(blockSize).Ok? <==> blockSize % 8 == 0
    ensures PickKernelBlockSize(blockSize) == Ok(k) <==>
              && Supported(k) && Splits(k, blockSize)
              && forall l: nat | Supported(l) && Splits(l, blockSize) :: l <= k
  {
    if blockSize % 32 == 0 {
      assert Supported(32) && Splits(32, blockSize);
    } else if blockSize % 16 == 0 {
      assert Supported(16) && Splits(16, blockSize);
    } else if blockSize % 8 == 0 {
      assert Supported(8) && Splits(8, blockSize);
    }
  }

  // ---- The kernel's tables ----

  function Longest(tables: seq<Table>): (r: nat)
    ensures forall t | t in tables :: |t| <= r
  {
    if |tables| == 0 then 0
    else if |tables[0]| > Longest(tables[1..]) then |tables[0]| else Longest(tables[1..])
  }

  /** Short rows are filled up with block zero. */
  function Padded(tables: seq<Table>): (r: seq<Table>)
    ensures |r| == |tables| && forall i | 0 <= i < |r| :: |r[i]| == Longest(tables) && tables[i] <= r[i]
  {
    seq(|tables|, i requires 0 <= i < |tables| => tables[i] + seq(Longest(tables) - |tables[i]|, _ => 0))
  }

  /** The kernel pages of one cache block. */
  function PagesOf(block: nat, ratio: nat): Table {
    seq(ratio, j requires 0 <= j < ratio => block * ratio + j)
  }

  function ExpandRow(row: Table, ratio: nat): Table {
    if |row| == 0 then [] else PagesOf(row[0], ratio) + ExpandRow(row[1..], ratio)
  }

  function ExpandAll(tables: seq<Table>, ratio: nat): (r: seq<Table>)
    ensures |r| == |tables| && forall i | 0 <= i < |r| :: r[i] == ExpandRow(tables[i], ratio)
  {
    seq(|tables|, i requires 0 <= i < |tables| => ExpandRow(tables[i], ratio))
  }

  datatype KernelTables = KernelTables(rows: seq<Table>, blockSize: nat)

  /** The kernel's page size: the cache's own if it is supported. */
  function PageSize(blockSize: nat): Result<nat, TableError> {
    if Supported(blockSize) then Ok(blockSize) else PickKernelBlockSize(blockSize)
  }

  function Rows(raw: seq<Table>, blockSize: nat, size: nat): seq<Table>
    requires size > 0
  {
    if Supported(blockSize) then Padded(raw) else ExpandAll(Padded(raw), blockSize / size)
  }

  /** No rows at all keep the cache's block size, supported or not. */
  function BuildBlockTables(raw: seq<Table>, blockSize: nat): Result<KernelTables, TableError> {
    if |raw| == 0 then Ok(KernelTables([], blockSize))
    else
      match PageSize(blockSize)
      case Err(e) => Err(e)
      case Ok(size) => Ok(KernelTables(Rows(raw, blockSize, size), size))
  }

  // ---- What the tables hold ----

  /** The block of entry `i` of a row; beyond the row it is block zero. */
  function BlockOr0(row: Table, i: nat): nat {
    if i < |row| then row[i] else 0
  }

  lemma {:induction false} ExpandedSize(row: Table, ratio: nat)
    ensures |ExpandRow(row, ratio)| == Flat(|row|, ratio, 0)
  {
    if |row| > 0 {
      ExpandedSize(row[1..], ratio);
    }
  }

  lemma ExpandedEntry(row: Table, ratio: nat, i: nat, j: nat, place: nat, width: nat)
    requires i < |row| && j < ratio && place == i * ratio + j && width == |row| * ratio
    ensures |ExpandRow(row, ratio)| == width && place < width && ExpandRow(row, ratio)[place] == row[i] * ratio + j
  {
    FlatIs(|row|, ratio, 0);
    FlatIs(i, ratio, j);
    FlatIs(row[i], ratio, j);
    ExpandedSize(row, ratio);
    ExpandAt(row, ratio, i, j);
  }

  lemma PaddedEntry(raw: seq<Table>, r: nat, i: nat)
    requires r < |raw| && i < Longest(raw)
    ensures |Padded(raw)[r]| == Longest(raw) && Padded(raw)[r][i] == BlockOr0(raw[r], i)
  {
    assert raw[r] in raw;
  }

  /** Rows are padded to the longest one. */
  lemma {:induction false} LongestIs(tables: seq<Table>)
    requires |tables| > 0
    ensures exists t | t in tables :: |t| == Longest(tables)
  {
    assert tables[0] in tables;
    if |tables| > 1 {
      LongestIs(tables[1..]);
    }
  }

  /** The page size is the block size itself if it is 8, 16 or 32, and else the pick. */
  lemma KernelSizeIs(raw: seq<Table>, blockSize: nat, kernel: KernelTables)
    requires BuildBlockTables(raw, blockSize) == Ok(kernel) && |raw| > 0
    ensures PickKernelBlockSize(blockSize).Ok? && kernel.blockSize > 0 && |kernel.rows| == |raw|
    ensures kernel.blockSize == if blockSize == 8 || blockSize == 16 || blockSize == 32 then blockSize
                                else PickKernelBlockSize(blockSize).value
  {
  }

  /**
   For any rows and any accepted block size every row has the width of the longest one,
   and page `j` of its block `i` is `block * ratio + j`.
   */
  lemma TablesAre(raw: seq<Table>, blockSize: nat, kernel: KernelTables, r: nat, ratio: nat, i: nat, j: nat, place: nat,
                  width: nat)
    requires BuildBlockTables(raw, blockSize) == Ok(kernel) && r < |raw| && blockSize > 0
    requires kernel.blockSize > 0 && ratio == blockSize / kernel.blockSize && j < ratio && i < Longest(raw)
    requires place == i * ratio + j && width == Longest(raw) * ratio
    ensures r < |kernel.rows| && |kernel.rows[r]| == width && place < width
    ensures kernel.rows[r][place] == BlockOr0(raw[r], i) * ratio + j
  {
    PaddedEntry(raw, r, i);
    RowsAre(raw, blockSize, kernel, r, ratio);
    if Supported(blockSize) {
      TimesOne(i, j, ratio, place, Longest(raw), width, BlockOr0(raw[r], i));
    } else {
      ExpandedEntry(Padded(raw)[r], ratio, i, j, place, width);
    }
  }

  lemma RowsAre(raw: seq<Table>, blockSize: nat, kernel: KernelTables, r: nat, ratio: nat)
    requires BuildBlockTables(raw, blockSize) == Ok(kernel) && r < |raw| && blockSize > 0
    requires kernel.blockSize > 0 && ratio == blockSize / kernel.blockSize
    ensures |kernel.rows| == |raw|
    ensures Supported(blockSize) ==> ratio == 1 && kernel.rows[r] == Padded(raw)[r]
    ensures !Supported(blockSize) ==> kernel.rows[r] == ExpandRow(Padded(raw)[r], ratio)
  {
    DivModUnique(1, 0, blockSize);
  }

  lemma TimesOne(i: nat, j: nat, ratio: nat, place: nat, n: nat, width: nat, block: nat)
    requires ratio == 1 && j < ratio && place == i * ratio + j && width == n * ratio
    ensures place == i && width == n && block * ratio + j == block
  {
  }

  // ---- Reader and writer agree ----

  lemma {:induction false} ExpandAt(row: Table, ratio: nat, i: nat, j: nat)
    requires i < |row| && j < ratio
    ensures Flat(i, ratio, j) < |ExpandRow(row, ratio)|
    ensures ExpandRow(row, ratio)[Flat(i, ratio, j)] == Flat(row[i], ratio, j)
  {
    if i > 0 {
      ExpandAt(row[1..], ratio, i - 1, j);
    } else {
      FlatIs(row[0], ratio, j);
    }
  }

  /** A block expands to consecutive pages, so its rows keep their place. */
  lemma ExpandedSlot(row: Table, size: nat, ratio: nat, blockSize: nat, position: nat)
    requires size > 0 && ratio > 0 && blockSize == size * ratio && blockSize > 0
    requires BlockIndex(blockSize, position) < |row|
    ensures BlockIndex(size, position) < |ExpandRow(row, ratio)|
    ensures Slot(ExpandRow(row, ratio), size, position) == Slot(row, blockSize, position)
  {
    var page := Quot(position, size);
    var i, j := Quot(page, ratio), Rem(page, ratio);
    QuotNested(position, size, ratio, blockSize);
    FlatQuot(page, ratio);
    ExpandAt(row, ratio, i, j);
    FlatNested(row[i], ratio, j, size, Rem(position, size), blockSize);
  }

  lemma PaddedSlot(raw: seq<Table>, r: nat, blockSize: nat, position: nat)
    requires r < |raw| && blockSize > 0 && BlockIndex(blockSize, position) < |raw[r]|
    ensures BlockIndex(blockSize, position) < |Padded(raw)[r]|
    ensures Slot(Padded(raw)[r], blockSize, position) == Slot(raw[r], blockSize, position)
  {
    assert raw[r] in raw;
    assert raw[r] <= Padded(raw)[r];
  }

  lemma Ratio(blockSize: nat, size: nat)
    requires Supported(size) && blockSize % size == 0 && blockSize > 0
    ensures blockSize / size > 0 && blockSize == size * (blockSize / size)
  {
  }

  /** The tables exist if and only if there is no row or the block size is a multiple of eight. */
  lemma BuildIff(raw: seq<Table>, blockSize: nat)
    ensures BuildBlockTables(raw, blockSize).Ok? <==> raw == [] || blockSize % 8 == 0
  {
    assert PageSize(blockSize).Ok? <==> blockSize % 8 == 0;
  }

  /**
   For any ratio between the cache's block and the kernel's page, the address that the
   kernel computes from its tables is the slot that the writer used.
   */
  lemma ReaderIsWriter(raw: seq<Table>, blockSize: nat, kernel: KernelTables, r: nat, position: nat)
    requires BuildBlockTables(raw, blockSize) == Ok(kernel)
    requires blockSize > 0 && r < |raw| && BlockIndex(blockSize, position) < |raw[r]|
    ensures Supported(kernel.blockSize) && r < |kernel.rows| &&
            BlockIndex(kernel.blockSize, position) < |kernel.rows[r]|
    ensures Slot(kernel.rows[r], kernel.blockSize, position) == Slot(raw[r], blockSize, position)
  {
    PaddedSlot(raw, r, blockSize, position);
    if !Supported(blockSize) {
      var size := PickKernelBlockSize(blockSize).value;
      Ratio(blockSize, size);
      ExpandedSlot(Padded(raw)[r], size, blockSize / size, blockSize, position);
    }
  }

  lemma EightInPage(size: nat, position: nat, f: nat)
    requires Supported(size) && position % 8 == 0 && f < 8
    ensures (position + f) / size == position / size && (position + f) % size == position % size + f
  {
    if size == 32 {
    } else if size == 16 {
    } else {
    }
  }

  /**
   One page lookup serves eight keys: from a position that is a multiple of eight, the
   next seven positions lie in the same page of any supported size.
   */
  lemma EightConsecutive(table: Table, size: nat, position: nat, f: nat)
    requires Supported(size) && position % 8 == 0 && f < 8
    requires BlockIndex(size, position) < |table|
    ensures BlockIndex(size, position + f) < |table|
    ensures Slot(table, size, position + f) == Slot(table, size, position) + f
  {
    EightInPage(size, position, f);
    QuotIs(position, size);
    QuotIs(position + f, size);
    FlatShift(table[BlockIndex(size, position)], size, Rem(position, size), f);
  }
}
