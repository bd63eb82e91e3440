/** A raw payload seen as rows of fixed-size blocks. */
module BlockGrid {
  import opened Arith
  import opened Bits

  type Block = seq<Byte>

  predicate BlocksOf(size: nat, blocks: seq<Block>) {
    forall k | 0 <= k < |blocks| :: |blocks[k]| == size
  }

  /** Every row has `per` blocks of `size` bytes. */
  ghost predicate GridOf(size: nat, per: nat, grid: seq<seq<Block>>) {
    forall row | 0 <= row < |grid| :: |grid[row]| == per && BlocksOf(size, grid[row])
  }

  lemma OneMore(n: nat, m: nat)
    ensures (n + 1) * m == n * m + m
  {
  }

  /** Cut `count` pieces of `size` bytes. */
  function Split(size: nat, count: nat, data: seq<Byte>): (pieces: seq<seq<Byte>>)
    requires |data| == Flat(count, size, 0)
    ensures |pieces| == count && forall k | 0 <= k < count :: |pieces[k]| == size
  {
    if count == 0 then [] else Split(size, count - 1, data[..|data| - size]) + [data[|data| - size..]]
  }

  lemma {:induction false} SplitAt(size: nat, count: nat, data: seq<Byte>, k: nat, i: nat)
    requires |data| == Flat(count, size, 0) && k < count && i < size
    ensures Flat(k, size, i) < |data| && Split(size, count, data)[k][i] == data[Flat(k, size, i)]
  {
    FlatInside(k, i, 1, count, size);
    if k < count - 1 {
      SplitAt(size, count - 1, data[..|data| - size], k, i);
    } else {
      FlatShift(k, size, 0, i);
    }
  }

  /** The payload as rows of blocks: rows are cut first, then blocks within a row. */
  function Grid(size: nat, rows: nat, per: nat, data: seq<Byte>): (grid: seq<seq<Block>>)
    requires |data| == Flat(rows, Flat(per, size, 0), 0)
    ensures |grid| == rows
  {
    var cut := Split(Flat(per, size, 0), rows, data);
    seq(rows, row requires 0 <= row < rows => Split(size, per, cut[row]))
  }

  lemma GridIsGrid(size: nat, rows: nat, per: nat, data: seq<Byte>)
    requires |data| == Flat(rows, Flat(per, size, 0), 0)
    ensures GridOf(size, per, Grid(size, rows, per, data))
  {
  }

  /** Byte `i` of block `k` of row `row` is the byte the file stores at that offset. */
  lemma GridByte(size: nat, rows: nat, per: nat, data: seq<Byte>, row: nat, k: nat, i: nat)
    requires |data| == Flat(rows, Flat(per, size, 0), 0) && row < rows && k < per && i < size
    ensures k < |Grid(size, rows, per, data)[row]| && i < |Grid(size, rows, per, data)[row][k]|
    ensures var offset := Flat(row, Flat(per, size, 0), Flat(k, size, i));
            offset < |data| && Grid(size, rows, per, data)[row][k][i] == data[offset]
  {
    var cut := Split(Flat(per, size, 0), rows, data);
    SplitAt(size, per, cut[row], k, i);
    SplitAt(Flat(per, size, 0), rows, data, row, Flat(k, size, i));
  }

  lemma GridByteAt(size: nat, rows: nat, per: nat, data: seq<Byte>, row: nat, k: nat, i: nat)
    requires |data| == Flat(rows, Flat(per, size, 0), 0) && row < rows && k < per && i < size
    ensures k < |Grid(size, rows, per, data)[row]| && i < |Grid(size, rows, per, data)[row][k]|
    ensures var offset := Flat(row, Flat(per, size, 0), Flat(k, size, 0));
            offset + i < |data| && Grid(size, rows, per, data)[row][k][i] == data[offset + i]
  {
    GridByte(size, rows, per, data, row, k, i);
    FlatShift(k, size, 0, i);
    FlatShift(row, Flat(per, size, 0), Flat(k, size, 0), i);
  }

  /** So a block of the grid is one piece of the payload. */
  lemma GridBlock(size: nat, rows: nat, per: nat, data: seq<Byte>, row: nat, k: nat)
    requires |data| == Flat(rows, Flat(per, size, 0), 0) && row < rows && k < per && size > 0
    ensures k < |Grid(size, rows, per, data)[row]|
    ensures var offset := Flat(row, Flat(per, size, 0), Flat(k, size, 0));
            offset + size <= |data| && Grid(size, rows, per, data)[row][k] == data[offset..offset + size]
  {
    var offset := Flat(row, Flat(per, size, 0), Flat(k, size, 0));
    GridByteAt(size, rows, per, data, row, k, size - 1);
    forall i: nat | i < size
      ensures offset + i < |data| && Grid(size, rows, per, data)[row][k][i] == data[offset + i]
    {
      GridByteAt(size, rows, per, data, row, k, i);
    }
    assert |Grid(size, rows, per, data)[row][k]| == size by {
      GridIsGrid(size, rows, per, data);
    }
  }
}
