/** The host's count of KV tiles for full and partial Q blocks, and the choice it drives. */
module NaxSplit {
  import opened Wrappers

  const BLOCK_ROWS := 64
  const TILE_KEYS := 32
  const MIN_FULL_BLOCKS := 4

  datatype TileWork = TileWork(fullBlocks: int, fullTiles: int, partialTiles: int) {
    function Plus(w: TileWork): TileWork {
      TileWork(fullBlocks + w.fullBlocks, fullTiles + w.fullTiles, partialTiles + w.partialTiles)
    }
  }

  datatype WorkError = LengthMismatch

  /** One sequence of the batch: its query rows and its KV length. */
  datatype Rows = Rows(q: int, kv: int)

  function Tiles(kvEnd: int): int {
    (kvEnd + TILE_KEYS - 1) / TILE_KEYS
  }

  function FirstTile(position: int, window: int): int {
    if window < 0 then 0
    else
      var t := (position + 1 - window) / TILE_KEYS;
      if t < 0 then 0 else t
  }

  // ---- Brute force: which tiles hold a visible key ----

  /** Causal masking and a sliding window: row `p` sees key `k`. */
  predicate Visible(p: int, k: int, window: int) {
    0 <= k <= p && (window < 0 || p - k < window)
  }

  /** Some row in `[start, end)` sees some key of tile `t`. */
  ghost predicate TileSeen(t: int, start: int, end: int, window: int) {
    exists p, k | start <= p < end && 32 * t <= k < 32 * t + 32 :: Visible(p, k, window)
  }

  ghost function SeenTiles(start: int, end: int, window: int): set<int> {
    set t | 0 <= t <= end && TileSeen(t, start, end, window)
  }

  lemma SeenIff(t: int, start: int, end: int, window: int)
    requires 0 <= start < end && window != 0 && t >= 0
    ensures TileSeen(t, start, end, window) <==> FirstTile(start, window) <= t < Tiles(end)
  {
    if FirstTile(start, window) <= t < Tiles(end) {
      var low := start + 1 - window;
      var k := if window < 0 || low < TILE_KEYS * t then TILE_KEYS * t else low;
      assert Visible(if start < k then k else start, k, window);
    }
  }

  /** The integers from `a` up to `b`. */
  ghost function Range(a: int, b: int): (r: set<int>)
    requires a <= b
    ensures |r| == b - a
    ensures forall t :: t in r <==> a <= t < b
    decreases b - a
  {
    if a == b then {} else Range(a, b - 1) + {b - 1}
  }

  /**
   One block: the code's difference is the number of tiles that hold a visible key, if
   and only if there is a window of at least one key, or none, or the block is a single
   row that ends a tile.
   */
  lemma BlockExactIff(start: int, end: int, window: int)
    requires 0 <= start < end
    ensures Tiles(end) - FirstTile(start, window) == |SeenTiles(start, end, window)| <==>
              window != 0 || (end == start + 1 && end % 32 == 0)
  {
    if window != 0 {
      forall t | 0 <= t
        ensures TileSeen(t, start, end, window) <==> FirstTile(start, window) <= t < Tiles(end)
      {
        SeenIff(t, start, end, window);
      }
      assert SeenTiles(start, end, window) == Range(FirstTile(start, window), Tiles(end));
    } else {
      assert SeenTiles(start, end, window) == {};
    }
  }

  /** With a window of zero the code still never counts too few tiles. */
  lemma BlockAtLeast(start: int, end: int, window: int)
    requires 0 <= start < end
    ensures Tiles(end) - FirstTile(start, window) >= |SeenTiles(start, end, window)|
  {
    if window == 0 {
      assert SeenTiles(start, end, window) == {};
    } else {
      BlockExactIff(start, end, window);
    }
  }

  // ---- The count ----

  function FullTiles(context: int, blocks: nat, window: int): int {
    if blocks == 0 then 0
    else
      var start := context + (blocks - 1) * BLOCK_ROWS;
      FullTiles(context, blocks - 1, window) + Tiles(start + BLOCK_ROWS) - FirstTile(start, window)
  }

  function RowsWork(s: Rows, window: int): TileWork {
    if s.q <= 0 then TileWork(0, 0, 0)
    else
      var full := s.q / BLOCK_ROWS;
      var context := s.kv - s.q;
      TileWork(
        full,
        FullTiles(context, full, window),
        if s.q % BLOCK_ROWS == 0 then 0 else Tiles(s.kv) - FirstTile(context + full * BLOCK_ROWS, window))
  }

  function Work(batch: seq<Rows>, window: int): TileWork {
    if |batch| == 0 then TileWork(0, 0, 0)
    else Work(batch[..|batch| - 1], window).Plus(RowsWork(batch[|batch| - 1], window))
  }

  /** What the metadata of one forward says about each sequence. */
  function Batch(cu: seq<int>, kvLens: seq<int>): (r: seq<Rows>)
    requires |cu| == |kvLens| + 1
    ensures |r| == |kvLens| && forall i | 0 <= i < |r| :: r[i] == Rows(cu[i + 1] - cu[i], kvLens[i])
  {
    seq(|kvLens|, i requires 0 <= i < |kvLens| => Rows(cu[i + 1] - cu[i], kvLens[i]))
  }

  method CountFull(context: int, full: nat, window: int) returns (tiles: int)
    ensures tiles == FullTiles(context, full, window)
  {
    tiles := 0;
    for j := 0 to full
      invariant tiles == FullTiles(context, j, window)
    {
      var start := context + j * BLOCK_ROWS;
      tiles := tiles + (Tiles(start + BLOCK_ROWS) - FirstTile(start, window));
    }
  }

  /** What one sequence adds to the three counters. */
  method CountRows(q: int, kv: int, window: int) returns (blocks: int, tiles: int, partial: int)
    ensures TileWork(blocks, tiles, partial) == RowsWork(Rows(q, kv), window)
  {
    blocks, tiles, partial := 0, 0, 0;
    if q <= 0 {
      return;
    }
    var context := kv - q;
    var full := q / BLOCK_ROWS;
    blocks := full;
    tiles := CountFull(context, full, window);
    if q % BLOCK_ROWS != 0 {
      partial := Tiles(kv) - FirstTile(context + full * BLOCK_ROWS, window);
    }
  }

  method NaxTileWork(cu: seq<int>, kvLens: seq<int>, window: int) returns (r: Result<TileWork, WorkError>)
    ensures r == if |cu| == |kvLens| + 1 then Ok(Work(Batch(cu, kvLens), window)) else Err(LengthMismatch)
  {
    if |cu| != |kvLens| + 1 {
      return Err(LengthMismatch);
    }
    var fullBlocks, fullTiles, partialTiles := 0, 0, 0;
    ghost var batch := Batch(cu, kvLens);
    for i := 0 to |kvLens|
      invariant TileWork(fullBlocks, fullTiles, partialTiles) == Work(batch[..i], window)
    {
      WorkStep(batch, i, window);
      assert batch[i] == Rows(cu[i + 1] - cu[i], kvLens[i]);
      var blocks, tiles, partial := CountRows(cu[i + 1] - cu[i], kvLens[i], window);
      fullBlocks := fullBlocks + blocks;
      fullTiles := fullTiles + tiles;
      partialTiles := partialTiles + partial;
    }
    assert batch[..|kvLens|] == batch;
    r := Ok(TileWork(fullBlocks, fullTiles, partialTiles));
  }

  lemma WorkStep(batch: seq<Rows>, i: nat, window: int)
    requires i < |batch|
    ensures Work(batch[..i + 1], window) == Work(batch[..i], window).Plus(RowsWork(batch[i], window))
  {
    assert batch[..i + 1][..i] == batch[..i];
  }

  // ---- Brute force over a batch ----

  ghost function SeenFull(context: int, blocks: nat, window: int): int {
    if blocks == 0 then 0
    else
      var start := context + (blocks - 1) * 64;
      SeenFull(context, blocks - 1, window) + |SeenTiles(start, start + 64, window)|
  }

  /** Every 64-row block of a sequence, full or last, counted by inspecting every row and key. */
  ghost function SeenWork(s: Rows, window: int): TileWork {
    if s.q <= 0 then TileWork(0, 0, 0)
    else
      var full := s.q / 64;
      var context := s.kv - s.q;
      TileWork(
        full,
        SeenFull(context, full, window),
        if s.q % 64 == 0 then 0 else |SeenTiles(context + full * 64, s.kv, window)|)
  }

  ghost function BruteForce(batch: seq<Rows>, window: int): TileWork {
    if |batch| == 0 then TileWork(0, 0, 0)
    else BruteForce(batch[..|batch| - 1], window).Plus(SeenWork(batch[|batch| - 1], window))
  }

  /** KV lengths include the step's own rows. */
  ghost predicate Sound(batch: seq<Rows>) {
    forall s | s in batch :: s.q > 0 ==> s.kv >= s.q
  }

  predicate RowExact(s: Rows, window: int) {
    window != 0 || s.q <= 0 || (s.q == 1 && s.kv % 32 == 0)
  }

  lemma {:induction false} FullExactIff(context: int, blocks: nat, window: int)
    requires context >= 0
    ensures FullTiles(context, blocks, window) >= SeenFull(context, blocks, window)
    ensures FullTiles(context, blocks, window) == SeenFull(context, blocks, window) <==> window != 0 || blocks == 0
  {
    if blocks > 0 {
      var start := context + (blocks - 1) * BLOCK_ROWS;
      FullExactIff(context, blocks - 1, window);
      BlockAtLeast(start, start + BLOCK_ROWS, window);
      BlockExactIff(start, start + BLOCK_ROWS, window);
    }
  }

  lemma RowsExactIff(s: Rows, window: int)
    requires s.q > 0 ==> s.kv >= s.q
    ensures RowsWork(s, window).fullTiles >= SeenWork(s, window).fullTiles
    ensures RowsWork(s, window).partialTiles >= SeenWork(s, window).partialTiles
    ensures RowsWork(s, window) == SeenWork(s, window) <==> RowExact(s, window)
  {
    if s.q > 0 {
      var full := s.q / BLOCK_ROWS;
      var context := s.kv - s.q;
      FullExactIff(context, full, window);
      if s.q % BLOCK_ROWS != 0 {
        BlockAtLeast(context + full * BLOCK_ROWS, s.kv, window);
        BlockExactIff(context + full * BLOCK_ROWS, s.kv, window);
      }
    }
  }

  lemma {:induction false} WorkAtLeast(batch: seq<Rows>, window: int)
    requires Sound(batch)
    ensures Work(batch, window).fullTiles >= BruteForce(batch, window).fullTiles
    ensures Work(batch, window).partialTiles >= BruteForce(batch, window).partialTiles
  {
    if |batch| > 0 {
      assert batch[|batch| - 1] in batch;
      WorkAtLeast(batch[..|batch| - 1], window);
      RowsExactIff(batch[|batch| - 1], window);
    }
  }

  /**
   The count is the brute-force count if and only if there is no window, or one of at
   least one key, or every sequence is a single row that ends a tile.
   */
  lemma {:induction false} WorkExactIff(batch: seq<Rows>, window: int)
    requires Sound(batch)
    ensures Work(batch, window) == BruteForce(batch, window) <==> forall s | s in batch :: RowExact(s, window)
  {
    if |batch| > 0 {
      var front, last := batch[..|batch| - 1], batch[|batch| - 1];
      assert batch == front + [last];
      WorkExactIff(front, window);
      WorkAtLeast(front, window);
      RowsExactIff(last, window);
    }
  }

  /** Only differences of the cumulative lengths matter. */
  lemma ShiftInvariant(cu: seq<int>, kvLens: seq<int>, window: int, shift: int)
    requires |cu| == |kvLens| + 1
    ensures Work(Batch(seq(|cu|, i requires 0 <= i < |cu| => cu[i] + shift), kvLens), window) ==
            Work(Batch(cu, kvLens), window)
  {
    assert Batch(seq(|cu|, i requires 0 <= i < |cu| => cu[i] + shift), kvLens) == Batch(cu, kvLens);
  }

  lemma {:induction false} WorkAdds(a: seq<Rows>, b: seq<Rows>, window: int)
    ensures Work(a + b, window) == Work(a, window).Plus(Work(b, window))
  {
    if |b| == 0 {
      assert a + b == a;
    } else {
      var last := RowsWork(b[|b| - 1], window);
      assert (a + b)[..|a + b| - 1] == a + b[..|b| - 1];
      WorkAdds(a, b[..|b| - 1], window);
      PlusAssociative(Work(a, window), Work(b[..|b| - 1], window), last);
    }
  }

  lemma PlusAssociative(a: TileWork, b: TileWork, c: TileWork)
    ensures a.Plus(b).Plus(c) == a.Plus(b.Plus(c))
  {
  }

  /** The counts of a batch are those of its two parts together, wherever it is split. */
  lemma SplitAdds(cu: seq<int>, kvLens: seq<int>, window: int, m: nat)
    requires |cu| == |kvLens| + 1 && m <= |kvLens|
    ensures Work(Batch(cu, kvLens), window) ==
              Work(Batch(cu[..m + 1], kvLens[..m]), window).Plus(Work(Batch(cu[m..], kvLens[m..]), window))
  {
    assert Batch(cu, kvLens) == Batch(cu[..m + 1], kvLens[..m]) + Batch(cu[m..], kvLens[m..]);
    WorkAdds(Batch(cu[..m + 1], kvLens[..m]), Batch(cu[m..], kvLens[m..]), window);
  }

  // ---- The choice ----

  function Factor(headSize: int): int {
    if headSize == 256 then 1 else 8
  }

  function SplitHint(w: TileWork, headSize: int): int {
    if headSize > 512 || w.fullBlocks < MIN_FULL_BLOCKS then 0
    else if Outnumbers(w.fullTiles, Factor(headSize), w.partialTiles) then 1 else 0
  }

  predicate Outnumbers(full: int, factor: int, partial: int) {
    full >= factor * partial
  }

  /**
   The hint is one exactly for heads of at most 512 entries, at least four full blocks,
   and as many full tiles as eight times the partial ones, or as the partial ones alone
   for heads of 256.
   */
  lemma HintIff(w: TileWork, headSize: int)
    ensures SplitHint(w, headSize) == 0 || SplitHint(w, headSize) == 1
    ensures SplitHint(w, headSize) == 1 <==>
              && headSize <= 512 && w.fullBlocks >= 4
              && (headSize == 256 ==> w.fullTiles >= w.partialTiles)
              && (headSize != 256 ==> w.fullTiles >= 8 * w.partialTiles)
  {
  }

  lemma OutnumbersAdds(a: int, b: int, factor: int, c: int, d: int)
    requires Outnumbers(a, factor, c) && Outnumbers(b, factor, d)
    ensures Outnumbers(a + b, factor, c + d)
  {
    assert factor * (c + d) == factor * c + factor * d;
  }

  lemma {:induction false} NoFullBlocks(batch: seq<Rows>, window: int)
    requires forall s | s in batch :: s.q < 64
    ensures Work(batch, window).fullBlocks == 0
  {
    if |batch| > 0 {
      assert batch[|batch| - 1] in batch;
      NoFullBlocks(batch[..|batch| - 1], window);
    }
  }

  /** A batch without a 64-row sequence never takes the split pipeline, whatever the head size. */
  lemma ShortBatchIsNotSplit(batch: seq<Rows>, window: int, headSize: int)
    requires forall s | s in batch :: s.q < 64
    ensures SplitHint(Work(batch, window), headSize) == 0
  {
    NoFullBlocks(batch, window);
  }

  /** Two batches that each take the split pipeline take it together. */
  lemma SplitTogether(a: seq<Rows>, b: seq<Rows>, window: int, headSize: int)
    requires SplitHint(Work(a, window), headSize) == 1 && SplitHint(Work(b, window), headSize) == 1
    ensures SplitHint(Work(a + b, window), headSize) == 1
  {
    WorkAdds(a, b, window);
    var v, w := Work(a, window), Work(b, window);
    OutnumbersAdds(v.fullTiles, w.fullTiles, Factor(headSize), v.partialTiles, w.partialTiles);
  }
}
