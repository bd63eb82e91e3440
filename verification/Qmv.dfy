/**
 The fused matrix-vector kernel: one 256-thread group per output row strides the
 row's 16-element groups, 32-lane sums go to shared memory, and the first threads add
 eight of them.  It equals the dot product with the dequantized row, so both branches
 of `GGUFRawBlockTensor.matmul` compute the same matrix.
 */
module Qmv {
  import opened Arith
  import opened BlockGrid
  import opened RawBlocks
  import opened Sums

  const THREADS: nat := 256
  const LANES: nat := 32
  const SIMD_GROUPS: nat := 8
  const QMV_MAX_BATCH: nat := 8

  /** The dequantize kernel over one row of blocks. */
  function DenseRow(h: Half, q: RawType, blocks: seq<Block>): (dense: seq<int>)
    requires BlocksOf(RawBytes(q), blocks)
    ensures |dense| == |blocks| * SUPER
  {
    seq(|blocks| * SUPER, k requires 0 <= k < |blocks| * SUPER => Dequant(h, q, blocks[k / SUPER], k % SUPER))
  }

  /** Group `g` covers the row's elements `16g .. 16g + 16`. */
  ghost predicate SliceOf(v: seq<int>, dense: seq<int>, start: nat) {
    |v| == SUB && start + SUB <= |dense| && forall i | 0 <= i < SUB :: v[i] == dense[start + i]
  }

  lemma GroupIsSlice(h: Half, q: RawType, blocks: seq<Block>, g: nat)
    requires BlocksOf(RawBytes(q), blocks) && g < |blocks| * 16
    ensures SliceOf(GroupValues(h, q, blocks[g / 16], g % 16), DenseRow(h, q, blocks), g * 16)
  {
    var v := GroupValues(h, q, blocks[g / 16], g % 16);
    forall i: nat | i < SUB
      ensures v[i] == DenseRow(h, q, blocks)[g * 16 + i]
    {
      SliceElement(g, i, g * 16 + i);
    }
  }

  lemma SliceElement(g: nat, i: nat, k: nat)
    requires i < 16 && k == g * 16 + i
    ensures k / SUPER == g / 16 && k % SUPER == g % 16 * 16 + i
  {
  }

  /** Term `k` of the dot product of `x[base..]` with a dense row. */
  function RowTerm(dense: seq<int>, x: seq<int>, base: nat): int -> int {
    k => if 0 <= k < |dense| && base + k < |x| then x[base + k] * dense[k] else 0
  }

  /** What the simple path computes: one dot product with the dequantized row. */
  function RowDot(dense: seq<int>, x: seq<int>, base: nat): int {
    Sum(|dense|, RowTerm(dense, x, base))
  }

  /** What one visit of group `g` adds to a batch row's accumulator. */
  function GroupTerm(dense: seq<int>, x: seq<int>, base: nat): int -> int {
    g => if 0 <= g && g * 16 + SUB <= |dense| && base + g * 16 + SUB <= |x|
         then Dot(x, base + g * 16, dense, g * 16, SUB) else 0
  }

  lemma {:induction false} DotIsSum(dense: seq<int>, x: seq<int>, base: nat, start: nat, n: nat)
    requires base + start + n <= |x| && start + n <= |dense|
    ensures Dot(x, base + start, dense, start, n) == Sum(n, Shifted(RowTerm(dense, x, base), start))
  {
    if n > 0 {
      DotIsSum(dense, x, base, start, n - 1);
    }
  }

  /** A dot product only looks at the entries it uses. */
  lemma {:induction false} DotSlice(x: seq<int>, base: nat, v: seq<int>, dense: seq<int>, start: nat, n: nat)
    requires base + n <= |x| && n <= |v| && start + n <= |dense|
    requires forall i | 0 <= i < n :: v[i] == dense[start + i]
    ensures Dot(x, base, v, 0, n) == Dot(x, base, dense, start, n)
  {
    if n > 0 {
      DotSlice(x, base, v, dense, start, n - 1);
      assert v[n - 1] == dense[start + n - 1];
    }
  }

  lemma GroupIsRowSum(dense: seq<int>, x: seq<int>, base: nat, g: nat)
    requires g * 16 + SUB <= |dense| && base + |dense| <= |x|
    ensures GroupTerm(dense, x, base)(g) == RowSums(RowTerm(dense, x, base), 16)(g)
  {
    DotIsSum(dense, x, base, g * 16, SUB);
  }

  /** Summing the groups is summing the row: every element is used exactly once. */
  lemma GroupsAreRow(dense: seq<int>, x: seq<int>, base: nat, groups: nat)
    requires |dense| == groups * 16 && base + |dense| <= |x|
    ensures Sum(groups, GroupTerm(dense, x, base)) == RowDot(dense, x, base)
  {
    SumNest(groups, 16, RowTerm(dense, x, base));
    forall g | 0 <= g < groups
      ensures GroupTerm(dense, x, base)(g) == RowSums(RowTerm(dense, x, base), 16)(g)
    {
      GroupIsRowSum(dense, x, base, g);
    }
    SumEqual(groups, GroupTerm(dense, x, base), RowSums(RowTerm(dense, x, base), 16));
  }

  function TakeMin(a: nat, b: nat): nat {
    if a < b then a else b
  }

  /** What thread `t` has summed for one batch row once it has visited its groups below `g`. */
  function ThreadSum(dense: seq<int>, x: seq<int>, base: nat, t: nat, g: nat): int {
    Sum(TakeMin(g, |dense| / 16), Strided(GroupTerm(dense, x, base), t, THREADS))
  }

  ghost predicate ThreadSums(dense: seq<int>, x: seq<int>, t: nat, g: nat, acc: seq<int>) {
    forall batch: nat | batch < |acc| :: acc[batch] == ThreadSum(dense, x, Flat(batch, |dense|, 0), t, g)
  }

  lemma ThreadStarts(dense: seq<int>, x: seq<int>, t: nat, acc: seq<int>)
    requires t < THREADS && forall batch | 0 <= batch < |acc| :: acc[batch] == 0
    ensures ThreadSums(dense, x, t, t, acc)
  {
    forall batch: nat | batch < |acc|
      ensures ThreadSum(dense, x, Flat(batch, |dense|, 0), t, t) == 0
    {
      SumZero(TakeMin(t, |dense| / 16), Strided(GroupTerm(dense, x, Flat(batch, |dense|, 0)), t, THREADS));
    }
  }

  lemma ThreadStep(dense: seq<int>, x: seq<int>, base: nat, t: nat, g: nat)
    requires g < |dense| / 16 && g % THREADS == t && base + g * 16 + SUB <= |x|
    ensures ThreadSum(dense, x, base, t, g + THREADS) ==
              ThreadSum(dense, x, base, t, g) + Dot(x, base + g * 16, dense, g * 16, SUB)
  {
    StrideStep(GroupTerm(dense, x, base), t, THREADS, g, |dense| / 16);
  }

  lemma ThreadSteps(dense: seq<int>, x: seq<int>, t: nat, g: nat, v: seq<int>, before: seq<int>, after: seq<int>)
    requires g < |dense| / 16 && g % THREADS == t && SliceOf(v, dense, g * 16)
    requires GroupInside(x, |dense|, g * 16, |before|)
    requires ThreadSums(dense, x, t, g, before)
    requires Accumulated(before, after, x, |dense|, g * 16, v, |before|)
    ensures ThreadSums(dense, x, t, g + THREADS, after)
  {
    forall batch: nat | batch < |after|
      ensures after[batch] == ThreadSum(dense, x, Flat(batch, |dense|, 0), t, g + THREADS)
    {
      FlatShift(batch, |dense|, 0, g * 16);
      ThreadStep(dense, x, Flat(batch, |dense|, 0), t, g);
      DotSlice(x, Flat(batch, |dense|, g * 16), v, dense, g * 16, SUB);
    }
  }

  /** One visit of a thread: group `g` of the row, for every batch row. */
  method Visit(h: Half, q: RawType, blocks: seq<Block>, x: seq<int>, columns: nat, t: nat, g: nat, acc: array<int>)
    requires BlocksOf(RawBytes(q), blocks) && columns == |blocks| * SUPER && |x| == Flat(acc.Length, columns, 0)
    requires g < |blocks| * 16 && g % THREADS == t && ThreadSums(DenseRow(h, q, blocks), x, t, g, acc[..])
    modifies acc
    ensures ThreadSums(DenseRow(h, q, blocks), x, t, g + THREADS, acc[..])
  {
    GroupsInside(x, acc.Length, columns, g * 16);
    GroupIsSlice(h, q, blocks, g);
    ghost var before := acc[..];
    AccumulateGroup(h, q, blocks[g / 16], g % 16, x, columns, g * 16, acc);
    ThreadSteps(DenseRow(h, q, blocks), x, t, g, GroupValues(h, q, blocks[g / 16], g % 16), before, acc[..]);
  }

  /** The loop of one thread over the groups `t, t + 256, ...`. */
  method Thread(h: Half, q: RawType, blocks: seq<Block>, x: seq<int>, batches: nat, t: nat) returns (r: seq<int>)
    requires BlocksOf(RawBytes(q), blocks) && |x| == Flat(batches, |blocks| * SUPER, 0) && t < THREADS
    ensures |r| == batches && ThreadSums(DenseRow(h, q, blocks), x, t, |blocks| * 16, r)
  {
    var acc := new int[batches](_ => 0);
    ThreadStarts(DenseRow(h, q, blocks), x, t, acc[..]);
    var totalGroups := |blocks| * 16;
    var g := t;
    while g < totalGroups
      invariant g % THREADS == t
      invariant ThreadSums(DenseRow(h, q, blocks), x, t, g, acc[..])
    {
      Visit(h, q, blocks, x, |blocks| * SUPER, t, g, acc);
      NextGroup(g);
      g := g + THREADS;
    }
    r := acc[..];
    ThreadEnds(DenseRow(h, q, blocks), x, t, g, totalGroups, r);
  }

  lemma NextGroup(g: nat)
    ensures (g + THREADS) % THREADS == g % THREADS
  {
  }

  lemma ThreadEnds(dense: seq<int>, x: seq<int>, t: nat, g: nat, groups: nat, acc: seq<int>)
    requires groups == |dense| / 16 && g >= groups && ThreadSums(dense, x, t, g, acc)
    ensures ThreadSums(dense, x, t, groups, acc)
  {
    forall batch: nat | batch < |acc|
      ensures acc[batch] == ThreadSum(dense, x, Flat(batch, |dense|, 0), t, groups)
    {
      assert acc[batch] == ThreadSum(dense, x, Flat(batch, |dense|, 0), t, g);
    }
  }

  lemma GroupsInside(x: seq<int>, batches: nat, columns: nat, offset: nat)
    requires |x| == Flat(batches, columns, 0) && offset + SUB <= columns
    ensures GroupInside(x, columns, offset, batches)
  {
    forall batch: nat | batch < batches {
      FlatInside(batch, offset, SUB, batches, columns);
    }
  }

  // ---- The two-stage reduction ----

  /** The accumulator of every thread for one batch row. */
  function Column(accs: seq<seq<int>>, batch: nat): int -> int {
    t => if 0 <= t < |accs| && batch < |accs[t]| then accs[t][batch] else 0
  }

  /** `simd_sum` over the 32 lanes of a SIMD group. */
  function LaneSum(accs: seq<seq<int>>, sg: nat, batch: nat): int {
    Sum(LANES, Shifted(Column(accs, batch), sg * LANES))
  }

  method SimdSum(accs: seq<seq<int>>, sg: nat, batch: nat) returns (ssum: int)
    requires sg * LANES + LANES <= |accs| && forall t | 0 <= t < |accs| :: batch < |accs[t]|
    ensures ssum == LaneSum(accs, sg, batch)
  {
    ssum := 0;
    for lane := 0 to LANES
      invariant ssum == Sum(lane, Shifted(Column(accs, batch), sg * LANES))
    {
      ssum := ssum + accs[sg * LANES + lane][batch];
    }
  }

  ghost predicate ThreadsDone(dense: seq<int>, x: seq<int>, batches: nat, accs: seq<seq<int>>) {
    forall t: nat | t < |accs| :: |accs[t]| == batches && ThreadSums(dense, x, t, |dense| / 16, accs[t])
  }

  lemma ColumnIsPerThread(dense: seq<int>, x: seq<int>, batches: nat, accs: seq<seq<int>>, batch: nat, base: nat)
    requires |accs| == THREADS && ThreadsDone(dense, x, batches, accs) && batch < batches &&
             base == Flat(batch, |dense|, 0)
    ensures Sum(THREADS, Column(accs, batch)) ==
            Sum(THREADS, PerThread(GroupTerm(dense, x, base), |dense| / 16, THREADS))
  {
    forall t | 0 <= t < THREADS
      ensures Column(accs, batch)(t) == PerThread(GroupTerm(dense, x, base), |dense| / 16, THREADS)(t)
    {
      assert accs[t][batch] == ThreadSum(dense, x, base, t, |dense| / 16);
    }
    SumEqual(THREADS, Column(accs, batch), PerThread(GroupTerm(dense, x, base), |dense| / 16, THREADS));
  }

  /** Eight sums of 32 lanes make the sum of all groups, so the row's dot product. */
  lemma ReductionIsRow(dense: seq<int>, x: seq<int>, batches: nat, accs: seq<seq<int>>, batch: nat, base: nat)
    requires |accs| == THREADS && ThreadsDone(dense, x, batches, accs) && batch < batches
    requires |dense| % 16 == 0 && base == Flat(batch, |dense|, 0) && base + |dense| <= |x|
    ensures Sum(SIMD_GROUPS, RowSums(Column(accs, batch), LANES)) == RowDot(dense, x, base)
  {
    SumNest(SIMD_GROUPS, LANES, Column(accs, batch));
    ColumnIsPerThread(dense, x, batches, accs, batch, base);
    StridesPartition(|dense| / 16, THREADS, GroupTerm(dense, x, base));
    GroupsAreRow(dense, x, base, |dense| / 16);
  }

  /** The first `n` entries of the flat shared buffer hold their lane sums. */
  ghost predicate SharedUpTo(shared: seq<int>, accs: seq<seq<int>>, batches: nat, n: nat) {
    forall s: nat, b: nat | b < batches && Flat(s, batches, b) < n ::
      Flat(s, batches, b) < |shared| && shared[Flat(s, batches, b)] == LaneSum(accs, s, b)
  }

  lemma SharedStep(shared: seq<int>, accs: seq<seq<int>>, batches: nat, s: nat, b: nat, n: nat)
    requires b < batches && n == Flat(s, batches, b) < |shared| && SharedUpTo(shared, accs, batches, n)
    ensures SharedUpTo(shared[n := LaneSum(accs, s, b)], accs, batches, n + 1)
  {
    var after := shared[n := LaneSum(accs, s, b)];
    forall u: nat, c: nat | c < batches && Flat(u, batches, c) < n + 1
      ensures Flat(u, batches, c) < |after| && after[Flat(u, batches, c)] == LaneSum(accs, u, c)
    {
      if Flat(u, batches, c) == n {
        FlatInjective(u, c, s, b, batches);
      }
    }
  }

  /** Stage one: lane 0 of every SIMD group writes `shared[sg * NB + batch]`. */
  method FillShared(accs: seq<seq<int>>, batches: nat, simdGroups: nat) returns (shared: seq<int>)
    requires |accs| == simdGroups * LANES && forall t | 0 <= t < |accs| :: |accs[t]| == batches
    ensures |shared| == Flat(simdGroups, batches, 0) && SharedUpTo(shared, accs, batches, |shared|)
  {
    var buffer := new int[Flat(simdGroups, batches, 0)](_ => 0);
    for sg := 0 to simdGroups
      invariant SharedUpTo(buffer[..], accs, batches, Flat(sg, batches, 0))
    {
      FillGroup(accs, batches, simdGroups, sg, buffer);
    }
    shared := buffer[..];
  }

  method FillGroup(accs: seq<seq<int>>, batches: nat, simdGroups: nat, sg: nat, buffer: array<int>)
    requires |accs| == simdGroups * LANES && forall t | 0 <= t < |accs| :: |accs[t]| == batches
    requires sg < simdGroups && buffer.Length == Flat(simdGroups, batches, 0)
    requires SharedUpTo(buffer[..], accs, batches, Flat(sg, batches, 0))
    modifies buffer
    ensures SharedUpTo(buffer[..], accs, batches, Flat(sg + 1, batches, 0))
  {
    for batch := 0 to batches
      invariant SharedUpTo(buffer[..], accs, batches, Flat(sg, batches, batch))
    {
      var ssum := SimdSum(accs, sg, batch);
      FlatInside(sg, batch, 1, simdGroups, batches);
      WriteShared(ssum, accs, batches, sg, batch, Flat(sg, batches, batch), buffer);
      FlatShift(sg, batches, batch, 1);
    }
    FlatNext(sg, batches);
  }

  method WriteShared(ssum: int, ghost accs: seq<seq<int>>, batches: nat, ghost sg: nat, ghost batch: nat,
                     position: nat, buffer: array<int>)
    requires batch < batches && position == Flat(sg, batches, batch) < buffer.Length && ssum == LaneSum(accs, sg, batch)
    requires SharedUpTo(buffer[..], accs, batches, position)
    modifies buffer
    ensures SharedUpTo(buffer[..], accs, batches, position + 1)
  {
    SharedStep(buffer[..], accs, batches, sg, batch, position);
    ghost var before := buffer[..];
    buffer[position] := ssum;
    assert buffer[..] == before[position := ssum];
  }

  /** The totals of the first `n` batch rows are the row's dot products. */
  ghost predicate TotalsUpTo(dense: seq<int>, x: seq<int>, totals: seq<int>, n: nat) {
    |totals| == n && forall batch: nat | batch < n :: totals[batch] == RowDot(dense, x, Flat(batch, |dense|, 0))
  }

  /** One output row: all threads, the two-stage reduction, one total per batch row. */
  method QmvRow(h: Half, q: RawType, blocks: seq<Block>, x: seq<int>, batches: nat) returns (totals: seq<int>)
    requires BlocksOf(RawBytes(q), blocks) && |x| == Flat(batches, |blocks| * SUPER, 0)
    ensures TotalsUpTo(DenseRow(h, q, blocks), x, totals, batches)
  {
    var accs: seq<seq<int>> := [];
    for t := 0 to THREADS
      invariant |accs| == t && ThreadsDone(DenseRow(h, q, blocks), x, batches, accs)
    {
      var acc := Thread(h, q, blocks, x, batches, t);
      accs := accs + [acc];
    }
    WholeGroups(|blocks|);
    var shared := FillShared(accs, batches, SIMD_GROUPS);
    totals := AddTotals(DenseRow(h, q, blocks), x, batches, SIMD_GROUPS, accs, shared);
  }

  lemma TotalIs(dense: seq<int>, x: seq<int>, batches: nat, accs: seq<seq<int>>, t: nat)
    requires |accs| == THREADS && ThreadsDone(dense, x, batches, accs) && |dense| % 16 == 0
    requires |x| == Flat(batches, |dense|, 0) && t < batches
    ensures Sum(SIMD_GROUPS, RowSums(Column(accs, t), LANES)) == RowDot(dense, x, Flat(t, |dense|, 0))
  {
    FlatInside(t, 0, |dense|, batches, |dense|);
    ReductionIsRow(dense, x, batches, accs, t, Flat(t, |dense|, 0));
  }

  lemma TotalsStep(dense: seq<int>, x: seq<int>, totals: seq<int>, t: nat, total: int)
    requires TotalsUpTo(dense, x, totals, t) && total == RowDot(dense, x, Flat(t, |dense|, 0))
    ensures TotalsUpTo(dense, x, totals + [total], t + 1)
  {
  }

  lemma WholeGroups(n: nat)
    ensures n * SUPER % 16 == 0
  {
  }

  method AddTotals(ghost dense: seq<int>, ghost x: seq<int>, batches: nat, simdGroups: nat,
                   ghost accs: seq<seq<int>>, shared: seq<int>)
    returns (totals: seq<int>)
    requires simdGroups == SIMD_GROUPS && |accs| == THREADS && ThreadsDone(dense, x, batches, accs) &&
             |dense| % 16 == 0 && |x| == Flat(batches, |dense|, 0)
    requires |shared| == Flat(simdGroups, batches, 0) && SharedUpTo(shared, accs, batches, |shared|)
    ensures TotalsUpTo(dense, x, totals, batches)
  {
    totals := [];
    for t := 0 to batches
      invariant TotalsUpTo(dense, x, totals, t)
    {
      var total := AddShared(accs, shared, batches, simdGroups, t);
      TotalIs(dense, x, batches, accs, t);
      TotalsStep(dense, x, totals, t, total);
      totals := totals + [total];
    }
  }

  /** Stage two: thread `t` adds the eight entries of its batch row. */
  method AddShared(ghost accs: seq<seq<int>>, shared: seq<int>, batches: nat, simdGroups: nat,
                   t: nat) returns (total: int)
    requires t < batches && |shared| == Flat(simdGroups, batches, 0)
    requires SharedUpTo(shared, accs, batches, |shared|)
    ensures total == Sum(simdGroups, RowSums(Column(accs, t), LANES))
  {
    total := 0;
    for i := 0 to simdGroups
      invariant total == Sum(i, RowSums(Column(accs, t), LANES))
    {
      FlatInside(i, t, 1, simdGroups, batches);
      assert shared[Flat(i, batches, t)] == LaneSum(accs, i, t);
      total := total + shared[Flat(i, batches, t)];
    }
  }
}
