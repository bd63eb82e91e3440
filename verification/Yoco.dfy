/** The reduced batch of the YOCO cross-decoder, and its independence of the window layout. */
module Yoco {
  import opened BlockTables
  import opened PagedContext
  import opened PackedLayout
  import opened Wrappers

  datatype Reduced = Reduced(
    selected: seq<nat>, slots: seq<nat>, tables: seq<Table>, contextLens: seq<nat>, offsets: seq<nat>, cu: seq<nat>)

  datatype YocoError = BadStart | LengthMismatch | NotIncreasing | SlotsShort | SlotsLong

  /** The packed metadata of one group. */
  datatype Full = Full(
    slots: seq<nat>, tables: seq<Table>, contextLens: seq<nat>, offsets: seq<nat>, cu: seq<nat>, decodeSegments: nat)
  {
    predicate Sized() {
      |cu| > 0 && cu[0] == 0 && |tables| == |contextLens| == |offsets| == |cu| - 1
    }

    predicate IsWindow(i: nat)
      requires i + 1 < |cu|
    {
      i < decodeSegments && cu[i + 1] > cu[i] + 1
    }
  }

  /** One selected row: it becomes a segment of its own. */
  datatype Pick = Pick(row: nat, slot: nat, table: Table, contextLen: nat, offset: nat)

  /** One more entry in each of the six lists. */
  function Append(r: Reduced, p: Pick): Reduced
    requires |r.cu| > 0
  {
    Reduced(r.selected + [p.row], r.slots + [p.slot], r.tables + [p.table], r.contextLens + [p.contextLen],
            r.offsets + [p.offset], r.cu + [r.cu[|r.cu| - 1] + 1])
  }

  function ListsOf(picks: seq<Pick>): (r: Reduced)
    ensures |r.cu| == |picks| + 1
  {
    if |picks| == 0 then Reduced([], [], [], [], [], [0])
    else Append(ListsOf(picks[..|picks| - 1]), picks[|picks| - 1])
  }

  // ---- The loops ----

  type Picks = Result<seq<Pick>, YocoError>

  function PickOf(full: Full, i: nat, row: nat): Pick
    requires full.Sized() && i + 1 < |full.cu| && full.cu[i] <= row < |full.slots|
  {
    var place := row - full.cu[i];
    Pick(row, full.slots[row], full.tables[i],
         if full.IsWindow(i) then full.offsets[i] + place + 1 else full.contextLens[i], full.offsets[i] + place)
  }

  /** `n` rows of segment `i`, from row `first` on. */
  function PickRows(r: seq<Pick>, full: Full, i: nat, first: nat, n: nat): seq<Pick>
    requires full.Sized() && i + 1 < |full.cu| && full.cu[i] <= first && first + n <= |full.slots|
  {
    if n == 0 then r else PickRows(r, full, i, first, n - 1) + [PickOf(full, i, first + n - 1)]
  }

  /** The first `n` segments. */
  function ReduceTo(full: Full, n: nat): Picks
    requires full.Sized() && n < |full.cu|
  {
    if n == 0 then Ok([])
    else
      match ReduceTo(full, n - 1)
      case Err(e) => Err(e)
      case Ok(r) =>
        if full.cu[n] <= full.cu[n - 1] then Err(NotIncreasing)
        else if full.cu[n] > |full.slots| then Err(SlotsShort)
        else
          var first := if full.IsWindow(n - 1) then full.cu[n - 1] else full.cu[n] - 1;
          Ok(PickRows(r, full, n - 1, first, full.cu[n] - first))
  }

  function Reduce(full: Full): Picks {
    if |full.cu| == 0 || full.cu[0] != 0 then Err(BadStart)
    else if !full.Sized() then Err(LengthMismatch)
    else
      match ReduceTo(full, |full.cu| - 1)
      case Err(e) => Err(e)
      case Ok(r) => if full.cu[|full.cu| - 1] != |full.slots| then Err(SlotsLong) else Ok(r)
  }

  method PickSegment(full: Full, i: nat, first: nat, r0: Reduced, ghost picks: seq<Pick>) returns (r: Reduced)
    requires full.Sized() && i + 1 < |full.cu| && full.cu[i] <= first <= full.cu[i + 1] <= |full.slots|
    requires r0 == ListsOf(picks)
    ensures r == ListsOf(PickRows(picks, full, i, first, full.cu[i + 1] - first))
  {
    r := r0;
    ghost var picked := picks;
    for row := first to full.cu[i + 1]
      invariant r == ListsOf(picked) && picked == PickRows(picks, full, i, first, row - first)
    {
      var pick := PickOf(full, i, row);
      OnePick(picked, pick);
      r, picked := Append(r, pick), picked + [pick];
    }
  }

  lemma OnePick(picks: seq<Pick>, pick: Pick)
    ensures ListsOf(picks + [pick]) == Append(ListsOf(picks), pick)
  {
    assert (picks + [pick])[..|picks|] == picks;
  }

  /** The body of the segment loop. */
  method ReduceSegment(full: Full, i: nat, reduced: Reduced) returns (r: Result<Reduced, YocoError>)
    requires full.Sized() && i + 1 < |full.cu| && ReduceTo(full, i).Ok? && reduced == ListsOf(ReduceTo(full, i).value)
    ensures match ReduceTo(full, i + 1) case Ok(picks) => r == Ok(ListsOf(picks)) case Err(e) => r == Err(e)
  {
    if full.cu[i + 1] <= full.cu[i] {
      return Err(NotIncreasing);
    }
    if full.cu[i + 1] > |full.slots| {
      return Err(SlotsShort);
    }
    var first := if full.IsWindow(i) then full.cu[i] else full.cu[i + 1] - 1;
    ghost var picks := ReduceTo(full, i).value;
    assert ReduceTo(full, i + 1) == Ok(PickRows(picks, full, i, first, full.cu[i + 1] - first));
    var picked := PickSegment(full, i, first, reduced, picks);
    r := Ok(picked);
  }

  function ReducedLists(full: Full): Result<Reduced, YocoError> {
    match Reduce(full)
    case Err(e) => Err(e)
    case Ok(picks) => Ok(ListsOf(picks))
  }

  /** The loops. */
  method BuildLists(full: Full) returns (r: Result<Reduced, YocoError>)
    ensures r == ReducedLists(full)
  {
    if |full.cu| == 0 || full.cu[0] != 0 {
      return Err(BadStart);
    }
    if |full.tables| != |full.cu| - 1 || |full.contextLens| != |full.cu| - 1 || |full.offsets| != |full.cu| - 1 {
      return Err(LengthMismatch);
    }
    var reduced := Reduced([], [], [], [], [], [0]);
    for i := 0 to |full.cu| - 1
      invariant ReduceTo(full, i).Ok? && reduced == ListsOf(ReduceTo(full, i).value)
    {
      var next := ReduceSegment(full, i, reduced);
      if next.Err? {
        ErrorStays(full, i + 1, |full.cu| - 1);
        return Err(next.error);
      }
      reduced := next.value;
    }
    if full.cu[|full.cu| - 1] != |full.slots| {
      return Err(SlotsLong);
    }
    r := Ok(reduced);
  }

  lemma {:induction false} ErrorStays(full: Full, n: nat, m: nat)
    requires full.Sized() && n <= m < |full.cu| && ReduceTo(full, n).Err?
    ensures ReduceTo(full, m) == ReduceTo(full, n)
  {
    if n < m {
      ErrorStays(full, n, m - 1);
    }
  }

  // ---- The reference: which rows matter, request by request ----

  /** Row `r` of a request, with the causal frontier of its own position. */
  ghost function RowPick(run: Run, g: nat, blockSize: nat, base: nat, r: nat): Pick
    requires InGroup(run, g, blockSize) && r < run.count
  {
    Pick(base + r, Slot(run.tables[g], blockSize, run.start + r), run.tables[g], run.start + r + 1, run.start + r)
  }

  /** The first `n` rows of a decode request; every one of them is verified. */
  ghost function DecodePicks(r: seq<Pick>, run: Run, g: nat, blockSize: nat, base: nat, n: nat): seq<Pick>
    requires InGroup(run, g, blockSize) && n <= run.count
  {
    if n == 0 then r else DecodePicks(r, run, g, blockSize, base, n - 1) + [RowPick(run, g, blockSize, base, n - 1)]
  }

  ghost function AddDecodeRequest(r: Picks, run: Run, g: nat, blockSize: nat, base: nat): Picks
    requires InGroup(run, g, blockSize)
  {
    if r.Err? then r else if run.count == 0 then Err(NotIncreasing)
    else Ok(DecodePicks(r.value, run, g, blockSize, base, run.count))
  }

  /** Only the last row of a prefill chunk predicts the next token. */
  ghost function AddPrefillRequest(r: Picks, run: Run, g: nat, blockSize: nat, base: nat): Picks
    requires InGroup(run, g, blockSize)
  {
    if r.Err? then r else if run.count == 0 then Err(NotIncreasing)
    else Ok(r.value + [RowPick(run, g, blockSize, base, run.count - 1)])
  }

  ghost predicate DecodesIn(decodes: seq<Decode>, g: nat, blockSize: nat) {
    |decodes| == 0 ||
      (DecodesIn(decodes[..|decodes| - 1], g, blockSize) && InGroup(DecodeRun(decodes[|decodes| - 1]), g, blockSize))
  }

  ghost predicate PrefillsIn(prefills: seq<Prefill>, g: nat, blockSize: nat) {
    |prefills| == 0 ||
    (PrefillsIn(prefills[..|prefills| - 1], g, blockSize) &&
      InGroup(PrefillRun(prefills[|prefills| - 1]), g, blockSize))
  }

  ghost function DecodeReference(decodes: seq<Decode>, g: nat, blockSize: nat): Picks
    requires DecodesIn(decodes, g, blockSize)
  {
    if |decodes| == 0 then Ok([])
    else
      var before := decodes[..|decodes| - 1];
      AddDecodeRequest(DecodeReference(before, g, blockSize), DecodeRun(decodes[|decodes| - 1]), g, blockSize,
                       DecodeTokens(before))
  }

  function PrefillTokens(prefills: seq<Prefill>): nat {
    if |prefills| == 0 then 0 else PrefillTokens(prefills[..|prefills| - 1]) + prefills[|prefills| - 1].numTokens
  }

  /** What the cross-decoder needs of a batch, whatever its layout. */
  ghost function Reference(decodes: seq<Decode>, prefills: seq<Prefill>, g: nat, blockSize: nat): Picks
    requires DecodesIn(decodes, g, blockSize) && PrefillsIn(prefills, g, blockSize)
    decreases |prefills|
  {
    if |prefills| == 0 then DecodeReference(decodes, g, blockSize)
    else
      var before := prefills[..|prefills| - 1];
      AddPrefillRequest(Reference(decodes, before, g, blockSize), PrefillRun(prefills[|prefills| - 1]), g, blockSize,
                        DecodeTokens(decodes) + PrefillTokens(before))
  }

  // ---- The reduction of a list of segments ----

  ghost function AddSegment(r: Picks, run: Run, window: bool, g: nat, blockSize: nat, base: nat): Picks
    requires InGroup(run, g, blockSize)
  {
    if window then AddDecodeRequest(r, run, g, blockSize, base) else AddPrefillRequest(r, run, g, blockSize, base)
  }

  /** The picks so far and the rows so far. */
  datatype Tally = Tally(picks: Picks, rows: nat)

  /** Segment by segment; nothing if a table does not reach its segment's last position. */
  ghost function ReduceSegments(segs: seq<Run>, decodeSegments: nat, g: nat, blockSize: nat): Option<Tally> {
    if |segs| == 0 then Some(Tally(Ok([]), 0))
    else
      var n, last := |segs| - 1, segs[|segs| - 1];
      match ReduceSegments(segs[..n], decodeSegments, g, blockSize)
      case None => None
      case Some(t) =>
        if InGroup(last, g, blockSize)
        then Some(Tally(AddSegment(t.picks, last, n < decodeSegments && last.count > 1, g, blockSize, t.rows),
                        t.rows + last.count))
        else None
  }

  ghost predicate ReducesTo(segs: seq<Run>, decodeSegments: nat, g: nat, blockSize: nat, r: Picks, rows: nat) {
    ReduceSegments(segs, decodeSegments, g, blockSize) == Some(Tally(r, rows))
  }

  lemma ReduceLast(segs: seq<Run>, last: Run, decodeSegments: nat, g: nat, blockSize: nat, r: Picks, rows: nat)
    requires ReducesTo(segs, decodeSegments, g, blockSize, r, rows) && InGroup(last, g, blockSize)
    ensures ReducesTo(segs + [last], decodeSegments, g, blockSize,
                      AddSegment(r, last, |segs| < decodeSegments && last.count > 1, g, blockSize, rows),
                      rows + last.count)
  {
    assert (segs + [last])[..|segs|] == segs;
  }

  /** For a single row it does not matter which kind of segment it is. */
  lemma SingleRow(r: Picks, run: Run, g: nat, blockSize: nat, base: nat)
    requires InGroup(run, g, blockSize) && run.count <= 1
    ensures AddDecodeRequest(r, run, g, blockSize, base) == AddPrefillRequest(r, run, g, blockSize, base)
  {
    if r.Ok? && run.count == 1 {
      assert DecodePicks(r.value, run, g, blockSize, base, 0) == r.value;
    }
  }

  /** The first `n` rows of a window as segments of their own. */
  ghost function AddWindow(r: Picks, run: Run, n: nat, g: nat, blockSize: nat, base: nat): Picks
    requires InGroup(run, g, blockSize) && n <= run.count
  {
    if n == 0 then r
    else
      AddSegment(AddWindow(r, run, n - 1, g, blockSize, base), Run(run.tables, run.start + n - 1, 1), false,
                 g, blockSize, base + n - 1)
  }

  lemma {:induction false} WindowPicks(r: Picks, run: Run, n: nat, g: nat, blockSize: nat, base: nat)
    requires InGroup(run, g, blockSize) && n <= run.count
    ensures AddWindow(r, run, n, g, blockSize, base) ==
              if r.Err? then r else Ok(DecodePicks(r.value, run, g, blockSize, base, n))
  {
    if n > 0 {
      WindowPicks(r, run, n - 1, g, blockSize, base);
    }
  }

  /** A window cut into rows reduces to the rows of the window. */
  lemma {:induction false} ReduceRows(segs: seq<Run>, run: Run, n: nat, decodeSegments: nat, g: nat, blockSize: nat,
                                      r: Picks, rows: nat)
    requires ReducesTo(segs, decodeSegments, g, blockSize, r, rows) && InGroup(run, g, blockSize) && n <= run.count
    ensures ReducesTo(AddRows(segs, run, n), decodeSegments, g, blockSize,
                      AddWindow(r, run, n, g, blockSize, rows), rows + n)
  {
    if n > 0 {
      ReduceRows(segs, run, n - 1, decodeSegments, g, blockSize, r, rows);
      RowInGroup(run, n - 1, g, blockSize);
      ReduceLast(AddRows(segs, run, n - 1), Run(run.tables, run.start + n - 1, 1), decodeSegments, g, blockSize,
                 AddWindow(r, run, n - 1, g, blockSize, rows), rows + n - 1);
    }
  }

  lemma {:induction false} SegmentsAtLeast(decodes: seq<Decode>, merge: bool)
    ensures |DecodeSegments(decodes, merge)| >= |decodes|
  {
    if |decodes| > 0 {
      SegmentsAtLeast(decodes[..|decodes| - 1], merge);
    }
  }

  lemma ReduceDecode(segs: seq<Run>, run: Run, merge: bool, decodeSegments: nat, g: nat, blockSize: nat,
                     r: Picks, rows: nat)
    requires ReducesTo(segs, decodeSegments, g, blockSize, r, rows) && InGroup(run, g, blockSize)
    requires merge ==> |segs| < decodeSegments
    ensures ReducesTo(AddRun(segs, run, IsSplit(run, merge)), decodeSegments, g, blockSize,
                      AddDecodeRequest(r, run, g, blockSize, rows), rows + run.count)
  {
    if IsSplit(run, merge) {
      ReduceRows(segs, run, run.count, decodeSegments, g, blockSize, r, rows);
      WindowPicks(r, run, run.count, g, blockSize, rows);
    } else {
      ReduceLast(segs, run, decodeSegments, g, blockSize, r, rows);
      if run.count <= 1 {
        SingleRow(r, run, g, blockSize, rows);
      }
    }
  }

  lemma {:induction false} ReduceDecodes(decodes: seq<Decode>, merge: bool, decodeSegments: nat, g: nat, blockSize: nat)
    requires DecodesIn(decodes, g, blockSize) && |decodes| <= decodeSegments
    ensures ReducesTo(DecodeSegments(decodes, merge), decodeSegments, g, blockSize,
                      DecodeReference(decodes, g, blockSize), DecodeTokens(decodes))
  {
    if |decodes| > 0 {
      var before, run := decodes[..|decodes| - 1], DecodeRun(decodes[|decodes| - 1]);
      ReduceDecodes(before, merge, decodeSegments, g, blockSize);
      if merge {
        MergedCount(before);
      }
      ReduceDecode(DecodeSegments(before, merge), run, merge, decodeSegments, g, blockSize,
                   DecodeReference(before, g, blockSize), DecodeTokens(before));
    }
  }

  lemma {:induction false} ReduceAll(decodes: seq<Decode>, prefills: seq<Prefill>, merge: bool, g: nat, blockSize: nat)
    requires DecodesIn(decodes, g, blockSize) && PrefillsIn(prefills, g, blockSize)
    ensures |Segments(decodes, prefills, merge)| >= |decodes|
    ensures ReducesTo(Segments(decodes, prefills, merge), |decodes|, g, blockSize,
                      Reference(decodes, prefills, g, blockSize), DecodeTokens(decodes) + PrefillTokens(prefills))
    decreases |prefills|
  {
    if |prefills| == 0 {
      SegmentsAtLeast(decodes, merge);
      ReduceDecodes(decodes, merge, |decodes|, g, blockSize);
    } else {
      var before, run := prefills[..|prefills| - 1], PrefillRun(prefills[|prefills| - 1]);
      ReduceAll(decodes, before, merge, g, blockSize);
      ReduceLast(Segments(decodes, before, merge), run, |decodes|, g, blockSize,
                 Reference(decodes, before, g, blockSize), DecodeTokens(decodes) + PrefillTokens(before));
    }
  }

  // ---- The loops compute the reduction ----

  /** Segment `i` of the packed metadata is the run. */
  ghost predicate SegmentIs(full: Full, i: nat, run: Run, g: nat, blockSize: nat) {
    && InGroup(run, g, blockSize) && full.Sized() && i + 1 < |full.cu| &&
       full.cu[i + 1] == full.cu[i] + run.count <= |full.slots|
    && full.tables[i] == run.tables[g] && full.offsets[i] == run.start && full.contextLens[i] == run.start + run.count
    && forall r: nat | r < run.count :: RowIs(full, i, run, g, blockSize, r)
  }

  ghost predicate RowIs(full: Full, i: nat, run: Run, g: nat, blockSize: nat, r: nat)
    requires InGroup(run, g, blockSize) && i < |full.cu| && full.cu[i] + run.count <= |full.slots| && r < run.count
  {
    full.slots[full.cu[i] + r] == Slot(run.tables[g], blockSize, run.start + r)
  }

  lemma {:induction false} WindowRows(full: Full, i: nat, run: Run, g: nat, blockSize: nat, r: seq<Pick>, n: nat)
    requires SegmentIs(full, i, run, g, blockSize) && full.IsWindow(i) && n <= run.count
    ensures PickRows(r, full, i, full.cu[i], n) == DecodePicks(r, run, g, blockSize, full.cu[i], n)
  {
    if n > 0 {
      WindowRows(full, i, run, g, blockSize, r, n - 1);
      assert RowIs(full, i, run, g, blockSize, n - 1);
    }
  }

  lemma LastRow(full: Full, i: nat, run: Run, g: nat, blockSize: nat, r: seq<Pick>)
    requires SegmentIs(full, i, run, g, blockSize) && !full.IsWindow(i) && run.count > 0
    ensures PickRows(r, full, i, full.cu[i + 1] - 1, 1) == r + [RowPick(run, g, blockSize, full.cu[i], run.count - 1)]
  {
    assert RowIs(full, i, run, g, blockSize, run.count - 1);
    assert PickRows(r, full, i, full.cu[i + 1] - 1, 0) == r;
  }

  /** What `prepare_grouped` hands to the reduction for one group. */
  function FullOf(c: Context, g: nat): Full
    requires g < |c.groups|
  {
    Full(c.groups[g].slots, c.groups[g].tables, c.contextLens, c.offsets, c.cuSeqlens, c.numDecodeRequests)
  }

  lemma SegmentHolds(c: Context, segs: seq<Run>, blockSizes: seq<nat>, g: nat, i: nat)
    requires LaidOut(c, segs, blockSizes) && g < |blockSizes| && i < |segs|
    ensures SegmentIs(FullOf(c, g), i, segs[i], g, blockSizes[g])
  {
    PackedSegment(c, segs, blockSizes, g, i);
    CuMonotone(segs, i + 1, |segs|);
    forall r: nat | r < segs[i].count
      ensures RowIs(FullOf(c, g), i, segs[i], g, blockSizes[g], r)
    {
      PackedRow(c, segs, blockSizes, g, i, r);
    }
  }

  /** One turn of the segment loop. */
  lemma LoopStep(full: Full, i: nat, run: Run, g: nat, blockSize: nat)
    requires SegmentIs(full, i, run, g, blockSize)
    ensures ReduceTo(full, i + 1) == AddSegment(ReduceTo(full, i), run, full.IsWindow(i), g, blockSize, full.cu[i])
  {
    var before := ReduceTo(full, i);
    if before.Ok? && run.count > 0 {
      if full.IsWindow(i) {
        WindowRows(full, i, run, g, blockSize, before.value, run.count);
      } else {
        LastRow(full, i, run, g, blockSize, before.value);
      }
    }
  }

  lemma {:induction false} LoopsReduce(c: Context, segs: seq<Run>, blockSizes: seq<nat>, g: nat, n: nat)
    requires LaidOut(c, segs, blockSizes) && g < |blockSizes| && n <= |segs|
    ensures FullOf(c, g).Sized() && |FullOf(c, g).cu| == |segs| + 1
    ensures ReducesTo(segs[..n], c.numDecodeRequests, g, blockSizes[g], ReduceTo(FullOf(c, g), n), c.cuSeqlens[n])
  {
    GroupSized(c, segs, blockSizes, g);
    if n > 0 {
      LoopsReduce(c, segs, blockSizes, g, n - 1);
      LoopReduces(c, segs, blockSizes, g, n - 1, segs[..n - 1]);
      assert segs[..n - 1] + [segs[n - 1]] == segs[..n];
    }
  }

  lemma LoopReduces(c: Context, segs: seq<Run>, blockSizes: seq<nat>, g: nat, n: nat, front: seq<Run>)
    requires LaidOut(c, segs, blockSizes) && g < |blockSizes| && n < |segs| && |front| == n
    requires FullOf(c, g).Sized() && |FullOf(c, g).cu| == |segs| + 1
    requires ReducesTo(front, c.numDecodeRequests, g, blockSizes[g], ReduceTo(FullOf(c, g), n), c.cuSeqlens[n])
    ensures ReducesTo(front + [segs[n]], c.numDecodeRequests, g, blockSizes[g], ReduceTo(FullOf(c, g), n + 1),
                      c.cuSeqlens[n + 1])
  {
    var full, blockSize := FullOf(c, g), blockSizes[g];
    SegmentHolds(c, segs, blockSizes, g, n);
    LoopStep(full, n, segs[n], g, blockSize);
    ReduceLast(front, segs[n], c.numDecodeRequests, g, blockSize, ReduceTo(full, n), full.cu[n]);
  }

  lemma GroupSized(c: Context, segs: seq<Run>, blockSizes: seq<nat>, g: nat)
    requires LaidOut(c, segs, blockSizes) && g < |blockSizes|
    ensures FullOf(c, g).Sized() && |c.cuSeqlens| == |segs| + 1 && c.cuSeqlens[|segs|] == |c.groups[g].slots|
  {
    if |segs| > 0 {
      PackedSegment(c, segs, blockSizes, g, 0);
    }
  }

  /** The scheduler's guarantee for the whole batch is what the reference needs in each group. */
  lemma {:induction false} ScheduledIn(decodes: seq<Decode>, prefills: seq<Prefill>, blockSizes: seq<nat>, g: nat)
    requires Scheduled(decodes, prefills, blockSizes) && g < |blockSizes|
    ensures DecodesIn(decodes, g, blockSizes[g]) && PrefillsIn(prefills, g, blockSizes[g])
    decreases |decodes| + |prefills|
  {
    if |decodes| > 0 {
      ScheduledIn(decodes[..|decodes| - 1], [], blockSizes, g);
    }
    if |prefills| > 0 {
      ScheduledIn([], prefills[..|prefills| - 1], blockSizes, g);
    }
  }

  /**
   Whichever layout the windows of a batch are packed in, the reduction of every group is
   the reference, errors included.
   */
  lemma ReducedIsReference(c: Context, decodes: seq<Decode>, prefills: seq<Prefill>, blockSizes: seq<nat>,
                           merge: bool, g: nat)
    requires LaidOut(c, Segments(decodes, prefills, merge), blockSizes) && CountersAre(c, decodes, prefills, merge)
    requires Scheduled(decodes, prefills, blockSizes) && g < |blockSizes|
    ensures DecodesIn(decodes, g, blockSizes[g]) && PrefillsIn(prefills, g, blockSizes[g])
    ensures Reduce(FullOf(c, g)) == Reference(decodes, prefills, g, blockSizes[g])
  {
    var segs := Segments(decodes, prefills, merge);
    ScheduledIn(decodes, prefills, blockSizes, g);
    LoopsReduce(c, segs, blockSizes, g, |segs|);
    assert segs[..|segs|] == segs;
    GroupSized(c, segs, blockSizes, g);
    ReduceAll(decodes, prefills, merge, g, blockSizes[g]);
  }

  lemma LayoutsAgree(merged: Context, expanded: Context, decodes: seq<Decode>, prefills: seq<Prefill>,
                     blockSizes: seq<nat>, g: nat)
    requires LaidOut(merged, Segments(decodes, prefills, true), blockSizes) &&
             CountersAre(merged, decodes, prefills, true)
    requires LaidOut(expanded, Segments(decodes, prefills, false), blockSizes) &&
             CountersAre(expanded, decodes, prefills, false)
    requires Scheduled(decodes, prefills, blockSizes) && g < |blockSizes|
    ensures Reduce(FullOf(merged, g)) == Reduce(FullOf(expanded, g))
    ensures ReducedLists(FullOf(merged, g)) == ReducedLists(FullOf(expanded, g))
  {
    ReducedIsReference(merged, decodes, prefills, blockSizes, true, g);
    ReducedIsReference(expanded, decodes, prefills, blockSizes, false, g);
  }

  lemma {:induction false} PickCount(r: seq<Pick>, run: Run, g: nat, blockSize: nat, base: nat, n: nat)
    requires InGroup(run, g, blockSize) && n <= run.count
    ensures |DecodePicks(r, run, g, blockSize, base, n)| == |r| + n
  {
    if n > 0 {
      PickCount(r, run, g, blockSize, base, n - 1);
    }
  }

  lemma {:induction false} DecodeReferenceShape(decodes: seq<Decode>, g: nat, blockSize: nat)
    requires DecodesIn(decodes, g, blockSize)
    ensures DecodeReference(decodes, g, blockSize).Ok? <==>
            forall i | 0 <= i < |decodes| :: DecodeRun(decodes[i]).count > 0
    ensures DecodeReference(decodes, g, blockSize).Ok? ==>
            |DecodeReference(decodes, g, blockSize).value| == DecodeTokens(decodes)
  {
    if |decodes| > 0 {
      var before, run := decodes[..|decodes| - 1], DecodeRun(decodes[|decodes| - 1]);
      DecodeReferenceShape(before, g, blockSize);
      if DecodeReference(before, g, blockSize).Ok? {
        PickCount(DecodeReference(before, g, blockSize).value, run, g, blockSize, DecodeTokens(before), run.count);
      }
    }
  }

  /**
   The reduction succeeds if and only if every request has a token, and it then keeps
   every decode row and one row for each prefill.
   */
  lemma {:induction false} ReferenceShape(decodes: seq<Decode>, prefills: seq<Prefill>, g: nat, blockSize: nat)
    requires DecodesIn(decodes, g, blockSize) && PrefillsIn(prefills, g, blockSize)
    ensures Reference(decodes, prefills, g, blockSize).Ok? <==>
              (forall i | 0 <= i < |decodes| :: DecodeRun(decodes[i]).count > 0) &&
              (forall i | 0 <= i < |prefills| :: prefills[i].numTokens > 0)
    ensures Reference(decodes, prefills, g, blockSize).Ok? ==>
              |Reference(decodes, prefills, g, blockSize).value| == DecodeTokens(decodes) + |prefills|
    decreases |prefills|
  {
    if |prefills| == 0 {
      DecodeReferenceShape(decodes, g, blockSize);
    } else {
      ReferenceShape(decodes, prefills[..|prefills| - 1], g, blockSize);
    }
  }
}
