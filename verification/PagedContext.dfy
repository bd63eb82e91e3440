/** Packing decode, verification and prefill requests into one flat batch, for every KV group. */
module PagedContext {
  import opened BlockTables

  /** A decode request, with one token by default; more are a speculative-verification window. */
  datatype Decode =
    | Single(tables: seq<Table>, seqLen: nat)
    | Window(tables: seq<Table>, seqLen: nat, numTokens: nat)

  datatype Prefill = Prefill(tables: seq<Table>, numTokens: nat, startPos: nat)

  /** Consecutive positions of one request; also one attention segment. */
  datatype Run = Run(tables: seq<Table>, start: nat, count: nat)

  datatype Group = Group(slots: seq<nat>, tables: seq<Table>, blockSize: nat)

  datatype Context = Context(
    slotMapping: seq<nat>, blockTables: seq<Table>, contextLens: seq<nat>, offsets: seq<nat>, cuSeqlens: seq<nat>,
    numDecodeRequests: nat, numDecodeTokens: nat, maxDecodeContextLen: nat, verifyWindowQ: nat, groups: seq<Group>)

  function DecodeRun(d: Decode): Run {
    match d
    case Single(tables, seqLen) => Run(tables, seqLen, 1)
    case Window(tables, seqLen, numTokens) => Run(tables, seqLen, numTokens)
  }

  function PrefillRun(p: Prefill): Run {
    Run(p.tables, p.startPos, p.numTokens)
  }

  /** The scheduler's guarantee: in every group the request's blocks reach its last position. */
  ghost predicate Covered(run: Run, blockSizes: seq<nat>) {
    forall g | 0 <= g < |blockSizes| ::
      blockSizes[g] > 0 && g < |run.tables| && Covers(run.tables[g], blockSizes[g], run.start + run.count)
  }

  ghost predicate Scheduled(decodes: seq<Decode>, prefills: seq<Prefill>, blockSizes: seq<nat>) {
    && |blockSizes| > 0
    && (forall i | 0 <= i < |decodes| :: Covered(DecodeRun(decodes[i]), blockSizes))
    && (forall i | 0 <= i < |prefills| :: Covered(PrefillRun(prefills[i]), blockSizes))
  }

  // ---- Segments ----

  /** The first `n` rows of a run as segments of their own, after `segs`. */
  function AddRows(segs: seq<Run>, run: Run, n: nat): (r: seq<Run>)
    ensures |r| == |segs| + n
  {
    if n == 0 then segs else AddRows(segs, run, n - 1) + [Run(run.tables, run.start + n - 1, 1)]
  }

  function AddRun(segs: seq<Run>, run: Run, split: bool): seq<Run> {
    if split then AddRows(segs, run, run.count) else segs + [run]
  }

  /** The expanded layout makes one segment per window row; the merged layout keeps the window whole. */
  predicate IsSplit(run: Run, merge: bool) {
    run.count > 1 && !merge
  }

  function DecodeSegments(decodes: seq<Decode>, merge: bool): seq<Run> {
    if |decodes| == 0 then []
    else
      var run := DecodeRun(decodes[|decodes| - 1]);
      AddRun(DecodeSegments(decodes[..|decodes| - 1], merge), run, IsSplit(run, merge))
  }

  /** Prefill requests are one segment each, after the decode segments. */
  function Segments(decodes: seq<Decode>, prefills: seq<Prefill>, merge: bool): seq<Run> {
    if |prefills| == 0 then DecodeSegments(decodes, merge)
    else Segments(decodes, prefills[..|prefills| - 1], merge) + [PrefillRun(prefills[|prefills| - 1])]
  }

  // ---- The metadata of a list of segments ----

  function Total(segs: seq<Run>): nat {
    if |segs| == 0 then 0 else Total(segs[..|segs| - 1]) + segs[|segs| - 1].count
  }

  /** Cumulative segment lengths from zero, context lengths and position offsets. */
  datatype Marks = Marks(cu: seq<nat>, contextLens: seq<nat>, offsets: seq<nat>)

  function AddMark(m: Marks, run: Run): Marks
    requires |m.cu| > 0
  {
    Marks(m.cu + [m.cu[|m.cu| - 1] + run.count], m.contextLens + [run.start + run.count], m.offsets + [run.start])
  }

  function MarksOf(segs: seq<Run>): (m: Marks)
    ensures |m.cu| == |segs| + 1 && |m.contextLens| == |m.offsets| == |segs|
  {
    if |segs| == 0 then Marks([0], [], []) else AddMark(MarksOf(segs[..|segs| - 1]), segs[|segs| - 1])
  }

  ghost predicate InGroup(run: Run, g: nat, blockSize: nat) {
    blockSize > 0 && g < |run.tables| && Covers(run.tables[g], blockSize, run.start + run.count)
  }

  ghost predicate AllIn(segs: seq<Run>, g: nat, blockSize: nat) {
    |segs| == 0 || (AllIn(segs[..|segs| - 1], g, blockSize) && InGroup(segs[|segs| - 1], g, blockSize))
  }

  ghost function SegmentTables(segs: seq<Run>, g: nat, blockSize: nat): seq<Table>
    requires AllIn(segs, g, blockSize)
  {
    if |segs| == 0 then []
    else SegmentTables(segs[..|segs| - 1], g, blockSize) + [segs[|segs| - 1].tables[g]]
  }

  /** The slots of `count` positions from `start` on, after `slots`. */
  ghost function AddSlots(slots: seq<nat>, table: Table, blockSize: nat, start: nat, count: nat): (r: seq<nat>)
    requires blockSize > 0 && Covers(table, blockSize, start + count)
    ensures |r| == |slots| + count
  {
    if count == 0 then slots
    else AddSlots(slots, table, blockSize, start, count - 1) + [Slot(table, blockSize, start + count - 1)]
  }

  ghost function Slots(segs: seq<Run>, g: nat, blockSize: nat): seq<nat>
    requires AllIn(segs, g, blockSize)
  {
    if |segs| == 0 then []
    else
      var last := segs[|segs| - 1];
      AddSlots(Slots(segs[..|segs| - 1], g, blockSize), last.tables[g], blockSize, last.start, last.count)
  }

  // ---- Counters ----

  function Max(a: nat, b: nat): nat {
    if a < b then b else a
  }

  function DecodeTokens(decodes: seq<Decode>): nat {
    if |decodes| == 0 then 0 else DecodeTokens(decodes[..|decodes| - 1]) + DecodeRun(decodes[|decodes| - 1]).count
  }

  function MaxDecodeContext(decodes: seq<Decode>): nat {
    if |decodes| == 0 then 0
    else
      var run := DecodeRun(decodes[|decodes| - 1]);
      Max(MaxDecodeContext(decodes[..|decodes| - 1]), run.start + run.count)
  }

  function MaxWindow(decodes: seq<Decode>, merge: bool): nat {
    if |decodes| == 0 then 1
    else
      var run := DecodeRun(decodes[|decodes| - 1]);
      var before := MaxWindow(decodes[..|decodes| - 1], merge);
      if IsSplit(run, merge) then before else Max(before, run.count)
  }

  // ---- The loops ----

  /** The slots of one request in one group, appended row by row. */
  method AppendSlots(slots: seq<nat>, table: Table, blockSize: nat, start: nat, count: nat) returns (r: seq<nat>)
    requires blockSize > 0 && Covers(table, blockSize, start + count)
    ensures r == AddSlots(slots, table, blockSize, start, count)
  {
    r := slots;
    for pos := start to start + count
      invariant r == AddSlots(slots, table, blockSize, start, pos - start)
    {
      SlotIs(table, blockSize, pos);
      var block := table[pos / blockSize];
      r := r + [block * blockSize + pos % blockSize];
    }
  }

  function AddCopies(tables: seq<Table>, table: Table, n: nat): seq<Table> {
    if n == 0 then tables else AddCopies(tables, table, n - 1) + [table]
  }

  method AppendTables(tables: seq<Table>, table: Table, copies: nat) returns (r: seq<Table>)
    ensures r == AddCopies(tables, table, copies)
  {
    r := tables;
    for i := 0 to copies
      invariant r == AddCopies(tables, table, i)
    {
      r := r + [table];
    }
  }

  /** One request: its slots and, for each of its segments, its table, in every group. */
  method AppendRequest(groupSlots: seq<seq<nat>>, groupTables: seq<seq<Table>>, run: Run, split: bool,
                       blockSizes: seq<nat>, ghost segs: seq<Run>)
    returns (slots: seq<seq<nat>>, tables: seq<seq<Table>>)
    requires Covered(run, blockSizes) && Lists(segs, blockSizes, groupSlots, groupTables)
    ensures Lists(AddRun(segs, run, split), blockSizes, slots, tables)
  {
    slots, tables := groupSlots, groupTables;
    ghost var after := AddRun(segs, run, split);
    for g := 0 to |blockSizes|
      invariant ListsTo(after, blockSizes, groupSlots, groupTables, slots, tables, g)
    {
      var more := AppendSlots(slots[g], run.tables[g], blockSizes[g], run.start, run.count);
      var copied := AppendTables(tables[g], run.tables[g], if split then run.count else 1);
      if split {
        AddedRows(segs, run, run.count, g, blockSizes[g], slots[g], tables[g]);
      } else {
        AddedLast(segs, run, g, blockSizes[g], slots[g], tables[g]);
        assert AddCopies(tables[g], run.tables[g], 0) == tables[g];
      }
      slots, tables := slots[g := more], tables[g := copied];
    }
  }

  /** What every group's lists hold after a list of segments. */
  ghost predicate Lists(segs: seq<Run>, blockSizes: seq<nat>, groupSlots: seq<seq<nat>>, groupTables: seq<seq<Table>>) {
    && |groupSlots| == |groupTables| == |blockSizes|
    && forall g | 0 <= g < |blockSizes| :: GroupLists(segs, g, blockSizes[g], groupSlots[g], groupTables[g])
  }

  ghost predicate GroupLists(segs: seq<Run>, g: nat, blockSize: nat, slots: seq<nat>, tables: seq<Table>) {
    AllIn(segs, g, blockSize) && slots == Slots(segs, g, blockSize) && tables == SegmentTables(segs, g, blockSize)
  }

  /** The first `n` groups have the segments `after`, the others are as before. */
  ghost predicate ListsTo(after: seq<Run>, blockSizes: seq<nat>, before: seq<seq<nat>>, tablesBefore: seq<seq<Table>>,
                          slots: seq<seq<nat>>, tables: seq<seq<Table>>, n: nat) {
    && |slots| == |tables| == |blockSizes| == |before| == |tablesBefore|
    && (forall g | 0 <= g < |blockSizes| :: g < n ==> GroupLists(after, g, blockSizes[g], slots[g], tables[g]))
    && (forall g | 0 <= g < |blockSizes| :: g >= n ==> slots[g] == before[g] && tables[g] == tablesBefore[g])
  }

  lemma AddedLast(segs: seq<Run>, last: Run, g: nat, blockSize: nat, slots: seq<nat>, tables: seq<Table>)
    requires GroupLists(segs, g, blockSize, slots, tables) && InGroup(last, g, blockSize)
    ensures GroupLists(segs + [last], g, blockSize,
                       AddSlots(slots, last.tables[g], blockSize, last.start, last.count), tables + [last.tables[g]])
  {
    assert (segs + [last])[..|segs|] == segs;
  }

  /** A request writes the same slots when it is cut into rows. */
  lemma {:induction false} AddedRows(segs: seq<Run>, run: Run, n: nat, g: nat, blockSize: nat,
                                     slots: seq<nat>, tables: seq<Table>)
    requires GroupLists(segs, g, blockSize, slots, tables) && InGroup(run, g, blockSize) && n <= run.count
    ensures GroupLists(AddRows(segs, run, n), g, blockSize,
                       AddSlots(slots, run.tables[g], blockSize, run.start, n), AddCopies(tables, run.tables[g], n))
  {
    if n > 0 {
      var table := run.tables[g];
      var written, copied := AddSlots(slots, table, blockSize, run.start, n - 1), AddCopies(tables, table, n - 1);
      AddedRows(segs, run, n - 1, g, blockSize, slots, tables);
      AddedNext(segs, run, n, g, blockSize, written, copied);
    }
  }

  lemma AddedNext(segs: seq<Run>, run: Run, n: nat, g: nat, blockSize: nat, slots: seq<nat>, tables: seq<Table>)
    requires 0 < n <= run.count && InGroup(run, g, blockSize)
    requires GroupLists(AddRows(segs, run, n - 1), g, blockSize, slots, tables)
    ensures GroupLists(AddRows(segs, run, n), g, blockSize,
                       slots + [Slot(run.tables[g], blockSize, run.start + n - 1)], tables + [run.tables[g]])
  {
    RowInGroup(run, n - 1, g, blockSize);
    AddedRow(AddRows(segs, run, n - 1), Run(run.tables, run.start + n - 1, 1), g, blockSize, slots, tables);
  }

  lemma RowInGroup(run: Run, r: nat, g: nat, blockSize: nat)
    requires InGroup(run, g, blockSize) && r < run.count
    ensures InGroup(Run(run.tables, run.start + r, 1), g, blockSize)
  {
  }

  lemma AddedRow(segs: seq<Run>, row: Run, g: nat, blockSize: nat, slots: seq<nat>, tables: seq<Table>)
    requires GroupLists(segs, g, blockSize, slots, tables) && InGroup(row, g, blockSize) && row.count == 1
    ensures GroupLists(segs + [row], g, blockSize, slots + [Slot(row.tables[g], blockSize, row.start)],
                       tables + [row.tables[g]])
  {
    AddedLast(segs, row, g, blockSize, slots, tables);
    assert AddSlots(slots, row.tables[g], blockSize, row.start, 0) == slots;
  }

  // ---- The whole batch ----

  lemma MarkLast(segs: seq<Run>, last: Run)
    ensures MarksOf(segs + [last]) == AddMark(MarksOf(segs), last)
  {
    assert (segs + [last])[..|segs|] == segs;
  }

  function AddRowMarks(m: Marks, run: Run, n: nat): (r: Marks)
    requires |m.cu| > 0
    ensures |r.cu| > 0
  {
    if n == 0 then m else AddMark(AddRowMarks(m, run, n - 1), Run(run.tables, run.start + n - 1, 1))
  }

  lemma {:induction false} RowMarks(segs: seq<Run>, run: Run, n: nat)
    ensures MarksOf(AddRows(segs, run, n)) == AddRowMarks(MarksOf(segs), run, n)
  {
    if n > 0 {
      RowMarks(segs, run, n - 1);
      MarkLast(AddRows(segs, run, n - 1), Run(run.tables, run.start + n - 1, 1));
    }
  }

  /** One single-token segment per window row. */
  method AppendRows(cu: seq<nat>, contextLens: seq<nat>, offsets: seq<nat>, run: Run)
    returns (c: seq<nat>, l: seq<nat>, o: seq<nat>)
    requires |cu| > 0
    ensures Marks(c, l, o) == AddRowMarks(Marks(cu, contextLens, offsets), run, run.count)
  {
    c, l, o := cu, contextLens, offsets;
    for pos := run.start to run.start + run.count
      invariant Marks(c, l, o) == AddRowMarks(Marks(cu, contextLens, offsets), run, pos - run.start)
      invariant |c| > 0
    {
      c, l, o := c + [c[|c| - 1] + 1], l + [pos + 1], o + [pos];
    }
  }

  ghost function GroupOf(segs: seq<Run>, g: nat, blockSize: nat): Group
    requires AllIn(segs, g, blockSize)
  {
    Group(Slots(segs, g, blockSize), SegmentTables(segs, g, blockSize), blockSize)
  }

  ghost predicate GroupsAre(segs: seq<Run>, blockSizes: seq<nat>, groups: seq<Group>) {
    && |groups| == |blockSizes|
    && forall g | 0 <= g < |blockSizes| :: AllIn(segs, g, blockSizes[g]) && groups[g] == GroupOf(segs, g, blockSizes[g])
  }

  /** The metadata of a list of segments, in every group. */
  ghost predicate LaidOut(c: Context, segs: seq<Run>, blockSizes: seq<nat>) {
    && Marks(c.cuSeqlens, c.contextLens, c.offsets) == MarksOf(segs)
    && GroupsAre(segs, blockSizes, c.groups)
    && (|c.groups| > 0 ==> c.slotMapping == c.groups[0].slots && c.blockTables == c.groups[0].tables)
  }

  ghost predicate CountersAre(c: Context, decodes: seq<Decode>, prefills: seq<Prefill>, merge: bool) {
    && c.numDecodeRequests == |decodes|
    && c.numDecodeTokens == DecodeTokens(decodes)
    && c.maxDecodeContextLen == MaxDecodeContext(decodes)
    && c.verifyWindowQ == if |prefills| > 0 then 1 else MaxWindow(decodes, merge)
  }

  method MakeGroups(slots: seq<seq<nat>>, tables: seq<seq<Table>>, blockSizes: seq<nat>, ghost segs: seq<Run>)
    returns (groups: seq<Group>)
    requires Lists(segs, blockSizes, slots, tables)
    ensures GroupsAre(segs, blockSizes, groups)
  {
    groups := [];
    for g := 0 to |blockSizes|
      invariant |groups| == g
      invariant forall h | 0 <= h < g :: groups[h] == GroupOf(segs, h, blockSizes[h])
    {
      groups := groups + [Group(slots[g], tables[g], blockSizes[g])];
    }
  }

  /** Everything that the loops accumulate for the segments so far. */
  ghost predicate Gathered(segs: seq<Run>, blockSizes: seq<nat>, slots: seq<seq<nat>>, tables: seq<seq<Table>>,
                           cu: seq<nat>, contextLens: seq<nat>, offsets: seq<nat>) {
    Lists(segs, blockSizes, slots, tables) && Marks(cu, contextLens, offsets) == MarksOf(segs)
  }

  /** One request, as one segment or as one per row. */
  method PackRequest(slots: seq<seq<nat>>, tables: seq<seq<Table>>, cu: seq<nat>, contextLens: seq<nat>,
                     offsets: seq<nat>,
                     run: Run, split: bool, blockSizes: seq<nat>, ghost segs: seq<Run>)
    returns (s: seq<seq<nat>>, t: seq<seq<Table>>, c: seq<nat>, l: seq<nat>, o: seq<nat>)
    requires Covered(run, blockSizes) && Gathered(segs, blockSizes, slots, tables, cu, contextLens, offsets)
    ensures Gathered(AddRun(segs, run, split), blockSizes, s, t, c, l, o)
  {
    s, t := AppendRequest(slots, tables, run, split, blockSizes, segs);
    if split {
      RowMarks(segs, run, run.count);
      c, l, o := AppendRows(cu, contextLens, offsets, run);
    } else {
      MarkLast(segs, run);
      c, l, o := cu + [cu[|cu| - 1] + run.count], contextLens + [run.start + run.count], offsets + [run.start];
    }
  }

  ghost predicate Counted(decodes: seq<Decode>, merge: bool, tokens: nat, maxContext: nat, maxWindow: nat) {
    tokens == DecodeTokens(decodes) && maxContext == MaxDecodeContext(decodes) && maxWindow == MaxWindow(decodes, merge)
  }

  lemma NextDecode(decodes: seq<Decode>, i: nat, merge: bool)
    requires i < |decodes|
    ensures var run, segs := DecodeRun(decodes[i]), DecodeSegments(decodes[..i], merge);
            DecodeSegments(decodes[..i + 1], merge) == AddRun(segs, run, IsSplit(run, merge))
  {
    assert decodes[..i + 1][..i] == decodes[..i];
  }

  lemma NextCounted(decodes: seq<Decode>, i: nat, merge: bool, tokens: nat, maxContext: nat, maxWindow: nat)
    requires i < |decodes| && Counted(decodes[..i], merge, tokens, maxContext, maxWindow)
    ensures var run := DecodeRun(decodes[i]);
            Counted(decodes[..i + 1], merge, tokens + run.count, Max(maxContext, run.start + run.count),
                    if IsSplit(run, merge) then maxWindow else Max(maxWindow, run.count))
  {
    assert decodes[..i + 1][..i] == decodes[..i];
  }

  method PackDecodes(decodes: seq<Decode>, blockSizes: seq<nat>, merge: bool)
    returns (slots: seq<seq<nat>>, tables: seq<seq<Table>>, cu: seq<nat>, contextLens: seq<nat>, offsets: seq<nat>,
             decodeTokens: nat, maxContext: nat, maxWindow: nat)
    requires Scheduled(decodes, [], blockSizes)
    ensures Gathered(DecodeSegments(decodes, merge), blockSizes, slots, tables, cu, contextLens, offsets)
    ensures Counted(decodes, merge, decodeTokens, maxContext, maxWindow)
  {
    slots, tables := seq(|blockSizes|, _ => []), seq(|blockSizes|, _ => []);
    cu, contextLens, offsets := [0], [], [];
    maxWindow, decodeTokens, maxContext := 1, 0, 0;
    for i := 0 to |decodes|
      invariant Gathered(DecodeSegments(decodes[..i], merge), blockSizes, slots, tables, cu, contextLens, offsets)
      invariant Counted(decodes[..i], merge, decodeTokens, maxContext, maxWindow)
    {
      var run := DecodeRun(decodes[i]);
      NextDecode(decodes, i, merge);
      NextCounted(decodes, i, merge, decodeTokens, maxContext, maxWindow);
      decodeTokens := decodeTokens + run.count;
      maxContext := Max(maxContext, run.start + run.count);
      slots, tables, cu, contextLens, offsets := PackRequest(
        slots, tables, cu, contextLens, offsets, run, run.count > 1 && !merge, blockSizes,
        DecodeSegments(decodes[..i], merge));
      if run.count > 1 && !merge {
        continue;
      }
      maxWindow := Max(maxWindow, run.count);
    }
    assert decodes[..|decodes|] == decodes;
  }

  method PrepareGrouped(decodes: seq<Decode>, prefills: seq<Prefill>, blockSizes: seq<nat>, merge: bool)
    returns (c: Context)
    requires Scheduled(decodes, prefills, blockSizes)
    ensures LaidOut(c, Segments(decodes, prefills, merge), blockSizes) && CountersAre(c, decodes, prefills, merge)
  {
    var slots: seq<seq<nat>>, tables: seq<seq<Table>>, cu: seq<nat>, contextLens: seq<nat>, offsets: seq<nat>,
        decodeTokens: nat, maxContext: nat, maxWindow: nat := PackDecodes(decodes, blockSizes, merge);
    for i := 0 to |prefills|
      invariant Gathered(Segments(decodes, prefills[..i], merge), blockSizes, slots, tables, cu, contextLens, offsets)
    {
      assert prefills[..i + 1][..i] == prefills[..i];
      slots, tables, cu, contextLens, offsets := PackRequest(
        slots, tables, cu, contextLens, offsets, PrefillRun(prefills[i]), false, blockSizes,
        Segments(decodes, prefills[..i], merge));
    }
    assert prefills[..|prefills|] == prefills;
    var groups := MakeGroups(slots, tables, blockSizes, Segments(decodes, prefills, merge));
    c := Context(groups[0].slots, groups[0].tables, contextLens, offsets, cu, |decodes|, decodeTokens, maxContext,
                 if |prefills| > 0 then 1 else maxWindow, groups);
  }

  // ---- One group ----

  /** The single-group interface: each request has one block table. */
  datatype OneDecode = OneSingle(table: Table, seqLen: nat) | OneWindow(table: Table, seqLen: nat, numTokens: nat)

  datatype OnePrefill = OnePrefill(table: Table, numTokens: nat, startPos: nat)

  function Grouped(d: OneDecode): (r: Decode)
    ensures d.OneSingle? ==> r == Single([d.table], d.seqLen)
    ensures d.OneWindow? ==> r == Window([d.table], d.seqLen, d.numTokens)
  {
    match d
    case OneSingle(table, seqLen) => Single([table], seqLen)
    case OneWindow(table, seqLen, numTokens) => Window([table], seqLen, numTokens)
  }

  function AllGrouped(ds: seq<OneDecode>): (r: seq<Decode>)
    ensures |r| == |ds| && forall i | 0 <= i < |ds| :: r[i] == Grouped(ds[i])
  {
    seq(|ds|, i requires 0 <= i < |ds| => Grouped(ds[i]))
  }

  function AllPrefillsGrouped(ps: seq<OnePrefill>): (r: seq<Prefill>)
    ensures |r| == |ps| && forall i | 0 <= i < |ps| :: r[i] == Prefill([ps[i].table], ps[i].numTokens, ps[i].startPos)
  {
    seq(|ps|, i requires 0 <= i < |ps| => Prefill([ps[i].table], ps[i].numTokens, ps[i].startPos))
  }

  method PrepareUnified(decodes: seq<OneDecode>, prefills: seq<OnePrefill>, blockSize: nat,
                        merge: bool) returns (c: Context)
    requires Scheduled(AllGrouped(decodes), AllPrefillsGrouped(prefills), [blockSize])
    ensures LaidOut(c, Segments(AllGrouped(decodes), AllPrefillsGrouped(prefills), merge), [blockSize])
    ensures CountersAre(c, AllGrouped(decodes), AllPrefillsGrouped(prefills), merge)
    ensures |c.groups| == 1 && c.slotMapping == c.groups[0].slots && c.blockTables == c.groups[0].tables
  {
    var grouped: seq<Decode> := [];
    for i := 0 to |decodes|
      invariant grouped == AllGrouped(decodes)[..i]
    {
      grouped := grouped + [Grouped(decodes[i])];
    }
    assert grouped == AllGrouped(decodes);
    c := PrepareGrouped(grouped, AllPrefillsGrouped(prefills), [blockSize], merge);
  }
}
