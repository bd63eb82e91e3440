/** What the packed metadata means: rows, slots, lengths, the decode prefix, and the two layouts. */
module PackedLayout {
  import opened Arith
  import opened BlockTables
  import opened PagedContext

  // ---- Segments and rows ----

  lemma {:induction false} MarksAt(segs: seq<Run>, i: nat)
    requires i < |segs|
    ensures var m := MarksOf(segs);
            && m.cu[0] == 0 && m.cu[i + 1] == m.cu[i] + segs[i].count
            && m.offsets[i] == segs[i].start && m.contextLens[i] == segs[i].start + segs[i].count
  {
    var n := |segs| - 1;
    if i < n {
      MarksAt(segs[..n], i);
    } else if n > 0 {
      MarksAt(segs[..n], n - 1);
    }
  }

  lemma {:induction false} CuMonotone(segs: seq<Run>, i: nat, j: nat)
    requires i <= j <= |segs|
    ensures MarksOf(segs).cu[i] <= MarksOf(segs).cu[j]
  {
    if i < j {
      CuMonotone(segs, i, j - 1);
      MarksAt(segs, j - 1);
    }
  }

  /** The marks of a prefix of the segments are a prefix of the marks. */
  lemma {:induction false} MarksPrefix(segs: seq<Run>, n: nat, i: nat)
    requires i <= n <= |segs|
    ensures MarksOf(segs[..n]).cu[i] == MarksOf(segs).cu[i]
  {
    if n < |segs| {
      assert segs[..|segs| - 1][..n] == segs[..n];
      MarksPrefix(segs[..|segs| - 1], n, i);
    } else {
      assert segs[..n] == segs;
    }
  }

  lemma {:induction false} SlotCount(segs: seq<Run>, g: nat, blockSize: nat)
    requires AllIn(segs, g, blockSize)
    ensures |Slots(segs, g, blockSize)| == MarksOf(segs).cu[|segs|]
  {
    if |segs| > 0 {
      SlotCount(segs[..|segs| - 1], g, blockSize);
    }
  }

  lemma {:induction false} AddSlotsAt(slots: seq<nat>, table: Table, blockSize: nat, start: nat, count: nat, k: nat)
    requires blockSize > 0 && Covers(table, blockSize, start + count) && k < |slots| + count
    ensures AddSlots(slots, table, blockSize, start, count)[k] ==
              if k < |slots| then slots[k] else Slot(table, blockSize, start + (k - |slots|))
  {
    if count > 0 && k < |slots| + count - 1 {
      AddSlotsAt(slots, table, blockSize, start, count - 1, k);
    }
  }

  /** Row `r` of segment `i` is written through its own table, at its own position. */
  lemma {:induction false} RowSlot(segs: seq<Run>, g: nat, blockSize: nat, i: nat, r: nat)
    requires AllIn(segs, g, blockSize) && i < |segs| && r < segs[i].count
    ensures InGroup(segs[i], g, blockSize) && MarksOf(segs).cu[i] + r < |Slots(segs, g, blockSize)|
    ensures Slots(segs, g, blockSize)[MarksOf(segs).cu[i] + r] == Slot(segs[i].tables[g], blockSize, segs[i].start + r)
  {
    var front, last := segs[..|segs| - 1], segs[|segs| - 1];
    var before := Slots(front, g, blockSize);
    SlotCount(front, g, blockSize);
    if i < |segs| - 1 {
      RowSlot(front, g, blockSize, i, r);
      AddSlotsAt(before, last.tables[g], blockSize, last.start, last.count, MarksOf(segs).cu[i] + r);
    } else {
      AddSlotsAt(before, last.tables[g], blockSize, last.start, last.count, |before| + r);
    }
  }

  /** Every packed row belongs to a segment. */
  lemma {:induction false} RowOf(segs: seq<Run>, k: nat) returns (i: nat, r: nat)
    requires k < MarksOf(segs).cu[|segs|]
    ensures i < |segs| && r < segs[i].count && k == MarksOf(segs).cu[i] + r
  {
    var n := |segs| - 1;
    if k < MarksOf(segs[..n]).cu[n] {
      i, r := RowOf(segs[..n], k);
    } else {
      i, r := n, k - MarksOf(segs[..n]).cu[n];
    }
  }

  lemma {:induction false} TablesAt(segs: seq<Run>, g: nat, blockSize: nat, i: nat)
    requires AllIn(segs, g, blockSize) && i < |segs|
    ensures InGroup(segs[i], g, blockSize) && |SegmentTables(segs, g, blockSize)| == |segs|
    ensures SegmentTables(segs, g, blockSize)[i] == segs[i].tables[g]
  {
    var n := |segs| - 1;
    if n > 0 {
      TablesAt(segs[..n], g, blockSize, if i < n then i else 0);
    }
  }

  // ---- The packed context ----

  ghost predicate Positive(segs: seq<Run>) {
    forall i | 0 <= i < |segs| :: segs[i].count > 0
  }

  /**
   The metadata of a packed batch: one context length, offset and table per segment, and
   cumulative lengths that start at zero and end at every group's slot count.
   */
  lemma PackedSegment(c: Context, segs: seq<Run>, blockSizes: seq<nat>, g: nat, i: nat)
    requires LaidOut(c, segs, blockSizes) && g < |blockSizes| && i < |segs|
    ensures |c.cuSeqlens| == |segs| + 1 && |c.contextLens| == |c.offsets| == |c.groups[g].tables| == |segs|
    ensures c.cuSeqlens[0] == 0 && c.cuSeqlens[|segs|] == |c.groups[g].slots|
    ensures c.cuSeqlens[i + 1] == c.cuSeqlens[i] + segs[i].count
    ensures c.offsets[i] == segs[i].start && c.contextLens[i] == c.offsets[i] + (c.cuSeqlens[i + 1] - c.cuSeqlens[i])
    ensures InGroup(segs[i], g, blockSizes[g]) && c.groups[g].tables[i] == segs[i].tables[g]
    ensures |c.groups| == |blockSizes| && c.groups[g].blockSize == blockSizes[g]
    ensures c.slotMapping == c.groups[0].slots && c.blockTables == c.groups[0].tables
  {
    MarksAt(segs, i);
    SlotCount(segs, g, blockSizes[g]);
    TablesAt(segs, g, blockSizes[g], i);
  }

  /** Each row's slot is its position's, through the table of its own segment. */
  lemma PackedRow(c: Context, segs: seq<Run>, blockSizes: seq<nat>, g: nat, i: nat, r: nat)
    requires LaidOut(c, segs, blockSizes) && g < |blockSizes| && i < |segs| && r < segs[i].count
    ensures i < |c.cuSeqlens| && i < |c.offsets| && c.cuSeqlens[i] + r < |c.groups[g].slots| && i < |c.groups[g].tables|
    ensures blockSizes[g] > 0 && BlockIndex(blockSizes[g], c.offsets[i] + r) < |c.groups[g].tables[i]|
    ensures c.groups[g].slots[c.cuSeqlens[i] + r] == Slot(c.groups[g].tables[i], blockSizes[g], c.offsets[i] + r)
  {
    PackedSegment(c, segs, blockSizes, g, i);
    RowSlot(segs, g, blockSizes[g], i, r);
  }

  /** With positive token counts the cumulative lengths strictly increase. */
  lemma CuIncreases(c: Context, segs: seq<Run>, blockSizes: seq<nat>, i: nat, j: nat)
    requires LaidOut(c, segs, blockSizes) && Positive(segs) && i < j <= |segs|
    ensures j < |c.cuSeqlens| && c.cuSeqlens[i] < c.cuSeqlens[j]
  {
    MarksAt(segs, j - 1);
    CuMonotone(segs, i, j - 1);
  }

  // ---- The decode prefix ----

  lemma {:induction false} DecodesFirst(decodes: seq<Decode>, prefills: seq<Prefill>, merge: bool)
    ensures DecodeSegments(decodes, merge) <= Segments(decodes, prefills, merge)
  {
    if |prefills| > 0 {
      DecodesFirst(decodes, prefills[..|prefills| - 1], merge);
    }
  }

  lemma {:induction false} RowsTotal(m: Marks, run: Run, n: nat)
    requires |m.cu| > 0
    ensures var r := AddRowMarks(m, run, n);
            |r.cu| == |m.cu| + n && r.cu[|r.cu| - 1] == m.cu[|m.cu| - 1] + n
  {
    if n > 0 {
      RowsTotal(m, run, n - 1);
    }
  }

  function End(m: Marks): nat
    requires |m.cu| > 0
  {
    m.cu[|m.cu| - 1]
  }

  lemma RunTotal(segs: seq<Run>, run: Run, split: bool)
    ensures End(MarksOf(AddRun(segs, run, split))) == End(MarksOf(segs)) + run.count
  {
    if split {
      RowMarks(segs, run, run.count);
      RowsTotal(MarksOf(segs), run, run.count);
    } else {
      MarkLast(segs, run);
    }
  }

  lemma {:induction false} DecodeRows(decodes: seq<Decode>, merge: bool)
    ensures End(MarksOf(DecodeSegments(decodes, merge))) == DecodeTokens(decodes)
  {
    if |decodes| > 0 {
      var n := |decodes| - 1;
      var run := DecodeRun(decodes[n]);
      DecodeRows(decodes[..n], merge);
      RunTotal(DecodeSegments(decodes[..n], merge), run, IsSplit(run, merge));
    }
  }

  /** The decode segments are the first ones, and they hold exactly `num_decode_tokens` rows. */
  lemma DecodePrefix(c: Context, decodes: seq<Decode>, prefills: seq<Prefill>, blockSizes: seq<nat>, merge: bool)
    requires LaidOut(c, Segments(decodes, prefills, merge), blockSizes) && CountersAre(c, decodes, prefills, merge)
    ensures |DecodeSegments(decodes, merge)| < |c.cuSeqlens|
    ensures c.cuSeqlens[|DecodeSegments(decodes, merge)|] == c.numDecodeTokens
    ensures merge ==> |DecodeSegments(decodes, merge)| == c.numDecodeRequests
  {
    var segs := Segments(decodes, prefills, merge);
    var n := |DecodeSegments(decodes, merge)|;
    DecodesFirst(decodes, prefills, merge);
    DecodeRows(decodes, merge);
    MarksPrefix(segs, n, n);
    assert segs[..n] == DecodeSegments(decodes, merge);
    if merge {
      MergedCount(decodes);
    }
  }

  lemma {:induction false} MergedCount(decodes: seq<Decode>)
    ensures |DecodeSegments(decodes, true)| == |decodes|
    ensures forall i | 0 <= i < |decodes| :: DecodeSegments(decodes, true)[i] == DecodeRun(decodes[i])
  {
    if |decodes| > 0 {
      MergedCount(decodes[..|decodes| - 1]);
    }
  }

  /** The longest decode context is the largest context length of a decode request, after this step. */
  lemma {:induction false} LongestContext(decodes: seq<Decode>)
    ensures forall i | 0 <= i < |decodes| ::
        DecodeRun(decodes[i]).start + DecodeRun(decodes[i]).count <= MaxDecodeContext(decodes)
    ensures decodes != [] ==> exists i | 0 <= i < |decodes| ::
        DecodeRun(decodes[i]).start + DecodeRun(decodes[i]).count == MaxDecodeContext(decodes)
  {
    if |decodes| > 0 {
      var n := |decodes| - 1;
      LongestContext(decodes[..n]);
      var last := DecodeRun(decodes[n]);
      if last.start + last.count < MaxDecodeContext(decodes) && n > 0 {
        var i :| 0 <= i < n &&
          DecodeRun(decodes[..n][i]).start + DecodeRun(decodes[..n][i]).count == MaxDecodeContext(decodes[..n]);
        assert decodes[i] == decodes[..n][i];
      }
    }
  }

  /** The longest decode segment, or one; the expanded layout has no decode segment of more than one row. */
  lemma {:induction false} WindowIs(decodes: seq<Decode>, merge: bool)
    ensures MaxWindow(decodes, merge) >= 1
    ensures forall s | s in DecodeSegments(decodes, merge) :: s.count <= MaxWindow(decodes, merge)
    ensures MaxWindow(decodes, merge) > 1 ==>
              merge && exists s | s in DecodeSegments(decodes, merge) :: s.count == MaxWindow(decodes, merge)
  {
    if |decodes| > 0 {
      var n := |decodes| - 1;
      var segs, run := DecodeSegments(decodes[..n], merge), DecodeRun(decodes[n]);
      WindowIs(decodes[..n], merge);
      if IsSplit(run, merge) {
        RowsAreSingle(segs, run, run.count);
      } else {
        assert DecodeSegments(decodes, merge) == segs + [run];
        assert run in DecodeSegments(decodes, merge);
      }
    }
  }

  /**
   The verification-window hint of a batch: above one only for merged windows without
   prefills, where it is the longest segment.  With a prefill it is one, whatever the
   decode windows are.
   */
  lemma VerifyWindow(c: Context, decodes: seq<Decode>, prefills: seq<Prefill>, merge: bool)
    requires CountersAre(c, decodes, prefills, merge)
    ensures c.verifyWindowQ >= 1
    ensures c.verifyWindowQ > 1 ==>
              merge && prefills == [] &&
              exists s | s in Segments(decodes, prefills, merge) :: s.count == c.verifyWindowQ
    ensures prefills == [] ==> forall s | s in Segments(decodes, prefills, merge) :: s.count <= c.verifyWindowQ
    ensures prefills != [] ==> c.verifyWindowQ == 1
  {
    WindowIs(decodes, merge);
  }

  lemma {:induction false} RowsAreSingle(segs: seq<Run>, run: Run, n: nat)
    ensures forall s | s in AddRows(segs, run, n) :: s in segs || s.count == 1
    ensures forall s | s in segs :: s in AddRows(segs, run, n)
  {
    if n > 0 {
      RowsAreSingle(segs, run, n - 1);
    }
  }

  // ---- The layouts write the same slots ----

  /** Cutting windows into rows changes segments, not slots. */
  lemma {:induction false} SameDecodeSlots(decodes: seq<Decode>, g: nat, blockSize: nat)
    requires AllIn(DecodeSegments(decodes, true), g, blockSize)
    ensures AllIn(DecodeSegments(decodes, false), g, blockSize)
    ensures Slots(DecodeSegments(decodes, false), g, blockSize) == Slots(DecodeSegments(decodes, true), g, blockSize)
  {
    if |decodes| > 0 {
      var n := |decodes| - 1;
      var merged, expanded := DecodeSegments(decodes[..n], true), DecodeSegments(decodes[..n], false);
      var run := DecodeRun(decodes[n]);
      assert (merged + [run])[..|merged|] == merged;
      SameDecodeSlots(decodes[..n], g, blockSize);
      var slots := Slots(merged, g, blockSize);
      AddedLast(merged, run, g, blockSize, slots, SegmentTables(merged, g, blockSize));
      if IsSplit(run, false) {
        AddedRows(expanded, run, run.count, g, blockSize, slots, SegmentTables(expanded, g, blockSize));
      } else {
        AddedLast(expanded, run, g, blockSize, slots, SegmentTables(expanded, g, blockSize));
      }
    }
  }

  lemma {:induction false} SameSlots(decodes: seq<Decode>, prefills: seq<Prefill>, g: nat, blockSize: nat)
    requires AllIn(Segments(decodes, prefills, true), g, blockSize)
    ensures AllIn(Segments(decodes, prefills, false), g, blockSize)
    ensures Slots(Segments(decodes, prefills, false), g, blockSize) ==
            Slots(Segments(decodes, prefills, true), g, blockSize)
    decreases |prefills|
  {
    if |prefills| == 0 {
      SameDecodeSlots(decodes, g, blockSize);
    } else {
      var n := |prefills| - 1;
      var merged, expanded := Segments(decodes, prefills[..n], true), Segments(decodes, prefills[..n], false);
      var run := PrefillRun(prefills[n]);
      assert (merged + [run])[..|merged|] == merged;
      SameSlots(decodes, prefills[..n], g, blockSize);
      var slots := Slots(merged, g, blockSize);
      AddedLast(merged, run, g, blockSize, slots, SegmentTables(merged, g, blockSize));
      AddedLast(expanded, run, g, blockSize, slots, SegmentTables(expanded, g, blockSize));
    }
  }

  // ---- Distinct slots ----

  /** Two written positions share a block only if they are of one request and one table entry. */
  ghost predicate Exclusive(runs: seq<Run>, g: nat, blockSize: nat)
    requires blockSize > 0
  {
    forall i: nat, p: nat, j: nat, q: nat |
        i < |runs| && InRun(runs[i], p) && HasBlock(runs[i], g, blockSize, p) &&
        j < |runs| && InRun(runs[j], q) && HasBlock(runs[j], g, blockSize, q) &&
        BlockAt(runs[i], g, blockSize, p) == BlockAt(runs[j], g, blockSize, q) ::
      i == j && BlockIndex(blockSize, p) == BlockIndex(blockSize, q)
  }

  predicate InRun(run: Run, position: nat) {
    run.start <= position < run.start + run.count
  }

  predicate HasBlock(run: Run, g: nat, blockSize: nat, position: nat)
    requires blockSize > 0
  {
    g < |run.tables| && BlockIndex(blockSize, position) < |run.tables[g]|
  }

  function BlockAt(run: Run, g: nat, blockSize: nat, position: nat): nat
    requires blockSize > 0 && HasBlock(run, g, blockSize, position)
  {
    run.tables[g][BlockIndex(blockSize, position)]
  }

  /** Equal slots are the same place of the same block. */
  lemma SlotInjective(t: Table, u: Table, blockSize: nat, p: nat, q: nat)
    requires blockSize > 0 && BlockIndex(blockSize, p) < |t| && BlockIndex(blockSize, q) < |u|
    ensures Slot(t, blockSize, p) == Slot(u, blockSize, q) <==>
              t[BlockIndex(blockSize, p)] == u[BlockIndex(blockSize, q)] && Rem(p, blockSize) == Rem(q, blockSize)
  {
    if Slot(t, blockSize, p) == Slot(u, blockSize, q) {
      FlatInjective(t[BlockIndex(blockSize, p)], Rem(p, blockSize),
                    u[BlockIndex(blockSize, q)], Rem(q, blockSize), blockSize);
    }
  }

  lemma SamePosition(t: Table, u: Table, blockSize: nat, p: nat, q: nat)
    requires blockSize > 0 && BlockIndex(blockSize, p) < |t| && BlockIndex(blockSize, q) < |u|
    requires Slot(t, blockSize, p) == Slot(u, blockSize, q)
    ensures t[BlockIndex(blockSize, p)] == u[BlockIndex(blockSize, q)]
    ensures BlockIndex(blockSize, p) == BlockIndex(blockSize, q) ==> p == q
  {
    SlotInjective(t, u, blockSize, p, q);
    FlatQuot(p, blockSize);
    FlatQuot(q, blockSize);
  }

  lemma DistinctRows(runs: seq<Run>, g: nat, blockSize: nat, i: nat, r: nat, j: nat, s: nat)
    requires blockSize > 0 && Exclusive(runs, g, blockSize)
    requires i < |runs| && j < |runs| && r < runs[i].count && s < runs[j].count
    requires InGroup(runs[i], g, blockSize) && InGroup(runs[j], g, blockSize)
    requires Slot(runs[i].tables[g], blockSize, runs[i].start + r) ==
             Slot(runs[j].tables[g], blockSize, runs[j].start + s)
    ensures i == j && r == s
  {
    var p, q := runs[i].start + r, runs[j].start + s;
    SamePosition(runs[i].tables[g], runs[j].tables[g], blockSize, p, q);
    assert InRun(runs[i], p) && HasBlock(runs[i], g, blockSize, p);
    assert InRun(runs[j], q) && HasBlock(runs[j], g, blockSize, q);
    assert BlockAt(runs[i], g, blockSize, p) == BlockAt(runs[j], g, blockSize, q);
  }

  /** The row that a packed slot belongs to. */
  lemma SlotRow(runs: seq<Run>, g: nat, blockSize: nat, k: nat) returns (i: nat, r: nat)
    requires AllIn(runs, g, blockSize) && k < |Slots(runs, g, blockSize)|
    ensures i < |runs| && r < runs[i].count && InGroup(runs[i], g, blockSize) && k == MarksOf(runs).cu[i] + r
    ensures Slots(runs, g, blockSize)[k] == Slot(runs[i].tables[g], blockSize, runs[i].start + r)
  {
    SlotCount(runs, g, blockSize);
    i, r := RowOf(runs, k);
    RowSlot(runs, g, blockSize, i, r);
  }

  /** With exclusively owned written blocks no slot is written twice in a step. */
  lemma DistinctSlots(runs: seq<Run>, g: nat, blockSize: nat, k: nat, l: nat)
    requires blockSize > 0 && AllIn(runs, g, blockSize) && Exclusive(runs, g, blockSize)
    requires k < |Slots(runs, g, blockSize)| && l < |Slots(runs, g, blockSize)|
    ensures Slots(runs, g, blockSize)[k] == Slots(runs, g, blockSize)[l] ==> k == l
  {
    var i, r := SlotRow(runs, g, blockSize, k);
    var j, s := SlotRow(runs, g, blockSize, l);
    if Slots(runs, g, blockSize)[k] == Slots(runs, g, blockSize)[l] {
      DistinctRows(runs, g, blockSize, i, r, j, s);
    }
  }

  /** Whether windows are merged or cut into rows: ownership of the merged runs keeps all slots apart. */
  lemma DistinctInBothLayouts(decodes: seq<Decode>, prefills: seq<Prefill>, merge: bool, g: nat, blockSize: nat,
                              k: nat, l: nat)
    requires blockSize > 0 && AllIn(Segments(decodes, prefills, true), g, blockSize)
    requires Exclusive(Segments(decodes, prefills, true), g, blockSize)
    ensures AllIn(Segments(decodes, prefills, merge), g, blockSize)
    ensures var slots := Slots(Segments(decodes, prefills, merge), g, blockSize);
            k < |slots| && l < |slots| && slots[k] == slots[l] ==> k == l
  {
    SameSlots(decodes, prefills, g, blockSize);
    var slots := Slots(Segments(decodes, prefills, true), g, blockSize);
    if k < |slots| && l < |slots| {
      DistinctSlots(Segments(decodes, prefills, true), g, blockSize, k, l);
    }
  }
}
