/** The six lists of the reduced batch in terms of the packed metadata, and exactly when each check fails. */
module YocoLists {
  import opened BlockTables
  import opened Wrappers
  import opened Yoco

  /** Segment `i` is positive and lies inside the slots. */
  ghost predicate Grown(full: Full, i: nat) {
    i + 1 < |full.cu| && full.cu[i] < full.cu[i + 1] <= |full.slots|
  }

  ghost predicate Grows(full: Full, n: nat) {
    forall i: nat | i < n :: Grown(full, i)
  }

  ghost predicate Matching(full: Full) {
    |full.tables| == |full.cu| - 1 && |full.contextLens| == |full.cu| - 1 && |full.offsets| == |full.cu| - 1
  }

  ghost predicate Accepted(full: Full) {
    && |full.cu| > 0 && full.cu[0] == 0 && Matching(full)
    && Grows(full, |full.cu| - 1) && full.cu[|full.cu| - 1] == |full.slots|
  }

  /** The first check that fails, segments in order. */
  ghost predicate Rejected(full: Full, error: YocoError) {
    match error
    case BadStart => |full.cu| == 0 || full.cu[0] != 0
    case LengthMismatch => |full.cu| > 0 && full.cu[0] == 0 && !Matching(full)
    case NotIncreasing =>
      Matching(full) && exists i | 0 <= i < |full.cu| - 1 :: Grows(full, i) && full.cu[i + 1] <= full.cu[i]
    case SlotsShort =>
      Matching(full) && exists i | 0 <= i < |full.cu| - 1 ::
        Grows(full, i) && full.cu[i] < full.cu[i + 1] && full.cu[i + 1] > |full.slots|
    case SlotsLong =>
      |full.cu| > 0 && Matching(full) && Grows(full, |full.cu| - 1) && full.cu[|full.cu| - 1] < |full.slots|
  }

  /** Segment `i` is a verification window. */
  ghost predicate Verified(full: Full, i: nat)
    requires i + 1 < |full.cu|
  {
    i < full.decodeSegments && full.cu[i] + 1 < full.cu[i + 1]
  }

  /** The logits of this row of segment `i` are consumed. */
  ghost predicate Needed(full: Full, i: nat, row: nat)
    requires i + 1 < |full.cu|
  {
    full.cu[i] <= row < full.cu[i + 1] && (Verified(full, i) || row == full.cu[i + 1] - 1)
  }

  /** A needed row with its slot, its segment's table, its causal frontier and its position. */
  ghost predicate Fits(full: Full, i: nat, row: nat, slot: nat, table: Table, contextLen: nat, offset: nat) {
    && i + 1 < |full.cu| && i < |full.tables| && i < |full.contextLens| && i < |full.offsets| && row < |full.slots|
    && Needed(full, i, row) && slot == full.slots[row] && table == full.tables[i]
    && offset == full.offsets[i] + (row - full.cu[i])
    && contextLen == if Verified(full, i) then full.offsets[i] + (row - full.cu[i]) + 1 else full.contextLens[i]
  }

  /** Entry `p` of the lists is a needed row of segment `i`. */
  ghost predicate EntryFits(full: Full, r: Reduced, i: nat, p: nat)
    requires p < |r.selected| == |r.slots| == |r.tables| == |r.contextLens| == |r.offsets|
  {
    Fits(full, i, r.selected[p], r.slots[p], r.tables[p], r.contextLens[p], r.offsets[p])
  }

  ghost predicate IsEntry(full: Full, r: Reduced, p: nat)
    requires p < |r.selected| == |r.slots| == |r.tables| == |r.contextLens| == |r.offsets|
  {
    exists i :: EntryFits(full, r, i, p)
  }

  /** The lists hold every needed row once, in order, each as a segment of one row. */
  ghost predicate ListsFit(full: Full, r: Reduced) {
    && |r.selected| == |r.slots| == |r.tables| == |r.contextLens| == |r.offsets| == |r.cu| - 1
    && (forall p | 0 <= p < |r.cu| :: r.cu[p] == p)
    && (forall p: nat | p < |r.selected| :: IsEntry(full, r, p))
    && (forall p, q | 0 <= p < q < |r.selected| :: r.selected[p] < r.selected[q])
    && (forall i: nat, row: nat | i + 1 < |full.cu| && Needed(full, i, row) :: row in r.selected)
  }

  lemma {:induction false} ListsAre(picks: seq<Pick>)
    ensures var r := ListsOf(picks);
            && |r.selected| == |r.slots| == |r.tables| == |r.contextLens| == |r.offsets| == |picks|
            && |r.cu| == |picks| + 1 && (forall p | 0 <= p < |r.cu| :: r.cu[p] == p)
            && forall p | 0 <= p < |picks| ::
                 Pick(r.selected[p], r.slots[p], r.tables[p], r.contextLens[p], r.offsets[p]) == picks[p]
  {
    if |picks| > 0 {
      ListsAre(picks[..|picks| - 1]);
    }
  }

  ghost predicate PickFits(full: Full, i: nat, pick: Pick) {
    Fits(full, i, pick.row, pick.slot, pick.table, pick.contextLen, pick.offset)
  }

  ghost predicate FitsSome(full: Full, pick: Pick) {
    exists i :: PickFits(full, i, pick)
  }

  ghost predicate Picked(picks: seq<Pick>, row: nat) {
    exists p :: 0 <= p < |picks| && picks[p].row == row
  }

  /** The picks of the rows below `limit`. */
  ghost predicate PicksFit(full: Full, picks: seq<Pick>, limit: nat) {
    && (forall p | 0 <= p < |picks| :: picks[p].row < limit && FitsSome(full, picks[p]))
    && (forall p, q | 0 <= p < q < |picks| :: picks[p].row < picks[q].row)
    && (forall i: nat, row: nat | i + 1 < |full.cu| && Needed(full, i, row) && row < limit :: Picked(picks, row))
  }

  lemma PickOfFits(full: Full, i: nat, row: nat)
    requires full.Sized() && i + 1 < |full.cu| && full.cu[i + 1] <= |full.slots| && Needed(full, i, row)
    ensures PickFits(full, i, PickOf(full, i, row)) && PickOf(full, i, row).row == row
  {
  }

  lemma AddPick(full: Full, picks: seq<Pick>, i: nat, row: nat)
    requires full.Sized() && i + 1 < |full.cu| && full.cu[i + 1] <= |full.slots| && Needed(full, i, row)
    requires PicksFit(full, picks, row)
    ensures PicksFit(full, picks + [PickOf(full, i, row)], row + 1)
  {
    var more := picks + [PickOf(full, i, row)];
    PickOfFits(full, i, row);
    forall k: nat, other: nat | k + 1 < |full.cu| && Needed(full, k, other) && other < row + 1
      ensures Picked(more, other)
    {
      if other == row {
        assert more[|picks|].row == other;
      } else {
        assert Picked(picks, other);
        var p :| 0 <= p < |picks| && picks[p].row == other;
        assert more[p].row == other;
      }
    }
    forall p | 0 <= p < |more|
      ensures more[p].row < row + 1 && FitsSome(full, more[p])
    {
      if p < |picks| {
        assert more[p] == picks[p];
      }
    }
  }

  lemma {:induction false} PickRowsFit(full: Full, picks: seq<Pick>, i: nat, first: nat, n: nat)
    requires full.Sized() && i + 1 < |full.cu| && full.cu[i] <= first && first + n <= full.cu[i + 1] <= |full.slots|
    requires forall row: nat | first <= row < full.cu[i + 1] :: Needed(full, i, row)
    requires PicksFit(full, picks, first)
    ensures PicksFit(full, PickRows(picks, full, i, first, n), first + n)
  {
    if n > 0 {
      PickRowsFit(full, picks, i, first, n - 1);
      AddPick(full, PickRows(picks, full, i, first, n - 1), i, first + n - 1);
    }
  }

  /** Rows are those of one segment only. */
  lemma {:induction false} CuOrdered(full: Full, i: nat, j: nat)
    requires i <= j < |full.cu| && Grows(full, j)
    ensures full.cu[i] <= full.cu[j]
  {
    if i < j {
      CuOrdered(full, i, j - 1);
      assert Grown(full, j - 1);
    }
  }

  /** Between the start of a segment that is no window and its last row nothing is needed. */
  lemma SkipRows(full: Full, picks: seq<Pick>, i: nat)
    requires Grown(full, i) && Grows(full, |full.cu| - 1) && !Verified(full, i) && PicksFit(full, picks, full.cu[i])
    ensures PicksFit(full, picks, full.cu[i + 1] - 1)
  {
    forall k: nat, row: nat | k + 1 < |full.cu| && Needed(full, k, row) && row < full.cu[i + 1] - 1
      ensures Picked(picks, row)
    {
      if k < i {
        CuOrdered(full, k + 1, i);
      } else if k > i {
        CuOrdered(full, i + 1, k);
      }
    }
  }

  /** The first `n` segments of growing metadata. */
  lemma {:induction false} SegmentsFit(full: Full, n: nat)
    requires full.Sized() && Grows(full, |full.cu| - 1) && n < |full.cu|
    ensures ReduceTo(full, n).Ok? && PicksFit(full, ReduceTo(full, n).value, full.cu[n])
  {
    if n > 0 {
      SegmentsFit(full, n - 1);
      assert Grown(full, n - 1);
      NextSegmentFits(full, n - 1);
    }
  }

  lemma NextSegmentFits(full: Full, i: nat)
    requires full.Sized() && Grows(full, |full.cu| - 1) && Grown(full, i)
    requires ReduceTo(full, i).Ok? && PicksFit(full, ReduceTo(full, i).value, full.cu[i])
    ensures ReduceTo(full, i + 1).Ok? && PicksFit(full, ReduceTo(full, i + 1).value, full.cu[i + 1])
  {
    ReduceStep(full, i);
    SegmentFits(full, ReduceTo(full, i).value, i, FirstRow(full, i));
  }

  function FirstRow(full: Full, i: nat): nat
    requires i + 1 < |full.cu| && full.cu[i] < full.cu[i + 1]
  {
    if full.IsWindow(i) then full.cu[i] else full.cu[i + 1] - 1
  }

  lemma ReduceStep(full: Full, i: nat)
    requires full.Sized() && Grown(full, i) && ReduceTo(full, i).Ok?
    ensures ReduceTo(full, i + 1) ==
              Ok(PickRows(ReduceTo(full, i).value, full, i, FirstRow(full, i), full.cu[i + 1] - FirstRow(full, i)))
  {
  }

  lemma SegmentFits(full: Full, picks: seq<Pick>, i: nat, first: nat)
    requires full.Sized() && Grows(full, |full.cu| - 1) && Grown(full, i) && PicksFit(full, picks, full.cu[i])
    requires first == FirstRow(full, i)
    ensures PicksFit(full, PickRows(picks, full, i, first, full.cu[i + 1] - first), full.cu[i + 1])
  {
    if !full.IsWindow(i) {
      SkipRows(full, picks, i);
    }
    PickRowsFit(full, picks, i, first, full.cu[i + 1] - first);
  }

  lemma {:induction false} ReduceToIff(full: Full, n: nat)
    requires full.Sized() && n < |full.cu|
    ensures ReduceTo(full, n).Ok? <==> Grows(full, n)
    ensures ReduceTo(full, n).Err? ==> Rejected(full, ReduceTo(full, n).error)
  {
    if n > 0 {
      ReduceToIff(full, n - 1);
      if Grown(full, n - 1) && Grows(full, n - 1) {
        assert Grows(full, n);
      }
    }
  }

  lemma ReducedFails(full: Full, error: YocoError)
    requires Reduce(full) == Err(error)
    ensures Rejected(full, error) && !Accepted(full)
  {
    if full.Sized() {
      ReduceToIff(full, |full.cu| - 1);
      if Grows(full, |full.cu| - 1) {
        LastInside(full);
      }
    }
  }

  lemma LastInside(full: Full)
    requires |full.cu| > 0 && full.cu[0] == 0 && Grows(full, |full.cu| - 1)
    ensures full.cu[|full.cu| - 1] <= |full.slots|
  {
    if |full.cu| > 1 {
      assert Grown(full, |full.cu| - 2);
    }
  }

  lemma PickedIsSelected(picks: seq<Pick>, row: nat)
    requires Picked(picks, row)
    ensures row in ListsOf(picks).selected
  {
    ListsAre(picks);
    var p :| 0 <= p < |picks| && picks[p].row == row;
    assert ListsOf(picks).selected[p] == row;
  }

  lemma PicksAreLists(full: Full, picks: seq<Pick>)
    requires Accepted(full) && PicksFit(full, picks, |full.slots|)
    ensures ListsFit(full, ListsOf(picks))
  {
    ListsAre(picks);
    forall p: nat | p < |picks|
      ensures IsEntry(full, ListsOf(picks), p)
    {
      PickIsEntry(full, picks, p);
    }
    forall i: nat, row: nat | i + 1 < |full.cu| && Needed(full, i, row)
      ensures row in ListsOf(picks).selected
    {
      NeededIsSelected(full, picks, i, row);
    }
    Increasing(picks);
  }

  lemma Increasing(picks: seq<Pick>)
    requires forall p, q | 0 <= p < q < |picks| :: picks[p].row < picks[q].row
    ensures var r := ListsOf(picks); forall p, q | 0 <= p < q < |r.selected| :: r.selected[p] < r.selected[q]
  {
    ListsAre(picks);
  }

  lemma NeededIsSelected(full: Full, picks: seq<Pick>, i: nat, row: nat)
    requires Accepted(full) && PicksFit(full, picks, |full.slots|) && i + 1 < |full.cu| && Needed(full, i, row)
    ensures row in ListsOf(picks).selected
  {
    CuOrdered(full, i + 1, |full.cu| - 1);
    PickedIsSelected(picks, row);
  }

  lemma PickIsEntry(full: Full, picks: seq<Pick>, p: nat)
    requires p < |picks| && FitsSome(full, picks[p])
    ensures var r := ListsOf(picks);
            && p < |r.selected| == |r.slots| == |r.tables| == |r.contextLens| == |r.offsets|
            && IsEntry(full, r, p)
  {
    ListsAre(picks);
    var i :| PickFits(full, i, picks[p]);
    assert EntryFits(full, ListsOf(picks), i, p);
  }

  lemma ReducedFits(full: Full)
    requires Reduce(full).Ok?
    ensures Accepted(full) && ListsFit(full, ListsOf(Reduce(full).value))
  {
    ReduceToIff(full, |full.cu| - 1);
    SegmentsFit(full, |full.cu| - 1);
    PicksAreLists(full, Reduce(full).value);
  }

  method BuildReduced(full: Full) returns (r: Result<Reduced, YocoError>)
    ensures r == ReducedLists(full)
    ensures r.Ok? <==> Accepted(full)
    ensures r.Ok? ==> ListsFit(full, r.value)
    ensures r.Err? ==> Rejected(full, r.error)
  {
    r := BuildLists(full);
    if r.Ok? {
      ReducedFits(full);
    } else {
      ReducedFails(full, r.error);
    }
  }
}
