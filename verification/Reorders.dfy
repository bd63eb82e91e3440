/** The row indexes that undo llama.cpp's reorders: RoPE pairs, tiled V heads and the fused QKV tensor. */
module Reorders {
  import opened Arith
  import opened Permutations
  import opened Wrappers

  // ---- Swapping two axes of a flat array ----

  /**
   Entry `x` of a flat `(o, b, a, inner)` array in the flat `(o, a, b, inner)` array
   whose two middle axes it swaps.
   */
  function Swapped(x: nat, a: nat, b: nat, inner: nat): nat
    requires a > 0 && b > 0 && inner > 0
  {
    var y := Quot(x, inner);
    var z := Quot(y, a);
    Flat(Flat(Flat(Quot(z, b), a, Rem(y, a)), b, Rem(z, b)), inner, Rem(x, inner))
  }

  /** In coordinates: entry `(o, j, i, r)` of the one array is entry `(o, i, j, r)` of the other. */
  lemma SwappedAt(o: nat, a: nat, i: nat, b: nat, j: nat, inner: nat, r: nat)
    requires i < a && j < b && r < inner
    ensures Swapped(Flat(Flat(Flat(o, b, j), a, i), inner, r), a, b, inner) ==
              Flat(Flat(Flat(o, a, i), b, j), inner, r)
  {
    QuotFlat(Flat(Flat(o, b, j), a, i), inner, r);
    QuotFlat(Flat(o, b, j), a, i);
    QuotFlat(o, b, j);
  }

  /** Swapping back gives the entry again. */
  lemma SwapTwice(x: nat, a: nat, b: nat, inner: nat)
    requires a > 0 && b > 0 && inner > 0
    ensures Swapped(Swapped(x, a, b, inner), b, a, inner) == x
  {
    var y := Quot(x, inner);
    var z := Quot(y, a);
    var i, j, o := Rem(y, a), Rem(z, b), Quot(z, b);
    QuotFlat(Flat(Flat(o, a, i), b, j), inner, Rem(x, inner));
    QuotFlat(Flat(o, a, i), b, j);
    QuotFlat(o, a, i);
    FlatQuot(z, b);
    FlatQuot(y, a);
    FlatQuot(x, inner);
  }

  /** The number of entries of an `(outer, a, b, inner)` array. */
  function Size(outer: nat, a: nat, b: nat, inner: nat): nat {
    Flat(Flat(Flat(outer, a, 0), b, 0), inner, 0)
  }

  lemma SizeIs(outer: nat, a: nat, b: nat, inner: nat)
    ensures Size(outer, a, b, inner) == outer * a * b * inner
    ensures Size(outer, a, b, inner) == Size(outer, b, a, inner)
  {
    SizeProduct(outer, a, b, inner);
    SizeProduct(outer, b, a, inner);
    Regrouped(outer, a, b);
  }

  lemma Regrouped(outer: nat, a: nat, b: nat)
    ensures outer * a * b == outer * b * a
  {
    var p, q := outer * a, outer * b;
    assert p * b == outer * (a * b) && q * a == outer * (b * a);
  }

  lemma SizeProduct(outer: nat, a: nat, b: nat, inner: nat)
    ensures Size(outer, a, b, inner) == outer * a * b * inner
  {
    FlatIs(outer, a, 0);
    FlatIs(outer * a, b, 0);
    FlatIs(outer * a * b, inner, 0);
  }

  lemma SwappedInside(x: nat, outer: nat, a: nat, b: nat, inner: nat)
    requires a > 0 && b > 0 && inner > 0 && x < Size(outer, a, b, inner)
    ensures Swapped(x, a, b, inner) < Size(outer, a, b, inner)
  {
    var y := Quot(x, inner);
    var z := Quot(y, a);
    var i, j, o := Rem(y, a), Rem(z, b), Quot(z, b);
    SizeIs(outer, a, b, inner);
    QuotBelow(x, Flat(Flat(outer, b, 0), a, 0), inner);
    QuotBelow(y, Flat(outer, b, 0), a);
    QuotBelow(z, outer, b);
    FlatInside(o, i, 1, outer, a);
    FlatInside(Flat(o, a, i), j, 1, Flat(outer, a, 0), b);
    FlatInside(Flat(Flat(o, a, i), b, j), Rem(x, inner), 1, Flat(Flat(outer, a, 0), b, 0), inner);
  }

  function SwapIndex(n: nat, a: nat, b: nat, inner: nat): (r: seq<int>)
    requires n > 0 ==> a > 0 && b > 0 && inner > 0
    ensures |r| == n && forall x | 0 <= x < n :: r[x] == Swapped(x, a, b, inner)
  {
    seq<int>(n, x requires 0 <= x < n => Swapped(x, a, b, inner))
  }

  lemma PositionInside(outer: nat, o: nat, a: nat, i: nat, b: nat, j: nat, inner: nat, r: nat)
    requires o < outer && i < a && j < b && r < inner
    ensures Flat(Flat(Flat(o, a, i), b, j), inner, r) < Size(outer, a, b, inner)
  {
    FlatInside(o, i, 1, outer, a);
    FlatInside(Flat(o, a, i), j, 1, Flat(outer, a, 0), b);
    FlatInside(Flat(Flat(o, a, i), b, j), r, 1, Flat(Flat(outer, a, 0), b, 0), inner);
  }

  /** The index at given coordinates. */
  lemma SwapIndexAt(n: nat, outer: nat, o: nat, a: nat, i: nat, b: nat, j: nat, inner: nat, r: nat, x: nat, y: nat)
    requires n == Size(outer, a, b, inner) && o < outer && i < a && j < b && r < inner
    requires x == Flat(Flat(Flat(o, b, j), a, i), inner, r) && y == Flat(Flat(Flat(o, a, i), b, j), inner, r)
    ensures x < n && y < n && SwapIndex(n, a, b, inner)[x] == y
  {
    SizeIs(outer, a, b, inner);
    PositionInside(outer, o, b, j, a, i, inner, r);
    PositionInside(outer, o, a, i, b, j, inner, r);
    SwappedAt(o, a, i, b, j, inner, r);
  }

  /** `index` is a permutation and undoes the reorder `forward`. */
  ghost predicate Undoes(index: seq<int>, forward: seq<int>, n: nat) {
    && Permutes(index, n) && Permutes(forward, n)
    && forall x | 0 <= x < n :: index[forward[x]] == x && forward[index[x]] == x
  }

  /** What is inverse from both sides is a permutation. */
  lemma InversesPermute(index: seq<int>, forward: seq<int>, n: nat)
    requires |index| == |forward| == n
    requires forall x | 0 <= x < n :: 0 <= index[x] < n && 0 <= forward[x] < n
    requires forall x | 0 <= x < n :: index[forward[x]] == x && forward[index[x]] == x
    ensures Undoes(index, forward, n)
  {
    OneSided(index, forward, n);
    OneSided(forward, index, n);
  }

  lemma OneSided(index: seq<int>, forward: seq<int>, n: nat)
    requires |index| == |forward| == n
    requires forall x | 0 <= x < n :: 0 <= index[x] < n && forward[index[x]] == x
    ensures Permutes(index, n)
  {
    forall i, j | 0 <= i < j < n
      ensures index[i] != index[j]
    {
      assert forward[index[i]] == i && forward[index[j]] == j;
    }
  }

  lemma SwapUndoes(n: nat, outer: nat, a: nat, b: nat, inner: nat)
    requires n == outer * a * b * inner && (n > 0 ==> a > 0 && b > 0 && inner > 0)
    ensures Undoes(SwapIndex(n, a, b, inner), SwapIndex(n, b, a, inner), n)
  {
    var index, forward := SwapIndex(n, a, b, inner), SwapIndex(n, b, a, inner);
    SizeIs(outer, a, b, inner);
    forall x | 0 <= x < n
      ensures 0 <= index[x] < n && 0 <= forward[x] < n
    {
      SwappedInside(x, outer, a, b, inner);
      SwappedInside(x, outer, b, a, inner);
    }
    forall x | 0 <= x < n
      ensures index[forward[x]] == x && forward[index[x]] == x
    {
      SwapTwice(x, a, b, inner);
      SwapTwice(x, b, a, inner);
    }
    InversesPermute(index, forward, n);
  }

  /** Loading the stored rows through the index gives the rows that were stored. */
  lemma LoadRestores<T>(rows: seq<T>, index: seq<int>, forward: seq<int>)
    requires Undoes(index, forward, |rows|)
    ensures Gather(Gather(rows, forward), index) == rows
  {
    var loaded := Gather(Gather(rows, forward), index);
    forall x | 0 <= x < |rows|
      ensures loaded[x] == rows[x]
    {
      assert forward[index[x]] == x;
    }
  }

  // ---- RoPE ----

  datatype ReorderError = DivisionByZero | BadReshape

  /** Each head's interleaved pairs back to two halves. */
  function RopePermuteIndex(outFeatures: nat, heads: nat): Result<seq<int>, ReorderError> {
    if heads == 0 then Err(DivisionByZero)
    else
      var half := outFeatures / heads / 2;
      if heads * half * 2 != outFeatures then Err(BadReshape)
      else Ok(SwapIndex(outFeatures, half, 2, 1))
  }

  /** llama.cpp's conversion: `(heads, 2, half)` to `(heads, half, 2)`. */
  ghost function RopeForward(outFeatures: nat, heads: nat): seq<int>
    requires RopePermuteIndex(outFeatures, heads).Ok?
  {
    SwapIndex(outFeatures, 2, outFeatures / heads / 2, 1)
  }

  /** The index exists exactly if every head has an even number of rows, and then it undoes the conversion. */
  lemma RopeUndoes(outFeatures: nat, heads: nat)
    ensures RopePermuteIndex(outFeatures, heads).Ok? <==>
              heads > 0 && exists half: nat :: outFeatures == heads * half * 2
    ensures RopePermuteIndex(outFeatures, heads) == Err(DivisionByZero) <==> heads == 0
    ensures RopePermuteIndex(outFeatures, heads).Ok? ==>
              Undoes(RopePermuteIndex(outFeatures, heads).value, RopeForward(outFeatures, heads), outFeatures)
  {
    if heads > 0 {
      if half: nat :| outFeatures == heads * half * 2 {
        HalfOf(outFeatures, heads, half);
      }
      if RopePermuteIndex(outFeatures, heads).Ok? {
        SwapUndoes(outFeatures, heads, outFeatures / heads / 2, 2, 1);
      }
    }
  }

  /** Row `j` of half `s` of a head, and component `s` of its pair `j`, counted in whole heads, halves and pairs. */
  lemma RopePositions(head: nat, half: nat, s: nat, j: nat)
    ensures Flat(Flat(Flat(head, 2, s), half, j), 1, 0) == head * (2 * half) + s * half + j
    ensures Flat(Flat(Flat(head, half, j), 2, s), 1, 0) == head * (2 * half) + 2 * j + s
  {
    FlatNested(head, 2, s, half, j, 2 * half);
    FlatIs(head, 2 * half, Flat(s, half, j));
    FlatIs(s, half, j);
    FlatIs(Flat(Flat(head, 2, s), half, j), 1, 0);
    FlatNested(head, half, j, 2, s, 2 * half);
    FlatIs(head, 2 * half, Flat(j, 2, s));
    FlatIs(j, 2, s);
    FlatIs(Flat(Flat(head, half, j), 2, s), 1, 0);
  }

  /**
   The index and the conversion, row by row: row `j` of half `s` of a head is taken from
   pair `j` of that head in the file, and llama.cpp had put it there.
   */
  lemma RopeRow(outFeatures: nat, heads: nat, half: nat, head: nat, s: nat, j: nat, x: nat, y: nat)
    requires outFeatures == heads * half * 2 && head < heads && s < 2 && j < half
    requires x == head * (2 * half) + s * half + j && y == head * (2 * half) + 2 * j + s
    ensures RopePermuteIndex(outFeatures, heads).Ok? && x < outFeatures && y < outFeatures
    ensures RopePermuteIndex(outFeatures, heads).value[x] == y && RopeForward(outFeatures, heads)[y] == x
  {
    HalfOf(outFeatures, heads, half);
    RopePositions(head, half, s, j);
    SizeIs(heads, half, 2, 1);
    SwapIndexAt(outFeatures, heads, head, half, j, 2, s, 1, 0, x, y);
    SwapIndexAt(outFeatures, heads, head, 2, s, half, j, 1, 0, y, x);
  }

  lemma HalfOf(outFeatures: nat, heads: nat, half: nat)
    requires heads > 0 && outFeatures == heads * half * 2
    ensures outFeatures / heads / 2 == half
  {
    assert outFeatures == (half * 2) * heads + 0;
    DivModUnique(half * 2, 0, heads);
  }

  // ---- Tiled V heads ----

  /** Tiled `(nv / nk, nk, dim)` rows back to grouped `(nk, nv / nk, dim)`. */
  function VHeadUntileIndex(keyHeads: nat, valueHeads: nat, dim: nat): Result<seq<int>, ReorderError> {
    if keyHeads == 0 then Err(DivisionByZero)
    else
      var ratio := valueHeads / keyHeads;
      if ratio * keyHeads * dim != valueHeads * dim then Err(BadReshape)
      else if valueHeads * dim == 0 then Ok([])
      else
        PositiveFactors(ratio, keyHeads, dim);
        Ok(SwapIndex(valueHeads * dim, ratio, keyHeads, dim))
  }

  lemma PositiveFactors(a: nat, b: nat, c: nat)
    requires a * b * c > 0
    ensures a > 0 && b > 0 && c > 0
  {
  }

  ghost function VHeadForward(keyHeads: nat, valueHeads: nat, dim: nat): seq<int>
    requires VHeadUntileIndex(keyHeads, valueHeads, dim).Ok?
  {
    if valueHeads * dim == 0 then []
    else
      PositiveFactors(valueHeads / keyHeads, keyHeads, dim);
      SwapIndex(valueHeads * dim, keyHeads, valueHeads / keyHeads, dim)
  }

  /** The index exists exactly if the V heads divide evenly or there is nothing to reorder. */
  lemma VHeadUndoes(keyHeads: nat, valueHeads: nat, dim: nat)
    ensures VHeadUntileIndex(keyHeads, valueHeads, dim).Ok? <==>
              keyHeads > 0 && (dim == 0 || valueHeads % keyHeads == 0)
    ensures VHeadUntileIndex(keyHeads, valueHeads, dim) == Err(DivisionByZero) <==> keyHeads == 0
    ensures VHeadUntileIndex(keyHeads, valueHeads, dim).Ok? ==>
              Undoes(VHeadUntileIndex(keyHeads, valueHeads, dim).value, VHeadForward(keyHeads, valueHeads, dim),
                     valueHeads * dim)
  {
    if keyHeads > 0 {
      var ratio := valueHeads / keyHeads;
      assert valueHeads == ratio * keyHeads + valueHeads % keyHeads;
      Distribute(ratio * keyHeads, valueHeads % keyHeads, dim);
      RemainderTimes(valueHeads % keyHeads, dim);
      if VHeadUntileIndex(keyHeads, valueHeads, dim).Ok? && valueHeads * dim > 0 {
        PositiveFactors(ratio, keyHeads, dim);
        SwapUndoes(valueHeads * dim, 1, ratio, keyHeads, dim);
      }
    }
  }

  /**
   The index and the conversion, row by row: value head `i` of key head `k` is taken from
   its place in tile `i` of the file, and llama.cpp had put it there.
   */
  lemma VHeadRow(keyHeads: nat, valueHeads: nat, dim: nat, ratio: nat, k: nat, i: nat, r: nat, x: nat, y: nat)
    requires valueHeads == ratio * keyHeads && k < keyHeads && i < ratio && r < dim
    requires x == (k * ratio + i) * dim + r && y == (i * keyHeads + k) * dim + r
    ensures VHeadUntileIndex(keyHeads, valueHeads, dim).Ok? && x < valueHeads * dim && y < valueHeads * dim
    ensures VHeadUntileIndex(keyHeads, valueHeads, dim).value[x] == y && VHeadForward(keyHeads, valueHeads, dim)[y] == x
  {
    DivModUnique(ratio, 0, keyHeads);
    VHeadPositions(k, ratio, i, dim, r);
    VHeadPositions(i, keyHeads, k, dim, r);
    SizeIs(1, ratio, keyHeads, dim);
    RemainderTimes(valueHeads, dim);
    SwapIndexAt(valueHeads * dim, 1, 0, ratio, i, keyHeads, k, dim, r, x, y);
    SwapIndexAt(valueHeads * dim, 1, 0, keyHeads, k, ratio, i, dim, r, y, x);
  }

  lemma VHeadPositions(k: nat, ratio: nat, i: nat, dim: nat, r: nat)
    ensures forall m: nat :: Flat(Flat(Flat(0, m, k), ratio, i), dim, r) == (k * ratio + i) * dim + r
  {
    FlatIs(k, ratio, i);
    FlatIs(k * ratio + i, dim, r);
  }

  lemma RemainderTimes(r: nat, dim: nat)
    ensures r * dim == 0 <==> r == 0 || dim == 0
  {
    if r > 0 && dim > 0 {
      ProductMonotone(1, r, dim);
    }
  }

  // ---- The fused QKV tensor ----

  /** The q and k rows stay, the V rows behind them follow `values`. */
  function Behind(rows: nat, values: seq<int>): (r: seq<int>)
    ensures |r| == rows + |values|
    ensures forall i | 0 <= i < |r| :: r[i] == if i < rows then i else rows + values[i - rows]
  {
    Range(rows) + seq(|values|, i requires 0 <= i < |values| => rows + values[i])
  }

  lemma BehindAt(rows: nat, values: seq<int>, forward: seq<int>, n: nat, x: nat)
    requires |values| == |forward| == n && x < rows + n
    requires forall v | 0 <= v < n :: 0 <= forward[v] < n && values[forward[v]] == v
    ensures 0 <= Behind(rows, forward)[x] < rows + n && Behind(rows, values)[Behind(rows, forward)[x]] == x
  {
    if x >= rows {
      assert values[forward[x - rows]] == x - rows;
    }
  }

  lemma BehindUndoes(rows: nat, values: seq<int>, forward: seq<int>, n: nat)
    requires Undoes(values, forward, n)
    ensures Undoes(Behind(rows, values), Behind(rows, forward), rows + n)
  {
    forall x | 0 <= x < rows + n
      ensures 0 <= Behind(rows, forward)[x] < rows + n && Behind(rows, values)[Behind(rows, forward)[x]] == x
      ensures 0 <= Behind(rows, values)[x] < rows + n && Behind(rows, forward)[Behind(rows, values)[x]] == x
    {
      BehindAt(rows, values, forward, n, x);
      BehindAt(rows, forward, values, n, x);
    }
    InversesPermute(Behind(rows, values), Behind(rows, forward), rows + n);
  }
}
