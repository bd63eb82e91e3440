/**
 The 16-element-group formats that stay raw: the element-wise dequantize kernels
 and the per-group bodies of the fused matrix-vector kernels.
 */
module RawBlocks {
  import opened Arith
  import opened Bits
  import opened BlockGrid

  datatype RawType = Q2_K | Q3_K | Q6_K

  /** The value of a finite fp16 as a whole number of 2^-24. */
  type Half = (Byte, Byte) -> int

  const SUPER: nat := 256
  const SUB: nat := 16

  function RawBytes(q: RawType): nat {
    match q
    case Q2_K => 84
    case Q3_K => 110
    case Q6_K => 210
  }

  // ---- Element-wise dequantize kernels ----

  function Q2Dequant(h: Half, b: Block, e: nat): int
    requires |b| == 84 && e < SUPER
  {
    var sc := b[e / 16];
    var q := Shr(b[16 + (e / 128) * 32 + e % 32], 2 * (e / 32 % 4)) % 4;
    h(b[80], b[81]) * (sc % 16) * q - h(b[82], b[83]) * (sc / 16)
  }

  /** The signed 6-bit sub-scale of group `g`. */
  function Q3Scale(b: Block, g: nat): int
    requires |b| == 110 && g < 16
  {
    var lo := if g < 8 then b[96 + g] % 16 else b[96 + g - 8] / 16;
    var hi := Shr(b[104 + g % 4], 2 * (g / 4)) % 4;
    Or(lo, Shl(hi, 4)) - 32
  }

  function Q3Dequant(h: Half, b: Block, e: nat): int
    requires |b| == 110 && e < SUPER
  {
    var low2 := Shr(b[32 + (e / 128) * 32 + e % 32], 2 * (e / 32 % 4)) % 4;
    var hbit := Shr(b[e % 32], e / 32) % 2;
    h(b[108], b[109]) * Q3Scale(b, e / 16) * (low2 - (1 - hbit) * 4)
  }

  function Q6Dequant(h: Half, b: Block, within: nat): int
    requires |b| == 210 && within < SUPER
  {
    var half, e := within / 128, within % 128;
    var lowbyte := b[half * 64 + e % 64];
    var low4 := if e < 64 then lowbyte % 16 else lowbyte / 16;
    var high2 := Shr(b[128 + half * 32 + e % 32], 2 * (e / 32)) % 4;
    h(b[208], b[209]) * Int8(b[192 + within / 16]) * (Or(low4, Shl(high2, 4)) - 32)
  }

  function Dequant(h: Half, q: RawType, b: Block, e: nat): int
    requires |b| == RawBytes(q) && e < SUPER
  {
    match q
    case Q2_K => Q2Dequant(h, b, e)
    case Q3_K => Q3Dequant(h, b, e)
    case Q6_K => Q6Dequant(h, b, e)
  }

  // ---- Group bodies of the fused kernels ----

  /** The sixteen dequantized weights of group `grp`. */
  function GroupValues(h: Half, q: RawType, b: Block, grp: nat): (v: seq<int>)
    requires |b| == RawBytes(q) && grp < 16
    ensures |v| == SUB
  {
    seq(SUB, i requires 0 <= i < SUB => Dequant(h, q, b, grp * 16 + i))
  }

  /** Dot product of `x[base..base + n]` with `v[start..start + n]`. */
  function Dot(x: seq<int>, base: nat, v: seq<int>, start: nat, n: nat): int
    requires base + n <= |x| && start + n <= |v|
  {
    if n == 0 then 0 else Dot(x, base, v, start, n - 1) + x[base + n - 1] * v[start + n - 1]
  }

  lemma GroupCoordinates(grp: nat, i: nat)
    requires grp < 16 && i < 16
    ensures var e := grp * 16 + i;
            && e / 16 == grp && e / 32 == grp / 2 && e / 128 == grp / 8 && e % 32 == grp % 2 * 16 + i
  {
  }

  lemma HalfCoordinates(grp: nat, i: nat)
    requires grp < 16 && i < 16
    ensures var e, e0 := (grp * 16 + i) % 128, grp % 8 * 16;
            && (grp * 16 + i) / 128 == grp / 8 && (grp * 16 + i) / 16 == grp
            && e / 32 == e0 / 32 && e % 64 == e0 % 64 + i && e % 32 == e0 % 32 + i
            && (e < 64 <==> e0 < 64)
  {
  }

  function Q2Code(b: Block, grp: nat, i: nat): nat
    requires |b| == 84 && grp < 16 && i < 16
  {
    Shr(b[16 + grp / 8 * 32 + grp % 2 * 16 + i], 2 * (grp / 2 % 4)) % 4
  }

  lemma Q2Value(h: Half, b: Block, grp: nat, i: nat)
    requires |b| == 84 && grp < 16 && i < 16
    ensures Dequant(h, Q2_K, b, grp * 16 + i) ==
              h(b[80], b[81]) * (b[grp] % 16) * Q2Code(b, grp, i) - h(b[82], b[83]) * (b[grp] / 16)
  {
    GroupCoordinates(grp, i);
  }

  function Q3Code(b: Block, grp: nat, i: nat): int
    requires |b| == 110 && grp < 16 && i < 16
  {
    var low2 := Shr(b[32 + grp / 8 * 32 + grp % 2 * 16 + i], 2 * (grp / 2 % 4)) % 4;
    var hset := Shr(b[grp % 2 * 16 + i], grp / 2) % 2;
    low2 - (1 - hset) * 4
  }

  lemma Q3Value(h: Half, b: Block, grp: nat, i: nat)
    requires |b| == 110 && grp < 16 && i < 16
    ensures Dequant(h, Q3_K, b, grp * 16 + i) == h(b[108], b[109]) * Q3Scale(b, grp) * Q3Code(b, grp, i)
  {
    GroupCoordinates(grp, i);
  }

  function Q6Code(b: Block, grp: nat, i: nat): int
    requires |b| == 210 && grp < 16 && i < 16
  {
    var half, e0 := grp / 8, grp % 8 * 16;
    var low := b[half * 64 + e0 % 64 + i];
    var low4 := if e0 < 64 then low % 16 else low / 16;
    var high2 := Shr(b[128 + half * 32 + e0 % 32 + i], 2 * (e0 / 32)) % 4;
    Or(low4, Shl(high2, 4)) - 32
  }

  lemma Q6Value(h: Half, b: Block, grp: nat, i: nat)
    requires |b| == 210 && grp < 16 && i < 16
    ensures Dequant(h, Q6_K, b, grp * 16 + i) == h(b[208], b[209]) * Int8(b[192 + grp]) * Q6Code(b, grp, i)
  {
    HalfCoordinates(grp, i);
  }

  lemma HoistedMin(s: int, m: int, part: int, xsum: int, x: int, w: int)
    ensures s * (part + x * w) - m * (xsum + x) == s * part - m * xsum + x * (s * w - m)
  {
    assert s * (part + x * w) == s * part + s * (x * w);
    assert s * (x * w) == x * (s * w);
    assert m * (xsum + x) == m * xsum + m * x;
    assert x * (s * w - m) == x * (s * w) - x * m;
  }

  /** Where one batch row's activations for a group start. */
  ghost predicate GroupInside(x: seq<int>, stride: nat, offset: nat, batches: nat) {
    forall batch: nat | batch < batches :: Flat(batch, stride, offset) + SUB <= |x|
  }

  ghost predicate Accumulated(before: seq<int>, after: seq<int>, x: seq<int>, stride: nat, offset: nat,
                              v: seq<int>, done: nat)
    requires |v| == SUB && done <= |before| && GroupInside(x, stride, offset, |before|)
  {
    && |after| == |before|
    && forall batch: nat | batch < |before| ::
         after[batch] == before[batch] + if batch < done then Dot(x, Flat(batch, stride, offset), v, 0, SUB) else 0
  }

  lemma AccumulateOne(before: seq<int>, after: seq<int>, x: seq<int>, stride: nat, offset: nat, v: seq<int>, batch: nat)
    requires |v| == SUB && batch < |before| && GroupInside(x, stride, offset, |before|)
    requires Accumulated(before, after, x, stride, offset, v, batch)
    ensures Accumulated(before, after[batch := after[batch] + Dot(x, Flat(batch, stride, offset), v, 0, SUB)],
                        x, stride, offset, v, batch + 1)
  {
  }

  /** Q2_K: `s * part - m * xsum`, the min hoisted onto the plain activation sum. */
  method HoistedPart(w: seq<int>, s: int, m: int, ghost v: seq<int>, x: seq<int>, base: nat) returns (r: int)
    requires |w| == |v| == SUB && base + SUB <= |x|
    requires forall i | 0 <= i < SUB :: v[i] == s * w[i] - m
    ensures r == Dot(x, base, v, 0, SUB)
  {
    var part, xsum := 0, 0;
    for i := 0 to SUB
      invariant s * part - m * xsum == Dot(x, base, v, 0, i)
    {
      HoistedMin(s, m, part, xsum, x[base + i], w[i]);
      part := part + x[base + i] * w[i];
      xsum := xsum + x[base + i];
    }
    r := s * part - m * xsum;
  }

  /** Q3_K and Q6_K: the group's plain sum, scaled once by `s`. */
  method ScaledPart(w: seq<int>, s: int, ghost v: seq<int>, x: seq<int>, base: nat) returns (r: int)
    requires |w| == |v| == SUB && base + SUB <= |x|
    requires forall i | 0 <= i < SUB :: v[i] == s * w[i]
    ensures r == Dot(x, base, v, 0, SUB)
  {
    var part := 0;
    for i := 0 to SUB
      invariant s * part == Dot(x, base, v, 0, i)
    {
      HoistedMin(s, 0, part, 0, x[base + i], w[i]);
      part := part + x[base + i] * w[i];
    }
    r := s * part;
  }

  /** Weights are decoded once, then every batch row accumulates its part. */
  method AccumulateHoisted(w: seq<int>, s: int, m: int, ghost v: seq<int>, x: seq<int>, stride: nat,
                           offset: nat, acc: array<int>)
    requires |w| == |v| == SUB && GroupInside(x, stride, offset, acc.Length)
    requires forall i | 0 <= i < SUB :: v[i] == s * w[i] - m
    modifies acc
    ensures Accumulated(old(acc[..]), acc[..], x, stride, offset, v, acc.Length)
  {
    for batch := 0 to acc.Length
      invariant Accumulated(old(acc[..]), acc[..], x, stride, offset, v, batch)
    {
      var part := HoistedPart(w, s, m, v, x, Flat(batch, stride, offset));
      AccumulateOne(old(acc[..]), acc[..], x, stride, offset, v, batch);
      ghost var now := acc[..];
      acc[batch] := acc[batch] + part;
      assert acc[..] == now[batch := now[batch] + part];
    }
  }

  method AccumulateScaled(w: seq<int>, s: int, ghost v: seq<int>, x: seq<int>, stride: nat, offset: nat,
                          acc: array<int>)
    requires |w| == |v| == SUB && GroupInside(x, stride, offset, acc.Length)
    requires forall i | 0 <= i < SUB :: v[i] == s * w[i]
    modifies acc
    ensures Accumulated(old(acc[..]), acc[..], x, stride, offset, v, acc.Length)
  {
    for batch := 0 to acc.Length
      invariant Accumulated(old(acc[..]), acc[..], x, stride, offset, v, batch)
    {
      var part := ScaledPart(w, s, v, x, Flat(batch, stride, offset));
      AccumulateOne(old(acc[..]), acc[..], x, stride, offset, v, batch);
      ghost var now := acc[..];
      acc[batch] := acc[batch] + part;
      assert acc[..] == now[batch := now[batch] + part];
    }
  }

  method Q2Group(h: Half, b: Block, grp: nat, x: seq<int>, stride: nat, offset: nat, acc: array<int>)
    requires |b| == 84 && grp < 16 && GroupInside(x, stride, offset, acc.Length)
    modifies acc
    ensures Accumulated(old(acc[..]), acc[..], x, stride, offset, GroupValues(h, Q2_K, b, grp), acc.Length)
  {
    var scm := b[grp];
    var s, m := h(b[80], b[81]) * (scm % 16), h(b[82], b[83]) * (scm / 16);
    var w: seq<int> := [];
    for i := 0 to SUB
      invariant |w| == i && forall j | 0 <= j < i :: w[j] == Q2Code(b, grp, j)
    {
      w := w + [Q2Code(b, grp, i)];
    }
    forall i: nat | i < SUB
      ensures GroupValues(h, Q2_K, b, grp)[i] == s * w[i] - m
    {
      Q2Value(h, b, grp, i);
    }
    AccumulateHoisted(w, s, m, GroupValues(h, Q2_K, b, grp), x, stride, offset, acc);
  }

  method Q3Group(h: Half, b: Block, grp: nat, x: seq<int>, stride: nat, offset: nat, acc: array<int>)
    requires |b| == 110 && grp < 16 && GroupInside(x, stride, offset, acc.Length)
    modifies acc
    ensures Accumulated(old(acc[..]), acc[..], x, stride, offset, GroupValues(h, Q3_K, b, grp), acc.Length)
  {
    var sc := h(b[108], b[109]) * Q3Scale(b, grp);
    var w: seq<int> := [];
    for i := 0 to SUB
      invariant |w| == i && forall j | 0 <= j < i :: w[j] == sc * Q3Code(b, grp, j)
    {
      w := w + [sc * Q3Code(b, grp, i)];
    }
    forall i: nat | i < SUB
      ensures GroupValues(h, Q3_K, b, grp)[i] == 1 * w[i]
    {
      Q3Value(h, b, grp, i);
    }
    AccumulateScaled(w, 1, GroupValues(h, Q3_K, b, grp), x, stride, offset, acc);
  }

  method Q6Group(h: Half, b: Block, grp: nat, x: seq<int>, stride: nat, offset: nat, acc: array<int>)
    requires |b| == 210 && grp < 16 && GroupInside(x, stride, offset, acc.Length)
    modifies acc
    ensures Accumulated(old(acc[..]), acc[..], x, stride, offset, GroupValues(h, Q6_K, b, grp), acc.Length)
  {
    var s := h(b[208], b[209]) * Int8(b[192 + grp]);
    var w: seq<int> := [];
    for i := 0 to SUB
      invariant |w| == i && forall j | 0 <= j < i :: w[j] == Q6Code(b, grp, j)
    {
      w := w + [Q6Code(b, grp, i)];
    }
    forall i: nat | i < SUB
      ensures GroupValues(h, Q6_K, b, grp)[i] == s * w[i]
    {
      Q6Value(h, b, grp, i);
    }
    AccumulateScaled(w, s, GroupValues(h, Q6_K, b, grp), x, stride, offset, acc);
  }

  /** One group of one row: the body picked by the qtype. */
  method AccumulateGroup(h: Half, q: RawType, b: Block, grp: nat, x: seq<int>, stride: nat, offset: nat,
                         acc: array<int>)
    requires |b| == RawBytes(q) && grp < 16 && GroupInside(x, stride, offset, acc.Length)
    modifies acc
    ensures Accumulated(old(acc[..]), acc[..], x, stride, offset, GroupValues(h, q, b, grp), acc.Length)
  {
    match q
    case Q2_K => Q2Group(h, b, grp, x, stride, offset, acc);
    case Q3_K => Q3Group(h, b, grp, x, stride, offset, acc);
    case Q6_K => Q6Group(h, b, grp, x, stride, offset, acc);
  }
}
