/**
 The ten GGUF block formats that repack into the affine group-32 layout.  Each
 format has two independent readings: `Parse*`, the array-at-a-time split of
 `vllm_metal/gguf/mlx_native.py`, and `Element`, the element-at-a-time decode the
 format defines.  `BlockExact` shows that scale * code + bias gives the same
 weight for every element of every block.
 */
module BlockFormats {
  import opened Bits
  import opened BlockGrid
  import opened PackCodes

  datatype QType = Q8_0 | Q4_0 | Q4_1 | Q5_0 | Q5_1 | Q4_K | Q5_K | IQ4_NL | IQ4_XS | IQ3_S

  const GROUP: nat := 32

  function CodeWidth(q: QType): nat {
    match q
    case Q8_0 | IQ4_NL | IQ4_XS => 8
    case Q5_0 | Q5_1 | Q5_K => 5
    case _ => 4
  }

  function BlockElems(q: QType): (n: nat)
    ensures n == 32 || n == 256
  {
    match q
    case Q4_K | Q5_K | IQ4_XS | IQ3_S => 256
    case _ => 32
  }

  function BlockBytes(q: QType): nat {
    match q
    case Q8_0 => 34
    case Q4_0 | IQ4_NL => 18
    case Q4_1 => 20
    case Q5_0 => 22
    case Q5_1 => 24
    case Q4_K => 144
    case Q5_K => 176
    case IQ4_XS => 136
    case IQ3_S => 110
  }

  /**
   What the file format takes as given: the value of a finite fp16 from its two
   bytes, as a whole number of 2^-24 (every finite fp16 is one), the signed 16-entry IQ4
   codebook, and the 512-row IQ3_S grid of odd magnitudes.
   */
  datatype Tables = Tables(fp16: (Byte, Byte) -> int, kvalues: seq<int>, grid: seq<seq<int>>) {
    ghost predicate Valid() {
      && |kvalues| == 16
      && (forall k | 0 <= k < 16 :: -128 <= kvalues[k] < 128)
      && |grid| == 512
      && (forall g | 0 <= g < 512 :: |grid[g]| == 4)
      && (forall g, i | 0 <= g < 512 && 0 <= i < 4 :: 1 <= grid[g][i] <= 15 && grid[g][i] % 2 == 1)
    }
  }

  /** A block split into codes and one scale and bias per group of 32. */
  datatype Parsed = Parsed(codes: seq<nat>, scales: seq<int>, biases: seq<int>)

  // ---- Shared pieces of the parsers ----

  /** Low nibbles first, then high nibbles. */
  function SplitNibbles(bytes: seq<Byte>): (r: seq<nat>)
    ensures |r| == 2 * |bytes|
  {
    seq(|bytes|, i requires 0 <= i < |bytes| => bytes[i] % 16) +
    seq(|bytes|, i requires 0 <= i < |bytes| => bytes[i] / 16)
  }

  /** 128 bytes as 256 nibbles: in each quarter the 32 low nibbles, then the 32 high ones. */
  function SplitNibbleChunks(bytes: seq<Byte>): (r: seq<nat>)
    requires |bytes| == 128
    ensures |r| == 256
  {
    SplitNibbles(bytes[0..32]) + SplitNibbles(bytes[32..64]) +
    SplitNibbles(bytes[64..96]) + SplitNibbles(bytes[96..128])
  }

  /** `low | (high << 4)` with `high` bit `i % 8` of byte `i / 8`. */
  function JoinFifthBits(low: seq<nat>, qh: seq<Byte>): (r: seq<nat>)
    requires |low| == 32 && |qh| == 4
    ensures |r| == 32
  {
    seq(32, i requires 0 <= i < 32 => Or(low[i], Shl(Shr(qh[i / 8], i % 8) % 2, 4)))
  }

  /** The eight 6-bit sub-scales packed in a K-quant header. */
  function SubScales(packed: seq<Byte>): (r: seq<nat>)
    requires |packed| == 12
    ensures |r| == 8
  {
    seq(4, i requires 0 <= i < 4 => packed[i] % 64) +
    seq(4, i requires 0 <= i < 4 => Or(packed[8 + i] % 16, Shl(packed[i] / 64, 4)))
  }

  /** The eight 6-bit sub-mins packed in a K-quant header. */
  function SubMins(packed: seq<Byte>): (r: seq<nat>)
    requires |packed| == 12
    ensures |r| == 8
  {
    seq(4, i requires 0 <= i < 4 => packed[4 + i] % 64) +
    seq(4, i requires 0 <= i < 4 => Or(packed[8 + i] / 16, Shl(packed[4 + i] / 64, 4)))
  }

  function KQuantScales(t: Tables, b: Block): (r: seq<int>)
    requires |b| >= 16
    ensures |r| == 8
  {
    var d := t.fp16(b[0], b[1]);
    seq(8, j requires 0 <= j < 8 => d * SubScales(b[4..16])[j])
  }

  function KQuantBiases(t: Tables, b: Block): (r: seq<int>)
    requires |b| >= 16
    ensures |r| == 8
  {
    var dmin := t.fp16(b[2], b[3]);
    seq(8, j requires 0 <= j < 8 => -(dmin * SubMins(b[4..16])[j]))
  }

  /** IQ4 nibbles replaced by their codebook value plus 128. */
  function IQ4Codes(t: Tables, nibbles: seq<nat>): (r: seq<nat>)
    requires t.Valid() && forall i | 0 <= i < |nibbles| :: nibbles[i] < 16
    ensures |r| == |nibbles|
  {
    seq(|nibbles|, i requires 0 <= i < |nibbles| => t.kvalues[nibbles[i]] + 128)
  }

  lemma NibblesSmall(bytes: seq<Byte>)
    ensures forall i | 0 <= i < |SplitNibbles(bytes)| :: SplitNibbles(bytes)[i] < 16
  {
  }

  // ---- The parsers ----

  function ParseQ8_0(t: Tables, b: Block): Parsed
    requires |b| == 34
  {
    var d := t.fp16(b[0], b[1]);
    // Flipping the sign bit of the byte.
    Parsed(seq(32, i requires 0 <= i < 32 => (b[2 + i] as nat + 128) % 256), [d], [d * -128])
  }

  function ParseQ4_0(t: Tables, b: Block): Parsed
    requires |b| == 18
  {
    var d := t.fp16(b[0], b[1]);
    Parsed(SplitNibbles(b[2..18]), [d], [d * -8])
  }

  function ParseQ4_1(t: Tables, b: Block): Parsed
    requires |b| == 20
  {
    Parsed(SplitNibbles(b[4..20]), [t.fp16(b[0], b[1])], [t.fp16(b[2], b[3])])
  }

  function ParseQ5_0(t: Tables, b: Block): Parsed
    requires |b| == 22
  {
    var d := t.fp16(b[0], b[1]);
    Parsed(JoinFifthBits(SplitNibbles(b[6..22]), b[2..6]), [d], [d * -16])
  }

  function ParseQ5_1(t: Tables, b: Block): Parsed
    requires |b| == 24
  {
    Parsed(JoinFifthBits(SplitNibbles(b[8..24]), b[4..8]), [t.fp16(b[0], b[1])], [t.fp16(b[2], b[3])])
  }

  function ParseQ4_K(t: Tables, b: Block): Parsed
    requires |b| == 144
  {
    Parsed(SplitNibbleChunks(b[16..144]), KQuantScales(t, b), KQuantBiases(t, b))
  }

  function ParseQ5_K(t: Tables, b: Block): Parsed
    requires |b| == 176
  {
    var low := SplitNibbleChunks(b[48..176]);
    var qh := b[16..48];
    Parsed(
      seq(256, e requires 0 <= e < 256 => Or(low[e], Shl(Shr(qh[e % 32], e / 32) % 2, 4))),
      KQuantScales(t, b), KQuantBiases(t, b))
  }

  function ParseIQ4_NL(t: Tables, b: Block): Parsed
    requires t.Valid() && |b| == 18
  {
    var d := t.fp16(b[0], b[1]);
    NibblesSmall(b[2..18]);
    Parsed(IQ4Codes(t, SplitNibbles(b[2..18])), [d], [d * -128])
  }

  /** Nibbles of a byte sequence interleaved low, high, low, high. */
  function InterleavedNibbles(bytes: seq<Byte>): (r: seq<nat>)
    ensures |r| == 2 * |bytes|
  {
    seq(2 * |bytes|, j requires 0 <= j < 2 * |bytes| => if j % 2 == 0 then bytes[j / 2] % 16 else bytes[j / 2] / 16)
  }

  function IQ4XSSubScale(b: Block, j: nat): int
    requires |b| == 136 && j < 8
  {
    var low := InterleavedNibbles(b[4..8])[j];
    var high := Shr(b[2] as nat + 256 * b[3] as nat, 2 * j) % 4;
    Or(low, Shl(high, 4)) - 32
  }

  /** The nibbles of eight 16-byte sub-blocks, each split low then high. */
  function SubBlockNibbles(bytes: seq<Byte>): (r: seq<nat>)
    requires |bytes| == 128
    ensures |r| == 256
  {
    seq(256, e requires 0 <= e < 256 =>
      SplitNibbles(bytes[16 * (e / 32)..16 * (e / 32) + 16])[e % 32])
  }

  lemma SubBlockNibblesSmall(bytes: seq<Byte>)
    requires |bytes| == 128
    ensures forall e | 0 <= e < 256 :: SubBlockNibbles(bytes)[e] < 16
  {
    forall e | 0 <= e < 256
      ensures SubBlockNibbles(bytes)[e] < 16
    {
      NibblesSmall(bytes[16 * (e / 32)..16 * (e / 32) + 16]);
    }
  }

  function ParseIQ4_XS(t: Tables, b: Block): Parsed
    requires t.Valid() && |b| == 136
  {
    var d := t.fp16(b[0], b[1]);
    var scales := seq(8, j requires 0 <= j < 8 => d * IQ4XSSubScale(b, j));
    SubBlockNibblesSmall(b[8..136]);
    Parsed(IQ4Codes(t, SubBlockNibbles(b[8..136])), scales, seq(8, j requires 0 <= j < 8 => scales[j] * -128))
  }

  /** Bit `k % 8` of byte `k / 8`. */
  function PackedBit(bytes: seq<Byte>, k: nat): (r: nat)
    requires k / 8 < |bytes|
    ensures r < 2
  {
    Shr(bytes[k / 8], k % 8) % 2
  }

  function IQ3GridRow(b: Block, i: nat): (r: nat)
    requires |b| == 110 && i < 64
  {
    Or(b[2 + i], Shl(PackedBit(b[66..74], i), 8))
  }

  function IQ3Code(t: Tables, b: Block, e: nat): nat
    requires t.Valid() && |b| == 110 && e < 256
  {
    GridRowSmall(b, e / 4);
    var magnitude := t.grid[IQ3GridRow(b, e / 4)][e % 4];
    (if PackedBit(b[74..106], e) == 1 then 15 - magnitude else 15 + magnitude) / 2
  }

  function ParseIQ3_S(t: Tables, b: Block): Parsed
    requires t.Valid() && |b| == 110
  {
    var d := t.fp16(b[0], b[1]);
    var groupScales := seq(8, j requires 0 <= j < 8 => d * (1 + 2 * InterleavedNibbles(b[106..110])[j]));
    Parsed(
      seq(256, e requires 0 <= e < 256 => IQ3Code(t, b, e)),
      seq(8, j requires 0 <= j < 8 => groupScales[j] * 2),
      seq(8, j requires 0 <= j < 8 => groupScales[j] * -15))
  }

  function Parse(t: Tables, q: QType, b: Block): Parsed
    requires t.Valid() && |b| == BlockBytes(q)
  {
    match q
    case Q8_0 => ParseQ8_0(t, b)
    case Q4_0 => ParseQ4_0(t, b)
    case Q4_1 => ParseQ4_1(t, b)
    case Q5_0 => ParseQ5_0(t, b)
    case Q5_1 => ParseQ5_1(t, b)
    case Q4_K => ParseQ4_K(t, b)
    case Q5_K => ParseQ5_K(t, b)
    case IQ4_NL => ParseIQ4_NL(t, b)
    case IQ4_XS => ParseIQ4_XS(t, b)
    case IQ3_S => ParseIQ3_S(t, b)
  }

  // ---- Element-at-a-time decode, as the formats define it ----

  /** Element `e` of 32 nibbles in 16 bytes: byte `e` low, then byte `e - 16` high. */
  function Nibble(bytes: seq<Byte>, base: nat, e: nat): (r: nat)
    requires e < 32 && base + 16 <= |bytes|
    ensures r < 16
  {
    if e < 16 then bytes[base + e] % 16 else bytes[base + e - 16] / 16
  }

  /** Four bytes as a little-endian 32-bit number. */
  function Little32(bytes: seq<Byte>, base: nat): nat
    requires base + 4 <= |bytes|
  {
    bytes[base] as nat + 256 * (bytes[base + 1] as nat + 256 * (bytes[base + 2] as nat + 256 * bytes[base + 3] as nat))
  }

  function Flag(b: bool): nat {
    if b then 1 else 0
  }

  /** Sub-scale `j` of a 12-byte K-quant header. */
  function HeaderScale(packed: seq<Byte>, j: nat): nat
    requires |packed| == 12 && j < 8
  {
    if j < 4 then packed[j] % 64 else packed[j + 4] % 16 + 16 * (packed[j - 4] / 64)
  }

  /** Sub-min `j` of a 12-byte K-quant header. */
  function HeaderMin(packed: seq<Byte>, j: nat): nat
    requires |packed| == 12 && j < 8
  {
    if j < 4 then packed[j + 4] % 64 else packed[j + 4] / 16 + 16 * (packed[j] / 64)
  }

  /** Nibble of element `e` in 128 bytes: 64 elements share 32 bytes, the first 32 low. */
  function KQuantNibble(b: Block, base: nat, e: nat): (r: nat)
    requires e < 256 && base + 128 <= |b|
    ensures r < 16
  {
    var byte := b[base + 32 * (e / 64) + e % 32];
    if e % 64 < 32 then byte % 16 else byte / 16
  }

  function ElementQ4_K(t: Tables, b: Block, e: nat): int
    requires |b| == 144 && e < 256
  {
    t.fp16(b[0], b[1]) * HeaderScale(b[4..16], e / 32) * KQuantNibble(b, 16, e)
    - t.fp16(b[2], b[3]) * HeaderMin(b[4..16], e / 32)
  }

  /** As Q4_K, with bit `e / 32` of byte `16 + e % 32` above the nibble. */
  function ElementQ5_K(t: Tables, b: Block, e: nat): int
    requires |b| == 176 && e < 256
  {
    var code := KQuantNibble(b, 48, e) + 16 * Flag(Bit(b[16 + e % 32], e / 32));
    t.fp16(b[0], b[1]) * HeaderScale(b[4..16], e / 32) * code
    - t.fp16(b[2], b[3]) * HeaderMin(b[4..16], e / 32)
  }

  /** Nibble `j` of the low scale bytes plus bits `2j..2j+1` of the 16-bit high scales. */
  function IQ4XSScale(b: Block, j: nat): int
    requires |b| == 136 && j < 8
  {
    var low := if j % 2 == 0 then b[4 + j / 2] % 16 else b[4 + j / 2] / 16;
    var word := b[2] as nat + 256 * b[3] as nat;
    low + 16 * (Flag(Bit(word, 2 * j)) + 2 * Flag(Bit(word, 2 * j + 1))) - 32
  }

  function ElementIQ4_XS(t: Tables, b: Block, e: nat): int
    requires t.Valid() && |b| == 136 && e < 256
  {
    t.fp16(b[0], b[1]) * IQ4XSScale(b, e / 32) * t.kvalues[Nibble(b, 8 + 16 * (e / 32), e % 32)]
  }

  function IQ3Multiplier(b: Block, j: nat): nat
    requires |b| == 110 && j < 8
  {
    1 + 2 * if j % 2 == 0 then b[106 + j / 2] % 16 else b[106 + j / 2] / 16
  }

  /** The signed grid value of weight `e`. */
  function IQ3Value(t: Tables, b: Block, e: nat): int
    requires t.Valid() && |b| == 110 && e < 256
  {
    var row := b[2 + e / 4] as nat + 256 * Flag(Bit(b[66 + e / 32], e / 4 % 8));
    if Bit(b[74 + e / 8], e % 8) then -t.grid[row][e % 4] else t.grid[row][e % 4]
  }

  function ElementIQ3_S(t: Tables, b: Block, e: nat): int
    requires t.Valid() && |b| == 110 && e < 256
  {
    t.fp16(b[0], b[1]) * IQ3Multiplier(b, e / 32) * IQ3Value(t, b, e)
  }

  function Element(t: Tables, q: QType, b: Block, e: nat): int
    requires t.Valid() && |b| == BlockBytes(q) && e < BlockElems(q)
  {
    var d := t.fp16(b[0], b[1]);
    match q
    case Q8_0 => d * Int8(b[2 + e])
    case Q4_0 => d * (Nibble(b, 2, e) - 8)
    case Q4_1 => d * Nibble(b, 4, e) + t.fp16(b[2], b[3])
    case Q5_0 => d * (Nibble(b, 6, e) + 16 * Flag(Bit(Little32(b, 2), e)) - 16)
    case Q5_1 => d * (Nibble(b, 8, e) + 16 * Flag(Bit(Little32(b, 4), e))) + t.fp16(b[2], b[3])
    case Q4_K => ElementQ4_K(t, b, e)
    case Q5_K => ElementQ5_K(t, b, e)
    case IQ4_NL => d * t.kvalues[Nibble(b, 2, e)]
    case IQ4_XS => ElementIQ4_XS(t, b, e)
    case IQ3_S => ElementIQ3_S(t, b, e)
  }

  // ---- Bit facts ----

  lemma Byte8(x: nat)
    requires x < 256
    ensures Fits(x, 8)
  {
    assert Pow2(8) == 256;
    SmallFits(x, 8);
  }

  lemma Nibble4(x: nat)
    requires x < 16
    ensures Fits(x, 4)
  {
    assert Pow2(4) == 16;
    SmallFits(x, 4);
  }

  lemma Code5(x: nat)
    requires x < 32
    ensures Fits(x, 5)
  {
    assert Pow2(5) == 32;
    SmallFits(x, 5);
  }

  lemma Shl4(x: nat)
    ensures Shl(x, 4) == 16 * x
  {
    assert Shl(x, 4) == 2 * Shl(x, 3) == 4 * Shl(x, 2) == 8 * Shl(x, 1) == 16 * Shl(x, 0);
  }

  /** Joining a nibble with higher bits by `|` is an addition. */
  lemma Join4(low: nat, high: nat)
    requires low < 16
    ensures Or(low, Shl(high, 4)) == low + 16 * high
  {
    Nibble4(low);
    JoinBits(low, high, 4);
    Shl4(high);
  }

  lemma Join8(low: nat, high: nat)
    requires low < 256
    ensures Or(low, Shl(high, 8)) == low + 256 * high
  {
    Byte8(low);
    JoinBits(low, high, 8);
    Shl8(high);
  }

  lemma ShiftedParity(x: nat, s: nat)
    ensures Shr(x, s) % 2 == Flag(Bit(x, s))
  {
    BitShr(x, s, 0);
  }

  lemma ShiftedPair(x: nat, s: nat)
    ensures Shr(x, s) % 4 == Flag(Bit(x, s)) + 2 * Flag(Bit(x, s + 1))
  {
    BitShr(x, s, 0);
    BitShr(x, s, 1);
    assert Bit(Shr(x, s), 1) <==> Shr(x, s) / 2 % 2 == 1;
  }

  lemma GridRowSmall(b: Block, i: nat)
    requires |b| == 110 && i < 64
    ensures IQ3GridRow(b, i) == b[2 + i] + 256 * PackedBit(b[66..74], i) < 512
  {
    Join8(b[2 + i], PackedBit(b[66..74], i));
  }

  // ---- Codes of the pieces ----

  lemma SplitNibblesAt(b: Block, base: nat, e: nat)
    requires base + 16 <= |b| && e < 32
    ensures SplitNibbles(b[base..base + 16])[e] == Nibble(b, base, e)
  {
  }

  lemma ChunksAt(b: Block, base: nat, e: nat)
    requires base + 128 <= |b| && e < 256
    ensures SplitNibbleChunks(b[base..base + 128])[e] == KQuantNibble(b, base, e)
  {
    var bytes := b[base..base + 128];
    var c, i := e / 64, e % 64;
    assert SplitNibbleChunks(bytes)[e] == SplitNibbles(bytes[32 * c..32 * c + 32])[i];
    var k := i % 32;
    assert k == e % 32;
    assert bytes[32 * c..32 * c + 32][k] == bytes[32 * c + k];
    assert bytes[32 * c + k] == b[base + 32 * c + k];
  }

  lemma FifthBitAt(b: Block, base: nat, qh: nat, e: nat)
    requires base + 16 <= |b| && qh + 4 <= |b| && e < 32
    ensures JoinFifthBits(SplitNibbles(b[base..base + 16]), b[qh..qh + 4])[e] ==
              Nibble(b, base, e) + 16 * Flag(Bit(Little32(b, qh), e))
  {
    var byte := b[qh + e / 8];
    assert b[qh..qh + 4][e / 8] == byte;
    SplitNibblesAt(b, base, e);
    ShiftedParity(byte, e % 8);
    Join4(Nibble(b, base, e), Flag(Bit(byte, e % 8)));
    Byte8(b[qh]);
    Byte8(b[qh + 1]);
    Byte8(b[qh + 2]);
    Byte8(b[qh + 3]);
    WordFromBytes(b[qh], b[qh + 1], b[qh + 2], b[qh + 3], e);
  }

  lemma HeaderAt(packed: seq<Byte>, j: nat)
    requires |packed| == 12 && j < 8
    ensures SubScales(packed)[j] == HeaderScale(packed, j) && SubMins(packed)[j] == HeaderMin(packed, j)
  {
    if j >= 4 {
      Join4(packed[4 + j] % 16, packed[j - 4] / 64);
      Join4(packed[4 + j] / 16, packed[j] / 64);
    }
  }

  // ---- The affine triple means what the block means ----

  ghost predicate WellParsed(p: Parsed, q: QType) {
    && |p.codes| == BlockElems(q)
    && |p.scales| == |p.biases| == BlockElems(q) / GROUP
    && CodesFit(p.codes, CodeWidth(q))
  }

  /** The weight that the affine triple assigns to element `e` of the block. */
  function Affine(p: Parsed, e: nat): int
    requires e < |p.codes| && e / GROUP < |p.scales| && e / GROUP < |p.biases|
  {
    p.scales[e / GROUP] * p.codes[e] + p.biases[e / GROUP]
  }

  lemma Centred(d: int, v: int, c: nat, k: int)
    requires c == v + k
    ensures d * c + d * -(k) == d * v
  {
    assert c == v + k;
  }

  /** The shape of every affine reading: parts that agree one by one give the same weight. */
  lemma AffineParts(p: Parsed, e: nat, scale: int, code: nat, bias: int)
    requires e < |p.codes| && e / GROUP < |p.scales| && e / GROUP < |p.biases|
    requires p.scales[e / GROUP] == scale && p.codes[e] == code && p.biases[e / GROUP] == bias
    ensures Affine(p, e) == scale * code + bias
  {
  }

  lemma KQuantParts(t: Tables, b: Block, j: nat)
    requires |b| >= 16 && j < 8
    ensures KQuantScales(t, b)[j] == t.fp16(b[0], b[1]) * HeaderScale(b[4..16], j)
    ensures KQuantBiases(t, b)[j] == -(t.fp16(b[2], b[3]) * HeaderMin(b[4..16], j))
  {
    HeaderAt(b[4..16], j);
  }

  lemma OddScaled(g: int, c: nat, v: int)
    requires 2 * c == 15 + v
    ensures g * 2 * c + g * -15 == g * v
  {
    assert 2 * c == 15 + v;
    assert g * 2 * c == g * (2 * c);
  }

  lemma JoinedSmall(low: nat, high: nat)
    requires low < 16 && high < 2
    ensures Or(low, Shl(high, 4)) < 32
  {
    Join4(low, high);
  }

  lemma Codes5Fit(codes: seq<nat>)
    requires forall i | 0 <= i < |codes| :: codes[i] < 32
    ensures CodesFit(codes, 5)
  {
    forall i | 0 <= i < |codes| {
      Code5(codes[i]);
    }
  }

  lemma Codes4Fit(codes: seq<nat>)
    requires forall i | 0 <= i < |codes| :: codes[i] < 16
    ensures CodesFit(codes, 4)
  {
    forall i | 0 <= i < |codes| {
      Nibble4(codes[i]);
    }
  }

  lemma Codes8Fit(codes: seq<nat>)
    requires forall i | 0 <= i < |codes| :: codes[i] < 256
    ensures CodesFit(codes, 8)
  {
    forall i | 0 <= i < |codes| {
      Byte8(codes[i]);
    }
  }

  lemma FifthBitsSmall(low: seq<nat>, qh: seq<Byte>)
    requires |low| == 32 && |qh| == 4 && forall i | 0 <= i < 32 :: low[i] < 16
    ensures CodesFit(JoinFifthBits(low, qh), 5)
  {
    var codes := JoinFifthBits(low, qh);
    forall i | 0 <= i < 32
      ensures codes[i] < 32
    {
      JoinedSmall(low[i], Shr(qh[i / 8], i % 8) % 2);
    }
    Codes5Fit(codes);
  }

  lemma ChunksSmall(bytes: seq<Byte>)
    requires |bytes| == 128
    ensures forall e | 0 <= e < 256 :: SplitNibbleChunks(bytes)[e] < 16
  {
    NibblesSmall(bytes[0..32]);
    NibblesSmall(bytes[32..64]);
    NibblesSmall(bytes[64..96]);
    NibblesSmall(bytes[96..128]);
  }

  lemma IQ3RowIs(b: Block, e: nat)
    requires |b| == 110 && e < 256
    ensures IQ3GridRow(b, e / 4) == b[2 + e / 4] as nat + 256 * Flag(Bit(b[66 + e / 32], e / 4 % 8)) < 512
  {
    GridRowSmall(b, e / 4);
    PackedBitIs(b, 66, 8, e / 4);
    assert e / 4 / 8 == e / 32;
  }

  lemma PackedBitIs(b: Block, base: nat, count: nat, k: nat)
    requires base + count <= |b| && k / 8 < count
    ensures PackedBit(b[base..base + count], k) == Flag(Bit(b[base + k / 8], k % 8))
  {
    assert b[base..base + count][k / 8] == b[base + k / 8];
    ShiftedParity(b[base + k / 8], k % 8);
  }

  lemma HalfOfOdd(m: int, c: int, v: int)
    requires 1 <= m <= 15 && m % 2 == 1 && (v == m || v == -m) && c == (15 + v) / 2
    ensures 0 <= c < 16 && 2 * c == 15 + v
  {
  }

  /** `(15 +- magnitude) >> 1` is exact because every grid magnitude is odd. */
  lemma IQ3CodeIs(t: Tables, b: Block, e: nat)
    requires t.Valid() && |b| == 110 && e < 256
    ensures IQ3Code(t, b, e) < 16
    ensures 2 * IQ3Code(t, b, e) == 15 + IQ3Value(t, b, e)
  {
    IQ3RowIs(b, e);
    PackedBitIs(b, 74, 32, e);
    HalfOfOdd(t.grid[IQ3GridRow(b, e / 4)][e % 4], IQ3Code(t, b, e), IQ3Value(t, b, e));
  }

  lemma IQ4XSScaleIs(b: Block, j: nat)
    requires |b| == 136 && j < 8
    ensures IQ4XSSubScale(b, j) == IQ4XSScale(b, j)
  {
    var word := b[2] as nat + 256 * b[3] as nat;
    var low := InterleavedNibbles(b[4..8])[j];
    assert b[4..8][j / 2] == b[4 + j / 2];
    ShiftedPair(word, 2 * j);
    Join4(low, Shr(word, 2 * j) % 4);
  }

  lemma SubBlockAt(b: Block, base: nat, e: nat)
    requires base + 128 <= |b| && e < 256
    ensures SubBlockNibbles(b[base..base + 128])[e] == Nibble(b, base + 16 * (e / 32), e % 32)
  {
    var bytes := b[base..base + 128];
    var lo := 16 * (e / 32);
    assert bytes[lo..lo + 16] == b[base + lo..base + lo + 16];
    SplitNibblesAt(b, base + lo, e % 32);
  }

  lemma Simple8Exact(t: Tables, q: QType, b: Block, e: nat)
    requires t.Valid() && |b| == BlockBytes(q) && e < 32 && q in {Q8_0, IQ4_NL}
    ensures WellParsed(Parse(t, q, b), q) && Affine(Parse(t, q, b), e) == Element(t, q, b, e)
  {
    var p := Parse(t, q, b);
    var d := t.fp16(b[0], b[1]);
    Codes8Fit(p.codes);
    if q == Q8_0 {
      Centred(d, Int8(b[2 + e]), p.codes[e], 128);
    } else {
      SplitNibblesAt(b, 2, e);
      Centred(d, t.kvalues[Nibble(b, 2, e)], p.codes[e], 128);
    }
  }

  lemma Simple4Exact(t: Tables, q: QType, b: Block, e: nat)
    requires t.Valid() && |b| == BlockBytes(q) && e < 32 && q in {Q4_0, Q4_1}
    ensures WellParsed(Parse(t, q, b), q) && Affine(Parse(t, q, b), e) == Element(t, q, b, e)
  {
    var p := Parse(t, q, b);
    Codes4Fit(p.codes);
    if q == Q4_0 {
      SplitNibblesAt(b, 2, e);
      Centred(t.fp16(b[0], b[1]), Nibble(b, 2, e) - 8, p.codes[e], 8);
    } else {
      SplitNibblesAt(b, 4, e);
    }
  }

  lemma Q5_0Exact(t: Tables, b: Block, e: nat)
    requires |b| == 22 && e < 32
    ensures CodesFit(ParseQ5_0(t, b).codes, 5)
    ensures Affine(ParseQ5_0(t, b), e) ==
              t.fp16(b[0], b[1]) * (Nibble(b, 6, e) + 16 * Flag(Bit(Little32(b, 2), e)) - 16)
  {
    var d := t.fp16(b[0], b[1]);
    var code := Nibble(b, 6, e) + 16 * Flag(Bit(Little32(b, 2), e));
    FifthBitsSmall(SplitNibbles(b[6..22]), b[2..6]);
    FifthBitAt(b, 6, 2, e);
    AffineParts(ParseQ5_0(t, b), e, d, code, d * -16);
    Centred(d, code - 16, code, 16);
  }

  lemma Q5_1Exact(t: Tables, b: Block, e: nat)
    requires |b| == 24 && e < 32
    ensures CodesFit(ParseQ5_1(t, b).codes, 5)
    ensures Affine(ParseQ5_1(t, b), e) ==
              t.fp16(b[0], b[1]) * (Nibble(b, 8, e) + 16 * Flag(Bit(Little32(b, 4), e))) + t.fp16(b[2], b[3])
  {
    var code := Nibble(b, 8, e) + 16 * Flag(Bit(Little32(b, 4), e));
    FifthBitsSmall(SplitNibbles(b[8..24]), b[4..8]);
    FifthBitAt(b, 8, 4, e);
    AffineParts(ParseQ5_1(t, b), e, t.fp16(b[0], b[1]), code, t.fp16(b[2], b[3]));
  }

  lemma Q4KFits(t: Tables, b: Block)
    requires |b| == 144
    ensures CodesFit(ParseQ4_K(t, b).codes, 4)
  {
    ChunksSmall(b[16..144]);
    Codes4Fit(SplitNibbleChunks(b[16..144]));
  }

  lemma Q4KExact(t: Tables, b: Block, e: nat)
    requires |b| == 144 && e < 256
    ensures Affine(ParseQ4_K(t, b), e) == ElementQ4_K(t, b, e)
  {
    ChunksAt(b, 16, e);
    KQuantParts(t, b, e / 32);
    AffineParts(ParseQ4_K(t, b), e, KQuantScales(t, b)[e / 32], KQuantNibble(b, 16, e), KQuantBiases(t, b)[e / 32]);
  }

  lemma Q5KCode(t: Tables, b: Block, e: nat)
    requires |b| == 176 && e < 256
    ensures ParseQ5_K(t, b).codes[e] == KQuantNibble(b, 48, e) + 16 * Flag(Bit(b[16 + e % 32], e / 32)) < 32
  {
    ChunksAt(b, 48, e);
    assert b[16..48][e % 32] == b[16 + e % 32];
    ShiftedParity(b[16 + e % 32], e / 32);
    Join4(KQuantNibble(b, 48, e), Flag(Bit(b[16 + e % 32], e / 32)));
  }

  lemma Q5KFits(t: Tables, b: Block)
    requires |b| == 176
    ensures CodesFit(ParseQ5_K(t, b).codes, 5)
  {
    forall i: nat | i < 256
      ensures ParseQ5_K(t, b).codes[i] < 32
    {
      Q5KCode(t, b, i);
    }
    Codes5Fit(ParseQ5_K(t, b).codes);
  }

  lemma Q5KExact(t: Tables, b: Block, e: nat)
    requires |b| == 176 && e < 256
    ensures Affine(ParseQ5_K(t, b), e) == ElementQ5_K(t, b, e)
  {
    Q5KCode(t, b, e);
    KQuantParts(t, b, e / 32);
    AffineParts(ParseQ5_K(t, b), e, KQuantScales(t, b)[e / 32], ParseQ5_K(t, b).codes[e], KQuantBiases(t, b)[e / 32]);
  }

  lemma IQ4XSFits(t: Tables, b: Block)
    requires t.Valid() && |b| == 136
    ensures CodesFit(ParseIQ4_XS(t, b).codes, 8)
  {
    SubBlockNibblesSmall(b[8..136]);
    Codes8Fit(IQ4Codes(t, SubBlockNibbles(b[8..136])));
  }

  lemma IQ4XSExact(t: Tables, b: Block, e: nat)
    requires t.Valid() && |b| == 136 && e < 256
    ensures Affine(ParseIQ4_XS(t, b), e) == ElementIQ4_XS(t, b, e)
  {
    var p := ParseIQ4_XS(t, b);
    var v := t.kvalues[Nibble(b, 8 + 16 * (e / 32), e % 32)];
    SubBlockNibblesSmall(b[8..136]);
    SubBlockAt(b, 8, e);
    IQ4XSScaleIs(b, e / 32);
    var scale := t.fp16(b[0], b[1]) * IQ4XSScale(b, e / 32);
    AffineParts(p, e, scale, v + 128, scale * -128);
    Centred(scale, v, v + 128, 128);
  }

  lemma IQ3SFits(t: Tables, b: Block)
    requires t.Valid() && |b| == 110
    ensures CodesFit(ParseIQ3_S(t, b).codes, 4)
  {
    forall i: nat | i < 256
      ensures ParseIQ3_S(t, b).codes[i] < 16
    {
      IQ3CodeIs(t, b, i);
    }
    Codes4Fit(ParseIQ3_S(t, b).codes);
  }

  lemma IQ3SExact(t: Tables, b: Block, e: nat)
    requires t.Valid() && |b| == 110 && e < 256
    ensures Affine(ParseIQ3_S(t, b), e) == ElementIQ3_S(t, b, e)
  {
    IQ3CodeIs(t, b, e);
    IQ3MultiplierIs(b, e / 32);
    var scale := t.fp16(b[0], b[1]) * IQ3Multiplier(b, e / 32);
    AffineParts(ParseIQ3_S(t, b), e, scale * 2, IQ3Code(t, b, e), scale * -15);
    OddScaled(scale, IQ3Code(t, b, e), IQ3Value(t, b, e));
  }

  lemma IQ3MultiplierIs(b: Block, j: nat)
    requires |b| == 110 && j < 8
    ensures 1 + 2 * InterleavedNibbles(b[106..110])[j] == IQ3Multiplier(b, j)
  {
    assert b[106..110][j / 2] == b[106 + j / 2];
  }

  /**
   For every format, every block and every element, the affine triple gives the
   weight that the block format defines, and every code fits the format's width.
   */
  lemma BlockExact(t: Tables, q: QType, b: Block, e: nat)
    requires t.Valid() && |b| == BlockBytes(q) && e < BlockElems(q)
    ensures WellParsed(Parse(t, q, b), q)
    ensures Affine(Parse(t, q, b), e) == Element(t, q, b, e)
  {
    match q
    case Q8_0 | IQ4_NL => Simple8Exact(t, q, b, e);
    case Q4_0 | Q4_1 => Simple4Exact(t, q, b, e);
    case Q5_0 => Q5_0Exact(t, b, e);
    case Q5_1 => Q5_1Exact(t, b, e);
    case Q4_K => Q4KFits(t, b); Q4KExact(t, b, e);
    case Q5_K => Q5KFits(t, b); Q5KExact(t, b, e);
    case IQ4_XS => IQ4XSFits(t, b); IQ4XSExact(t, b, e);
    case IQ3_S => IQ3SFits(t, b); IQ3SExact(t, b, e);
  }
}
