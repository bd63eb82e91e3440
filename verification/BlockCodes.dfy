/**
 Blocks of the affine formats built from their fields, in plain arithmetic, and what
 every element of such a block means.  With `BlockExact` this says what the loader's
 codes, scales and biases mean in terms of the fields.
 */
module BlockCodes {
  import opened Bits
  import opened BlockFormats
  import opened BlockGrid
  import opened CodeBytes
  import opened KQuantHeaders
  import opened PackCodes

  // ---- Nibbles and fifth bits of 32 codes ----

  /** Sixteen bytes: codes `i` and `i + 16` share a byte. */
  ghost predicate Halves(b: Block, base: nat, codes: seq<nat>) {
    && |codes| == 32 && base + 16 <= |b|
    && forall i | 0 <= i < 16 :: b[base + i] == codes[i] % 16 + 16 * (codes[i + 16] % 16)
  }

  lemma HalvesAt(b: Block, base: nat, codes: seq<nat>, e: nat)
    requires Halves(b, base, codes) && e < 32
    ensures Nibble(b, base, e) == codes[e] % 16
  {
    var i := if e < 16 then e else e - 16;
    assert b[base + i] == codes[i] % 16 + 16 * (codes[i + 16] % 16);
    OverSixteen(codes[i] % 16, codes[i + 16] % 16);
  }

  /** Four bytes: the fifth bit of code `8 * i + k` is bit `k` of byte `i`. */
  ghost predicate FifthBits(b: Block, base: nat, codes: seq<nat>) {
    && Below(codes, 32, 32) && base + 4 <= |b|
    && forall i | 0 <= i < 4 :: b[base + i] == EightBits(codes, 16, 8 * i, 1)
  }

  lemma FifthBitsAt(b: Block, base: nat, codes: seq<nat>, e: nat)
    requires FifthBits(b, base, codes) && e < 32
    ensures Flag(Bit(Little32(b, base), e)) == codes[e] / 16
  {
    LittleAt(b, base, e);
    InOrder(b[base + e / 8], codes, 16, e);
  }

  lemma LittleAt(b: Block, base: nat, e: nat)
    requires base + 4 <= |b| && e < 32
    ensures Bit(Little32(b, base), e) <==> Bit(b[base + e / 8], e % 8)
  {
    Byte8(b[base]);
    Byte8(b[base + 1]);
    Byte8(b[base + 2]);
    Byte8(b[base + 3]);
    WordFromBytes(b[base], b[base + 1], b[base + 2], b[base + 3], e);
  }

  /** Eight codes in order: bit `i % 8` of the byte is that of code `i`. */
  lemma InOrder(byte: Byte, codes: seq<nat>, weight: nat, i: nat)
    requires weight > 0 && i < |codes| && 8 * (i / 8) + 7 < |codes| && byte == EightBits(codes, weight, 8 * (i / 8), 1)
    ensures Flag(Bit(byte, i % 8)) == codes[i] / weight % 2
  {
    FlagIs(byte, i % 8);
    EightBitsAt(codes, weight, 8 * (i / 8), 1, i % 8, i);
  }

  /** The byte of a signed number. */
  predicate SignedByte(byte: Byte, value: int) {
    -128 <= value < 128 && byte == value + if value < 0 then 256 else 0
  }

  // ---- The formats of 32 elements ----

  /** Q8_0: `d * code` for signed codes. */
  lemma Q8Means(t: Tables, b: Block, codes: seq<int>, e: nat)
    requires t.Valid() && |b| == 34 && |codes| == 32 && e < 32
    requires forall i | 0 <= i < 32 :: SignedByte(b[2 + i], codes[i])
    ensures Element(t, Q8_0, b, e) == t.fp16(b[0], b[1]) * codes[e]
  {
  }

  /** Q4_0: `d * (code - 8)`; Q4_1: `d * code + m`. */
  lemma FourBitMeans(t: Tables, b: Block, codes: seq<nat>, e: nat)
    requires t.Valid() && Below(codes, 32, 16) && e < 32
    ensures |b| == 18 && Halves(b, 2, codes) ==>
              Element(t, Q4_0, b, e) == t.fp16(b[0], b[1]) * (codes[e] as int - 8)
    ensures |b| == 20 && Halves(b, 4, codes) ==>
              Element(t, Q4_1, b, e) == t.fp16(b[0], b[1]) * codes[e] + t.fp16(b[2], b[3])
  {
    if Halves(b, 2, codes) {
      HalvesAt(b, 2, codes, e);
    }
    if Halves(b, 4, codes) {
      HalvesAt(b, 4, codes, e);
    }
  }

  /** IQ4_NL: `d` times the code's entry in the codebook. */
  lemma IQ4NLMeans(t: Tables, b: Block, codes: seq<nat>, e: nat)
    requires t.Valid() && |b| == 18 && Below(codes, 32, 16) && Halves(b, 2, codes) && e < 32
    ensures Element(t, IQ4_NL, b, e) == t.fp16(b[0], b[1]) * t.kvalues[codes[e]]
  {
    HalvesAt(b, 2, codes, e);
  }

  /** Q5_0: `d * (code - 16)`. */
  lemma Q5_0Means(t: Tables, b: Block, codes: seq<nat>, e: nat)
    requires t.Valid() && |b| == 22 && FifthBits(b, 2, codes) && Halves(b, 6, codes) && e < 32
    ensures Element(t, Q5_0, b, e) == t.fp16(b[0], b[1]) * (codes[e] as int - 16)
  {
    HalvesAt(b, 6, codes, e);
    FifthBitsAt(b, 2, codes, e);
  }

  /** Q5_1: `d * code + m`. */
  lemma Q5_1Means(t: Tables, b: Block, codes: seq<nat>, e: nat)
    requires t.Valid() && |b| == 24 && FifthBits(b, 4, codes) && Halves(b, 8, codes) && e < 32
    ensures Element(t, Q5_1, b, e) == t.fp16(b[0], b[1]) * codes[e] + t.fp16(b[2], b[3])
  {
    HalvesAt(b, 8, codes, e);
    FifthBitsAt(b, 4, codes, e);
  }

  // ---- Q4_K and Q5_K ----

  /** 128 bytes: in each run of 64 codes, codes `i` and `i + 32` share a byte. */
  ghost predicate Quarters(b: Block, base: nat, codes: seq<nat>) {
    |codes| == 256 && base + 128 <= |b| && forall c, i | 0 <= c < 4 && 0 <= i < 32 :: QuarterByte(b, base, codes, c, i)
  }

  ghost predicate QuarterByte(b: Block, base: nat, codes: seq<nat>, c: nat, i: nat)
    requires |codes| == 256 && base + 128 <= |b| && c < 4 && i < 32
  {
    b[base + 32 * c + i] == codes[64 * c + i] % 16 + 16 * (codes[64 * c + i + 32] % 16)
  }

  lemma QuartersAt(b: Block, base: nat, codes: seq<nat>, e: nat)
    requires Quarters(b, base, codes) && e < 256
    ensures KQuantNibble(b, base, e) == codes[e] % 16
  {
    var c, i := e / 64, e % 32;
    QuarterPlace(e, c, i);
    assert QuarterByte(b, base, codes, c, i);
    OverSixteen(codes[64 * c + i] % 16, codes[64 * c + i + 32] % 16);
  }

  lemma QuarterPlace(e: nat, c: nat, i: nat)
    requires e < 256 && c == e / 64 && i == e % 32
    ensures c < 4 && i < 32 && e == if e % 64 < 32 then 64 * c + i else 64 * c + i + 32
  {
  }

  /** The factors' bytes are free; eight scales and eight mins of six bits follow. */
  ghost predicate KQuantHeader(b: Block, scales: seq<nat>, mins: seq<nat>) {
    SixBits(scales, 8) && SixBits(mins, 8) && |b| >= 16 && b[4..16] == EncodeHeader(scales, mins)
  }

  lemma KQuantHeaderAt(b: Block, scales: seq<nat>, mins: seq<nat>, j: nat)
    requires KQuantHeader(b, scales, mins) && j < 8
    ensures HeaderScale(b[4..16], j) == scales[j] && HeaderMin(b[4..16], j) == mins[j]
  {
    DecodedBack(scales, mins, j);
  }

  /** Q4_K: `d * scale * code - dmin * min`. */
  lemma Q4KMeans(t: Tables, b: Block, codes: seq<nat>, scales: seq<nat>, mins: seq<nat>, e: nat)
    requires t.Valid() && |b| == 144 && KQuantHeader(b, scales, mins) && e < 256
    requires Below(codes, 256, 16) && Quarters(b, 16, codes)
    ensures Element(t, Q4_K, b, e) ==
              t.fp16(b[0], b[1]) * scales[e / 32] * codes[e] - t.fp16(b[2], b[3]) * mins[e / 32]
  {
    KQuantHeaderAt(b, scales, mins, e / 32);
    SmallQuartersAt(b, codes, e);
  }

  lemma SmallQuartersAt(b: Block, codes: seq<nat>, e: nat)
    requires Below(codes, 256, 16) && |b| == 144 && Quarters(b, 16, codes) && e < 256
    ensures KQuantNibble(b, 16, e) == codes[e]
  {
    QuartersAt(b, 16, codes, e);
  }

  /** The 128 nibble bytes of 256 codes. */
  function QuarterBytes(codes: seq<nat>): (bytes: seq<Byte>)
    requires |codes| == 256
    ensures |bytes| == 128
  {
    seq(128, i requires 0 <= i < 128 =>
      codes[i / 32 * 64 + i % 32] % 16 + 16 * (codes[i / 32 * 64 + i % 32 + 32] % 16))
  }

  lemma QuartersMade(b: Block, base: nat, codes: seq<nat>)
    requires |codes| == 256 && |b| == base + 128 && b[base..] == QuarterBytes(codes)
    ensures Quarters(b, base, codes)
  {
    forall c: nat, i: nat | c < 4 && i < 32
      ensures QuarterByte(b, base, codes, c, i)
    {
      var k := 32 * c + i;
      assert k / 32 == c && k % 32 == i;
      assert b[base..][k] == b[base + k];
    }
  }

  /** Any codes, scales, mins and factors make a block. */
  lemma Q4KExists(codes: seq<nat>, scales: seq<nat>, mins: seq<nat>, d: seq<Byte>) returns (b: Block)
    requires Below(codes, 256, 16) && SixBits(scales, 8) && SixBits(mins, 8) && |d| == 4
    ensures |b| == 144 && b[..4] == d && KQuantHeader(b, scales, mins) && Quarters(b, 16, codes)
  {
    b := d + EncodeHeader(scales, mins) + QuarterBytes(codes);
    QuartersMade(b, 16, codes);
  }

  /** 32 bytes: the fifth bit of code `i + 32 * k` is bit `k` of byte `i`. */
  ghost predicate FifthPlanes(b: Block, codes: seq<nat>) {
    && Below(codes, 256, 32) && |b| == 176
    && forall i | 0 <= i < 32 :: b[16 + i] == EightBits(codes, 16, i, 32)
  }

  lemma FifthPlanesAt(b: Block, codes: seq<nat>, e: nat)
    requires FifthPlanes(b, codes) && e < 256
    ensures Flag(Bit(b[16 + e % 32], e / 32)) == codes[e] / 16
  {
    FlagIs(b[16 + e % 32], e / 32);
    EightBitsAt(codes, 16, e % 32, 32, e / 32, e);
  }

  /** Q5_K: the same with codes of five bits. */
  lemma Q5KMeans(t: Tables, b: Block, codes: seq<nat>, scales: seq<nat>, mins: seq<nat>, e: nat)
    requires t.Valid() && KQuantHeader(b, scales, mins) && FifthPlanes(b, codes) && Quarters(b, 48, codes) && e < 256
    ensures Element(t, Q5_K, b, e) ==
              t.fp16(b[0], b[1]) * scales[e / 32] * codes[e] - t.fp16(b[2], b[3]) * mins[e / 32]
  {
    KQuantHeaderAt(b, scales, mins, e / 32);
    QuartersAt(b, 48, codes, e);
    FifthPlanesAt(b, codes, e);
  }

  lemma Q5KExists(codes: seq<nat>, scales: seq<nat>, mins: seq<nat>, d: seq<Byte>) returns (b: Block)
    requires Below(codes, 256, 32) && SixBits(scales, 8) && SixBits(mins, 8) && |d| == 4
    ensures KQuantHeader(b, scales, mins) && b[..4] == d && FifthPlanes(b, codes) && Quarters(b, 48, codes)
  {
    var planes := seq<Byte>(32, i requires 0 <= i < 32 => EightBits(codes, 16, i, 32));
    b := d + EncodeHeader(scales, mins) + planes + QuarterBytes(codes);
    QuartersMade(b, 48, codes);
  }

  // ---- IQ4_XS ----

  /** 128 bytes: in each run of 32 codes, codes `i` and `i + 16` share a byte. */
  ghost predicate SubBlocks(b: Block, codes: seq<nat>) {
    Below(codes, 256, 16) && |b| == 136 && forall c, i | 0 <= c < 8 && 0 <= i < 16 :: SubBlockByte(b, codes, c, i)
  }

  ghost predicate SubBlockByte(b: Block, codes: seq<nat>, c: nat, i: nat)
    requires |codes| == 256 && |b| == 136 && c < 8 && i < 16
  {
    b[8 + 16 * c + i] == codes[32 * c + i] + 16 * codes[32 * c + i + 16]
  }

  lemma SubBlocksAt(b: Block, codes: seq<nat>, e: nat)
    requires SubBlocks(b, codes) && e < 256
    ensures Nibble(b, 8 + 16 * (e / 32), e % 32) == codes[e]
  {
    var c, i := e / 32, e % 16;
    SubBlockPlace(e, c, i);
    assert SubBlockByte(b, codes, c, i);
    OverSixteen(codes[32 * c + i], codes[32 * c + i + 16]);
  }

  lemma SubBlockPlace(e: nat, c: nat, i: nat)
    requires e < 256 && c == e / 32 && i == e % 16
    ensures c < 8 && i < 16 && e == if e % 32 < 16 then 32 * c + i else 32 * c + i + 16
    ensures e % 32 == if e % 32 < 16 then i else i + 16
  {
  }

  /** The two bits above the nibbles of four scales. */
  function HighPairs(fields: seq<nat>, at: nat): (byte: nat)
    requires SixBits(fields, 8) && at <= 4
    ensures byte < 256
  {
    fields[at] / 16 + 4 * (fields[at + 1] / 16 + 4 * (fields[at + 2] / 16 + 4 * (fields[at + 3] / 16)))
  }

  /** Eight scales of six bits: the high pairs, then the nibbles. */
  ghost predicate SubScaleBytes(b: Block, fields: seq<nat>) {
    && |b| == 136 && SixBits(fields, 8)
    && b[2] == HighPairs(fields, 0) && b[3] == HighPairs(fields, 4)
    && forall j | 0 <= j < 4 :: b[4 + j] == fields[2 * j] % 16 + 16 * (fields[2 * j + 1] % 16)
  }

  lemma HighPairsAt(fields: seq<nat>, at: nat, k: nat)
    requires SixBits(fields, 8) && at <= 4 && k < 4
    ensures TwoBits(HighPairs(fields, at), k) == fields[at + k] / 16
  {
    PairsOf(fields[at] / 16, fields[at + 1] / 16, fields[at + 2] / 16, fields[at + 3] / 16, HighPairs(fields, at));
  }

  /** The pairs of a 16-bit word are those of its low byte, then those of its high byte. */
  lemma WordPairs(low: nat, high: nat, k: nat)
    requires low < 256 && k < 4
    ensures TwoBits(low + 256 * high, k) == TwoBits(low, k)
    ensures TwoBits(low + 256 * high, k + 4) == TwoBits(high, k)
  {
    var x := low + 256 * high;
    FourPairs(x);
    FourPairs(low);
    PairShift(x, k);
    assert x / 4 == low / 4 + 64 * high;
    assert x / 4 / 4 == low / 4 / 4 + 16 * high;
    assert x / 4 / 4 / 4 == low / 4 / 4 / 4 + 4 * high;
    assert x / 4 / 4 / 4 / 4 == high;
  }

  lemma PairShift(x: nat, k: nat)
    ensures TwoBits(x, k + 4) == TwoBits(x / 4 / 4 / 4 / 4, k)
  {
    assert TwoBits(x, k + 4) == TwoBits(x / 4, k + 3) == TwoBits(x / 4 / 4, k + 2) == TwoBits(x / 4 / 4 / 4, k + 1);
  }

  lemma SubScaleHigh(b: Block, fields: seq<nat>, j: nat)
    requires SubScaleBytes(b, fields) && j < 8
    ensures var word := b[2] as nat + 256 * b[3] as nat;
            Flag(Bit(word, 2 * j)) + 2 * Flag(Bit(word, 2 * j + 1)) == fields[j] / 16
  {
    var word := b[2] as nat + 256 * b[3] as nat;
    ShiftedPair(word, 2 * j);
    ShrTwo(word, j);
    var at := if j < 4 then 0 else 4;
    WordPairs(b[2], b[3], j - at);
    HighPairsAt(fields, at, j - at);
  }

  lemma SubScaleAt(b: Block, fields: seq<nat>, j: nat)
    requires SubScaleBytes(b, fields) && j < 8
    ensures IQ4XSScale(b, j) == fields[j] as int - 32
  {
    SubScaleHigh(b, fields, j);
    assert b[4 + j / 2] == fields[2 * (j / 2)] % 16 + 16 * (fields[2 * (j / 2) + 1] % 16);
    OverSixteen(fields[2 * (j / 2)] % 16, fields[2 * (j / 2) + 1] % 16);
  }

  /** IQ4_XS: `d * (field - 32)` times the code's entry in the codebook. */
  lemma IQ4XSMeans(t: Tables, b: Block, codes: seq<nat>, fields: seq<nat>, e: nat)
    requires t.Valid() && SubScaleBytes(b, fields) && SubBlocks(b, codes) && e < 256
    ensures Element(t, IQ4_XS, b, e) ==
              t.fp16(b[0], b[1]) * (fields[e / 32] as int - 32) * t.kvalues[codes[e]]
  {
    SubScaleAt(b, fields, e / 32);
    SubBlocksAt(b, codes, e);
  }

  // ---- IQ3_S ----

  /** 64 grid rows of nine bits, 256 signs, and eight scales of four bits. */
  ghost predicate GridFields(b: Block, rows: seq<nat>, signs: seq<nat>, scales: seq<nat>) {
    && |b| == 110 && Below(rows, 64, 512) && Below(signs, 256, 2) && Below(scales, 8, 16)
    && (forall i | 0 <= i < 64 :: b[2 + i] == rows[i] % 256)
    && (forall i | 0 <= i < 8 :: b[66 + i] == EightBits(rows, 256, 8 * i, 1))
    && (forall i | 0 <= i < 32 :: b[74 + i] == EightBits(signs, 1, 8 * i, 1))
    && (forall j | 0 <= j < 4 :: b[106 + j] == scales[2 * j] + 16 * scales[2 * j + 1])
  }

  lemma GridRowAt(b: Block, rows: seq<nat>, signs: seq<nat>, scales: seq<nat>, i: nat)
    requires GridFields(b, rows, signs, scales) && i < 64
    ensures b[2 + i] as nat + 256 * Flag(Bit(b[66 + i / 8], i % 8)) == rows[i]
  {
    NinthBit(b, rows, signs, scales, i / 8);
    InOrder(b[66 + i / 8], rows, 256, i);
    WholeRow(rows[i]);
  }

  lemma NinthBit(b: Block, rows: seq<nat>, signs: seq<nat>, scales: seq<nat>, k: nat)
    requires GridFields(b, rows, signs, scales) && k < 8
    ensures b[66 + k] == EightBits(rows, 256, 8 * k, 1)
  {
  }

  lemma WholeRow(row: nat)
    requires row < 512
    ensures row == row % 256 + 256 * (row / 256 % 2)
  {
  }

  lemma SignAt(b: Block, rows: seq<nat>, signs: seq<nat>, scales: seq<nat>, e: nat)
    requires GridFields(b, rows, signs, scales) && e < 256
    ensures Bit(b[74 + e / 8], e % 8) <==> signs[e] == 1
  {
    assert b[74 + e / 8] == EightBits(signs, 1, 8 * (e / 8), 1);
    InOrder(b[74 + e / 8], signs, 1, e);
  }

  lemma MultiplierAt(b: Block, rows: seq<nat>, signs: seq<nat>, scales: seq<nat>, j: nat)
    requires GridFields(b, rows, signs, scales) && j < 8
    ensures IQ3Multiplier(b, j) == 1 + 2 * scales[j]
  {
    assert b[106 + j / 2] == scales[2 * (j / 2)] + 16 * scales[2 * (j / 2) + 1];
    OverSixteen(scales[2 * (j / 2)], scales[2 * (j / 2) + 1]);
  }

  /** IQ3_S: `d * (1 + 2 * scale)` times the signed entry `e % 4` of the element's grid row. */
  lemma IQ3SMeans(t: Tables, b: Block, rows: seq<nat>, signs: seq<nat>, scales: seq<nat>, e: nat)
    requires t.Valid() && GridFields(b, rows, signs, scales) && e < 256
    ensures var entry := t.grid[rows[e / 4]][e % 4];
            Element(t, IQ3_S, b, e) ==
            t.fp16(b[0], b[1]) * (1 + 2 * scales[e / 32]) * (if signs[e] == 1 then -entry else entry)
  {
    GridRowAt(b, rows, signs, scales, e / 4);
    SignAt(b, rows, signs, scales, e);
    MultiplierAt(b, rows, signs, scales, e / 32);
    assert e / 4 / 8 == e / 32;
  }
}
