/**
 Raw K-quant blocks built from their fields, in plain arithmetic, and what the dequantize
 kernels make of them.  Every block is built from some fields, so this says what every
 block means.
 */
module RawCodes {
  import opened Bits
  import opened BlockFormats
  import opened BlockGrid
  import opened CodeBytes
  import opened KQuantHeaders
  import opened RawBlocks

  // ---- Two bits of 256 codes in 64 bytes ----

  /** The codes `at`, `at + 32`, `at + 64` and `at + 96` share a byte, the first lowest. */
  function CrumbByte(codes: seq<nat>, i: nat): (byte: nat)
    requires |codes| == 256 && i < 64
    ensures byte < 256
  {
    var at := i / 32 * 128 + i % 32;
    codes[at] % 4 + 4 * (codes[at + 32] % 4 + 4 * (codes[at + 64] % 4 + 4 * (codes[at + 96] % 4)))
  }

  lemma CrumbPlace(e: nat)
    requires e < 256
    ensures var i := e / 128 * 32 + e % 32; i < 64 && i / 32 * 128 + i % 32 + 32 * (e / 32 % 4) == e
  {
  }

  /** Shifted to its place, the byte of code `e` shows its two low bits. */
  lemma CrumbBack(codes: seq<nat>, e: nat, i: nat, k: nat)
    requires |codes| == 256 && e < 256 && i == e / 128 * 32 + e % 32 && k == e / 32 % 4
    ensures i < 64 && Shr(CrumbByte(codes, i), 2 * k) % 4 == codes[e] % 4
  {
    CrumbPlace(e);
    var at := i / 32 * 128 + i % 32;
    ShrTwo(CrumbByte(codes, i), k);
    PairsOf(codes[at] % 4, codes[at + 32] % 4, codes[at + 64] % 4, codes[at + 96] % 4, CrumbByte(codes, i));
  }

  /** The two bits at the place of code `e`. */
  function CrumbAt(bytes: seq<Byte>, e: nat): (code: nat)
    requires |bytes| == 64 && e < 256
  {
    TwoBits(bytes[e / 128 * 32 + e % 32], e / 32 % 4)
  }

  lemma CrumbIndex(i: nat, k: nat)
    requires i < 64 && k < 4
    ensures var e := i / 32 * 128 + i % 32 + 32 * k;
            e < 256 && e / 128 * 32 + e % 32 == i && e / 32 % 4 == k
  {
  }

  lemma CrumbOf(bytes: seq<Byte>, codes: seq<nat>, i: nat, k: nat)
    requires |bytes| == 64 && |codes| == 256 && i < 64 && k < 4
    requires forall e | 0 <= e < 256 :: codes[e] % 4 == CrumbAt(bytes, e)
    ensures i / 32 * 128 + i % 32 + 32 * k < 256
    ensures codes[i / 32 * 128 + i % 32 + 32 * k] % 4 == TwoBits(bytes[i], k)
  {
    CrumbIndex(i, k);
    assert codes[i / 32 * 128 + i % 32 + 32 * k] % 4 == CrumbAt(bytes, i / 32 * 128 + i % 32 + 32 * k);
  }

  lemma CrumbsBack(bytes: seq<Byte>, codes: seq<nat>, i: nat)
    requires |bytes| == 64 && |codes| == 256 && i < 64
    requires forall e | 0 <= e < 256 :: codes[e] % 4 == CrumbAt(bytes, e)
    ensures CrumbByte(codes, i) == bytes[i]
  {
    CrumbOf(bytes, codes, i, 0);
    CrumbOf(bytes, codes, i, 1);
    CrumbOf(bytes, codes, i, 2);
    CrumbOf(bytes, codes, i, 3);
    WholeByte(bytes[i]);
  }

  lemma WholeByte(byte: nat)
    requires byte < 256
    ensures byte == TwoBits(byte, 0) + 4 * (TwoBits(byte, 1) + 4 * (TwoBits(byte, 2) + 4 * TwoBits(byte, 3)))
  {
    FourPairs(byte);
    ByteOfPairs(byte);
  }

  lemma {:induction false} CodesOf(bytes: seq<Byte>) returns (codes: seq<nat>)
    requires |bytes| == 64
    ensures Below(codes, 256, 4) && forall i | 0 <= i < 64 :: CrumbByte(codes, i) == bytes[i]
  {
    codes := seq(256, e requires 0 <= e < 256 => CrumbAt(bytes, e));
    forall e: nat | e < 256
      ensures codes[e] < 4
    {
      TwoBitsSmall(bytes[e / 128 * 32 + e % 32], e / 32 % 4);
    }
    forall i: nat | i < 64
      ensures CrumbByte(codes, i) == bytes[i]
    {
      CrumbsBack(bytes, codes, i);
    }
  }

  // ---- Q2_K ----

  /** Sixteen scales of four bits with their mins, then 256 codes of two bits. */
  ghost predicate Q2Fields(b: Block, codes: seq<nat>, scales: seq<nat>, mins: seq<nat>) {
    && |b| == 84 && Below(codes, 256, 4) && Below(scales, 16, 16) && Below(mins, 16, 16)
    && (forall g | 0 <= g < 16 :: b[g] == scales[g] + 16 * mins[g])
    && (forall i | 0 <= i < 64 :: b[16 + i] == CrumbByte(codes, i))
  }

  /** Element `e` of a Q2_K block: `d * scale * code - dmin * min`. */
  lemma Q2Means(h: Half, b: Block, codes: seq<nat>, scales: seq<nat>, mins: seq<nat>, e: nat)
    requires Q2Fields(b, codes, scales, mins) && e < 256
    ensures Dequant(h, Q2_K, b, e) == h(b[80], b[81]) * scales[e / 16] * codes[e] - h(b[82], b[83]) * mins[e / 16]
  {
    var g, i, k := e / 16, e / 128 * 32 + e % 32, e / 32 % 4;
    SmallCrumbBack(codes, e, i, k);
    Q2Bytes(b, codes, scales, mins, g, i);
    Q2DequantIs(h, b, e, g, i, k, scales[g], mins[g], codes[e]);
  }

  lemma SmallCrumbBack(codes: seq<nat>, e: nat, i: nat, k: nat)
    requires Below(codes, 256, 4) && e < 256 && i == e / 128 * 32 + e % 32 && k == e / 32 % 4
    ensures i < 64 && Shr(CrumbByte(codes, i), 2 * k) % 4 == codes[e]
  {
    CrumbBack(codes, e, i, k);
    SmallCode(codes[e]);
  }

  lemma SmallCode(code: nat)
    requires code < 4
    ensures code % 4 == code
  {
  }

  lemma Q2Bytes(b: Block, codes: seq<nat>, scales: seq<nat>, mins: seq<nat>, g: nat, i: nat)
    requires Q2Fields(b, codes, scales, mins) && g < 16 && i < 64
    ensures b[g] % 16 == scales[g] && b[g] / 16 == mins[g] && b[16 + i] == CrumbByte(codes, i)
  {
    OverSixteen(scales[g], mins[g]);
  }

  lemma Q2DequantIs(h: Half, b: Block, e: nat, g: nat, i: nat, k: nat, scale: nat, min: nat, code: nat)
    requires |b| == 84 && e < 256 && g == e / 16 && i == e / 128 * 32 + e % 32 && i < 64 && k == e / 32 % 4
    requires b[g] % 16 == scale && b[g] / 16 == min && Shr(b[16 + i], 2 * k) % 4 == code
    ensures Dequant(h, Q2_K, b, e) == h(b[80], b[81]) * scale * code - h(b[82], b[83]) * min
  {
  }

  /** Any fields and factors make a block. */
  lemma Q2Exists(codes: seq<nat>, scales: seq<nat>, mins: seq<nat>, d: seq<Byte>) returns (b: Block)
    requires Below(codes, 256, 4) && Below(scales, 16, 16) && Below(mins, 16, 16) && |d| == 4
    ensures Q2Fields(b, codes, scales, mins) && b[80..84] == d
  {
    b := seq<Byte>(16, i requires 0 <= i < 16 => scales[i] + 16 * mins[i]) +
         seq<Byte>(64, i requires 0 <= i < 64 => CrumbByte(codes, i)) + d;
  }

  /** Every block is made of some fields. */
  lemma Q2Covers(b: Block) returns (codes: seq<nat>, scales: seq<nat>, mins: seq<nat>)
    requires |b| == 84
    ensures Q2Fields(b, codes, scales, mins)
  {
    codes := CodesOf(b[16..80]);
    scales := seq(16, i requires 0 <= i < 16 => b[i] % 16);
    mins := seq(16, i requires 0 <= i < 16 => b[i] / 16);
    assert forall i | 0 <= i < 64 :: b[16..80][i] == b[16 + i];
  }

  // ---- Q3_K ----

  /** The third bits, the low two bits, and sixteen sub-scales. */
  ghost predicate Q3Blocked(b: Block, codes: seq<nat>, fields: seq<nat>) {
    && |b| == 110 && Below(codes, 256, 8) && SixBits(fields, 16)
    && (forall i | 0 <= i < 32 :: b[i] == EightBits(codes, 4, i, 32))
    && (forall i | 0 <= i < 64 :: b[32 + i] == CrumbByte(codes, i))
    && b[96..108] == EncodeQ3(fields)
  }

  /** Element `e` of a Q3_K block: `d * (field - 32) * (code - 4)`. */
  lemma Q3Means(h: Half, b: Block, codes: seq<nat>, fields: seq<nat>, e: nat)
    requires Q3Blocked(b, codes, fields) && e < 256
    ensures Dequant(h, Q3_K, b, e) == h(b[108], b[109]) * (fields[e / 16] as int - 32) * (codes[e] as int - 4)
  {
    var i, k := e / 128 * 32 + e % 32, e / 32 % 4;
    CrumbBack(codes, e, i, k);
    MaskBack(codes, e, e % 32, e / 32);
    Q3Bytes(b, codes, fields, i, e % 32);
    Q3ScaleBack(b, codes, fields, e / 16);
    Q3DequantIs(h, b, e, i, k, fields[e / 16] as int - 32, codes[e]);
  }

  lemma Q3Bytes(b: Block, codes: seq<nat>, fields: seq<nat>, i: nat, j: nat)
    requires Q3Blocked(b, codes, fields) && i < 64 && j < 32
    ensures b[32 + i] == CrumbByte(codes, i) && b[j] == EightBits(codes, 4, j, 32)
  {
  }

  lemma Q3ScaleBack(b: Block, codes: seq<nat>, fields: seq<nat>, g: nat)
    requires Q3Blocked(b, codes, fields) && g < 16
    ensures Q3Scale(b, g) == fields[g] as int - 32
  {
    Q3ScaleIs(b, g);
    Q3Decoded(fields);
  }

  lemma MaskBack(codes: seq<nat>, e: nat, i: nat, k: nat)
    requires Below(codes, 256, 8) && e < 256 && i < 32 && k < 8 && e == i + 32 * k
    ensures Shr(EightBits(codes, 4, i, 32), k) % 2 == codes[e] / 4
  {
    EightBitsAt(codes, 4, i, 32, k, e);
    ShrOne(EightBits(codes, 4, i, 32), k);
  }

  lemma Q3DequantIs(h: Half, b: Block, e: nat, i: nat, k: nat, scale: int, code: nat)
    requires |b| == 110 && e < 256 && i == e / 128 * 32 + e % 32 && i < 64 && k == e / 32 % 4 && code < 8
    requires Q3Scale(b, e / 16) == scale
    requires Shr(b[32 + i], 2 * k) % 4 == code % 4 && Shr(b[e % 32], e / 32) % 2 == code / 4
    ensures Dequant(h, Q3_K, b, e) == h(b[108], b[109]) * scale * (code as int - 4)
  {
  }

  lemma Q3Exists(codes: seq<nat>, fields: seq<nat>, d: seq<Byte>) returns (b: Block)
    requires Below(codes, 256, 8) && SixBits(fields, 16) && |d| == 2
    ensures Q3Blocked(b, codes, fields) && b[108..110] == d
  {
    b := seq<Byte>(32, i requires 0 <= i < 32 => EightBits(codes, 4, i, 32)) +
         seq<Byte>(64, i requires 0 <= i < 64 => CrumbByte(codes, i)) + EncodeQ3(fields) + d;
  }

  /** Code `e` of a block: two bits and the mask bit. */
  function Q3CodeAt(b: Block, e: nat): (code: nat)
    requires |b| == 110 && e < 256
    ensures code < 8
  {
    var low := CrumbAt(b[32..96], e);
    TwoBitsSmall(b[32..96][e / 128 * 32 + e % 32], e / 32 % 4);
    ShrOne(b[e % 32], e / 32);
    low + 4 * OneBit(b[e % 32], e / 32)
  }

  lemma Q3CodeBits(b: Block, i: nat, k: nat)
    requires |b| == 110 && i < 32 && k < 8
    ensures Q3CodeAt(b, i + 32 * k) / 4 % 2 == OneBit(b[i], k)
  {
    var e := i + 32 * k;
    assert e % 32 == i && e / 32 == k;
    TwoBitsSmall(b[32..96][e / 128 * 32 + e % 32], e / 32 % 4);
    ShrOne(b[i], k);
  }

  lemma LowCode(b: Block, codes: seq<nat>, i: nat, k: nat)
    requires |b| == 110 && i < 32 && k < 4 && |codes| == 256 && forall e | 0 <= e < 256 :: codes[e] == Q3CodeAt(b, e)
    ensures codes[i + 32 * k] / 4 % 2 == OneBit(b[i], k)
  {
    Q3CodeBits(b, i, k);
    assert codes[i + 32 * k] == Q3CodeAt(b, i + 32 * k);
  }

  lemma HighCode(b: Block, codes: seq<nat>, i: nat, k: nat)
    requires |b| == 110 && i < 32 && k < 4 && |codes| == 256 && forall e | 0 <= e < 256 :: codes[e] == Q3CodeAt(b, e)
    ensures codes[i + 128 + 32 * k] / 4 % 2 == OneBit(b[i] / 16, k)
  {
    Q3CodeBits(b, i, k + 4);
    HighBit(b[i], k);
    assert codes[i + 32 * (k + 4)] == Q3CodeAt(b, i + 32 * (k + 4));
  }

  lemma MaskWhole(codes: seq<nat>, i: nat, x: nat)
    requires |codes| == 256 && i < 32 && x < 256
    requires forall k: nat | k < 4 :: ThirdBit(codes, i, k) == OneBit(x, k)
    requires forall k: nat | k < 4 :: ThirdBit(codes, i + 128, k) == OneBit(x / 16, k)
    ensures EightBits(codes, 4, i, 32) == x
  {
    BitsWhole(codes, i, x);
    BitsWhole(codes, i + 128, x / 16);
    assert x == x % 16 + 16 * (x / 16) && x / 16 < 16;
  }

  lemma BitsWhole(codes: seq<nat>, i: nat, x: nat)
    requires |codes| == 256 && i < 160
    requires forall k: nat | k < 4 :: ThirdBit(codes, i, k) == OneBit(x, k)
    ensures FourBits(codes, 4, i, 32) == x % 16
  {
    assert ThirdBit(codes, i, 0) == OneBit(x, 0) && ThirdBit(codes, i, 1) == OneBit(x, 1);
    assert ThirdBit(codes, i, 2) == OneBit(x, 2) && ThirdBit(codes, i, 3) == OneBit(x, 3);
    FourBitsAre(codes, 4, i, 32, x);
  }

  function ThirdBit(codes: seq<nat>, i: nat, k: nat): nat
    requires |codes| == 256 && i < 160 && k < 4
  {
    CodeBitAt(codes, 4, i + 32 * k)
  }

  lemma MaskOf(b: Block, codes: seq<nat>, i: nat)
    requires |b| == 110 && i < 32 && |codes| == 256 && forall e | 0 <= e < 256 :: codes[e] == Q3CodeAt(b, e)
    ensures EightBits(codes, 4, i, 32) == b[i]
  {
    forall k: nat | k < 4
      ensures ThirdBit(codes, i, k) == OneBit(b[i], k) && ThirdBit(codes, i + 128, k) == OneBit(b[i] / 16, k)
    {
      LowCode(b, codes, i, k);
      HighCode(b, codes, i, k);
    }
    MaskWhole(codes, i, b[i]);
  }

  lemma LowCrumb(b: Block, e: nat)
    requires |b| == 110 && e < 256
    ensures Q3CodeAt(b, e) % 4 == CrumbAt(b[32..96], e)
  {
    TwoBitsSmall(b[32..96][e / 128 * 32 + e % 32], e / 32 % 4);
  }

  lemma Q3Codes(b: Block) returns (codes: seq<nat>)
    requires |b| == 110
    ensures Below(codes, 256, 8) && forall e | 0 <= e < 256 :: codes[e] == Q3CodeAt(b, e)
    ensures forall e | 0 <= e < 256 :: codes[e] % 4 == CrumbAt(b[32..96], e)
  {
    codes := seq(256, e requires 0 <= e < 256 => Q3CodeAt(b, e));
    forall e: nat | e < 256
      ensures codes[e] % 4 == CrumbAt(b[32..96], e)
    {
      LowCrumb(b, e);
    }
  }

  /** Every block is made of some fields. */
  lemma Q3Covers(b: Block) returns (codes: seq<nat>, fields: seq<nat>)
    requires |b| == 110
    ensures Q3Blocked(b, codes, fields)
  {
    codes := Q3Codes(b);
    fields := Q3Fields(b[96..108]);
    Q3Restored(b[96..108]);
    forall i: nat | i < 32
      ensures EightBits(codes, 4, i, 32) == b[i]
    {
      MaskOf(b, codes, i);
    }
    forall i: nat | i < 64
      ensures CrumbByte(codes, i) == b[32 + i]
    {
      CrumbsBack(b[32..96], codes, i);
    }
  }

  // ---- Q6_K ----

  /** Low nibbles: the codes `at` and `at + 64` share a byte. */
  function NibblePair(codes: seq<nat>, i: nat): (byte: nat)
    requires |codes| == 256 && i < 128
    ensures byte < 256
  {
    var at := i / 64 * 128 + i % 64;
    codes[at] % 16 + 16 * (codes[at + 64] % 16)
  }

  /** The two bits above the nibbles. */
  function HighBits(codes: seq<nat>): (r: seq<nat>)
    requires |codes| == 256
    ensures |r| == 256 && forall e | 0 <= e < 256 :: r[e] == codes[e] / 16
  {
    seq(256, e requires 0 <= e < 256 => codes[e] / 16)
  }

  /** Nibbles, high bits, and sixteen signed bytes. */
  ghost predicate Q6Fields(b: Block, codes: seq<nat>, scales: seq<int>) {
    && |b| == 210 && Below(codes, 256, 64) && |scales| == 16
    && (forall i | 0 <= i < 128 :: b[i] == NibblePair(codes, i))
    && (forall i | 0 <= i < 64 :: b[128 + i] == CrumbByte(HighBits(codes), i))
    && (forall g | 0 <= g < 16 :: -128 <= scales[g] < 128 && b[192 + g] == scales[g] + if scales[g] < 0 then 256 else 0)
  }

  lemma NibblePlace(e: nat, i: nat)
    requires e < 256 && i == e / 128 * 64 + e % 64
    ensures i < 128 && i / 64 * 128 + i % 64 + (if e % 128 < 64 then 0 else 64) == e
  {
  }

  /** The side of the byte that holds the nibble of code `e`. */
  function Side(byte: nat, e: nat): nat {
    if e % 128 < 64 then byte % 16 else byte / 16
  }

  lemma NibbleBack(codes: seq<nat>, e: nat, i: nat)
    requires |codes| == 256 && e < 256 && i == e / 128 * 64 + e % 64
    ensures i < 128 && Side(NibblePair(codes, i), e) == codes[e] % 16
  {
    NibblePlace(e, i);
    var at := i / 64 * 128 + i % 64;
    OverSixteen(codes[at] % 16, codes[at + 64] % 16);
  }

  /** Element `e` of a Q6_K block: `d * scale * (code - 32)`. */
  lemma Q6Means(h: Half, b: Block, codes: seq<nat>, scales: seq<int>, e: nat)
    requires Q6Fields(b, codes, scales) && e < 256
    ensures Dequant(h, Q6_K, b, e) == h(b[208], b[209]) * scales[e / 16] * (codes[e] as int - 32)
  {
    var i, j, k := e / 128 * 32 + e % 32, e / 128 * 64 + e % 64, e / 32 % 4;
    CrumbBack(HighBits(codes), e, i, k);
    NibbleBack(codes, e, j);
    Q6CodeIs(codes[e], codes[e] % 16, codes[e] / 16);
    Q6Bytes(b, codes, scales, e, i, j, k);
    Q6DequantIs(h, b, e, i, j, k, scales[e / 16], codes[e]);
  }

  lemma Q6CodeIs(code: nat, low: nat, high: nat)
    requires low == code % 16 && high == code / 16
    ensures Or(low, Shl(high, 4)) == code
  {
    Join4(low, high);
  }

  lemma Q6Bytes(b: Block, codes: seq<nat>, scales: seq<int>, e: nat, i: nat, j: nat, k: nat)
    requires Q6Fields(b, codes, scales) && e < 256 && i < 64 && j < 128
    requires Shr(CrumbByte(HighBits(codes), i), 2 * k) % 4 == HighBits(codes)[e] % 4
    requires Side(NibblePair(codes, j), e) == codes[e] % 16
    ensures Int8(b[192 + e / 16]) == scales[e / 16]
    ensures Side(b[j], e) == codes[e] % 16 && Shr(b[128 + i], 2 * k) % 4 == codes[e] / 16
  {
    assert 0 <= e / 16 < 16;
  }

  lemma Q6DequantIs(h: Half, b: Block, e: nat, i: nat, j: nat, k: nat, scale: int, code: nat)
    requires |b| == 210 && e < 256 && i == e / 128 * 32 + e % 32 && j == e / 128 * 64 + e % 64 && k == e / 32 % 4
    requires i < 64 && j < 128 && Int8(b[192 + e / 16]) == scale && Or(code % 16, Shl(code / 16, 4)) == code
    requires Side(b[j], e) == code % 16 && Shr(b[128 + i], 2 * k) % 4 == code / 16
    ensures Dequant(h, Q6_K, b, e) == h(b[208], b[209]) * scale * (code as int - 32)
  {
    Q6Place(e, e / 128, e % 128);
  }

  lemma Q6Place(e: nat, half: nat, rest: nat)
    requires e < 256 && e == half * 128 + rest && rest < 128
    ensures rest % 64 == e % 64 && rest % 32 == e % 32 && rest / 32 == e / 32 % 4
  {
    if half == 0 {
      assert e == rest;
    } else {
      assert e == 128 + rest;
    }
  }

  lemma Q6Exists(codes: seq<nat>, scales: seq<int>, d: seq<Byte>) returns (b: Block)
    requires Below(codes, 256, 64) && |scales| == 16 && (forall g | 0 <= g < 16 :: -128 <= scales[g] < 128) && |d| == 2
    ensures Q6Fields(b, codes, scales) && b[208..210] == d
  {
    b := seq<Byte>(128, i requires 0 <= i < 128 => NibblePair(codes, i)) +
         seq<Byte>(64, i requires 0 <= i < 64 => CrumbByte(HighBits(codes), i)) +
         seq<Byte>(16, g requires 0 <= g < 16 => scales[g] + if scales[g] < 0 then 256 else 0) + d;
  }

  /** Code `e` of a block: a nibble and two bits. */
  function Q6CodeAt(b: Block, e: nat): (code: nat)
    requires |b| == 210 && e < 256
    ensures code < 64 && code / 16 == CrumbAt(b[128..192], e) && code % 16 == Side(b[e / 128 * 64 + e % 64], e)
  {
    TwoBitsSmall(b[128..192][e / 128 * 32 + e % 32], e / 32 % 4);
    Side(b[e / 128 * 64 + e % 64], e) + 16 * CrumbAt(b[128..192], e)
  }

  lemma NibbleIndex(i: nat)
    requires i < 128
    ensures var at := i / 64 * 128 + i % 64;
            && at + 64 < 256 && at % 128 < 64 && (at + 64) % 128 >= 64
            && at / 128 * 64 + at % 64 == i && (at + 64) / 128 * 64 + (at + 64) % 64 == i
  {
  }

  lemma NibbleWhole(b: Block, codes: seq<nat>, i: nat)
    requires |b| == 210 && i < 128 && |codes| == 256
    requires forall e | 0 <= e < 256 :: codes[e] % 16 == Side(b[e / 128 * 64 + e % 64], e)
    ensures NibblePair(codes, i) == b[i]
  {
    var at := i / 64 * 128 + i % 64;
    NibbleIndex(i);
    assert codes[at] % 16 == Side(b[i], at) && codes[at + 64] % 16 == Side(b[i], at + 64);
  }

  lemma Q6Codes(b: Block) returns (codes: seq<nat>)
    requires |b| == 210
    ensures Below(codes, 256, 64)
    ensures forall e | 0 <= e < 256 :: codes[e] % 16 == Side(b[e / 128 * 64 + e % 64], e)
    ensures forall e | 0 <= e < 256 :: HighBits(codes)[e] % 4 == CrumbAt(b[128..192], e)
  {
    codes := seq(256, e requires 0 <= e < 256 => Q6CodeAt(b, e));
    forall e: nat | e < 256
      ensures HighBits(codes)[e] % 4 == CrumbAt(b[128..192], e)
    {
      TwoBitsSmall(b[128..192][e / 128 * 32 + e % 32], e / 32 % 4);
    }
  }

  /** Every block is made of some fields. */
  lemma Q6Covers(b: Block) returns (codes: seq<nat>, scales: seq<int>)
    requires |b| == 210
    ensures Q6Fields(b, codes, scales)
  {
    codes := Q6Codes(b);
    scales := seq(16, g requires 0 <= g < 16 => Int8(b[192 + g]));
    forall i: nat | i < 128
      ensures NibblePair(codes, i) == b[i]
    {
      NibbleWhole(b, codes, i);
    }
    forall i: nat | i < 64
      ensures CrumbByte(HighBits(codes), i) == b[128 + i]
    {
      CrumbsBack(b[128..192], HighBits(codes), i);
    }
  }
}
