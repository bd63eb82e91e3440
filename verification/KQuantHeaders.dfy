/**
 The two packed 12-byte tables of sixteen 6-bit numbers: the Q4_K/Q5_K header and the
 Q3_K sub-scales.  Both decoders are bijections, so no byte of a header is redundant and
 every combination of scales and mins can be stored.
 */
module KQuantHeaders {
  import opened Bits
  import opened BlockFormats
  import opened BlockGrid
  import opened RawBlocks

  ghost predicate SixBits(s: seq<nat>, n: nat) {
    |s| == n && forall i | 0 <= i < n :: s[i] < 64
  }

  // ---- Q4_K and Q5_K ----

  function Scales(packed: seq<Byte>): (r: seq<nat>)
    requires |packed| == 12
    ensures |r| == 8 && forall j | 0 <= j < 8 :: r[j] == HeaderScale(packed, j)
  {
    seq(8, j requires 0 <= j < 8 => HeaderScale(packed, j))
  }

  function Mins(packed: seq<Byte>): (r: seq<nat>)
    requires |packed| == 12
    ensures |r| == 8 && forall j | 0 <= j < 8 :: r[j] == HeaderMin(packed, j)
  {
    seq(8, j requires 0 <= j < 8 => HeaderMin(packed, j))
  }

  /** The loader's decoder in plain arithmetic. */
  lemma DecoderIs(packed: seq<Byte>)
    requires |packed| == 12
    ensures SubScales(packed) == Scales(packed) && SubMins(packed) == Mins(packed)
  {
    forall j: nat | j < 8
      ensures SubScales(packed)[j] == Scales(packed)[j] && SubMins(packed)[j] == Mins(packed)[j]
    {
      HeaderAt(packed, j);
    }
  }

  function HeaderByte(scales: seq<nat>, mins: seq<nat>, i: nat): nat
    requires |scales| == |mins| == 8 && i < 12
  {
    if i < 4 then scales[i] + 64 * (scales[4 + i] / 16)
    else if i < 8 then mins[i - 4] + 64 * (mins[i] / 16)
    else scales[i - 4] % 16 + 16 * (mins[i - 4] % 16)
  }

  /** The encoder: low six bits in place, the second half's high bits above the first half. */
  function EncodeHeader(scales: seq<nat>, mins: seq<nat>): (packed: seq<Byte>)
    requires SixBits(scales, 8) && SixBits(mins, 8)
    ensures |packed| == 12 && forall i | 0 <= i < 12 :: packed[i] == HeaderByte(scales, mins, i)
  {
    seq(12, i requires 0 <= i < 12 => HeaderByte(scales, mins, i))
  }

  lemma DecodedFit(packed: seq<Byte>)
    requires |packed| == 12
    ensures SixBits(Scales(packed), 8) && SixBits(Mins(packed), 8)
  {
  }

  lemma OverSixteen(low: nat, high: nat)
    requires low < 16
    ensures (low + 16 * high) % 16 == low && (low + 16 * high) / 16 == high
  {
  }

  lemma OverSixtyFour(low: nat, high: nat)
    requires low < 64
    ensures (low + 64 * high) % 64 == low && (low + 64 * high) / 64 == high
  {
  }

  lemma HeaderByteBack(packed: seq<Byte>, i: nat)
    requires |packed| == 12 && i < 12
    ensures HeaderByte(Scales(packed), Mins(packed), i) == packed[i]
  {
    if i < 4 {
      OverSixteen(packed[8 + i] % 16, packed[i] / 64);
      assert Scales(packed)[4 + i] / 16 == packed[i] / 64;
    } else if i < 8 {
      OverSixteen(packed[4 + i] / 16, packed[i] / 64);
      assert Mins(packed)[i] / 16 == packed[i] / 64;
    } else {
      OverSixteen(packed[i] % 16, packed[i - 8] / 64);
      OverSixteen(packed[i] / 16, packed[i - 4] / 64);
      assert Scales(packed)[i - 4] % 16 == packed[i] % 16 && Mins(packed)[i - 4] % 16 == packed[i] / 16;
    }
  }

  /** Decoding a header loses nothing. */
  lemma HeaderRestored(packed: seq<Byte>)
    requires |packed| == 12
    ensures SixBits(SubScales(packed), 8) && SixBits(SubMins(packed), 8)
    ensures EncodeHeader(SubScales(packed), SubMins(packed)) == packed
  {
    DecoderIs(packed);
    DecodedFit(packed);
    forall i: nat | i < 12
      ensures EncodeHeader(Scales(packed), Mins(packed))[i] == packed[i]
    {
      HeaderByteBack(packed, i);
    }
  }

  lemma DecodedBack(scales: seq<nat>, mins: seq<nat>, j: nat)
    requires SixBits(scales, 8) && SixBits(mins, 8) && j < 8
    ensures HeaderScale(EncodeHeader(scales, mins), j) == scales[j] &&
            HeaderMin(EncodeHeader(scales, mins), j) == mins[j]
  {
    var packed := EncodeHeader(scales, mins);
    if j < 4 {
      OverSixtyFour(scales[j], scales[4 + j] / 16);
      OverSixtyFour(mins[j], mins[4 + j] / 16);
      assert packed[j] == HeaderByte(scales, mins, j) && packed[j + 4] == HeaderByte(scales, mins, j + 4);
    } else {
      OverSixtyFour(scales[j - 4], scales[j] / 16);
      OverSixtyFour(mins[j - 4], mins[j] / 16);
      OverSixteen(scales[j] % 16, mins[j] % 16);
      assert packed[j - 4] == HeaderByte(scales, mins, j - 4);
      assert packed[j] == HeaderByte(scales, mins, j) && packed[j + 4] == HeaderByte(scales, mins, j + 4);
    }
  }

  /** Any eight scales and eight mins of six bits are the decoding of some header. */
  lemma HeaderDecoded(scales: seq<nat>, mins: seq<nat>)
    requires SixBits(scales, 8) && SixBits(mins, 8)
    ensures SubScales(EncodeHeader(scales, mins)) == scales && SubMins(EncodeHeader(scales, mins)) == mins
  {
    var packed := EncodeHeader(scales, mins);
    DecoderIs(packed);
    forall j: nat | j < 8
      ensures Scales(packed)[j] == scales[j] && Mins(packed)[j] == mins[j]
    {
      DecodedBack(scales, mins, j);
    }
  }

  // ---- Q3_K ----

  /** Sub-scale `g` before its offset of 32. */
  function Q3Field(packed: seq<Byte>, g: nat): nat
    requires |packed| == 12 && g < 16
  {
    var low := if g < 8 then packed[g] % 16 else packed[g - 8] / 16;
    var high := Shr(packed[8 + g % 4], 2 * (g / 4)) % 4;
    Or(low, Shl(high, 4))
  }

  function Q3Fields(packed: seq<Byte>): (r: seq<nat>)
    requires |packed| == 12
    ensures |r| == 16 && forall g | 0 <= g < 16 :: r[g] == Q3Field(packed, g)
  {
    seq(16, g requires 0 <= g < 16 => Q3Field(packed, g))
  }

  /** These are the scales that both Q3_K kernels use. */
  lemma Q3ScaleIs(b: Block, g: nat)
    requires |b| == 110 && g < 16
    ensures Q3Scale(b, g) == Q3Field(b[96..108], g) - 32
  {
  }

  /** Two bits of a byte. */
  function TwoBits(byte: nat, k: nat): nat {
    if k == 0 then byte % 4 else TwoBits(byte / 4, k - 1)
  }

  lemma {:induction false} ShrTwo(byte: nat, k: nat)
    ensures Shr(byte, 2 * k) % 4 == TwoBits(byte, k)
  {
    if k > 0 {
      ShrTwo(byte / 4, k - 1);
      assert Shr(byte, 2 * k) == Shr(byte / 2, 2 * k - 1) == Shr(byte / 2 / 2, 2 * k - 2);
    }
  }

  /** Sub-scale `g` in plain arithmetic. */
  function FieldOf(packed: seq<Byte>, g: nat): nat
    requires |packed| == 12 && g < 16
  {
    (if g < 8 then packed[g] % 16 else packed[g - 8] / 16) + 16 * TwoBits(packed[8 + g % 4], g / 4)
  }

  function FieldsOf(packed: seq<Byte>): (r: seq<nat>)
    requires |packed| == 12
    ensures |r| == 16 && forall g | 0 <= g < 16 :: r[g] == FieldOf(packed, g)
  {
    seq(16, g requires 0 <= g < 16 => FieldOf(packed, g))
  }

  lemma FieldAt(packed: seq<Byte>, g: nat)
    requires |packed| == 12 && g < 16
    ensures Q3Field(packed, g) == FieldOf(packed, g)
  {
    ShrTwo(packed[8 + g % 4], g / 4);
    Join4(if g < 8 then packed[g] % 16 else packed[g - 8] / 16, TwoBits(packed[8 + g % 4], g / 4));
  }

  lemma Q3DecoderIs(packed: seq<Byte>)
    requires |packed| == 12
    ensures Q3Fields(packed) == FieldsOf(packed)
  {
    forall g: nat | g < 16
      ensures Q3Fields(packed)[g] == FieldsOf(packed)[g]
    {
      FieldAt(packed, g);
    }
  }

  function Q3Byte(fields: seq<nat>, i: nat): nat
    requires |fields| == 16 && i < 12
  {
    if i < 8 then fields[i] % 16 + 16 * (fields[i + 8] % 16)
    else fields[i - 8] / 16 + 4 * (fields[i - 4] / 16 + 4 * (fields[i] / 16 + 4 * (fields[i + 4] / 16)))
  }

  /** The encoder: nibble pairs, then four high bit pairs to the byte. */
  function EncodeQ3(fields: seq<nat>): (packed: seq<Byte>)
    requires SixBits(fields, 16)
    ensures |packed| == 12 && forall i | 0 <= i < 12 :: packed[i] == Q3Byte(fields, i)
  {
    seq(12, i requires 0 <= i < 12 => Q3Byte(fields, i))
  }

  lemma FourPairs(byte: nat)
    ensures TwoBits(byte, 0) == byte % 4 && TwoBits(byte, 1) == byte / 4 % 4
    ensures TwoBits(byte, 2) == byte / 4 / 4 % 4 && TwoBits(byte, 3) == byte / 4 / 4 / 4 % 4
  {
    assert TwoBits(byte, 1) == TwoBits(byte / 4, 0);
    assert TwoBits(byte, 2) == TwoBits(byte / 4, 1) == TwoBits(byte / 4 / 4, 0);
    assert TwoBits(byte, 3) == TwoBits(byte / 4, 2) == TwoBits(byte / 4 / 4, 1) == TwoBits(byte / 4 / 4 / 4, 0);
  }

  lemma ByteOfPairs(byte: nat)
    requires byte < 256
    ensures byte == byte % 4 + 4 * (byte / 4 % 4 + 4 * (byte / 4 / 4 % 4 + 4 * (byte / 4 / 4 / 4 % 4)))
  {
    var b := byte / 4;
    var c := b / 4;
    var d := c / 4;
    assert byte == byte % 4 + 4 * b && b == b % 4 + 4 * c && c == c % 4 + 4 * d && d < 4;
  }

  lemma PairsOf(p: nat, q: nat, r: nat, s: nat, byte: nat)
    requires p < 4 && q < 4 && r < 4 && s < 4 && byte == p + 4 * (q + 4 * (r + 4 * s))
    ensures TwoBits(byte, 0) == p && TwoBits(byte, 1) == q && TwoBits(byte, 2) == r && TwoBits(byte, 3) == s
  {
    FourPairs(byte);
    assert byte / 4 == q + 4 * (r + 4 * s);
    assert byte / 4 / 4 == r + 4 * s;
    assert byte / 4 / 4 / 4 == s;
  }

  lemma FieldsFit(packed: seq<Byte>)
    requires |packed| == 12
    ensures SixBits(FieldsOf(packed), 16)
  {
    forall g: nat | g < 16
      ensures FieldsOf(packed)[g] < 64
    {
      TwoBitsSmall(packed[8 + g % 4], g / 4);
    }
  }

  lemma {:induction false} TwoBitsSmall(byte: nat, k: nat)
    ensures TwoBits(byte, k) < 4
  {
    if k > 0 {
      TwoBitsSmall(byte / 4, k - 1);
    }
  }

  /** The quotient of a field is its two high bits. */
  lemma FieldHigh(packed: seq<Byte>, j: nat, k: nat)
    requires |packed| == 12 && j < 4 && k < 4
    ensures FieldsOf(packed)[j + 4 * k] / 16 == TwoBits(packed[8 + j], k)
  {
    var g := j + 4 * k;
    assert g % 4 == j && g / 4 == k;
    OverSixteen(if g < 8 then packed[g] % 16 else packed[g - 8] / 16, TwoBits(packed[8 + j], k));
  }

  lemma FieldLow(packed: seq<Byte>, i: nat)
    requires |packed| == 12 && i < 8
    ensures FieldsOf(packed)[i] % 16 == packed[i] % 16 && FieldsOf(packed)[i + 8] % 16 == packed[i] / 16
  {
    OverSixteen(packed[i] % 16, TwoBits(packed[8 + i % 4], i / 4));
    OverSixteen(packed[i] / 16, TwoBits(packed[8 + (i + 8) % 4], (i + 8) / 4));
  }

  lemma Q3ByteBack(packed: seq<Byte>, i: nat)
    requires |packed| == 12 && i < 12
    ensures Q3Byte(FieldsOf(packed), i) == packed[i]
  {
    if i < 8 {
      FieldLow(packed, i);
    } else {
      FieldHigh(packed, i - 8, 0);
      FieldHigh(packed, i - 8, 1);
      FieldHigh(packed, i - 8, 2);
      FieldHigh(packed, i - 8, 3);
      FourPairs(packed[i]);
      ByteOfPairs(packed[i]);
    }
  }

  /** Decoding the Q3_K sub-scales loses nothing. */
  lemma Q3Restored(packed: seq<Byte>)
    requires |packed| == 12
    ensures SixBits(Q3Fields(packed), 16) && EncodeQ3(Q3Fields(packed)) == packed
  {
    Q3DecoderIs(packed);
    FieldsFit(packed);
    forall i: nat | i < 12
      ensures EncodeQ3(FieldsOf(packed))[i] == packed[i]
    {
      Q3ByteBack(packed, i);
    }
  }

  lemma Q3HighBack(fields: seq<nat>, i: nat, k: nat)
    requires SixBits(fields, 16) && i < 4 && k < 4
    ensures TwoBits(Q3Byte(fields, 8 + i), k) == fields[i + 4 * k] / 16
  {
    PairsOf(fields[i] / 16, fields[i + 4] / 16, fields[i + 8] / 16, fields[i + 12] / 16, Q3Byte(fields, 8 + i));
  }

  lemma Q3LowBack(fields: seq<nat>, g: nat)
    requires SixBits(fields, 16) && g < 16
    ensures (if g < 8 then Q3Byte(fields, g) % 16 else Q3Byte(fields, g - 8) / 16) == fields[g] % 16
  {
    var i := g % 8;
    OverSixteen(fields[i] % 16, fields[i + 8] % 16);
  }

  /** Any sixteen 6-bit numbers are the decoding of some sub-scale table. */
  lemma Q3Decoded(fields: seq<nat>)
    requires SixBits(fields, 16)
    ensures Q3Fields(EncodeQ3(fields)) == fields
  {
    var packed := EncodeQ3(fields);
    Q3DecoderIs(packed);
    forall g: nat | g < 16
      ensures FieldsOf(packed)[g] == fields[g]
    {
      Q3HighBack(fields, g % 4, g / 4);
      Q3LowBack(fields, g);
    }
  }
}
