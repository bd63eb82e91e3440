/**
 The packed layout of quantized codes: code `i` of a row occupies the flat bits
 [i*bits, (i+1)*bits) of the row's 32-bit words, least significant bit first.
 */
module PackCodes {
  import opened Arith
  import opened Bits

  const WORD: nat := 32

  /** Bit `f` of a row of 32-bit words read as one little-endian bit string. */
  predicate FlatBit(words: seq<nat>, f: nat) {
    f / WORD < |words| && Bit(words[f / WORD], f % WORD)
  }

  /** Bit `f` of a row of codes laid end to end, each `bits` wide. */
  predicate CodeBit(codes: seq<nat>, bits: nat, f: nat)
    requires bits > 0
  {
    f / bits < |codes| && Bit(codes[f / bits], f % bits)
  }

  /** Every code of the row fits in `bits` bits. */
  ghost predicate CodesFit(codes: seq<nat>, bits: nat) {
    forall i | 0 <= i < |codes| :: Fits(codes[i], bits)
  }

  ghost predicate WordsFit(words: seq<nat>) {
    forall w | 0 <= w < |words| :: Fits(words[w], WORD)
  }

  /** The packed words hold exactly the bits of the codes: nothing lost, nothing disturbed. */
  ghost predicate Packed(words: seq<nat>, codes: seq<nat>, bits: nat)
    requires bits > 0
  {
    && |words| * WORD == |codes| * bits
    && WordsFit(words)
    && forall f: nat | f < |words| * WORD :: FlatBit(words, f) <==> CodeBit(codes, bits, f)
  }

  /** What the consumer of the packed row reads as code `i`. */
  function Unpack(words: seq<nat>, bits: nat, i: nat): nat {
    FromBits((j: nat) => FlatBit(words, i * bits + j), bits)
  }

  /** Round trip: every code is read back exactly. */
  lemma UnpackPacked(words: seq<nat>, codes: seq<nat>, bits: nat, i: nat)
    requires bits > 0 && Packed(words, codes, bits) && CodesFit(codes, bits)
    requires i < |codes|
    ensures Unpack(words, bits, i) == codes[i]
  {
    var f := (j: nat) => FlatBit(words, i * bits + j);
    forall j: nat | j < bits
      ensures f(j) <==> Bit(codes[i], j)
    {
      DivModUnique(i, j, bits);
      FlatIndex(i, j, |codes|, bits);
      assert FlatBit(words, i * bits + j) <==> CodeBit(codes, bits, i * bits + j);
    }
    FromBitsOf(codes[i], bits, f);
  }

  /** The packed row is determined by the codes, whatever order or chunking produced it. */
  lemma PackedUnique(v: seq<nat>, w: seq<nat>, codes: seq<nat>, bits: nat)
    requires bits > 0 && Packed(v, codes, bits) && Packed(w, codes, bits)
    ensures v == w
  {
    assert |v| == |w|;
    forall k | 0 <= k < |v|
      ensures v[k] == w[k]
    {
      forall i: nat
        ensures Bit(v[k], i) <==> Bit(w[k], i)
      {
        if i < WORD {
          var f := k * WORD + i;
          assert f / WORD == k && f % WORD == i;
          assert FlatBit(v, f) <==> CodeBit(codes, bits, f);
          assert FlatBit(w, f) <==> CodeBit(codes, bits, f);
        } else {
        }
      }
      BitsEqual(v[k], w[k]);
    }
  }

  /**
   The general packing loop over one group of 32 codes: a code is or-ed into its
   word after a shift that drops the overflowing high bits, and the overflow is
   or-ed into the next word, which is always inside the group.
   */
  method PackGroup(codes: seq<nat>, bits: nat) returns (words: seq<nat>)
    requires 1 <= bits <= WORD && |codes| == WORD && CodesFit(codes, bits)
    ensures |words| == bits && Packed(words, codes, bits)
  {
    words := seq(bits, _ => 0);
    StartsClear(words, codes, bits);
    for position := 0 to WORD
      invariant |words| == bits && WordsFit(words)
      invariant PackedUpTo(words, codes, bits, position * bits)
    {
      var word, shift := position * bits / WORD, position * bits % WORD;
      ghost var before := words;
      PositionInside(position, bits, word, shift);
      words := words[word := Or(words[word], Low(Shl(codes[position], shift), WORD))];
      if shift + bits > WORD {
        words := words[word + 1 := Or(words[word + 1], Shr(codes[position], WORD - shift))];
      }
      StepFits(before, words, codes, bits, position, word, shift);
      PackStep(before, words, codes, bits, position, word, shift);
    }
  }

  /** The first `limit` flat bits are in place and the others are still clear. */
  ghost predicate PackedUpTo(words: seq<nat>, codes: seq<nat>, bits: nat, limit: nat)
    requires bits > 0
  {
    forall f: nat | f < |words| * WORD :: FlatBit(words, f) <==> f < limit && CodeBit(codes, bits, f)
  }

  lemma StartsClear(words: seq<nat>, codes: seq<nat>, bits: nat)
    requires bits > 0 && forall w | 0 <= w < |words| :: words[w] == 0
    ensures WordsFit(words) && PackedUpTo(words, codes, bits, 0)
  {
    ZeroFits(WORD);
    forall f: nat | f < |words| * WORD
      ensures !FlatBit(words, f)
    {
      BitZero(f % WORD);
    }
  }

  /** The straddling write never leaves the group's words. */
  lemma PositionInside(position: nat, bits: nat, word: nat, shift: nat)
    requires position < WORD && 1 <= bits <= WORD
    requires word == position * bits / WORD && shift == position * bits % WORD
    ensures word < bits && (shift + bits > WORD ==> word + 1 < bits)
  {
    assert (position + 1) * bits <= WORD * bits;
    assert position * bits == WORD * word + shift;
  }

  /** `words` after one iteration of the loop that places `code` at flat bit `WORD * word + shift`. */
  ghost predicate Stepped(before: seq<nat>, after: seq<nat>, code: nat, bits: nat, word: nat, shift: nat) {
    && |after| == |before|
    && shift < WORD
    && word < |before|
    && after[word] == Or(before[word], Low(Shl(code, shift), WORD))
    && (shift + bits > WORD ==>
          word + 1 < |before| && after[word + 1] == Or(before[word + 1], Shr(code, WORD - shift)))
    && forall w | 0 <= w < |before| && w != word && !(shift + bits > WORD && w == word + 1) :: after[w] == before[w]
  }

  lemma StepFits(before: seq<nat>, after: seq<nat>, codes: seq<nat>, bits: nat, position: nat, word: nat, shift: nat)
    requires bits <= WORD && CodesFit(codes, bits) && position < |codes| && WordsFit(before)
    requires Stepped(before, after, codes[position], bits, word, shift)
    ensures WordsFit(after)
  {
    var code := codes[position];
    LowFits(Shl(code, shift), WORD);
    OrFits(before[word], Low(Shl(code, shift), WORD), WORD);
    if shift + bits > WORD {
      ShrWord(code, WORD - shift, bits);
      OrFits(before[word + 1], Shr(code, WORD - shift), WORD);
    }
  }

  lemma ShrWord(code: nat, s: nat, bits: nat)
    requires Fits(code, bits) && bits <= WORD
    ensures Fits(Shr(code, s), WORD)
  {
    ShrFits(code, s, WORD);
  }

  /** The flat bits of one code, by their distance from the code's first bit. */
  lemma NewBits(codes: seq<nat>, bits: nat, position: nat, f: nat)
    requires bits > 0 && CodesFit(codes, bits) && position < |codes|
    ensures position * bits <= f < (position + 1) * bits ==>
              (CodeBit(codes, bits, f) <==> Bit(codes[position], f - position * bits))
    ensures f >= (position + 1) * bits ==> !Bit(codes[position], f - position * bits)
    ensures (position + 1) * bits == position * bits + bits
  {
    var k := f - position * bits;
    assert (position + 1) * bits == position * bits + bits;
    if 0 <= k < bits {
      DivModUnique(position, k, bits);
    } else if k >= bits {
    }
  }

  /** One iteration of the packing loop places exactly the bits of one code. */
  lemma PackStep(before: seq<nat>, after: seq<nat>, codes: seq<nat>, bits: nat, position: nat, word: nat, shift: nat)
    requires 1 <= bits <= WORD && CodesFit(codes, bits) && position < |codes|
    requires Stepped(before, after, codes[position], bits, word, shift)
    requires position * bits == WORD * word + shift
    requires PackedUpTo(before, codes, bits, position * bits)
    ensures PackedUpTo(after, codes, bits, (position + 1) * bits)
  {
    forall f: nat | f < |after| * WORD
      ensures FlatBit(after, f) <==> f < (position + 1) * bits && CodeBit(codes, bits, f)
    {
      NewBits(codes, bits, position, f);
      PackStepAt(before, after, codes[position], bits, word, shift, position * bits, f);
    }
  }

  lemma PackStepAt(before: seq<nat>, after: seq<nat>, code: nat, bits: nat, word: nat, shift: nat, base: nat, f: nat)
    requires Stepped(before, after, code, bits, word, shift) && base == WORD * word + shift
    requires f < |before| * WORD && Fits(code, bits) && bits <= WORD
    ensures FlatBit(after, f) <==> FlatBit(before, f) || (f >= base && Bit(code, f - base))
  {
    var w, j := f / WORD, f % WORD;
    if w == word {
      BitOr(before[word], Low(Shl(code, shift), WORD), j);
      BitLow(Shl(code, shift), WORD, j);
      BitShl(code, shift, j);
    } else if w == word + 1 && shift + bits > WORD {
      BitOr(before[word + 1], Shr(code, WORD - shift), j);
      BitShr(code, WORD - shift, j);
    } else if f >= base {
    }
  }

  /** Bytes read four at a time as little-endian 32-bit words. */
  function ViewWords(bytes: seq<nat>): seq<nat>
    requires |bytes| % 4 == 0
  {
    seq(|bytes| / 4, w requires 0 <= w < |bytes| / 4 =>
      bytes[4 * w] + 256 * (bytes[4 * w + 1] + 256 * (bytes[4 * w + 2] + 256 * bytes[4 * w + 3])))
  }

  lemma Shl8(x: nat)
    ensures Shl(x, 8) == 256 * x
  {
    assert Shl(x, 8) == 2 * Shl(x, 7) == 4 * Shl(x, 6) == 8 * Shl(x, 5) == 16 * Shl(x, 4);
    assert Shl(x, 4) == 2 * Shl(x, 3) == 4 * Shl(x, 2) == 8 * Shl(x, 1);
  }

  lemma WordFromBytes(a: nat, b: nat, c: nat, d: nat, i: nat)
    requires Fits(a, 8) && Fits(b, 8) && Fits(c, 8) && Fits(d, 8)
    ensures Bit(a + 256 * (b + 256 * (c + 256 * d)), i) <==>
              if i < 8 then Bit(a, i) else if i < 16 then Bit(b, i - 8)
              else if i < 24 then Bit(c, i - 16) else i < WORD && Bit(d, i - 24)
  {
    var y := c + 256 * d;
    var x := b + 256 * y;
    Shl8(d);
    Shl8(y);
    Shl8(x);
    BitJoin(a, x, 8, i);
    if i >= 8 {
      BitJoin(b, y, 8, i - 8);
      if i >= 16 {
        BitJoin(c, d, 8, i - 16);
        if i >= WORD {
        }
      }
    }
  }

  lemma ViewWordFits(bytes: seq<nat>, w: nat)
    requires |bytes| % 4 == 0 && CodesFit(bytes, 8) && w < |bytes| / 4
    ensures Fits(ViewWords(bytes)[w], WORD)
  {
    forall i: nat | i >= WORD
      ensures !Bit(ViewWords(bytes)[w], i)
    {
      WordFromBytes(bytes[4 * w], bytes[4 * w + 1], bytes[4 * w + 2], bytes[4 * w + 3], i);
    }
  }

  lemma ViewBit(bytes: seq<nat>, w: nat, k: nat, i: nat)
    requires |bytes| % 4 == 0 && CodesFit(bytes, 8) && w < |bytes| / 4 && k < 4 && i < 8
    ensures Bit(ViewWords(bytes)[w], 8 * k + i) <==> Bit(bytes[4 * w + k], i)
  {
    WordFromBytes(bytes[4 * w], bytes[4 * w + 1], bytes[4 * w + 2], bytes[4 * w + 3], 8 * k + i);
  }

  /** For 8-bit codes the packed row is the code bytes themselves. */
  lemma ViewIsPacked(bytes: seq<nat>)
    requires |bytes| % 4 == 0 && CodesFit(bytes, 8)
    ensures Packed(ViewWords(bytes), bytes, 8)
  {
    var words := ViewWords(bytes);
    forall w | 0 <= w < |words|
      ensures Fits(words[w], WORD)
    {
      ViewWordFits(bytes, w);
    }
    forall f: nat | f < |words| * WORD
      ensures FlatBit(words, f) <==> CodeBit(bytes, 8, f)
    {
      var w, k, i := f / WORD, f % WORD / 8, f % 8;
      ViewBit(bytes, w, k, i);
      assert f % WORD == 8 * k + i && f / 8 == 4 * w + k;
    }
  }

  /** Two 4-bit codes per byte, the even one in the low nibble. */
  function NibblePairs(codes: seq<nat>): seq<nat>
    requires |codes| % 2 == 0
  {
    seq(|codes| / 2, k requires 0 <= k < |codes| / 2 => Or(codes[2 * k], Shl(codes[2 * k + 1], 4)))
  }

  /** Byte `r` carries code `lo` in its low nibble and code `hi` in its high nibble. */
  ghost predicate Carries(r: nat, lo: nat, hi: nat) {
    forall i: nat :: Bit(r, i) <==> if i < 4 then Bit(lo, i) else i < 8 && Bit(hi, i - 4)
  }

  lemma PairCarries(lo: nat, hi: nat)
    requires Fits(lo, 4) && Fits(hi, 4)
    ensures Carries(Or(lo, Shl(hi, 4)), lo, hi)
  {
    forall i: nat
      ensures Bit(Or(lo, Shl(hi, 4)), i) <==> if i < 4 then Bit(lo, i) else i < 8 && Bit(hi, i - 4)
    {
      BitOr(lo, Shl(hi, 4), i);
      BitShl(hi, 4, i);
      if i >= 4 {
        if i >= 8 {
        }
      }
    }
  }

  ghost predicate PairsCarry(pairs: seq<nat>, codes: seq<nat>) {
    && |codes| == 2 * |pairs|
    && forall k | 0 <= k < |pairs| :: Carries(pairs[k], codes[2 * k], codes[2 * k + 1])
  }

  lemma NibblePairsCarry(codes: seq<nat>)
    requires |codes| % 2 == 0 && CodesFit(codes, 4)
    ensures PairsCarry(NibblePairs(codes), codes)
  {
    forall k | 0 <= k < |codes| / 2
      ensures Carries(NibblePairs(codes)[k], codes[2 * k], codes[2 * k + 1])
    {
      PairCarries(codes[2 * k], codes[2 * k + 1]);
    }
  }

  lemma NibbleFlat(pairs: seq<nat>, codes: seq<nat>, f: nat)
    requires PairsCarry(pairs, codes) && f < |pairs| * 8
    ensures CodeBit(pairs, 8, f) <==> CodeBit(codes, 4, f)
  {
    var k, i := f / 8, f % 8;
    assert Carries(pairs[k], codes[2 * k], codes[2 * k + 1]);
    assert f / 4 == if i < 4 then 2 * k else 2 * k + 1;
    assert f % 4 == if i < 4 then i else i - 4;
  }

  /** For 4-bit codes the packed row is the nibble bytes. */
  lemma PairsArePacked(pairs: seq<nat>, codes: seq<nat>)
    requires PairsCarry(pairs, codes) && |pairs| % 4 == 0
    ensures Packed(ViewWords(pairs), codes, 4)
  {
    ViewIsPacked(pairs);
    forall f: nat | f < |pairs| * 8
      ensures FlatBit(ViewWords(pairs), f) <==> CodeBit(codes, 4, f)
    {
      NibbleFlat(pairs, codes, f);
    }
  }

  /** A flat bit of a concatenation is a flat bit of one of the pieces. */
  lemma CodeBitConcat(c: seq<nat>, d: seq<nat>, bits: nat, f: nat)
    requires bits > 0
    ensures CodeBit(c + d, bits, f) <==>
              if f < |c| * bits then CodeBit(c, bits, f) else CodeBit(d, bits, f - |c| * bits)
  {
    if f < |c| * bits {
      FlatSplit(f, |c|, bits);
    } else {
      var g := f - |c| * bits;
      ShiftedSplit(f, g, |c|, bits);
    }
  }

  lemma ShiftedSplit(f: nat, g: nat, q: nat, m: nat)
    requires m > 0 && f == q * m + g
    ensures f / m == q + g / m && f % m == g % m
  {
    assert g == (g / m) * m + g % m;
    assert f == (q + g / m) * m + g % m;
    DivModUnique(q + g / m, g % m, m);
  }

  /** Packed pieces laid end to end are the packed whole. */
  lemma PackedConcat(v: seq<nat>, w: seq<nat>, c: seq<nat>, d: seq<nat>, bits: nat)
    requires bits > 0 && Packed(v, c, bits) && Packed(w, d, bits)
    ensures Packed(v + w, c + d, bits)
  {
    Distribute(|c|, |d|, bits);
    var limit := |c| * bits;
    forall f: nat | f < |v + w| * WORD
      ensures FlatBit(v + w, f) <==> CodeBit(c + d, bits, f)
    {
      CodeBitConcat(c, d, bits, f);
      FlatBitConcat(v, w, f);
      if f < limit {
        assert FlatBit(v, f) <==> CodeBit(c, bits, f);
      } else {
        assert FlatBit(w, f - limit) <==> CodeBit(d, bits, f - limit);
      }
    }
  }

  lemma FlatBitConcat(v: seq<nat>, w: seq<nat>, f: nat)
    ensures FlatBit(v + w, f) <==> if f < |v| * WORD then FlatBit(v, f) else FlatBit(w, f - |v| * WORD)
  {
  }

  /**
   One row of `_pack_codes_le`: 8- and 4-bit codes are the packed bytes viewed as
   words, every other width goes through the straddling loop group by group.
   */
  method PackRow(codes: seq<nat>, bits: nat) returns (words: seq<nat>)
    requires 1 <= bits <= WORD && |codes| % WORD == 0 && CodesFit(codes, bits)
    ensures Packed(words, codes, bits)
    ensures forall i | 0 <= i < |codes| :: Unpack(words, bits, i) == codes[i]
  {
    if bits == 8 {
      ViewIsPacked(codes);
      words := ViewWords(codes);
    } else if bits == 4 {
      NibblePairsCarry(codes);
      PairsArePacked(NibblePairs(codes), codes);
      words := ViewWords(NibblePairs(codes));
    } else {
      words := [];
      for group := 0 to |codes| / WORD
        invariant Packed(words, codes[..group * WORD], bits)
      {
        var chunk := codes[group * WORD..(group + 1) * WORD];
        var packed := PackGroup(chunk, bits);
        PackedConcat(words, packed, codes[..group * WORD], chunk, bits);
        assert codes[..group * WORD] + chunk == codes[..(group + 1) * WORD];
        words := words + packed;
      }
      assert codes[..|codes| / WORD * WORD] == codes;
    }
    forall i | 0 <= i < |codes|
      ensures Unpack(words, bits, i) == codes[i]
    {
      UnpackPacked(words, codes, bits, i);
    }
  }
}
