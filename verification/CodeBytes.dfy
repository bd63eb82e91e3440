/** Bytes that hold one bit of each of eight codes. */
module CodeBytes {
  import opened Bits
  import opened BlockFormats

  /** `n` numbers below `limit`. */
  ghost predicate Below(s: seq<nat>, n: nat, limit: nat) {
    |s| == n && forall i | 0 <= i < n :: s[i] < limit
  }

  /** One bit of a code. */
  function CodeBitAt(codes: seq<nat>, weight: nat, i: nat): (bit: nat)
    requires weight > 0 && i < |codes|
    ensures bit < 2
  {
    codes[i] / weight % 2
  }

  /** That bit of the codes `at`, `at + stride`, `at + 2 * stride` and `at + 3 * stride`, the first lowest. */
  function FourBits(codes: seq<nat>, weight: nat, at: nat, stride: nat): (half: nat)
    requires weight > 0 && at + 3 * stride < |codes|
    ensures half < 16
  {
    CodeBitAt(codes, weight, at) + 2 * (CodeBitAt(codes, weight, at + stride) +
    2 * (CodeBitAt(codes, weight, at + 2 * stride) + 2 * CodeBitAt(codes, weight, at + 3 * stride)))
  }

  /** That bit of eight codes. */
  function EightBits(codes: seq<nat>, weight: nat, at: nat, stride: nat): (byte: nat)
    requires weight > 0 && at + 7 * stride < |codes|
    ensures byte < 256
  {
    FourBits(codes, weight, at, stride) + 16 * FourBits(codes, weight, at + 4 * stride, stride)
  }

  /** One bit of a byte. */
  function OneBit(byte: nat, k: nat): nat {
    if k == 0 then byte % 2 else OneBit(byte / 2, k - 1)
  }

  lemma {:induction false} ShrOne(byte: nat, k: nat)
    ensures Shr(byte, k) % 2 == OneBit(byte, k) < 2
  {
    if k > 0 {
      ShrOne(byte / 2, k - 1);
    }
  }

  lemma FlagIs(byte: nat, k: nat)
    ensures Flag(Bit(byte, k)) == OneBit(byte, k)
  {
    ShiftedParity(byte, k);
    ShrOne(byte, k);
  }

  lemma LowBits(x: nat)
    ensures OneBit(x, 0) == x % 2 && OneBit(x, 1) == x / 2 % 2
    ensures OneBit(x, 2) == x / 2 / 2 % 2 && OneBit(x, 3) == x / 2 / 2 / 2 % 2
    ensures forall k: nat :: OneBit(x, k + 4) == OneBit(x / 2 / 2 / 2 / 2, k)
  {
    assert OneBit(x, 1) == OneBit(x / 2, 0);
    assert OneBit(x, 2) == OneBit(x / 2, 1) == OneBit(x / 2 / 2, 0);
    assert OneBit(x, 3) == OneBit(x / 2, 2) == OneBit(x / 2 / 2, 1) == OneBit(x / 2 / 2 / 2, 0);
    forall k: nat
      ensures OneBit(x, k + 4) == OneBit(x / 2 / 2 / 2 / 2, k)
    {
      assert OneBit(x, k + 4) == OneBit(x / 2, k + 3) == OneBit(x / 2 / 2, k + 2) == OneBit(x / 2 / 2 / 2, k + 1);
    }
  }

  lemma BitsOf(a: nat, b: nat, c: nat, d: nat, rest: nat, x: nat)
    requires a < 2 && b < 2 && c < 2 && d < 2 && x == a + 2 * (b + 2 * (c + 2 * d)) + 16 * rest
    ensures OneBit(x, 0) == a && OneBit(x, 1) == b && OneBit(x, 2) == c && OneBit(x, 3) == d
    ensures forall k: nat :: OneBit(x, k + 4) == OneBit(rest, k)
  {
    LowBits(x);
    assert x / 2 == b + 2 * (c + 2 * d) + 8 * rest;
    assert x / 2 / 2 == c + 2 * d + 4 * rest;
    assert x / 2 / 2 / 2 == d + 2 * rest;
    assert x / 2 / 2 / 2 / 2 == rest;
  }

  lemma FourBitsAt(codes: seq<nat>, weight: nat, at: nat, stride: nat, rest: nat)
    requires weight > 0 && at + 3 * stride < |codes|
    ensures var x := FourBits(codes, weight, at, stride) + 16 * rest;
            && OneBit(x, 0) == CodeBitAt(codes, weight, at)
            && OneBit(x, 1) == CodeBitAt(codes, weight, at + stride)
            && OneBit(x, 2) == CodeBitAt(codes, weight, at + 2 * stride)
            && OneBit(x, 3) == CodeBitAt(codes, weight, at + 3 * stride)
            && forall k: nat :: OneBit(x, k + 4) == OneBit(rest, k)
  {
    BitsOf(CodeBitAt(codes, weight, at), CodeBitAt(codes, weight, at + stride),
           CodeBitAt(codes, weight, at + 2 * stride), CodeBitAt(codes, weight, at + 3 * stride), rest,
           FourBits(codes, weight, at, stride) + 16 * rest);
  }

  lemma FourBitAt(codes: seq<nat>, weight: nat, at: nat, stride: nat, rest: nat, k: nat, i: nat)
    requires weight > 0 && at + 3 * stride < |codes| && k < 4 && i == at + k * stride
    ensures var x := FourBits(codes, weight, at, stride) + 16 * rest;
            i < |codes| && OneBit(x, k) == CodeBitAt(codes, weight, i) && OneBit(x, k + 4) == OneBit(rest, k)
  {
    Strides(at, stride, k);
    FourBitsAt(codes, weight, at, stride, rest);
  }

  lemma Strides(at: nat, stride: nat, k: nat)
    requires k < 4
    ensures var i := at + k * stride;
            || (k == 0 && i == at) || (k == 1 && i == at + stride)
            || (k == 2 && i == at + 2 * stride) || (k == 3 && i == at + 3 * stride)
  {
  }

  /** Bit `k` of the byte is the bit of the code `k` strides on. */
  lemma EightBitsAt(codes: seq<nat>, weight: nat, at: nat, stride: nat, k: nat, i: nat)
    requires weight > 0 && at + 7 * stride < |codes| && k < 8 && i == at + k * stride
    ensures i < |codes| && OneBit(EightBits(codes, weight, at, stride), k) == codes[i] / weight % 2
  {
    var high := FourBits(codes, weight, at + 4 * stride, stride);
    if k < 4 {
      FourBitAt(codes, weight, at, stride, high, k, i);
    } else {
      assert i == at + 4 * stride + (k - 4) * stride;
      FourBitAt(codes, weight, at, stride, high, k - 4, at + (k - 4) * stride);
      FourBitAt(codes, weight, at + 4 * stride, stride, 0, k - 4, i);
    }
  }

  lemma LowNibble(x: nat, low: nat, rest: nat)
    requires low < 16 && x == low + 16 * rest
    ensures x % 16 == low
  {
  }

  lemma NibbleOfBits(x: nat, a: nat, b: nat, c: nat)
    requires a == x / 2 && b == a / 2 && c == b / 2
    ensures x % 16 == x % 2 + 2 * (a % 2 + 2 * (b % 2 + 2 * (c % 2)))
  {
    assert x == x % 2 + 2 * a && a == a % 2 + 2 * b && b == b % 2 + 2 * c && c == c % 2 + 2 * (c / 2);
    LowNibble(x, x % 2 + 2 * (a % 2 + 2 * (b % 2 + 2 * (c % 2))), c / 2);
  }

  /** Four codes whose bits are the low bits of `x`. */
  lemma FourBitsAre(codes: seq<nat>, weight: nat, at: nat, stride: nat, x: nat)
    requires weight > 0 && at + 3 * stride < |codes|
    requires CodeBitAt(codes, weight, at) == OneBit(x, 0) && CodeBitAt(codes, weight, at + stride) == OneBit(x, 1)
    requires CodeBitAt(codes, weight, at + 2 * stride) == OneBit(x, 2)
    requires CodeBitAt(codes, weight, at + 3 * stride) == OneBit(x, 3)
    ensures FourBits(codes, weight, at, stride) == x % 16
  {
    LowBits(x);
    NibbleOfBits(x, x / 2, x / 2 / 2, x / 2 / 2 / 2);
  }

  lemma HighBit(x: nat, k: nat)
    ensures OneBit(x, k + 4) == OneBit(x / 16, k)
  {
    LowBits(x);
    assert x / 2 / 2 / 2 / 2 == x / 16;
  }
}
