/**
 Bit operations on natural numbers, written so that every step is linear:
 each operation peels the least significant bit.  A fixed-width register is a
 natural number that equals its own `Low` truncation.
 */
module Bits {

  type Byte = b: int | 0 <= b < 256 witness 0

  /** A byte read as a signed number. */
  function Int8(b: Byte): int {
    if b < 128 then b else b - 256
  }

  /** Bit `i` of `x`, counting from the least significant. */
  predicate Bit(x: nat, i: nat) {
    if i == 0 then x % 2 == 1 else Bit(x / 2, i - 1)
  }

  /** Bitwise or. */
  function Or(x: nat, y: nat): nat
    decreases x + y
  {
    if x == 0 && y == 0 then 0
    else (if x % 2 == 1 || y % 2 == 1 then 1 else 0) + 2 * Or(x / 2, y / 2)
  }

  /** Left shift without truncation. */
  function Shl(x: nat, s: nat): nat {
    if s == 0 then x else 2 * Shl(x, s - 1)
  }

  /** Right shift. */
  function Shr(x: nat, s: nat): nat {
    if s == 0 then x else Shr(x / 2, s - 1)
  }

  /** The `n` least significant bits of `x`. */
  function Low(x: nat, n: nat): nat {
    if n == 0 then 0 else x % 2 + 2 * Low(x / 2, n - 1)
  }

  /** `x` needs at most `n` bits. */
  ghost predicate Fits(x: nat, n: nat) {
    forall i: nat | i >= n :: !Bit(x, i)
  }

  /** The number whose bit `j` is `f(j)`, for `j < n`. */
  function FromBits(f: nat -> bool, n: nat): nat {
    if n == 0 then 0 else (if f(0) then 1 else 0) + 2 * FromBits((j: nat) => f(j + 1), n - 1)
  }

  lemma {:induction false} BitOr(x: nat, y: nat, i: nat)
    ensures Bit(Or(x, y), i) <==> Bit(x, i) || Bit(y, i)
    decreases i
  {
    if i > 0 {
      if x == 0 && y == 0 {
        assert Or(x, y) == 0;
      } else {
        var low := if x % 2 == 1 || y % 2 == 1 then 1 else 0;
        assert Or(x, y) == low + 2 * Or(x / 2, y / 2);
      }
      assert Or(x, y) / 2 == Or(x / 2, y / 2);
      BitOr(x / 2, y / 2, i - 1);
    }
  }

  lemma {:induction false} BitShl(x: nat, s: nat, i: nat)
    ensures Bit(Shl(x, s), i) <==> i >= s && Bit(x, i - s)
    decreases s
  {
    if s > 0 && i > 0 {
      assert Shl(x, s) / 2 == Shl(x, s - 1);
      BitShl(x, s - 1, i - 1);
    }
  }

  lemma {:induction false} BitShr(x: nat, s: nat, i: nat)
    ensures Bit(Shr(x, s), i) <==> Bit(x, i + s)
    decreases s
  {
    if s > 0 {
      BitShr(x / 2, s - 1, i);
    }
  }

  lemma {:induction false} BitLow(x: nat, n: nat, i: nat)
    ensures Bit(Low(x, n), i) <==> i < n && Bit(x, i)
    decreases n, i
  {
    if n == 0 {
      BitZero(i);
    } else if i > 0 {
      assert Low(x, n) / 2 == Low(x / 2, n - 1);
      BitLow(x / 2, n - 1, i - 1);
    }
  }

  lemma {:induction false} BitZero(i: nat)
    ensures !Bit(0, i)
  {
    if i > 0 {
      BitZero(i - 1);
    }
  }

  /** Numbers with the same bits are the same number. */
  lemma {:induction false} BitsEqual(x: nat, y: nat)
    requires forall i: nat :: Bit(x, i) <==> Bit(y, i)
    ensures x == y
    decreases x + y
  {
    assert Bit(x, 0) <==> Bit(y, 0);
    if x > 0 || y > 0 {
      forall i: nat
        ensures Bit(x / 2, i) <==> Bit(y / 2, i)
      {
        assert Bit(x, i + 1) <==> Bit(y, i + 1);
      }
      BitsEqual(x / 2, y / 2);
    }
  }

  lemma LowFits(x: nat, n: nat)
    ensures Fits(Low(x, n), n)
  {
    forall i: nat | i >= n
      ensures !Bit(Low(x, n), i)
    {
      BitLow(x, n, i);
    }
  }

  function Pow2(n: nat): nat {
    if n == 0 then 1 else 2 * Pow2(n - 1)
  }

  lemma {:induction false} LowOfSmall(x: nat, n: nat)
    requires x < Pow2(n)
    ensures Low(x, n) == x
  {
    if n > 0 {
      LowOfSmall(x / 2, n - 1);
    }
  }

  lemma SmallFits(x: nat, n: nat)
    requires x < Pow2(n)
    ensures Fits(x, n)
  {
    LowOfSmall(x, n);
    LowFits(x, n);
  }

  lemma OrFits(x: nat, y: nat, n: nat)
    requires Fits(x, n) && Fits(y, n)
    ensures Fits(Or(x, y), n)
  {
    forall i: nat | i >= n
      ensures !Bit(Or(x, y), i)
    {
      BitOr(x, y, i);
    }
  }

  lemma ShrFits(x: nat, s: nat, n: nat)
    requires Fits(x, n)
    ensures Fits(Shr(x, s), n)
  {
    forall i: nat | i >= n
      ensures !Bit(Shr(x, s), i)
    {
      BitShr(x, s, i);
    }
  }

  lemma ZeroFits(n: nat)
    ensures Fits(0, n)
  {
    forall i: nat {
      BitZero(i);
    }
  }

  lemma {:induction false} FromBitsBit(f: nat -> bool, n: nat, i: nat)
    ensures Bit(FromBits(f, n), i) <==> i < n && f(i)
    decreases n
  {
    if n == 0 {
      BitZero(i);
    } else {
      var g := (j: nat) => f(j + 1);
      assert FromBits(f, n) / 2 == FromBits(g, n - 1);
      if i > 0 {
        FromBitsBit(g, n - 1, i - 1);
        assert g(i - 1) == f(i);
      }
    }
  }

  /** Reading back the bits of an `n`-bit number gives the number. */
  lemma {:induction false} FromBitsOf(x: nat, n: nat, f: nat -> bool)
    requires Fits(x, n)
    requires forall j: nat | j < n :: f(j) <==> Bit(x, j)
    ensures FromBits(f, n) == x
  {
    forall i: nat
      ensures Bit(FromBits(f, n), i) <==> Bit(x, i)
    {
      FromBitsBit(f, n, i);
    }
    BitsEqual(FromBits(f, n), x);
  }

  /** Placing `b` above an `n`-bit number `a` is both an addition and a bitwise or. */
  lemma {:induction false} JoinBits(a: nat, b: nat, n: nat)
    requires Fits(a, n)
    ensures Or(a, Shl(b, n)) == a + Shl(b, n)
  {
    if n == 0 {
      forall i: nat {
        BitZero(i);
      }
      BitsEqual(a, 0);
      OrZero(b);
    } else {
      forall i: nat | i >= n - 1
        ensures !Bit(a / 2, i)
      {
        assert !Bit(a, i + 1);
      }
      JoinBits(a / 2, b, n - 1);
      assert Shl(b, n) / 2 == Shl(b, n - 1);
      if a != 0 || Shl(b, n) != 0 {
        assert Or(a, Shl(b, n)) == a % 2 + 2 * Or(a / 2, Shl(b, n - 1));
      }
    }
  }

  lemma {:induction false} OrZero(b: nat)
    ensures Or(0, b) == b
  {
    if b > 0 {
      OrZero(b / 2);
    }
  }

  lemma BitJoin(a: nat, b: nat, n: nat, i: nat)
    requires Fits(a, n)
    ensures Bit(a + Shl(b, n), i) <==> if i < n then Bit(a, i) else Bit(b, i - n)
  {
    JoinBits(a, b, n);
    BitOr(a, Shl(b, n), i);
    BitShl(b, n, i);
  }
}
