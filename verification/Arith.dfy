/** Facts about products, quotients and remainders that index arithmetic needs. */
module Arith {

  lemma ProductAtLeast(k: int, m: int)
    requires k >= 1 && m >= 0
    ensures k * m >= m
  {
  }

  lemma QuotientUnique(q: int, r: int, p: int, s: int, m: int)
    requires 0 <= r < m && 0 <= s < m && q * m + r == p * m + s
    ensures q == p && r == s
  {
    assert (q - p) * m == q * m - p * m == s - r;
    assert (p - q) * m == p * m - q * m == r - s;
    if q > p {
      ProductAtLeast(q - p, m);
    } else if q < p {
      ProductAtLeast(p - q, m);
    }
  }

  lemma DivModUnique(q: int, r: int, m: int)
    requires 0 <= r < m
    ensures (q * m + r) / m == q && (q * m + r) % m == r
  {
    var x := q * m + r;
    QuotientUnique(q, r, x / m, x % m, m);
  }

  /** Coordinate `(i, j)` of an n-by-m row-major array lies inside the array. */
  lemma FlatIndex(i: int, j: int, n: int, m: int)
    requires 0 <= i < n && 0 <= j < m
    ensures 0 <= i * m + j < n * m
  {
    assert (i + 1) * m <= n * m;
  }

  /** A flat position splits into a row and a column inside the array. */
  lemma FlatSplit(x: int, n: int, m: int)
    requires 0 <= x < n * m && m > 0 && n >= 0
    ensures 0 <= x / m < n && 0 <= x % m < m && x == (x / m) * m + x % m
  {
    ProductMonotone(n, x / m, m);
  }

  lemma ProductMonotone(n: int, q: int, m: int)
    requires m >= 0
    ensures n <= q ==> n * m <= q * m
  {
    if n <= q {
      assert q * m == n * m + (q - n) * m;
    }
  }

  lemma DivNested(x: int, m: int, n: int)
    requires x >= 0 && m > 0 && n > 0
    ensures m * n > 0 && x / (m * n) == (x / m) / n && x % (m * n) == ((x / m) % n) * m + x % m
  {
    var a := x / m;
    var q, c, b := a / n, a % n, x % m;
    assert x == a * m + b;
    assert a == q * n + c;
    NestedParts(x, a, b, q, c, m, n);
    DivModUnique(q, c * m + b, m * n);
  }

  lemma NestedParts(x: int, a: int, b: int, q: int, c: int, m: int, n: int)
    requires m > 0 && n > 0 && 0 <= b < m && 0 <= c < n
    requires x == a * m + b && a == q * n + c
    ensures x == q * (m * n) + (c * m + b) && 0 <= c * m + b < m * n
  {
    Expand(q, n, c, m);
    ProductMonotone(c + 1, n, m);
    assert (c + 1) * m == c * m + m;
    assert n * m == m * n;
  }

  lemma Expand(q: int, n: int, c: int, m: int)
    ensures (q * n + c) * m == q * (m * n) + c * m
  {
    Distribute(q * n, c, m);
    assert (q * n) * m == q * (n * m);
  }

  lemma Distribute(a: int, b: int, m: int)
    ensures (a + b) * m == a * m + b * m
  {
  }

  /** Division that rounds up. */
  function CeilDiv(n: nat, d: nat): nat
    requires d > 0
  {
    (n + d - 1) / d
  }

  /**
   The row-major position of `(i, j)` in an array with rows of `m` entries: `i * m + j`,
   defined row by row so that reasoning about positions stays linear.
   */
  function Flat(i: nat, m: nat, j: nat): nat {
    if i == 0 then j else m + Flat(i - 1, m, j)
  }

  lemma {:induction false} FlatIs(i: nat, m: nat, j: nat)
    ensures Flat(i, m, j) == i * m + j
  {
    if i > 0 {
      FlatIs(i - 1, m, j);
      Distribute(i - 1, 1, m);
    }
  }

  lemma {:induction false} FlatShift(i: nat, m: nat, j: nat, k: nat)
    ensures Flat(i, m, j + k) == Flat(i, m, j) + k
  {
    if i > 0 {
      FlatShift(i - 1, m, j, k);
    }
  }

  lemma {:induction false} FlatNext(i: nat, m: nat)
    ensures Flat(i + 1, m, 0) == Flat(i, m, 0) + m == Flat(i, m, m)
  {
    FlatShift(i, m, 0, m);
  }

  lemma {:induction false} FlatMonotone(i: nat, p: nat, m: nat)
    requires i <= p
    ensures Flat(i, m, 0) <= Flat(p, m, 0)
  {
    if i < p {
      FlatMonotone(i, p - 1, m);
    }
  }

  /** Position `(i, j)` and the `k` positions after it in its row lie inside `n` rows. */
  lemma FlatInside(i: nat, j: nat, k: nat, n: nat, m: nat)
    requires i < n && j + k <= m
    ensures Flat(i, m, j) + k <= Flat(n, m, 0)
  {
    FlatShift(i, m, 0, j);
    FlatNext(i, m);
    FlatMonotone(i + 1, n, m);
  }

  lemma {:induction false} FlatInjective(i: nat, j: nat, p: nat, q: nat, m: nat)
    requires j < m && q < m && Flat(i, m, j) == Flat(p, m, q)
    ensures i == p && j == q
  {
    if i < p {
      FlatInside(i, j, 1, p, m);
      FlatShift(p, m, 0, q);
    } else if p < i {
      FlatInside(p, q, 1, i, m);
      FlatShift(i, m, 0, j);
    } else {
      FlatShift(i, m, 0, j);
      FlatShift(i, m, 0, q);
    }
  }

  /** Every position inside `n` rows has coordinates. */
  lemma {:induction false} FlatCover(x: nat, n: nat, m: nat) returns (i: nat, j: nat)
    requires x < Flat(n, m, 0)
    ensures i < n && j < m && x == Flat(i, m, j)
  {
    if x < m {
      return 0, x;
    }
    var p, q := FlatCover(x - m, n - 1, m);
    return p + 1, q;
  }

  // ---- Quotients and remainders by repeated subtraction ----

  function Quot(x: nat, m: nat): nat
    requires m > 0
  {
    if x < m then 0 else 1 + Quot(x - m, m)
  }

  function Rem(x: nat, m: nat): (r: nat)
    requires m > 0
    ensures r < m
  {
    if x < m then x else Rem(x - m, m)
  }

  lemma {:induction false} QuotIs(x: nat, m: nat)
    requires m > 0
    ensures Quot(x, m) == x / m && Rem(x, m) == x % m
  {
    if x < m {
      DivModUnique(0, x, m);
    } else {
      QuotIs(x - m, m);
      var q, r := (x - m) / m, (x - m) % m;
      Distribute(q, 1, m);
      DivModUnique(q + 1, r, m);
    }
  }

  lemma {:induction false} QuotFlat(i: nat, m: nat, j: nat)
    requires j < m
    ensures Quot(Flat(i, m, j), m) == i && Rem(Flat(i, m, j), m) == j
  {
    if i > 0 {
      QuotFlat(i - 1, m, j);
    }
  }

  lemma {:induction false} FlatQuot(x: nat, m: nat)
    requires m > 0
    ensures Flat(Quot(x, m), m, Rem(x, m)) == x
  {
    if x >= m {
      FlatQuot(x - m, m);
    }
  }

  lemma {:induction false} QuotBelow(x: nat, q: nat, m: nat)
    requires m > 0 && x < Flat(q, m, 0)
    ensures Quot(x, m) < q
  {
    if x >= m {
      QuotBelow(x - m, q - 1, m);
    }
  }

  /** Dividing by a product is dividing twice. */
  lemma QuotNested(x: nat, m: nat, n: nat, mn: nat)
    requires m > 0 && n > 0 && mn == m * n && mn > 0
    ensures Quot(x, mn) == Quot(Quot(x, m), n) && Rem(x, mn) == Flat(Rem(Quot(x, m), n), m, Rem(x, m))
  {
    DivNested(x, m, n);
    QuotIs(x, mn);
    QuotIs(x, m);
    QuotIs(x / m, n);
    FlatIs(x / m % n, m, x % m);
  }

  /** Rows of `m` columns of `n` entries each, read as one array. */
  lemma FlatNested(i: nat, n: nat, j: nat, m: nat, k: nat, mn: nat)
    requires mn == m * n
    ensures Flat(Flat(i, n, j), m, k) == Flat(i, mn, Flat(j, m, k))
  {
    FlatIs(i, n, j);
    FlatIs(j, m, k);
    FlatIs(Flat(i, n, j), m, k);
    FlatIs(i, mn, Flat(j, m, k));
    Distribute(i * n, j, m);
    Associate(i, n, m);
  }

  lemma Associate(i: nat, n: nat, m: nat)
    ensures i * (m * n) == (i * n) * m
  {
  }

  /** The number of entries of an array. */
  function Elements(shape: seq<nat>): nat {
    if |shape| == 0 then 1 else Flat(Elements(shape[..|shape| - 1]), shape[|shape| - 1], 0)
  }

  lemma {:induction false} ElementsFirst(shape: seq<nat>)
    requires |shape| > 0
    ensures Elements(shape) == shape[0] * Elements(shape[1..])
  {
    var n := |shape| - 1;
    FlatIs(Elements(shape[..n]), shape[n], 0);
    if n == 0 {
      assert shape[..0] == [] && shape[1..] == [];
    } else {
      ElementsFirst(shape[..n]);
      assert shape[..n][1..] == shape[1..][..n - 1];
      ElementsLast(shape[0], Elements(shape[1..][..n - 1]), shape[n]);
    }
  }

  lemma ElementsLast(first: nat, middle: nat, last: nat)
    ensures (first * middle) * last == first * Flat(middle, last, 0)
  {
    FlatIs(middle, last, 0);
    Associate(first, last, middle);
  }
}
