/** Finite sums of integer functions, and the rearrangements parallel reductions use. */
module Sums {
  import opened Arith

  function Sum(n: nat, f: int -> int): int
    decreases n, f
  {
    if n == 0 then 0 else Sum(n - 1, f) + f(n - 1)
  }

  lemma {:induction false} SumEqual(n: nat, f: int -> int, g: int -> int)
    requires forall i | 0 <= i < n :: f(i) == g(i)
    ensures Sum(n, f) == Sum(n, g)
  {
    if n > 0 {
      SumEqual(n - 1, f, g);
    }
  }

  lemma {:induction false} SumZero(n: nat, f: int -> int)
    requires forall i | 0 <= i < n :: f(i) == 0
    ensures Sum(n, f) == 0
  {
    if n > 0 {
      SumZero(n - 1, f);
    }
  }

  lemma {:induction false} SumAdd(n: nat, f: int -> int, g: int -> int)
    ensures Sum(n, i => f(i) + g(i)) == Sum(n, f) + Sum(n, g)
  {
    if n > 0 {
      SumAdd(n - 1, f, g);
    }
  }

  /** A sum whose terms all vanish except one. */
  lemma {:induction false} SumPoint(n: nat, f: int -> int, k: int)
    requires 0 <= k < n && forall i | 0 <= i < n && i != k :: f(i) == 0
    ensures Sum(n, f) == f(k)
  {
    if k == n - 1 {
      SumZero(n - 1, f);
    } else {
      SumPoint(n - 1, f, k);
    }
  }

  /** Terms that vanish past `m` do not count. */
  lemma {:induction false} SumTail(m: nat, n: nat, f: int -> int)
    requires m <= n && forall i | m <= i < n :: f(i) == 0
    ensures Sum(n, f) == Sum(m, f)
  {
    if m < n {
      SumTail(m, n - 1, f);
    }
  }

  /** The terms of `f` from position `start` on. */
  function Shifted(f: int -> int, start: int): int -> int {
    j => f(start + j)
  }

  /** Row sums of a flat array with `m` columns. */
  function RowSums(f: int -> int, m: nat): int -> int {
    i => Sum(m, Shifted(f, i * m))
  }

  lemma {:induction false} SumAppend(m: nat, n: nat, f: int -> int)
    ensures Sum(m + n, f) == Sum(m, f) + Sum(n, Shifted(f, m))
    decreases n
  {
    if n > 0 {
      SumAppend(m, n - 1, f);
    }
  }

  /** A flat sum is the sum of its rows. */
  lemma {:induction false} SumNest(n: nat, m: nat, f: int -> int)
    ensures n * m >= 0 && Sum(n * m, f) == Sum(n, RowSums(f, m))
  {
    if n > 0 {
      SumNest(n - 1, m, f);
      var before := (n - 1) * m;
      assert n * m == before + m by {
        Distribute(n - 1, 1, m);
      }
      SumAppend(before, m, f);
    }
  }

  /** Exchanging the order of summation. */
  lemma {:induction false} SumSwap(n: nat, m: nat, f: (int, int) -> int)
    ensures Sum(n, i => Sum(m, j => f(i, j))) == Sum(m, j => Sum(n, i => f(i, j)))
  {
    var left := i => Sum(m, j => f(i, j));
    var right := j => Sum(n, i => f(i, j));
    if n == 0 {
      SumZero(m, right);
    } else {
      var before := j => Sum(n - 1, i => f(i, j));
      var last := j => f(n - 1, j);
      SumSwap(n - 1, m, f);
      SumAdd(m, before, last);
      forall j | 0 <= j < m
        ensures right(j) == before(j) + last(j)
      {
        SumEqual(n - 1, i => f(i, j), i => f(i, j));
      }
      SumEqual(m, right, j => before(j) + last(j));
      SumEqual(m, last, j => f(n - 1, j));
    }
  }

  /** The terms that a thread visits: indices congruent to `t` modulo `stride`. */
  function Strided(f: int -> int, t: int, stride: int): int -> int
    requires stride > 0
  {
    i => if i % stride == t then f(i) else 0
  }

  /** What each of `stride` threads sums. */
  function PerThread(f: int -> int, total: nat, stride: int): int -> int
    requires stride > 0
  {
    t => Sum(total, Strided(f, t, stride))
  }

  /** Threads that stride an index range sum every term exactly once. */
  lemma StridesPartition(total: nat, stride: nat, f: int -> int)
    requires stride > 0
    ensures Sum(stride, PerThread(f, total, stride)) == Sum(total, f)
  {
    var cell := (t: int, i: int) => if i % stride == t then f(i) else 0;
    SumSwap(stride, total, cell);
    forall i | 0 <= i < total
      ensures Sum(stride, t => cell(t, i)) == f(i)
    {
      SumPoint(stride, t => cell(t, i), i % stride);
    }
    SumEqual(total, i => Sum(stride, t => cell(t, i)), f);
    forall t | 0 <= t < stride
      ensures PerThread(f, total, stride)(t) == Sum(total, i => cell(t, i))
    {
      SumEqual(total, Strided(f, t, stride), i => cell(t, i));
    }
    SumEqual(stride, PerThread(f, total, stride), t => Sum(total, i => cell(t, i)));
  }

  /** One stride step of a thread: the next `stride - 1` terms are not its own. */
  lemma StrideStep(f: int -> int, t: int, stride: nat, g: nat, total: nat)
    requires stride > 0 && g < total && g % stride == t
    ensures Sum(if g + stride < total then g + stride else total, Strided(f, t, stride)) ==
              Sum(g, Strided(f, t, stride)) + f(g)
  {
    var next := if g + stride < total then g + stride else total;
    forall i | g + 1 <= i < next
      ensures i % stride != t
    {
      NoMultipleBetween(g, i, stride);
    }
    SumTail(g + 1, next, Strided(f, t, stride));
  }

  lemma NoMultipleBetween(g: nat, i: nat, stride: nat)
    requires g < i < g + stride
    ensures i % stride != g % stride
  {
    if i % stride == g % stride {
      var q := i / stride - g / stride;
      assert i == i / stride * stride + i % stride;
      assert g == g / stride * stride + g % stride;
      assert i - g == q * stride by {
        Distribute(i / stride, -(g / stride), stride);
      }
      if q >= 1 {
        ProductMonotone(1, q, stride);
      } else {
        ProductMonotone(q, 0, stride);
      }
    }
  }

  /** Sum over the indices listed in `s`. */
  function SumOver(s: seq<int>, f: int -> int): int {
    if |s| == 0 then 0 else f(s[0]) + SumOver(s[1..], f)
  }

  lemma {:induction false} SumOverSplit(a: seq<int>, b: seq<int>, f: int -> int)
    ensures SumOver(a + b, f) == SumOver(a, f) + SumOver(b, f)
  {
    if |a| == 0 {
      assert a + b == b;
    } else {
      assert (a + b)[1..] == a[1..] + b;
      SumOverSplit(a[1..], b, f);
    }
  }

  lemma RemoveAt(b: seq<int>, k: nat)
    requires k < |b|
    ensures multiset(b[..k] + b[k + 1..]) == multiset(b) - multiset{b[k]}
  {
    assert b == b[..k] + [b[k]] + b[k + 1..];
    assert multiset(b) == multiset(b[..k] + b[k + 1..]) + multiset{b[k]};
  }

  lemma {:induction false} SumOverRemove(b: seq<int>, k: nat, f: int -> int)
    requires k < |b|
    ensures SumOver(b, f) == f(b[k]) + SumOver(b[..k] + b[k + 1..], f)
  {
    if k == 0 {
      assert b[..0] + b[1..] == b[1..];
    } else {
      var rest := b[..k] + b[k + 1..];
      assert rest[1..] == b[1..][..k - 1] + b[1..][k..];
      SumOverRemove(b[1..], k - 1, f);
    }
  }

  /** Reordering the indices does not change the sum. */
  lemma {:induction false} SumOverReordered(a: seq<int>, b: seq<int>, f: int -> int)
    requires multiset(a) == multiset(b)
    ensures SumOver(a, f) == SumOver(b, f)
  {
    if |a| == 0 {
      assert |b| == |multiset(b)| == 0;
    } else {
      assert a[0] in multiset(b);
      var k :| 0 <= k < |b| && b[k] == a[0];
      RemoveAt(a, 0);
      assert a[..0] + a[1..] == a[1..];
      RemoveAt(b, k);
      SumOverRemove(b, k, f);
      SumOverReordered(a[1..], b[..k] + b[k + 1..], f);
    }
  }

  /** A sum over the whole index range is the indexed sum. */
  lemma {:induction false} SumOverIndices(s: seq<int>, f: int -> int, g: int -> int)
    requires forall i | 0 <= i < |s| :: g(i) == f(s[i])
    ensures SumOver(s, f) == Sum(|s|, g)
  {
    if |s| > 0 {
      var n := |s| - 1;
      assert s == s[..n] + [s[n]];
      SumOverSplit(s[..n], [s[n]], f);
      SumOverIndices(s[..n], f, g);
    }
  }
}
