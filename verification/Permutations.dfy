/** Index arrays: sorting, the permutation check of `permute_rows`, and inverse orders. */
module Permutations {
  import opened Sequences

  /** `range(n)`. */
  function Range(n: nat): (r: seq<int>)
    ensures |r| == n && forall i | 0 <= i < n :: r[i] == i
  {
    if n == 0 then [] else Range(n - 1) + [n - 1]
  }

  ghost predicate Permutes(index: seq<int>, n: nat) {
    |index| == n && (forall i | 0 <= i < n :: 0 <= index[i] < n) && Distinct(index)
  }

  predicate InBounds(index: seq<int>, n: nat) {
    forall k | 0 <= k < |index| :: 0 <= index[k] < n
  }

  /** `rows[index]`. */
  function Gather<T>(rows: seq<T>, index: seq<int>): (r: seq<T>)
    requires InBounds(index, |rows|)
    ensures |r| == |index| && forall k | 0 <= k < |index| :: r[k] == rows[index[k]]
  {
    seq(|index|, k requires 0 <= k < |index| => rows[index[k]])
  }

  // ---- Counting ----

  function Count(s: seq<int>, v: int): nat {
    if |s| == 0 then 0 else (if s[0] == v then 1 else 0) + Count(s[1..], v)
  }

  lemma {:induction false} CountConcat(a: seq<int>, b: seq<int>, v: int)
    ensures Count(a + b, v) == Count(a, v) + Count(b, v)
  {
    if |a| == 0 {
      assert a + b == b;
    } else {
      assert (a + b)[1..] == a[1..] + b;
      CountConcat(a[1..], b, v);
    }
  }

  lemma {:induction false} CountAt(s: seq<int>, i: nat)
    requires i < |s|
    ensures Count(s, s[i]) >= 1
  {
    if i > 0 {
      CountAt(s[1..], i - 1);
    }
  }

  lemma {:induction false} CountTwice(s: seq<int>, i: nat, j: nat)
    requires i < j < |s| && s[i] == s[j]
    ensures Count(s, s[i]) >= 2
  {
    if i == 0 {
      CountAt(s[1..], j - 1);
    } else {
      CountTwice(s[1..], i - 1, j - 1);
    }
  }

  lemma {:induction false} CountDistinct(s: seq<int>, v: int)
    requires Distinct(s)
    ensures Count(s, v) == if v in s then 1 else 0
  {
    if |s| > 0 {
      assert s == [s[0]] + s[1..];
      CountDistinct(s[1..], v);
    }
  }

  lemma {:induction false} CountIs(s: seq<int>, v: int)
    ensures Count(s, v) == multiset(s)[v]
  {
    if |s| > 0 {
      assert s == [s[0]] + s[1..];
      CountIs(s[1..], v);
    }
  }

  // ---- Sorting ----

  ghost predicate AtLeast(s: seq<int>, low: int) {
    |s| == 0 || (low <= s[0] && AtLeast(s[1..], low))
  }

  ghost predicate Sorted(s: seq<int>) {
    |s| == 0 || (AtLeast(s[1..], s[0]) && Sorted(s[1..]))
  }

  /** After the entries that are not greater. */
  function Insert(x: int, s: seq<int>): seq<int> {
    if |s| == 0 || x < s[0] then [x] + s else [s[0]] + Insert(x, s[1..])
  }

  function Sort(s: seq<int>): seq<int> {
    if |s| == 0 then [] else Insert(s[|s| - 1], Sort(s[..|s| - 1]))
  }

  lemma {:induction false} AtLeastLess(s: seq<int>, low: int, lower: int)
    requires AtLeast(s, low) && lower <= low
    ensures AtLeast(s, lower)
  {
    if |s| > 0 {
      AtLeastLess(s[1..], low, lower);
    }
  }

  lemma {:induction false} InsertAtLeast(x: int, s: seq<int>, low: int)
    requires AtLeast(s, low) && low <= x
    ensures AtLeast(Insert(x, s), low)
  {
    if |s| == 0 || x < s[0] {
      assert ([x] + s)[1..] == s;
    } else {
      InsertAtLeast(x, s[1..], low);
      assert ([s[0]] + Insert(x, s[1..]))[1..] == Insert(x, s[1..]);
    }
  }

  lemma {:induction false} InsertSorts(x: int, s: seq<int>)
    requires Sorted(s)
    ensures Sorted(Insert(x, s))
  {
    if |s| == 0 || x < s[0] {
      assert ([x] + s)[1..] == s;
      if |s| > 0 {
        AtLeastLess(s[1..], s[0], x);
      }
    } else {
      InsertSorts(x, s[1..]);
      InsertAtLeast(x, s[1..], s[0]);
      assert ([s[0]] + Insert(x, s[1..]))[1..] == Insert(x, s[1..]);
    }
  }

  lemma {:induction false} InsertCounts(x: int, s: seq<int>, v: int)
    ensures Count(Insert(x, s), v) == Count(s, v) + if v == x then 1 else 0
  {
    if |s| == 0 || x < s[0] {
      assert ([x] + s)[1..] == s;
    } else {
      InsertCounts(x, s[1..], v);
      assert ([s[0]] + Insert(x, s[1..]))[1..] == Insert(x, s[1..]);
    }
  }

  lemma {:induction false} SortSorts(s: seq<int>, v: int)
    ensures Sorted(Sort(s)) && Count(Sort(s), v) == Count(s, v)
  {
    if |s| > 0 {
      var front, last := s[..|s| - 1], s[|s| - 1];
      SortSorts(front, v);
      InsertSorts(last, Sort(front));
      InsertCounts(last, Sort(front), v);
      assert s == front + [last];
      CountConcat(front, [last], v);
    }
  }

  lemma {:induction false} NoneBelow(s: seq<int>, low: int, v: int)
    requires AtLeast(s, low) && v < low
    ensures Count(s, v) == 0
  {
    if |s| > 0 {
      NoneBelow(s[1..], low, v);
    }
  }

  ghost predicate SameCounts(a: seq<int>, b: seq<int>) {
    forall v :: Count(a, v) == Count(b, v)
  }

  lemma NotLess(a: seq<int>, b: seq<int>)
    requires Sorted(b) && SameCounts(a, b) && |a| > 0 && |b| > 0
    ensures b[0] <= a[0]
  {
    CountAt(a, 0);
    if a[0] < b[0] {
      assert Count(b, a[0]) == Count(a, a[0]);
      NoneBelow(b[1..], b[0], a[0]);
    }
  }

  lemma NeitherEmpty(a: seq<int>, b: seq<int>)
    requires SameCounts(a, b)
    ensures |a| > 0 ==> |b| > 0
  {
    if |a| > 0 {
      CountAt(a, 0);
      assert Count(b, a[0]) == Count(a, a[0]);
    }
  }

  /** There is one way to sort. */
  lemma {:induction false} SortedUnique(a: seq<int>, b: seq<int>)
    requires Sorted(a) && Sorted(b) && SameCounts(a, b)
    ensures a == b
  {
    NeitherEmpty(a, b);
    NeitherEmpty(b, a);
    if |a| > 0 {
      NotLess(a, b);
      NotLess(b, a);
      forall v
        ensures Count(a[1..], v) == Count(b[1..], v)
      {
        assert Count(a, v) == Count(b, v);
      }
      SortedUnique(a[1..], b[1..]);
      assert a == [a[0]] + a[1..] && b == [b[0]] + b[1..];
    }
  }

  // ---- Permutations are exactly what sorts to the range ----

  lemma {:induction false} RangeAbove(k: nat, n: nat)
    requires k <= n
    ensures Sorted(Range(n)[k..]) && AtLeast(Range(n)[k..], k)
    decreases n - k
  {
    if k < n {
      RangeAbove(k + 1, n);
      assert Range(n)[k..][1..] == Range(n)[k + 1..];
      AtLeastLess(Range(n)[k + 1..], k + 1, k);
    }
  }

  lemma RangeSorted(n: nat)
    ensures Sorted(Range(n)) && Distinct(Range(n)) && forall v :: v in Range(n) <==> 0 <= v < n
  {
    RangeAbove(0, n);
    assert Range(n)[0..] == Range(n);
    forall v | 0 <= v < n
      ensures v in Range(n)
    {
      assert Range(n)[v] == v;
    }
  }

  ghost function ValuesOf(s: seq<int>): (r: set<int>)
    ensures forall v :: v in r <==> v in s
  {
    if |s| == 0 then {} else ValuesOf(s[..|s| - 1]) + {s[|s| - 1]}
  }

  lemma {:induction false} DistinctSize(s: seq<int>)
    requires Distinct(s)
    ensures |ValuesOf(s)| == |s|
  {
    if |s| > 0 {
      DistinctSize(s[..|s| - 1]);
      assert s[|s| - 1] !in s[..|s| - 1];
    }
  }

  lemma SubsetFull(a: set<int>, b: set<int>)
    requires a <= b && |a| == |b|
    ensures a == b
  {
    assert b == a + (b - a);
    assert |b - a| == 0;
  }

  lemma RangeValues(n: nat) returns (all: set<int>)
    ensures |all| == n && forall v :: v in all <==> 0 <= v < n
  {
    all := ValuesOf(Range(n));
    RangeSorted(n);
    DistinctSize(Range(n));
  }

  lemma InRange(index: seq<int>, n: nat, v: int)
    requires Permutes(index, n) && v in index
    ensures 0 <= v < n
  {
  }

  /** Nothing of the range is missing. */
  lemma PermutationCovers(index: seq<int>, n: nat)
    requires Permutes(index, n)
    ensures forall v :: v in index <==> 0 <= v < n
  {
    var all := RangeValues(n);
    var values := ValuesOf(index);
    DistinctSize(index);
    forall v | v in values
      ensures v in all
    {
      InRange(index, n, v);
    }
    SubsetFull(values, all);
  }

  lemma PermutationCounts(index: seq<int>, n: nat)
    requires Permutes(index, n)
    ensures SameCounts(index, Range(n))
  {
    PermutationCovers(index, n);
    RangeSorted(n);
    forall v
      ensures Count(index, v) == Count(Range(n), v)
    {
      CountDistinct(index, v);
      CountDistinct(Range(n), v);
    }
  }

  /** The check of `permute_rows`: right length, and sorted it is the range. */
  predicate Accepted(index: seq<int>, n: nat) {
    |index| == n && Sort(index) == Range(n)
  }

  lemma AcceptedOnlyIf(index: seq<int>, n: nat)
    requires Accepted(index, n)
    ensures Permutes(index, n)
  {
    RangeSorted(n);
    forall i | 0 <= i < n
      ensures 0 <= index[i] < n
    {
      CountAt(index, i);
      SortSorts(index, index[i]);
      CountDistinct(Range(n), index[i]);
    }
    forall i, j | 0 <= i < j < n
      ensures index[i] != index[j]
    {
      if index[i] == index[j] {
        CountTwice(index, i, j);
        SortSorts(index, index[i]);
        CountDistinct(Range(n), index[i]);
      }
    }
  }

  lemma PermutationSorts(index: seq<int>, n: nat)
    requires Permutes(index, n)
    ensures Sort(index) == Range(n)
  {
    PermutationCounts(index, n);
    RangeSorted(n);
    forall v
      ensures Sorted(Sort(index)) && Count(Sort(index), v) == Count(Range(n), v)
    {
      SortSorts(index, v);
      assert Count(index, v) == Count(Range(n), v);
    }
    SortSorts(index, 0);
    SortedUnique(Sort(index), Range(n));
  }

  /** The check accepts exactly the permutations. */
  lemma AcceptedIff(index: seq<int>, n: nat)
    ensures Accepted(index, n) <==> Permutes(index, n)
  {
    if Permutes(index, n) {
      PermutationSorts(index, n);
    }
    if Accepted(index, n) {
      AcceptedOnlyIf(index, n);
    }
  }

  // ---- argsort ----

  /** Position `p` among positions ordered by key, after those whose key is not greater. */
  function InsertByKey(keys: seq<int>, p: nat, order: seq<nat>): (r: seq<nat>)
    requires p < |keys| && forall i | 0 <= i < |order| :: order[i] < |keys|
    ensures |r| == |order| + 1 && forall i | 0 <= i < |r| :: r[i] < |keys|
  {
    if |order| == 0 || keys[p] < keys[order[0]] then [p] + order
    else [order[0]] + InsertByKey(keys, p, order[1..])
  }

  function ArgSortTo(keys: seq<int>, n: nat): (r: seq<nat>)
    requires n <= |keys|
    ensures |r| == n && forall i | 0 <= i < n :: r[i] < |keys|
  {
    if n == 0 then [] else InsertByKey(keys, n - 1, ArgSortTo(keys, n - 1))
  }

  function ArgSort(keys: seq<int>): (r: seq<nat>)
    ensures |r| == |keys| && forall i | 0 <= i < |r| :: r[i] < |keys|
  {
    ArgSortTo(keys, |keys|)
  }

  lemma {:induction false} InsertedKeys(keys: seq<int>, p: nat, order: seq<nat>)
    requires p < |keys| && forall i | 0 <= i < |order| :: order[i] < |keys|
    ensures Gather(keys, InsertByKey(keys, p, order)) == Insert(keys[p], Gather(keys, order))
  {
    if |order| == 0 || keys[p] < keys[order[0]] {
      assert ([p] + order)[1..] == order;
    } else {
      InsertedKeys(keys, p, order[1..]);
      assert ([order[0]] + InsertByKey(keys, p, order[1..]))[1..] == InsertByKey(keys, p, order[1..]);
      assert Gather(keys, order)[1..] == Gather(keys, order[1..]);
    }
  }

  /** Gathering by `argsort` sorts. */
  lemma {:induction false} ArgSortSorts(keys: seq<int>, n: nat)
    requires n <= |keys|
    ensures Gather(keys, ArgSortTo(keys, n)) == Sort(keys[..n])
  {
    if n > 0 {
      ArgSortSorts(keys, n - 1);
      InsertedKeys(keys, n - 1, ArgSortTo(keys, n - 1));
      assert keys[..n][..n - 1] == keys[..n - 1];
    }
  }

  /** For a permutation, `argsort` is its inverse, from both sides. */
  lemma ArgSortInverts(index: seq<int>, n: nat)
    requires Permutes(index, n)
    ensures forall k | 0 <= k < n :: index[ArgSort(index)[k]] == k
    ensures forall j | 0 <= j < n :: ArgSort(index)[index[j]] == j
  {
    var order := ArgSort(index);
    ArgSortSorts(index, n);
    assert index[..n] == index;
    PermutationSorts(index, n);
    forall k | 0 <= k < n
      ensures index[order[k]] == k
    {
      assert Gather(index, order)[k] == Range(n)[k];
    }
    forall j | 0 <= j < n
      ensures order[index[j]] == j
    {
      assert index[order[index[j]]] == index[j];
    }
  }
}
