/**
 The order and byte count of `ExpertStore` as a state machine over keys: what one
 `get` or `clear` does, the invariant after every call, and when a small cache stays
 included in a larger one.
 */
module Lru {
  import opened Sequences

  /** Keys from least to most recently used, and the running byte count. */
  datatype State<K> = State(order: seq<K>, bytes: int)

  /** What a checkpoint says about keys: which exist and how many bytes they hold. */
  datatype Catalog<!K> = Catalog(present: K -> bool, size: K -> nat)

  function Total<K>(c: Catalog<K>, s: seq<K>): nat {
    if |s| == 0 then 0 else c.size(s[0]) + Total(c, s[1..])
  }

  /** The keys of `s` that are not in `without`, in order. */
  function Minus<K(==)>(s: seq<K>, without: seq<K>): seq<K> {
    if |s| == 0 then [] else (if s[0] in without then [] else [s[0]]) + Minus(s[1..], without)
  }

  // ---- One call ----

  /** Reads of the missing keys: each present key is appended unless an earlier read already did. */
  function Load<K(==)>(c: Catalog<K>, order: seq<K>, missing: seq<K>): seq<K>
    decreases |missing|
  {
    if |missing| == 0 then order
    else
      var k := missing[0];
      Load(c, if c.present(k) && k !in order then order + [k] else order, missing[1..])
  }

  /** Every read counts its bytes, also a repeated one. */
  function LoadBytes<K>(c: Catalog<K>, missing: seq<K>): nat {
    if |missing| == 0 then 0
    else (if c.present(missing[0]) then c.size(missing[0]) else 0) + LoadBytes(c, missing[1..])
  }

  /** `move_to_end` for each key in turn, up to the first key that is not cached. */
  function Move<K(==)>(order: seq<K>, keys: seq<K>): seq<K>
    decreases |keys|
  {
    if |keys| == 0 || keys[0] !in order then order
    else Move(Minus(order, [keys[0]]) + [keys[0]], keys[1..])
  }

  /** Drop from the front while over budget, but keep at least `keep` entries. */
  function Evict<K>(c: Catalog<K>, s: State<K>, budget: int, keep: nat): State<K>
    decreases |s.order|
  {
    if s.bytes > budget && |s.order| > keep
    then Evict(c, State(s.order[1..], s.bytes - c.size(s.order[0])), budget, keep)
    else s
  }

  predicate AllPresent<K>(c: Catalog<K>, keys: seq<K>) {
    forall i | 0 <= i < |keys| :: c.present(keys[i])
  }

  /** Between the moves and the eviction. */
  function BeforeEvict<K(==)>(c: Catalog<K>, s: State<K>, keys: seq<K>): State<K> {
    var missing := Minus(keys, s.order);
    State(Move(Load(c, s.order, missing), keys), s.bytes + LoadBytes(c, missing))
  }

  /** The state after `get`; a key the checkpoint lacks raises before eviction. */
  function Get<K(==)>(c: Catalog<K>, budget: int, s: State<K>, keys: seq<K>): State<K> {
    var moved := BeforeEvict(c, s, keys);
    if AllPresent(c, keys) then Evict(c, moved, budget, |keys|) else moved
  }

  // ---- Sequence facts ----

  lemma {:induction false} MinusIs<K>(s: seq<K>, without: seq<K>)
    ensures forall k :: k in Minus(s, without) <==> k in s && k !in without
  {
    if |s| > 0 {
      MinusIs(s[1..], without);
      assert s == [s[0]] + s[1..];
    }
  }

  lemma {:induction false} MinusDistinct<K>(s: seq<K>, without: seq<K>)
    requires Distinct(s)
    ensures Distinct(Minus(s, without))
  {
    if |s| > 0 {
      MinusDistinct(s[1..], without);
      MinusIs(s[1..], without);
    }
  }

  lemma {:induction false} MinusConcat<K>(a: seq<K>, b: seq<K>, without: seq<K>)
    ensures Minus(a + b, without) == Minus(a, without) + Minus(b, without)
  {
    if |a| == 0 {
      assert a + b == b;
    } else {
      assert (a + b)[1..] == a[1..] + b;
      MinusConcat(a[1..], b, without);
    }
  }

  lemma {:induction false} MinusTwice<K>(s: seq<K>, a: seq<K>, b: seq<K>)
    ensures Minus(Minus(s, a), b) == Minus(s, a + b)
  {
    if |s| > 0 {
      MinusTwice(s[1..], a, b);
      MinusConcat(if s[0] in a then [] else [s[0]], Minus(s[1..], a), b);
    }
  }

  lemma {:induction false} MinusNothing<K>(s: seq<K>, without: seq<K>)
    requires forall k | k in s :: k !in without
    ensures Minus(s, without) == s
  {
    if |s| > 0 {
      MinusNothing(s[1..], without);
    }
  }

  lemma {:induction false} MinusEverything<K>(s: seq<K>, without: seq<K>)
    requires forall k | k in s :: k in without
    ensures Minus(s, without) == []
  {
    if |s| > 0 {
      MinusEverything(s[1..], without);
    }
  }

  /** Only membership in the second argument matters. */
  lemma {:induction false} MinusSame<K>(s: seq<K>, a: seq<K>, b: seq<K>)
    requires forall k :: k in a <==> k in b
    ensures Minus(s, a) == Minus(s, b)
  {
    if |s| > 0 {
      MinusSame(s[1..], a, b);
    }
  }

  lemma {:induction false} TotalConcat<K>(c: Catalog<K>, a: seq<K>, b: seq<K>)
    ensures Total(c, a + b) == Total(c, a) + Total(c, b)
  {
    if |a| == 0 {
      assert a + b == b;
    } else {
      assert (a + b)[1..] == a[1..] + b;
      TotalConcat(c, a[1..], b);
    }
  }

  /** Moving keys around leaves their bytes as they are. */
  lemma {:induction false} TotalMoved<K>(c: Catalog<K>, s: seq<K>, k: K)
    requires Distinct(s) && k in s
    ensures Total(c, Minus(s, [k]) + [k]) == Total(c, s)
  {
    assert s == [s[0]] + s[1..];
    var rest := s[1..];
    if s[0] == k {
      MinusNothing(rest, [k]);
      TotalConcat(c, rest, [k]);
      TotalConcat(c, [k], rest);
      assert [] + rest == rest;
    } else {
      TotalMoved(c, rest, k);
      assert [s[0]] + Minus(rest, [k]) + [k] == [s[0]] + (Minus(rest, [k]) + [k]);
      TotalConcat(c, [s[0]], Minus(rest, [k]) + [k]);
      TotalConcat(c, [s[0]], rest);
    }
  }

  /** The requested keys before the first that the checkpoint lacks: those a call moves. */
  function Held<K>(c: Catalog<K>, keys: seq<K>): seq<K> {
    if |keys| == 0 || !c.present(keys[0]) then [] else [keys[0]] + Held(c, keys[1..])
  }

  /** The keys of `s`, each where it occurs last. */
  function Last<K(==)>(s: seq<K>): seq<K> {
    if |s| == 0 then [] else (if s[0] in s[1..] then [] else [s[0]]) + Last(s[1..])
  }

  lemma {:induction false} HeldIs<K>(c: Catalog<K>, keys: seq<K>)
    ensures forall k | k in Held(c, keys) :: k in keys && c.present(k)
    ensures AllPresent(c, keys) ==> Held(c, keys) == keys
  {
    if |keys| > 0 {
      HeldIs(c, keys[1..]);
      assert keys == [keys[0]] + keys[1..];
    }
  }

  lemma {:induction false} LastOfDistinct<K>(s: seq<K>)
    requires Distinct(s)
    ensures Last(s) == s
  {
    if |s| > 0 {
      LastOfDistinct(s[1..]);
    }
  }

  /** After the moves the keys that were reached are last, each once, by their last mention. */
  lemma {:induction false} MoveIs<K>(c: Catalog<K>, order: seq<K>, keys: seq<K>)
    requires forall k | k in keys :: k in order <==> c.present(k)
    ensures Move(order, keys) == Minus(order, Held(c, keys)) + Last(Held(c, keys))
    decreases |keys|
  {
    if |keys| == 0 || keys[0] !in order {
      MinusNothing(order, []);
    } else {
      var k, rest := keys[0], keys[1..];
      var next := Minus(order, [k]) + [k];
      MinusIs(order, [k]);
      assert keys == [k] + rest;
      MoveIs(c, next, rest);
      MinusNext(order, k, Held(c, rest));
      assert Held(c, keys)[1..] == Held(c, rest);
    }
  }

  lemma MinusNext<K>(order: seq<K>, k: K, rest: seq<K>)
    ensures Minus(Minus(order, [k]) + [k], rest) == Minus(order, [k] + rest) + if k in rest then [] else [k]
  {
    MinusConcat(Minus(order, [k]), [k], rest);
    MinusTwice(order, [k], rest);
    assert [k][1..] == [];
    assert Minus([k], rest) == if k in rest then [] else [k];
  }

  lemma {:induction false} LoadIs<K>(c: Catalog<K>, order: seq<K>, missing: seq<K>)
    requires Distinct(missing) && AllPresent(c, missing) && forall k | k in missing :: k !in order
    ensures Load(c, order, missing) == order + missing
    ensures LoadBytes(c, missing) == Total(c, missing)
    decreases |missing|
  {
    if |missing| > 0 {
      LoadIs(c, order + [missing[0]], missing[1..]);
      assert order + [missing[0]] + missing[1..] == order + missing;
    }
  }

  /** A legal request: distinct keys that the checkpoint holds, as the routed layer makes. */
  ghost predicate Legal<K(!new)>(c: Catalog<K>, keys: seq<K>) {
    Distinct(keys) && AllPresent(c, keys)
  }

  lemma MoveLegal<K(!new)>(c: Catalog<K>, order: seq<K>, keys: seq<K>)
    requires Legal(c, keys) && forall k | k in keys :: k in order
    ensures Move(order, keys) == Minus(order, keys) + keys
  {
    MoveIs(c, order, keys);
    HeldIs(c, keys);
    LastOfDistinct(keys);
  }

  /** For a legal request the order before eviction is: everything else, then the request. */
  lemma MovedOrder<K(!new)>(c: Catalog<K>, order: seq<K>, keys: seq<K>)
    requires Legal(c, keys)
    ensures Move(Load(c, order, Minus(keys, order)), keys) == Minus(order, keys) + keys
    ensures LoadBytes(c, Minus(keys, order)) == Total(c, Minus(keys, order))
  {
    LoadLegal(c, order, keys);
    WithMissing(order, keys);
    MoveLegal(c, order + Minus(keys, order), keys);
  }

  lemma WithMissing<K(!new)>(order: seq<K>, keys: seq<K>)
    ensures forall k | k in keys :: k in order + Minus(keys, order)
    ensures Minus(order + Minus(keys, order), keys) == Minus(order, keys)
  {
    MinusIs(keys, order);
    MinusConcat(order, Minus(keys, order), keys);
    MinusEverything(Minus(keys, order), keys);
  }

  lemma LoadLegal<K(!new)>(c: Catalog<K>, order: seq<K>, keys: seq<K>)
    requires Legal(c, keys)
    ensures Load(c, order, Minus(keys, order)) == order + Minus(keys, order)
    ensures LoadBytes(c, Minus(keys, order)) == Total(c, Minus(keys, order))
  {
    MinusIs(keys, order);
    MinusDistinct(keys, order);
    StillPresent(c, keys, Minus(keys, order));
    LoadIs(c, order, Minus(keys, order));
  }

  lemma StillPresent<K>(c: Catalog<K>, keys: seq<K>, missing: seq<K>)
    requires AllPresent(c, keys) && forall k | k in missing :: k in keys
    ensures AllPresent(c, missing)
  {
    forall i | 0 <= i < |missing|
      ensures c.present(missing[i])
    {
      assert missing[i] in keys;
    }
  }

  // ---- The invariant after every call ----

  /** The byte count is the sum of the cached entries' sizes. */
  ghost predicate Exact<K(!new)>(c: Catalog<K>, s: State<K>) {
    Distinct(s.order) && s.bytes == Total(c, s.order)
  }

  ghost predicate IsSuffix<K>(a: seq<K>, b: seq<K>) {
    |a| <= |b| && b[|b| - |a|..] == a
  }

  lemma TotalSplit<K>(c: Catalog<K>, s: seq<K>, n: nat)
    requires n <= |s|
    ensures Total(c, s) == Total(c, s[..n]) + Total(c, s[n..])
  {
    assert s == s[..n] + s[n..];
    TotalConcat(c, s[..n], s[n..]);
  }

  /** With the first `j` entries gone, eviction would stop. */
  ghost predicate Stops<K(!new)>(c: Catalog<K>, order: seq<K>, budget: int, keep: nat, j: nat)
    requires j <= |order|
  {
    Total(c, order[j..]) <= budget || |order| - j <= keep
  }

  /** `n` is the first number of dropped entries at which eviction stops. */
  ghost predicate FirstStop<K(!new)>(c: Catalog<K>, order: seq<K>, budget: int, keep: nat, n: nat) {
    && n <= |order| && Stops(c, order, budget, keep, n)
    && (forall m: nat | m < n :: !Stops(c, order, budget, keep, m))
    && (keep <= |order| ==> keep <= |order| - n)
  }

  lemma StopsShift<K(!new)>(c: Catalog<K>, order: seq<K>, budget: int, keep: nat, j: nat)
    requires 0 < j <= |order|
    ensures Stops(c, order, budget, keep, j) == Stops(c, order[1..], budget, keep, j - 1)
  {
    assert order[j..] == order[1..][j - 1..];
  }

  /** Eviction drops the shortest front that brings the cache inside the budget or down to `keep` entries. */
  lemma {:induction false} EvictIs<K(!new)>(c: Catalog<K>, s: State<K>, budget: int, keep: nat) returns (n: nat)
    requires Exact(c, s)
    ensures FirstStop(c, s.order, budget, keep, n)
    ensures Evict(c, s, budget, keep) == State(s.order[n..], Total(c, s.order[n..]))
    ensures Exact(c, Evict(c, s, budget, keep))
    decreases |s.order|
  {
    assert s.order[0..] == s.order;
    if s.bytes > budget && |s.order| > keep {
      var next := State(s.order[1..], s.bytes - c.size(s.order[0]));
      var m := EvictIs(c, next, budget, keep);
      n := m + 1;
      assert s.order[n..] == next.order[m..];
      forall i: nat | i <= n
        ensures i > 0 ==> Stops(c, s.order, budget, keep, i) == Stops(c, next.order, budget, keep, i - 1)
      {
        if i > 0 {
          StopsShift(c, s.order, budget, keep, i);
        }
      }
    } else {
      n := 0;
    }
  }

  lemma DistinctConcat<K>(a: seq<K>, b: seq<K>)
    requires Distinct(a) && Distinct(b) && forall k | k in a :: k !in b
    ensures Distinct(a + b)
  {
    forall i, j | 0 <= i < j < |a + b|
      ensures (a + b)[i] != (a + b)[j]
    {
      if i < |a| <= j {
        assert a[i] in a && b[j - |a|] in b;
      }
    }
  }

  lemma SingleTotal<K>(c: Catalog<K>, k: K)
    ensures Total(c, [k]) == c.size(k)
  {
    assert [k][1..] == [];
  }

  lemma MovedExact<K(!new)>(c: Catalog<K>, s: State<K>, keys: seq<K>)
    requires Exact(c, s) && Legal(c, keys)
    ensures Exact(c, State(Minus(s.order, keys) + keys, s.bytes + Total(c, Minus(keys, s.order))))
  {
    MinusIs(s.order, keys);
    MinusDistinct(s.order, keys);
    DistinctConcat(Minus(s.order, keys), keys);
    Exchanged(c, s.order, keys);
    TotalConcat(c, Minus(s.order, keys), keys);
  }

  /** Two distinct sequences hold the same bytes together whichever gives up the common keys. */
  lemma {:induction false} Exchanged<K(!new)>(c: Catalog<K>, a: seq<K>, b: seq<K>)
    requires Distinct(a) && Distinct(b)
    ensures Total(c, a) + Total(c, Minus(b, a)) == Total(c, Minus(a, b)) + Total(c, b)
  {
    if |a| == 0 {
      MinusNothing(b, a);
    } else {
      var k, rest := a[0], a[1..];
      assert a == [k] + rest;
      assert k !in rest;
      Exchanged(c, rest, b);
      MinusTwice(b, rest, [k]);
      MinusSame(b, rest + [k], a);
      assert Minus(b, a) == Minus(Minus(b, rest), [k]);
      MinusIs(b, rest);
      MinusDistinct(b, rest);
      if k in b {
        TotalMoved(c, Minus(b, rest), k);
        TotalConcat(c, Minus(b, a), [k]);
        SingleTotal(c, k);
        assert Minus(a, b) == Minus(rest, b);
      } else {
        MinusNothing(Minus(b, rest), [k]);
        assert Minus(a, b) == [k] + Minus(rest, b);
      }
    }
  }

  /** The state between the moves and the eviction of a legal call. */
  function Moved<K(==)>(c: Catalog<K>, s: State<K>, keys: seq<K>): State<K> {
    State(Minus(s.order, keys) + keys, s.bytes + Total(c, Minus(keys, s.order)))
  }

  lemma GetIsEvict<K(!new)>(c: Catalog<K>, budget: int, s: State<K>, keys: seq<K>)
    requires Exact(c, s) && Legal(c, keys)
    ensures Get(c, budget, s, keys) == Evict(c, Moved(c, s, keys), budget, |keys|)
    ensures Exact(c, Moved(c, s, keys))
  {
    MovedOrder(c, s.order, keys);
    MovedExact(c, s, keys);
  }

  /**
   After every legal `get`: the byte count is exact, the requested keys are all cached
   and most recent in request order, what is left of the older keys keeps its order,
   and the cache exceeds the budget only if the request alone does.
   */
  lemma GetInvariant<K(!new)>(c: Catalog<K>, budget: int, s: State<K>, keys: seq<K>)
    requires Exact(c, s) && Legal(c, keys)
    ensures var r := Get(c, budget, s, keys);
            && Exact(c, r)
            && IsSuffix(keys, r.order)
            && IsSuffix(r.order, Minus(s.order, keys) + keys)
            && (r.bytes <= budget || (r.order == keys && r.bytes == Total(c, keys)))
  {
    GetIsEvict(c, budget, s, keys);
    var order := Minus(s.order, keys) + keys;
    var n := EvictIs(c, Moved(c, s, keys), budget, |keys|);
    SuffixOfEnd(Minus(s.order, keys), keys, n);
  }

  lemma SuffixOfEnd<K>(a: seq<K>, b: seq<K>, n: nat)
    requires n <= |a|
    ensures IsSuffix(b, (a + b)[n..]) && IsSuffix((a + b)[n..], a + b)
    ensures n == |a| ==> (a + b)[n..] == b
  {
  }

  /**
   The reserve is the cache budget plus one stacked layer, and a forward stacks its
   experts on top of the cache that `get` leaves.  The two together stay inside the
   reserve if and only if the request fits the budget, or is so small a part of the
   layer that holding it twice does no harm.
   */
  lemma ReserveIff<K(!new)>(c: Catalog<K>, budget: int, s: State<K>, keys: seq<K>, stackBytes: nat)
    requires Exact(c, s) && Legal(c, keys) && Total(c, keys) <= stackBytes
    ensures Get(c, budget, s, keys).bytes + Total(c, keys) <= budget + stackBytes <==>
              Total(c, keys) <= budget || 2 * Total(c, keys) <= budget + stackBytes
  {
    GetInvariant(c, budget, s, keys);
    var r := Get(c, budget, s, keys);
    TotalSplit(c, r.order, |r.order| - |keys|);
  }

  // ---- Runs ----

  datatype Op<K> = Call(keys: seq<K>) | Clear

  function Step<K(==)>(c: Catalog<K>, budget: int, s: State<K>, op: Op<K>): State<K> {
    match op
    case Call(keys) => Get(c, budget, s, keys)
    case Clear => State([], 0)
  }

  /** The store after a trace, from a new store. */
  function Run<K(==)>(c: Catalog<K>, budget: int, trace: seq<Op<K>>): State<K> {
    if |trace| == 0 then State([], 0)
    else Step(c, budget, Run(c, budget, trace[..|trace| - 1]), trace[|trace| - 1])
  }

  /** How many experts the store has read from the checkpoint over a trace. */
  function Misses<K(==)>(c: Catalog<K>, budget: int, trace: seq<Op<K>>): nat {
    if |trace| == 0 then 0
    else
      var before := trace[..|trace| - 1];
      Misses(c, budget, before) +
      match trace[|trace| - 1]
      case Call(keys) => |Minus(keys, Run(c, budget, before).order)|
      case Clear => 0
  }

  ghost predicate LegalTrace<K(!new)>(c: Catalog<K>, trace: seq<Op<K>>) {
    forall i | 0 <= i < |trace| :: trace[i].Call? ==> Legal(c, trace[i].keys)
  }

  /** The byte count stays exact over every legal trace. */
  lemma {:induction false} RunExact<K(!new)>(c: Catalog<K>, budget: int, trace: seq<Op<K>>)
    requires LegalTrace(c, trace)
    ensures Exact(c, Run(c, budget, trace))
  {
    if |trace| > 0 {
      RunExact(c, budget, trace[..|trace| - 1]);
      if trace[|trace| - 1].Call? {
        GetInvariant(c, budget, Run(c, budget, trace[..|trace| - 1]), trace[|trace| - 1].keys);
      }
    }
  }

  // ---- Repeated experts in one call ----

  /** Bytes that are read again for a key an earlier read of the same call already cached. */
  function Reread<K(==)>(c: Catalog<K>, order: seq<K>, missing: seq<K>): nat
    decreases |missing|
  {
    if |missing| == 0 then 0
    else
      var k := missing[0];
      (if c.present(k) && k in order then c.size(k) else 0) +
      Reread(c, if c.present(k) && k !in order then order + [k] else order, missing[1..])
  }

  lemma {:induction false} LoadDrift<K(!new)>(c: Catalog<K>, order: seq<K>, missing: seq<K>)
    requires Distinct(order)
    ensures Distinct(Load(c, order, missing))
    ensures Total(c, order) + LoadBytes(c, missing) == Total(c, Load(c, order, missing)) + Reread(c, order, missing)
    decreases |missing|
  {
    if |missing| > 0 {
      var k := missing[0];
      var next := if c.present(k) && k !in order then order + [k] else order;
      LoadDrift(c, next, missing[1..]);
      TotalConcat(c, order, [k]);
    }
  }

  lemma {:induction false} MoveKeepsTotal<K(!new)>(c: Catalog<K>, order: seq<K>, keys: seq<K>)
    requires Distinct(order)
    ensures Distinct(Move(order, keys)) && Total(c, Move(order, keys)) == Total(c, order)
    decreases |keys|
  {
    if |keys| > 0 && keys[0] in order {
      MinusIs(order, [keys[0]]);
      MinusDistinct(order, [keys[0]]);
      TotalMoved(c, order, keys[0]);
      MoveKeepsTotal(c, Minus(order, [keys[0]]) + [keys[0]], keys[1..]);
    }
  }

  lemma {:induction false} EvictKeepsDrift<K(!new)>(c: Catalog<K>, s: State<K>, budget: int, keep: nat)
    ensures var r := Evict(c, s, budget, keep); r.bytes - Total(c, r.order) == s.bytes - Total(c, s.order)
    decreases |s.order|
  {
    if s.bytes > budget && |s.order| > keep {
      EvictKeepsDrift(c, State(s.order[1..], s.bytes - c.size(s.order[0])), budget, keep);
    }
  }

  /** Every call, legal or not, changes the byte count's error by exactly the bytes it reads twice. */
  lemma GetDrift<K(!new)>(c: Catalog<K>, budget: int, s: State<K>, keys: seq<K>)
    requires Distinct(s.order)
    ensures var r := Get(c, budget, s, keys);
            r.bytes - Total(c, r.order) == s.bytes - Total(c, s.order) + Reread(c, s.order, Minus(keys, s.order))
  {
    var missing := Minus(keys, s.order);
    var loaded := Load(c, s.order, missing);
    LoadDrift(c, s.order, missing);
    MoveKeepsTotal(c, loaded, keys);
    EvictKeepsDrift(c, State(Move(loaded, keys), s.bytes + LoadBytes(c, missing)), budget, |keys|);
  }

  lemma {:induction false} RereadIsZero<K(!new)>(c: Catalog<K>, order: seq<K>, missing: seq<K>)
    ensures Reread(c, order, missing) == 0 <==>
              forall k | k in missing && c.present(k) && c.size(k) > 0 :: k !in order && multiset(missing)[k] <= 1
    decreases |missing|
  {
    if |missing| > 0 {
      var k := missing[0];
      var next := if c.present(k) && k !in order then order + [k] else order;
      RereadIsZero(c, next, missing[1..]);
      assert missing == [k] + missing[1..];
      if Reread(c, order, missing) == 0 {
        forall i | i in missing && c.present(i) && c.size(i) > 0
          ensures i !in order && multiset(missing)[i] <= 1
        {
          if i == k {
            assert i !in missing[1..];
          }
        }
      }
    }
  }

  lemma {:induction false} MinusCount<K>(s: seq<K>, without: seq<K>, k: K)
    ensures multiset(Minus(s, without))[k] == if k in without then 0 else multiset(s)[k]
  {
    if |s| > 0 {
      MinusCount(s[1..], without, k);
      assert s == [s[0]] + s[1..];
    }
  }

  /**
   From an exact store, the byte count after a call is exact if and only if no missing
   key that holds bytes is requested twice.
   */
  lemma ExactIff<K(!new)>(c: Catalog<K>, budget: int, s: State<K>, keys: seq<K>)
    requires Exact(c, s)
    ensures var r := Get(c, budget, s, keys);
            r.bytes == Total(c, r.order) <==>
              forall k | k in keys && c.present(k) && c.size(k) > 0 && k !in s.order :: multiset(keys)[k] <= 1
  {
    var missing := Minus(keys, s.order);
    GetDrift(c, budget, s, keys);
    RereadIsZero(c, s.order, missing);
    MinusIs(keys, s.order);
    forall k {
      MinusCount(keys, s.order, k);
    }
  }

  // ---- Any call ----

  /** Every key that the checkpoint holds is cached once the reads are done. */
  lemma {:induction false} LoadHas<K(!new)>(c: Catalog<K>, order: seq<K>, missing: seq<K>)
    ensures forall k :: k in Load(c, order, missing) <==> k in order || (k in missing && c.present(k))
    decreases |missing|
  {
    if |missing| > 0 {
      var k := missing[0];
      LoadHas(c, if c.present(k) && k !in order then order + [k] else order, missing[1..]);
      assert missing == [k] + missing[1..];
    }
  }

  /** Once the reads are done a requested key is cached exactly if the checkpoint holds it. */
  lemma LoadedIff<K(!new)>(c: Catalog<K>, order: seq<K>, keys: seq<K>, loaded: seq<K>)
    requires (forall k | k in order :: c.present(k)) && loaded == Load(c, order, Minus(keys, order))
    ensures AllPresent(c, keys) <==> forall k | k in keys :: k in loaded
    ensures forall k | k in keys :: k in loaded <==> c.present(k)
  {
    MinusIs(keys, order);
    LoadHas(c, order, Minus(keys, order));
    forall k | k in keys
      ensures k in loaded <==> c.present(k)
    {
    }
    if forall k | k in keys :: k in loaded {
      forall i | 0 <= i < |keys|
        ensures c.present(keys[i])
      {
        assert keys[i] in keys;
      }
    }
  }

  // ---- Inclusion ----

  lemma SuffixMinus<K>(a: seq<K>, b: seq<K>, without: seq<K>)
    requires IsSuffix(a, b)
    ensures IsSuffix(Minus(a, without), Minus(b, without))
  {
    var front := b[..|b| - |a|];
    assert b == front + a;
    MinusConcat(front, a, without);
  }

  /** The larger budget stops no later: every stop of the smaller store is a stop of the larger. */
  lemma StopsIncluded<K(!new)>(c: Catalog<K>, small: seq<K>, big: seq<K>, lo: int, hi: int, keep: nat, n: nat, m: nat)
    requires IsSuffix(small, big) && lo <= hi
    requires FirstStop(c, small, lo, keep, n) && FirstStop(c, big, hi, keep, m)
    ensures IsSuffix(small[n..], big[m..])
  {
    var at := |big| - |small| + n;
    DropSuffix(small, big, n);
    assert Stops(c, big, hi, keep, at);
    DropMore(big, m, at);
  }

  lemma EvictIncluded<K(!new)>(c: Catalog<K>, small: State<K>, big: State<K>, lo: int, hi: int, keep: nat)
    requires Exact(c, small) && Exact(c, big) && IsSuffix(small.order, big.order) && lo <= hi
    ensures IsSuffix(Evict(c, small, lo, keep).order, Evict(c, big, hi, keep).order)
  {
    var n := EvictIs(c, small, lo, keep);
    var m := EvictIs(c, big, hi, keep);
    StopsIncluded(c, small.order, big.order, lo, hi, keep, n, m);
  }

  lemma DropSuffix<K>(a: seq<K>, b: seq<K>, n: nat)
    requires IsSuffix(a, b) && n <= |a|
    ensures a[n..] == b[|b| - |a| + n..]
  {
  }

  lemma DropMore<K>(s: seq<K>, m: nat, n: nat)
    requires m <= n <= |s|
    ensures IsSuffix(s[n..], s[m..])
  {
  }

  lemma SuffixConcat<K>(a: seq<K>, b: seq<K>, tail: seq<K>)
    requires IsSuffix(a, b)
    ensures IsSuffix(a + tail, b + tail)
  {
  }

  /** Eviction looks at the bytes above the budget only, so an error of the count acts as a smaller budget. */
  lemma {:induction false} EvictShift<K>(c: Catalog<K>, s: State<K>, d: int, budget: int, keep: nat)
    ensures Evict(c, State(s.order, s.bytes + d), budget, keep).order == Evict(c, s, budget - d, keep).order
    decreases |s.order|
  {
    if s.bytes + d > budget && |s.order| > keep {
      EvictShift(c, State(s.order[1..], s.bytes - c.size(s.order[0])), d, budget, keep);
    }
  }

  lemma {:induction false} EvictSuffix<K>(c: Catalog<K>, s: State<K>, budget: int, keep: nat)
    ensures IsSuffix(Evict(c, s, budget, keep).order, s.order)
    decreases |s.order|
  {
    if s.bytes > budget && |s.order| > keep {
      EvictSuffix(c, State(s.order[1..], s.bytes - c.size(s.order[0])), budget, keep);
    }
  }

  /** Distinct entries, all of which the checkpoint holds. */
  ghost predicate Cached<K(!new)>(c: Catalog<K>, order: seq<K>) {
    Distinct(order) && forall k | k in order :: c.present(k)
  }

  /** By how much the byte count is above the entries' bytes. */
  function Drift<K>(c: Catalog<K>, s: State<K>): int {
    s.bytes - Total(c, s.order)
  }

  /** The smaller store's entries are the larger one's most recent, and its count errs by no less. */
  ghost predicate Included<K(!new)>(c: Catalog<K>, small: State<K>, big: State<K>) {
    && Cached(c, small.order) && Cached(c, big.order)
    && IsSuffix(small.order, big.order)
    && Drift(c, small) >= Drift(c, big)
  }

  /**
   Whether a call moves enough: all of its keys are present, or those before the first
   absent one already name every present key of the call, or there is only one present
   key beside those.
   */
  ghost predicate Settled<K(!new)>(c: Catalog<K>, keys: seq<K>) {
    forall t, z | t in keys && c.present(t) && c.present(z) && t !in Held(c, keys) && z !in Held(c, keys) :: t == z
  }

  /** The order between the moves and the eviction of any call. */
  lemma AnyMovedOrder<K(!new)>(c: Catalog<K>, order: seq<K>, keys: seq<K>)
    requires Cached(c, order)
    ensures var loaded := Load(c, order, Minus(keys, order));
            && Move(loaded, keys) == Minus(loaded, Held(c, keys)) + Last(Held(c, keys))
            && Cached(c, loaded) && Cached(c, Move(loaded, keys))
  {
    var missing := Minus(keys, order);
    var loaded := Load(c, order, missing);
    LoadedIff(c, order, keys, loaded);
    MoveIs(c, loaded, keys);
    LoadHas(c, order, missing);
    LoadDrift(c, order, missing);
    MoveKeepsTotal(c, loaded, keys);
    MoveHas(loaded, keys);
  }

  lemma {:induction false} MoveHas<K(!new)>(order: seq<K>, keys: seq<K>)
    ensures forall k :: k in Move(order, keys) <==> k in order
    decreases |keys|
  {
    if |keys| > 0 && keys[0] in order {
      MinusIs(order, [keys[0]]);
      MoveHas(Minus(order, [keys[0]]) + [keys[0]], keys[1..]);
    }
  }

  /** Reads of keys that are left out anyway do not show. */
  lemma {:induction false} LoadHidden<K(!new)>(c: Catalog<K>, order: seq<K>, missing: seq<K>, without: seq<K>)
    requires forall k | k in missing && c.present(k) :: k in without
    ensures Minus(Load(c, order, missing), without) == Minus(order, without)
    decreases |missing|
  {
    if |missing| > 0 {
      var k := missing[0];
      assert missing == [k] + missing[1..];
      LoadHidden(c, if c.present(k) && k !in order then order + [k] else order, missing[1..], without);
      if c.present(k) {
        MinusConcat(order, [k], without);
        MinusEverything([k], without);
      }
    }
  }

  /** What a settled call leaves before its moved keys: what was cached, or the one other present key it names. */
  lemma SettledFront<K(!new)>(c: Catalog<K>, order: seq<K>, keys: seq<K>, t: K)
    requires Cached(c, order) && Settled(c, keys)
    requires t in keys && c.present(t) && t !in Held(c, keys)
    ensures Minus(Load(c, order, Minus(keys, order)), Held(c, keys)) == [t]
  {
    var missing := Minus(keys, order);
    var loaded := Load(c, order, missing);
    var front := Minus(loaded, Held(c, keys));
    AnyMovedOrder(c, order, keys);
    LoadedIff(c, order, keys, loaded);
    MinusIs(loaded, Held(c, keys));
    MinusDistinct(loaded, Held(c, keys));
    assert t in front;
    assert forall z | z in front :: c.present(z) && z !in Held(c, keys);
    OnlyOne(front, t);
  }

  lemma OnlyOne<K>(s: seq<K>, t: K)
    requires Distinct(s) && t in s && forall z | z in s :: z == t
    ensures s == [t]
  {
    if |s| > 1 {
      Same(s, t, 0);
      Same(s, t, 1);
    }
  }

  lemma Same<K>(s: seq<K>, t: K, i: nat)
    requires i < |s| && forall z | z in s :: z == t
    ensures s[i] == t
  {
    assert s[i] in s;
  }

  /** A settled call keeps the suffix up to its eviction. */
  lemma SettledMoves<K(!new)>(c: Catalog<K>, small: seq<K>, big: seq<K>, keys: seq<K>)
    requires Cached(c, small) && Cached(c, big) && IsSuffix(small, big) && Settled(c, keys)
    ensures IsSuffix(Move(Load(c, small, Minus(keys, small)), keys), Move(Load(c, big, Minus(keys, big)), keys))
  {
    var pre := Held(c, keys);
    AnyMovedOrder(c, small, keys);
    AnyMovedOrder(c, big, keys);
    if t :| t in keys && c.present(t) && t !in pre {
      SettledFront(c, small, keys, t);
      SettledFront(c, big, keys, t);
    } else {
      MinusIs(keys, small);
      MinusIs(keys, big);
      LoadHidden(c, small, Minus(keys, small), pre);
      LoadHidden(c, big, Minus(keys, big), pre);
      SuffixMinus(small, big, pre);
      SuffixConcat(Minus(small, pre), Minus(big, pre), Last(pre));
    }
  }

  /**
   The smaller store reads no fewer bytes twice.  The accumulated orders `a` and `b`
   start from the cached keys `small` and `big`.
   */
  lemma {:induction false} RereadMore<K(!new)>(
      c: Catalog<K>, keys: seq<K>, small: seq<K>, big: seq<K>, a: seq<K>, b: seq<K>)
    requires forall k | k in small :: k in big
    requires forall k | k in b && k !in big :: k in a
    ensures Reread(c, a, Minus(keys, small)) >= Reread(c, b, Minus(keys, big))
  {
    if |keys| > 0 {
      var k, rest := keys[0], keys[1..];
      var nextA := if k !in small && c.present(k) && k !in a then a + [k] else a;
      var nextB := if k !in big && c.present(k) && k !in b then b + [k] else b;
      RereadMore(c, rest, small, big, nextA, nextB);
      RereadNext(c, k, rest, small, a);
      RereadNext(c, k, rest, big, b);
    }
  }

  lemma RereadNext<K(!new)>(c: Catalog<K>, k: K, rest: seq<K>, cached: seq<K>, order: seq<K>)
    ensures Reread(c, order, (if k in cached then [] else [k]) + Minus(rest, cached)) ==
            (if k !in cached && c.present(k) && k in order then c.size(k) else 0) +
            Reread(c, if k !in cached && c.present(k) && k !in order then order + [k] else order, Minus(rest, cached))
  {
    assert ([k] + Minus(rest, cached))[1..] == Minus(rest, cached);
    assert [] + Minus(rest, cached) == Minus(rest, cached);
  }

  lemma SettledBeforeEvict<K(!new)>(c: Catalog<K>, small: State<K>, big: State<K>, keys: seq<K>)
    requires Included(c, small, big) && Settled(c, keys)
    ensures Included(c, BeforeEvict(c, small, keys), BeforeEvict(c, big, keys))
  {
    AnyMovedOrder(c, small.order, keys);
    AnyMovedOrder(c, big.order, keys);
    SettledMoves(c, small.order, big.order, keys);
    BeforeEvictDrift(c, small, keys);
    BeforeEvictDrift(c, big, keys);
    RereadMore(c, keys, small.order, big.order, small.order, big.order);
  }

  lemma BeforeEvictDrift<K(!new)>(c: Catalog<K>, s: State<K>, keys: seq<K>)
    requires Distinct(s.order)
    ensures Drift(c, BeforeEvict(c, s, keys)) == Drift(c, s) + Reread(c, s.order, Minus(keys, s.order))
  {
    LoadDrift(c, s.order, Minus(keys, s.order));
    MoveKeepsTotal(c, Load(c, s.order, Minus(keys, s.order)), keys);
  }

  /** Eviction of a store whose count errs is eviction of the exact store with another budget. */
  lemma EvictAsExact<K(!new)>(c: Catalog<K>, s: State<K>, budget: int, keep: nat)
    requires Cached(c, s.order)
    ensures var r := Evict(c, s, budget, keep);
            && r.order == Evict(c, State(s.order, Total(c, s.order)), budget - Drift(c, s), keep).order
            && Drift(c, r) == Drift(c, s)
            && Cached(c, r.order)
  {
    EvictShift(c, State(s.order, Total(c, s.order)), Drift(c, s), budget, keep);
    EvictKeepsDrift(c, s, budget, keep);
    EvictSuffix(c, s, budget, keep);
    SuffixCached(c, Evict(c, s, budget, keep).order, s.order);
  }

  lemma EvictDrifted<K(!new)>(c: Catalog<K>, lo: int, hi: int, small: State<K>, big: State<K>, keep: nat)
    requires Included(c, small, big) && lo <= hi
    ensures Included(c, Evict(c, small, lo, keep), Evict(c, big, hi, keep))
  {
    EvictAsExact(c, small, lo, keep);
    EvictAsExact(c, big, hi, keep);
    EvictIncluded(c, State(small.order, Total(c, small.order)), State(big.order, Total(c, big.order)),
                  lo - Drift(c, small), hi - Drift(c, big), keep);
  }

  lemma SuffixCached<K(!new)>(c: Catalog<K>, a: seq<K>, b: seq<K>)
    requires IsSuffix(a, b) && Cached(c, b)
    ensures Cached(c, a)
  {
    assert b == b[..|b| - |a|] + a;
  }

  /** One settled call, repeats and absent keys included, keeps the smaller cache a suffix of the larger. */
  lemma GetIncluded<K(!new)>(c: Catalog<K>, lo: int, hi: int, small: State<K>, big: State<K>, keys: seq<K>)
    requires Included(c, small, big) && lo <= hi && Settled(c, keys)
    ensures Included(c, Get(c, lo, small, keys), Get(c, hi, big, keys))
  {
    SettledBeforeEvict(c, small, big, keys);
    if AllPresent(c, keys) {
      EvictDrifted(c, lo, hi, BeforeEvict(c, small, keys), BeforeEvict(c, big, keys), |keys|);
    }
  }

  /** Reads only append. */
  lemma {:induction false} LoadExtends<K>(c: Catalog<K>, order: seq<K>, missing: seq<K>)
    ensures order <= Load(c, order, missing)
    decreases |missing|
  {
    if |missing| > 0 {
      var k := missing[0];
      LoadExtends(c, if c.present(k) && k !in order then order + [k] else order, missing[1..]);
    }
  }

  /** A call that raises leaves a key it did not reach in front if it was cached in front. */
  lemma UnreachedFirst<K(!new)>(c: Catalog<K>, budget: int, order: seq<K>, bytes: int, keys: seq<K>)
    requires Cached(c, order) && |order| > 0 && order[0] !in Held(c, keys) && !AllPresent(c, keys)
    ensures var r := Get(c, budget, State(order, bytes), keys).order;
            && Cached(c, r) && |r| > 0 && r[0] == order[0]
            && (forall k | k in order || (k in keys && c.present(k)) :: k in r)
            && (|order| > 1 && order[1] !in Held(c, keys) ==> |r| > 1 && r[1] == order[1])
  {
    var loaded, pre := Load(c, order, Minus(keys, order)), Held(c, keys);
    AnyMovedOrder(c, order, keys);
    LoadExtends(c, order, Minus(keys, order));
    LoadHas(c, order, Minus(keys, order));
    MinusIs(keys, order);
    MoveHas(loaded, keys);
    assert loaded == [loaded[0]] + loaded[1..];
    if |order| > 1 && order[1] !in pre {
      assert loaded[1..][0] == order[1];
    }
  }

  /**
   A call that is not settled breaks inclusion: `t` and `z` are present, the call names
   `t` after the key that makes it raise, and `z` likewise or not at all.  The store
   that held `z` alone ends with `z` before `t`, the one that held `t` and `z` does not.
   */
  lemma UnsettledBreaks<K(!new)>(c: Catalog<K>, lo: int, hi: int, keys: seq<K>, t: K, z: K)
    requires t in keys && c.present(t) && c.present(z) && t !in Held(c, keys) && z !in Held(c, keys) && t != z
    ensures var small, big := State([z], c.size(z)), State([t, z], c.size(t) + c.size(z));
            && Included(c, small, big)
            && !IsSuffix(Get(c, lo, small, keys).order, Get(c, hi, big, keys).order)
  {
    HeldIs(c, keys);
    TwoTotals(c, t, z);
    UnreachedFirst(c, lo, [z], c.size(z), keys);
    UnreachedFirst(c, hi, [t, z], c.size(t) + c.size(z), keys);
    var a := Get(c, lo, State([z], c.size(z)), keys).order;
    var b := Get(c, hi, State([t, z], c.size(t) + c.size(z)), keys).order;
    NotSuffix(a, b, t, z);
  }

  lemma TwoTotals<K(!new)>(c: Catalog<K>, t: K, z: K)
    requires c.present(t) && c.present(z) && t != z
    ensures Included(c, State([z], c.size(z)), State([t, z], c.size(t) + c.size(z)))
  {
    SingleTotal(c, z);
    assert [t, z][1..] == [z];
  }

  lemma NotSuffix<K>(a: seq<K>, b: seq<K>, t: K, z: K)
    requires Distinct(b) && |a| > 0 && a[0] == z && t in a && |b| > 1 && b[0] == t && b[1] == z
    ensures !IsSuffix(a, b)
  {
    var i :| 0 < i < |a| && a[i] == t;
  }

  /** Exactly the settled calls keep inclusion from every pair of stores. */
  lemma InclusionIff<K(!new)>(c: Catalog<K>, lo: int, hi: int, keys: seq<K>)
    requires lo <= hi
    ensures Settled(c, keys) <==>
              forall small, big | Included(c, small, big) ::
                IsSuffix(Get(c, lo, small, keys).order, Get(c, hi, big, keys).order)
  {
    if Settled(c, keys) {
      forall small, big | Included(c, small, big)
        ensures IsSuffix(Get(c, lo, small, keys).order, Get(c, hi, big, keys).order)
      {
        GetIncluded(c, lo, hi, small, big, keys);
      }
    } else {
      var t, z :| t in keys && c.present(t) && c.present(z) && t !in Held(c, keys) && z !in Held(c, keys) && t != z;
      UnsettledBreaks(c, lo, hi, keys, t, z);
    }
  }

  ghost predicate SettledTrace<K(!new)>(c: Catalog<K>, trace: seq<Op<K>>) {
    forall i | 0 <= i < |trace| :: trace[i].Call? ==> Settled(c, trace[i].keys)
  }

  /**
   LRU inclusion: on every trace of settled calls, with entries of any size, the store
   with the larger budget holds the smaller one's entries as its most recent ones.
   Calls for present keys are settled, also those that name a key twice.
   */
  lemma {:induction false} Inclusion<K(!new)>(c: Catalog<K>, lo: int, hi: int, trace: seq<Op<K>>)
    requires SettledTrace(c, trace) && lo <= hi
    ensures Included(c, Run(c, lo, trace), Run(c, hi, trace))
  {
    if |trace| > 0 {
      var before, op := trace[..|trace| - 1], trace[|trace| - 1];
      Inclusion(c, lo, hi, before);
      if op.Call? {
        GetIncluded(c, lo, hi, Run(c, lo, before), Run(c, hi, before), op.keys);
      }
    }
  }

  lemma PresentIsSettled<K(!new)>(c: Catalog<K>, keys: seq<K>)
    requires AllPresent(c, keys)
    ensures Settled(c, keys)
  {
    HeldIs(c, keys);
  }

  /**
   An unsettled call breaks inclusion between stores that both start empty: budgets
   with room for both keys and for one of them make the pair of `UnsettledBreaks`.
   */
  lemma UnsettledRun<K(!new)>(c: Catalog<K>, lo: int, hi: int, keys: seq<K>, t: K, z: K)
    requires t in keys && c.present(t) && c.present(z) && t !in Held(c, keys) && z !in Held(c, keys) && t != z
    requires lo < c.size(t) + c.size(z) <= hi
    ensures var trace := [Call([t]), Call([z]), Call(keys)];
            !IsSuffix(Run(c, lo, trace).order, Run(c, hi, trace).order)
  {
    var trace := [Call([t]), Call([z]), Call(keys)];
    assert trace[..2] == [Call([t]), Call([z])] && trace[..2][..1] == [Call([t])];
    FirstCall(c, lo, t);
    FirstCall(c, hi, t);
    SecondCall(c, lo, t, z);
    SecondCall(c, hi, t, z);
    UnsettledBreaks(c, lo, hi, keys, t, z);
  }

  lemma FirstCall<K(!new)>(c: Catalog<K>, budget: int, t: K)
    requires c.present(t)
    ensures Run(c, budget, [Call([t])]) == State([t], c.size(t))
  {
    assert [Call([t])][..0] == [];
    SingleTotal(c, t);
    MovedOrder(c, [], [t]);
    assert Minus([], [t]) == [] && Minus([t], []) == [t] by {
      assert [t][1..] == [];
    }
  }

  lemma SecondCall<K(!new)>(c: Catalog<K>, budget: int, t: K, z: K)
    requires c.present(t) && c.present(z) && t != z
    ensures Get(c, budget, State([t], c.size(t)), [z]) ==
            if c.size(t) + c.size(z) > budget then State([z], c.size(z)) else State([t, z], c.size(t) + c.size(z))
  {
    SingleTotal(c, z);
    MovedOrder(c, [t], [z]);
    MinusNothing([t], [z]);
    MinusNothing([z], [t]);
    GetIsEvict(c, budget, State([t], c.size(t)), [z]);
    assert Moved(c, State([t], c.size(t)), [z]) == State([t, z], c.size(t) + c.size(z));
    assert [t, z][1..] == [z];
  }

  lemma {:induction false} FewerMissing<K>(keys: seq<K>, small: seq<K>, big: seq<K>)
    requires forall k | k in small :: k in big
    ensures |Minus(keys, big)| <= |Minus(keys, small)|
  {
    if |keys| > 0 {
      FewerMissing(keys[1..], small, big);
    }
  }

  /** So a larger budget never reads more from the checkpoint. */
  lemma {:induction false} FewerMisses<K(!new)>(c: Catalog<K>, lo: int, hi: int, trace: seq<Op<K>>)
    requires SettledTrace(c, trace) && lo <= hi
    ensures Misses(c, hi, trace) <= Misses(c, lo, trace)
  {
    if |trace| > 0 {
      var before, op := trace[..|trace| - 1], trace[|trace| - 1];
      FewerMisses(c, lo, hi, before);
      Inclusion(c, lo, hi, before);
      if op.Call? {
        SuffixHas(Run(c, lo, before).order, Run(c, hi, before).order);
        FewerMissing(op.keys, Run(c, lo, before).order, Run(c, hi, before).order);
      }
    }
  }

  lemma SuffixHas<K>(a: seq<K>, b: seq<K>)
    requires IsSuffix(a, b)
    ensures forall k | k in a :: k in b
  {
    assert b == b[..|b| - |a|] + a;
  }

  // ---- Requested keys stay cached ----

  /** Key `k` is among the last `d` entries. */
  ghost predicate Near<K>(order: seq<K>, k: K, d: nat) {
    exists i | 0 <= i < |order| && |order| - i <= d :: order[i] == k
  }

  lemma {:induction false} MinusShorter<K>(s: seq<K>, without: seq<K>)
    ensures |Minus(s, without)| <= |s|
  {
    if |s| > 0 {
      MinusShorter(s[1..], without);
    }
  }

  /** One `move_to_end` puts its key last and pushes every other key back by at most one place. */
  lemma MoveOneNear<K>(order: seq<K>, j: K, k: K, d: nat)
    requires k == j || Near(order, k, d)
    ensures Near(Minus(order, [j]) + [j], k, d + 1)
  {
    var moved := Minus(order, [j]) + [j];
    if k == j {
      assert moved[|moved| - 1] == j;
    } else {
      var i :| 0 <= i < |order| && |order| - i <= d && order[i] == k;
      assert order == order[..i] + order[i..];
      assert order[i..][0] == k;
      MovedBack(order[..i], order[i..], j, k);
    }
  }

  lemma MovedBack<K>(front: seq<K>, back: seq<K>, j: K, k: K)
    requires k in back && k != j
    ensures Near(Minus(front + back, [j]) + [j], k, |back| + 1)
  {
    MinusConcat(front, back, [j]);
    MinusShorter(back, [j]);
    MinusIs(back, [j]);
    var i :| 0 <= i < |Minus(back, [j])| && Minus(back, [j])[i] == k;
    assert (Minus(front + back, [j]) + [j])[|Minus(front, [j])| + i] == k;
  }

  /** Eviction keeps every key that `keep` protects. */
  lemma {:induction false} EvictNear<K(!new)>(c: Catalog<K>, s: State<K>, budget: int, keep: nat, k: K)
    requires Near(s.order, k, keep)
    ensures Near(Evict(c, s, budget, keep).order, k, keep)
    decreases |s.order|
  {
    if s.bytes > budget && |s.order| > keep {
      DropOneNear(s.order, k, keep);
      EvictNear(c, State(s.order[1..], s.bytes - c.size(s.order[0])), budget, keep, k);
    }
  }

  /** Dropping the least recently used entry keeps every key that `keep` protects. */
  lemma DropOneNear<K>(order: seq<K>, k: K, keep: nat)
    requires |order| > keep && Near(order, k, keep)
    ensures Near(order[1..], k, keep)
  {
    var i :| 0 <= i < |order| && |order| - i <= keep && order[i] == k;
    assert order[1..][i - 1] == k;
  }
}
