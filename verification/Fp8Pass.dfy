/** The pass over a checkpoint's dictionary that folds every FP8 scale into its weight. */
module Fp8Pass {
  import opened Wrappers

  /** What the pass reads off a key, and the dequantization of a weight by a scale. */
  datatype Naming<!K, !V> = Naming(
    isScale: K -> bool, weightKey: K -> K, isActivationScale: K -> bool, dequantize: (V, V) -> Option<V>)

  datatype PassError = MissingWeight | BadScale

  // ---- The pass ----

  /** One entry, in dictionary order. */
  function Step<K(==), V>(n: Naming<K, V>, weights: map<K, V>, done: map<K, V>, k: K): Result<map<K, V>, PassError>
    requires k in weights
  {
    if n.isScale(k) then
      var target := n.weightKey(k);
      if target !in weights then Err(MissingWeight)
      else
        match n.dequantize(weights[target], weights[k])
        case None => Err(BadScale)
        case Some(v) => Ok(done[target := v])
    else if n.isActivationScale(k) then Ok(done)
    else if k !in done then Ok(done[k := weights[k]])
    else Ok(done)
  }

  function Pass<K(==), V>(n: Naming<K, V>, weights: map<K, V>, order: seq<K>): Result<map<K, V>, PassError>
    requires forall i | 0 <= i < |order| :: order[i] in weights
  {
    if |order| == 0 then Ok(map[])
    else
      match Pass(n, weights, order[..|order| - 1])
      case Err(e) => Err(e)
      case Ok(done) => Step(n, weights, done, order[|order| - 1])
  }

  method DequantizeAll<K(==), V>(n: Naming<K, V>, weights: map<K, V>, order: seq<K>)
    returns (r: Result<map<K, V>, PassError>)
    requires forall i | 0 <= i < |order| :: order[i] in weights
    ensures r == if exists i | 0 <= i < |order| :: n.isScale(order[i]) then Pass(n, weights, order) else Ok(weights)
  {
    var any := AnyScale(n, order);
    if !any {
      return Ok(weights);
    }
    var done: map<K, V> := map[];
    for i := 0 to |order|
      invariant Pass(n, weights, order[..i]) == Ok(done)
    {
      assert order[..i + 1][..i] == order[..i];
      var next := Step(n, weights, done, order[i]);
      if next.Err? {
        ErrorStays(n, weights, order, i + 1);
        return Err(next.error);
      }
      done := next.value;
    }
    assert order[..|order|] == order;
    r := Ok(done);
  }

  method AnyScale<K, V>(n: Naming<K, V>, order: seq<K>) returns (any: bool)
    ensures any <==> exists i | 0 <= i < |order| :: n.isScale(order[i])
  {
    for i := 0 to |order|
      invariant forall j | 0 <= j < i :: !n.isScale(order[j])
    {
      if n.isScale(order[i]) {
        return true;
      }
    }
    any := false;
  }

  lemma {:induction false} ErrorStays<K, V>(n: Naming<K, V>, weights: map<K, V>, order: seq<K>, m: nat)
    requires (forall i | 0 <= i < |order| :: order[i] in weights) && m <= |order|
    requires Pass(n, weights, order[..m]).Err?
    ensures Pass(n, weights, order) == Pass(n, weights, order[..m])
  {
    if m < |order| {
      assert order[..|order| - 1][..m] == order[..m];
      ErrorStays(n, weights, order[..|order| - 1], m);
    } else {
      assert order[..m] == order;
    }
  }

  // ---- What the result is ----

  /** A scale of the dictionary folds into `k`. */
  ghost predicate Folds<K(!new), V(!new)>(n: Naming<K, V>, keys: set<K>, s: K, k: K) {
    s in keys && n.isScale(s) && n.weightKey(s) == k
  }

  ghost predicate Kept<K(!new), V(!new)>(n: Naming<K, V>, keys: set<K>, k: K) {
    k in keys && !n.isScale(k) && !n.isActivationScale(k)
  }

  ghost predicate Fits<K(!new), V(!new)>(n: Naming<K, V>, weights: map<K, V>, s: K) {
    s in weights && n.weightKey(s) in weights && n.dequantize(weights[n.weightKey(s)], weights[s]).Some?
  }

  /** Two scales of one weight, if there are any, dequantize it to the same value. */
  ghost predicate Consistent<K(!new), V(!new)>(n: Naming<K, V>, weights: map<K, V>) {
    forall s, t, k |
        Folds(n, weights.Keys, s, k) && Folds(n, weights.Keys, t, k) && Fits(n, weights, s) && Fits(n, weights, t) ::
      n.dequantize(weights[k], weights[s]) == n.dequantize(weights[k], weights[t])
  }

  /**
   The entry of key `k` once `keys` have been visited: dequantized if a visited scale
   folds into it, as it was if it is a plain key, absent otherwise.
   */
  ghost predicate EntryIs<K(!new), V(!new)>(n: Naming<K, V>, weights: map<K, V>, keys: set<K>, done: map<K, V>, k: K) {
    if exists s :: Folds(n, keys, s, k) then
      k in weights && k in done &&
      forall s | Folds(n, keys, s, k) ::
        Fits(n, weights, s) && Some(done[k]) == n.dequantize(weights[k], weights[s])
    else if Kept(n, keys, k) then k in weights && k in done && done[k] == weights[k]
    else k !in done
  }

  ghost function KeysOf<K(!new)>(order: seq<K>): (r: set<K>)
    ensures forall k :: k in r <==> k in order
  {
    if |order| == 0 then {} else KeysOf(order[..|order| - 1]) + {order[|order| - 1]}
  }

  ghost predicate AllFit<K(!new), V(!new)>(n: Naming<K, V>, weights: map<K, V>, keys: set<K>) {
    forall s | s in keys && n.isScale(s) :: Fits(n, weights, s)
  }

  lemma StepEntry<K(!new), V(!new)>(n: Naming<K, V>, weights: map<K, V>, keys: set<K>, done: map<K, V>, last: K, k: K)
    requires Consistent(n, weights) && keys <= weights.Keys && last in weights
    requires AllFit(n, weights, keys) && Step(n, weights, done, last).Ok?
    requires EntryIs(n, weights, keys, done, k)
    ensures EntryIs(n, weights, keys + {last}, Step(n, weights, done, last).value, k)
  {
    var after, more := Step(n, weights, done, last).value, keys + {last};
    if n.isScale(last) && n.weightKey(last) == k {
      assert Folds(n, more, last, k) && Folds(n, weights.Keys, last, k) && Fits(n, weights, last);
      forall s | Folds(n, more, s, k)
        ensures Fits(n, weights, s) && Some(after[k]) == n.dequantize(weights[k], weights[s])
      {
        assert Folds(n, weights.Keys, s, k);
        assert s != last ==> Folds(n, keys, s, k);
      }
    } else {
      forall s
        ensures Folds(n, more, s, k) <==> Folds(n, keys, s, k)
      {
      }
    }
  }

  /** In any order, the pass succeeds exactly if every scale has its weight and fits it. */
  lemma {:induction false} PassOkIff<K(!new), V(!new)>(n: Naming<K, V>, weights: map<K, V>, order: seq<K>)
    requires forall i | 0 <= i < |order| :: order[i] in weights
    ensures Pass(n, weights, order).Ok? <==> AllFit(n, weights, KeysOf(order))
  {
    if |order| > 0 {
      PassOkIff(n, weights, order[..|order| - 1]);
    }
  }

  /** An error is that of some scale: its weight is missing, or does not fit it. */
  lemma {:induction false} PassErr<K(!new), V(!new)>(n: Naming<K, V>, weights: map<K, V>, order: seq<K>)
    requires (forall i | 0 <= i < |order| :: order[i] in weights) && Pass(n, weights, order).Err?
    ensures exists i | 0 <= i < |order| && n.isScale(order[i]) ::
              match Pass(n, weights, order).error
              case MissingWeight => n.weightKey(order[i]) !in weights
              case BadScale => n.weightKey(order[i]) in weights &&
                               n.dequantize(weights[n.weightKey(order[i])], weights[order[i]]) == None
  {
    var m := |order| - 1;
    if Pass(n, weights, order[..m]).Err? {
      PassErr(n, weights, order[..m]);
      var i :| 0 <= i < m && n.isScale(order[..m][i]) &&
        match Pass(n, weights, order[..m]).error
        case MissingWeight => n.weightKey(order[..m][i]) !in weights
        case BadScale => n.weightKey(order[..m][i]) in weights &&
                         n.dequantize(weights[n.weightKey(order[..m][i])], weights[order[..m][i]]) == None;
      assert order[i] == order[..m][i];
    } else {
      assert n.isScale(order[m]);
    }
  }

  lemma {:induction false} PassIs<K(!new), V(!new)>(n: Naming<K, V>, weights: map<K, V>, order: seq<K>)
    requires Consistent(n, weights) && (forall i | 0 <= i < |order| :: order[i] in weights) &&
             Pass(n, weights, order).Ok?
    ensures forall k :: EntryIs(n, weights, KeysOf(order), Pass(n, weights, order).value, k)
  {
    if |order| > 0 {
      var front, last := order[..|order| - 1], order[|order| - 1];
      PassIs(n, weights, front);
      PassOkIff(n, weights, front);
      forall k
        ensures EntryIs(n, weights, KeysOf(order), Pass(n, weights, order).value, k)
      {
        StepEntry(n, weights, KeysOf(front), Pass(n, weights, front).value, last, k);
      }
    }
  }

  lemma SameMap<K(!new), V(!new)>(n: Naming<K, V>, weights: map<K, V>, keys: set<K>, a: map<K, V>, b: map<K, V>)
    requires forall k :: EntryIs(n, weights, keys, a, k) && EntryIs(n, weights, keys, b, k)
    ensures a == b
  {
    forall k
      ensures (k in a <==> k in b) && (k in a ==> a[k] == b[k])
    {
      assert EntryIs(n, weights, keys, a, k) && EntryIs(n, weights, keys, b, k);
      if s :| Folds(n, keys, s, k) {
        assert Some(a[k]) == n.dequantize(weights[k], weights[s]) == Some(b[k]);
      }
    }
  }

  /** An order in which a dictionary can be visited: every key once. */
  ghost predicate OrderOf<K(!new), V>(order: seq<K>, weights: map<K, V>) {
    KeysOf(order) == weights.Keys && |order| == |weights.Keys|
  }

  lemma OrderInside<K(!new), V>(order: seq<K>, weights: map<K, V>)
    requires OrderOf(order, weights)
    ensures forall i | 0 <= i < |order| :: order[i] in weights
  {
    forall i | 0 <= i < |order|
      ensures order[i] in weights
    {
      assert order[i] in KeysOf(order);
    }
  }

  /** The pass over a whole dictionary in some order; an order that misses or invents keys is no order. */
  ghost function PassOver<K(!new), V(!new)>(n: Naming<K, V>, weights: map<K, V>, order: seq<K>)
    : Result<map<K, V>, PassError>
    requires OrderOf(order, weights)
  {
    OrderInside(order, weights);
    Pass(n, weights, order)
  }

  lemma SameResult<K(!new), V(!new)>(n: Naming<K, V>, weights: map<K, V>, a: seq<K>, b: seq<K>)
    requires Consistent(n, weights) && AllFit(n, weights, weights.Keys) && OrderOf(a, weights) && OrderOf(b, weights)
    ensures PassOver(n, weights, a) == PassOver(n, weights, b)
  {
    OrderInside(a, weights);
    OrderInside(b, weights);
    PassOkIff(n, weights, a);
    PassOkIff(n, weights, b);
    PassIs(n, weights, a);
    PassIs(n, weights, b);
    SameMap(n, weights, weights.Keys, Pass(n, weights, a).value, Pass(n, weights, b).value);
  }

  lemma {:induction false} Enumerate<K(!new)>(keys: set<K>) returns (order: seq<K>)
    ensures KeysOf(order) == keys && |order| == |keys|
    decreases |keys|
  {
    if keys == {} {
      order := [];
    } else {
      var k :| k in keys;
      order := EndingIn(keys, k);
    }
  }

  lemma {:induction false} EndingIn<K(!new)>(keys: set<K>, last: K) returns (order: seq<K>)
    requires last in keys
    ensures KeysOf(order) == keys && |order| == |keys| && order[|order| - 1] == last
    decreases |keys|, 0
  {
    assert |keys - {last}| == |keys| - 1;
    var front := Enumerate(keys - {last});
    order := front + [last];
    assert order[..|front|] == front;
  }

  /** There is an order that visits a given key last, and a scale visited last decides its weight. */
  lemma VisitedLast<K(!new), V(!new)>(n: Naming<K, V>, weights: map<K, V>, s: K) returns (order: seq<K>)
    requires s in weights && n.isScale(s) && AllFit(n, weights, weights.Keys)
    ensures OrderOf(order, weights) && PassOver(n, weights, order).Ok? && n.weightKey(s) in weights
    ensures n.weightKey(s) in PassOver(n, weights, order).value
    ensures Some(PassOver(n, weights, order).value[n.weightKey(s)]) == n.dequantize(weights[n.weightKey(s)], weights[s])
  {
    order := EndingIn(weights.Keys, s);
    OrderInside(order, weights);
    PassOkIff(n, weights, order);
  }

  /**
   When every scale fits its weight, the pass gives the same dictionary for every order if
   and only if no weight has two scales that dequantize it differently.
   */
  lemma OrderIrrelevantIff<K(!new), V(!new)>(n: Naming<K, V>, weights: map<K, V>)
    requires AllFit(n, weights, weights.Keys)
    ensures Consistent(n, weights) <==>
              forall a, b | OrderOf(a, weights) && OrderOf(b, weights) ::
                PassOver(n, weights, a) == PassOver(n, weights, b)
  {
    if Consistent(n, weights) {
      forall a, b | OrderOf(a, weights) && OrderOf(b, weights)
        ensures PassOver(n, weights, a) == PassOver(n, weights, b)
      {
        SameResult(n, weights, a, b);
      }
    } else {
      var s, t, k :|
        && Folds(n, weights.Keys, s, k) && Folds(n, weights.Keys, t, k) && Fits(n, weights, s) && Fits(n, weights, t)
        && n.dequantize(weights[k], weights[s]) != n.dequantize(weights[k], weights[t]);
      var a := VisitedLast(n, weights, s);
      var b := VisitedLast(n, weights, t);
      assert PassOver(n, weights, a) != PassOver(n, weights, b);
    }
  }
}
