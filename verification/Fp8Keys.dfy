/**
 The FP8 dictionary pass with the checkpoint's own key rules: which keys are scales, whose
 scales they are, and for which sets of keys the order of the dictionary can matter.
 */
module Fp8Keys {
  import opened Arith
  import opened Fp8Pass
  import opened Fp8Weights
  import opened Sequences
  import opened Wrappers

  const MARK: string := "_scale_inv"

  /** `s.replace("_scale_inv", "")`: every occurrence goes, from left to right. */
  function Unmarked(s: string): string
    decreases |s|
  {
    if |s| == 0 then ""
    else if MARK <= s then Unmarked(s[|MARK|..])
    else [s[0]] + Unmarked(s[1..])
  }

  predicate IsScale(key: string) {
    Contains(key, "weight" + MARK)
  }

  function Folded(weight: Array, scale: Array): Option<Array> {
    match Dequantize(weight, scale)
    case Ok(result) => Some(result)
    case Err(_) => None
  }

  function KeyNaming(): Naming<string, Array> {
    Naming((key: string) => IsScale(key), (key: string) => Unmarked(key),
           (key: string) => Contains(key, "activation_scale"),
           (weight: Array, scale: Array) => Folded(weight, scale))
  }

  // ---- Strings ----

  lemma {:induction false} ContainsAfter(a: string, s: string, t: string)
    requires Contains(s, t)
    ensures Contains(a + s, t)
    decreases |a|
  {
    if |a| > 0 {
      assert (a + s)[1..] == a[1..] + s;
      ContainsAfter(a[1..], s, t);
    } else {
      assert a + s == s;
    }
  }

  lemma {:induction false} UnmarkedShorter(s: string)
    ensures |Unmarked(s)| <= |s| && (Contains(s, MARK) ==> |Unmarked(s)| < |s|)
    decreases |s|
  {
    if |s| > 0 {
      UnmarkedShorter(if MARK <= s then s[|MARK|..] else s[1..]);
    }
  }

  /** A scale key is marked, so the key of its weight is shorter. */
  lemma {:induction false} ScaleIsMarked(key: string)
    requires IsScale(key)
    ensures Contains(key, MARK)
    decreases |key|
  {
    if "weight" + MARK <= key {
      assert key[6..][..|MARK|] == MARK;
      ContainsAfter(key[..6], key[6..], MARK);
      assert key == key[..6] + key[6..];
    } else {
      ScaleIsMarked(key[1..]);
    }
  }

  /** A part without an underscore stays. */
  lemma {:induction false} UnmarkedAfter(a: string, s: string)
    requires '_' !in a
    ensures Unmarked(a + s) == a + Unmarked(s)
    decreases |a|
  {
    if |a| > 0 {
      assert (a + s)[0] == a[0] && a[0] in a && MARK[0] == '_';
      assert (a + s)[1..] == a[1..] + s;
      UnmarkedAfter(a[1..], s);
    } else {
      assert a + s == s;
    }
  }

  lemma UnmarkedOnce(a: string, b: string)
    requires '_' !in a && '_' !in b
    ensures Unmarked(a + "_scale_inv" + b) == a + b
  {
    assert a + MARK + b == a + (MARK + b);
    UnmarkedAfter(a, MARK + b);
    assert (MARK + b)[|MARK|..] == b;
    UnmarkedAfter(b, "");
    assert b + "" == b;
  }

  lemma LaterMark(key: string, i: nat)
    requires 0 < i && i + 10 <= |key|
    ensures key[1..][i - 1..i + 9] == key[i..i + 10] && key[1..][i + 9..] == key[i + 10..]
    ensures key[..i] == [key[0]] + key[1..][..i - 1]
    ensures forall j | 0 <= j < i - 1 :: key[1..][j..] == key[j + 1..]
  {
  }

  /** `replace`: up to the first mark the key stays, and the rest is treated alike. */
  lemma {:induction false} UnmarkedFirst(key: string, i: nat)
    requires i + 10 <= |key| && key[i..i + 10] == "_scale_inv"
    requires forall j | 0 <= j < i :: !("_scale_inv" <= key[j..])
    ensures Unmarked(key) == key[..i] + Unmarked(key[i + 10..])
    decreases |key|
  {
    assert key[0..] == key;
    if i == 0 {
      assert MARK <= key;
    } else {
      assert !("_scale_inv" <= key[0..]);
      LaterMark(key, i);
      UnmarkedFirst(key[1..], i - 1);
      UnmarkedOne(key);
    }
  }

  lemma UnmarkedOne(key: string)
    requires |key| > 0 && !("_scale_inv" <= key)
    ensures Unmarked(key) == [key[0]] + Unmarked(key[1..])
  {
  }

  /** Without a mark the key stays. */
  lemma {:induction false} UnmarkedNone(key: string)
    requires forall j | 0 <= j < |key| :: !("_scale_inv" <= key[j..])
    ensures Unmarked(key) == key
    decreases |key|
  {
    if |key| > 0 {
      assert key[0..] == key;
      forall j | 0 <= j < |key| - 1
        ensures !("_scale_inv" <= key[1..][j..])
      {
        assert key[1..][j..] == key[j + 1..];
      }
      UnmarkedNone(key[1..]);
    }
  }

  // ---- Keys that collide ----

  /** `weight_scale_inv.weight` and `weight.weight_scale_inv`, for `middle == "."`. */
  function Inner(middle: string): string { "weight" + "_scale_inv" + (middle + "weight") }

  function Outer(middle: string): string { "weight" + middle + "weight" + "_scale_inv" + "" }

  lemma InnerIs(middle: string)
    requires '_' !in middle
    ensures IsScale(Inner(middle)) && Unmarked(Inner(middle)) == "weight" + middle + "weight"
  {
    UnmarkedOnce("weight", middle + "weight");
    assert "weight" + MARK <= Inner(middle);
    assert "weight" + (middle + "weight") == "weight" + middle + "weight";
  }

  lemma OuterIs(middle: string)
    requires '_' !in middle
    ensures IsScale(Outer(middle)) && Unmarked(Outer(middle)) == "weight" + middle + "weight"
  {
    var key := "weight" + MARK;
    UnmarkedOnce("weight" + middle + "weight", "");
    assert Outer(middle) == ("weight" + middle) + key;
    ContainsAfter("weight" + middle, key, key);
    assert "weight" + middle + "weight" + "" == "weight" + middle + "weight";
  }

  /** Two scale keys of one weight, for any text in between. */
  lemma CollidingKeys(middle: string)
    requires '_' !in middle
    ensures IsScale(Inner(middle)) && IsScale(Outer(middle)) && Inner(middle) != Outer(middle)
    ensures Unmarked(Inner(middle)) == Unmarked(Outer(middle)) == "weight" + middle + "weight"
  {
    InnerIs(middle);
    OuterIs(middle);
    assert Inner(middle)[|Inner(middle)| - 1] == 't' && Outer(middle)[|Outer(middle)| - 1] == 'v';
  }

  // ---- When the order can matter ----

  /** No two scale keys of `keys` belong to one weight. */
  ghost predicate OneScaleEach(keys: set<string>) {
    forall s, t | s in keys && t in keys && IsScale(s) && IsScale(t) && Unmarked(s) == Unmarked(t) :: s == t
  }

  /** Every scale key has its weight. */
  ghost predicate Complete(keys: set<string>) {
    forall s | s in keys && IsScale(s) :: Unmarked(s) in keys
  }

  /** The pass over a dictionary gives the same result for every order of its keys. */
  ghost predicate OrderFree(weights: map<string, Array>) {
    forall a, b | OrderOf(a, weights) && OrderOf(b, weights) ::
      PassOver(KeyNaming(), weights, a) == PassOver(KeyNaming(), weights, b)
  }

  function Single(value: int): Array { Array([1, 1], [value]) }

  /** One entry and one scale: the product. */
  lemma FoldedSingle(w: int, s: int)
    ensures exists r :: Folded(Single(w), Single(s)) == Some(r) && r.data == [w * s]
  {
    SingleValid(w);
    SingleValid(s);
    assert Single(w).shape == [] + [1, 1];
    assert CeilDiv(1, BLOCK) == 1;
    assert [1, 1][..0] == [];
    var r := Dequantize(Single(w), Single(s)).value;
    DequantizedAt([], 1, 1, Single(w), Single(s), r, 0, 0, 0);
  }

  lemma SingleValid(value: int)
    ensures Valid(Single(value))
  {
    ShapeSplit([], 1, 1);
    assert [] + [1, 1] == [1, 1];
  }

  /** Two dictionary values for which the scales `s` and `t` disagree about their weight. */
  ghost function Disagreeing(keys: set<string>, t: string): map<string, Array> {
    map k | k in keys :: Single(if k == t then 2 else 1)
  }

  lemma DisagreeingFits(keys: set<string>, t: string)
    requires Complete(keys)
    ensures AllFit(KeyNaming(), Disagreeing(keys, t), keys)
  {
    var weights := Disagreeing(keys, t);
    forall s | s in keys && IsScale(s)
      ensures Fits(KeyNaming(), weights, s)
    {
      FoldedSingle(if Unmarked(s) == t then 2 else 1, if s == t then 2 else 1);
    }
  }

  lemma DisagreeingIs(keys: set<string>, s: string, t: string)
    requires Complete(keys) && s in keys && t in keys && IsScale(s) && IsScale(t)
    requires Unmarked(s) == Unmarked(t) && s != t
    ensures !Consistent(KeyNaming(), Disagreeing(keys, t))
  {
    var n, weights, k := KeyNaming(), Disagreeing(keys, t), Unmarked(s);
    ScaleIsMarked(t);
    UnmarkedShorter(t);
    FoldedSingle(1, 1);
    FoldedSingle(1, 2);
    DisagreeingFits(keys, t);
    assert Fits(n, weights, s) && Fits(n, weights, t);
    assert Folds(n, weights.Keys, s, k) && Folds(n, weights.Keys, t, k);
    assert n.dequantize(weights[k], weights[s]) != n.dequantize(weights[k], weights[t]);
  }

  lemma OneScaleIsConsistent(weights: map<string, Array>)
    requires OneScaleEach(weights.Keys)
    ensures Consistent(KeyNaming(), weights)
  {
  }

  lemma OrderFreeIs(weights: map<string, Array>)
    requires AllFit(KeyNaming(), weights, weights.Keys)
    ensures OrderFree(weights) <==> Consistent(KeyNaming(), weights)
  {
    OrderIrrelevantIff(KeyNaming(), weights);
  }

  lemma SharedWeightMatters(keys: set<string>, s: string, t: string) returns (weights: map<string, Array>)
    requires Complete(keys) && s in keys && t in keys && IsScale(s) && IsScale(t)
    requires Unmarked(s) == Unmarked(t) && s != t
    ensures weights.Keys == keys && AllFit(KeyNaming(), weights, keys) && !OrderFree(weights)
  {
    weights := Disagreeing(keys, t);
    DisagreeingFits(keys, t);
    DisagreeingIs(keys, s, t);
    OrderFreeIs(weights);
  }

  /**
   Over all values that fit, the order of a dictionary with the given keys is
   irrelevant if and only if no two of its scale keys belong to one weight (or a scale
   key has no weight at all, and the pass raises).
   */
  lemma OrderFreeIff(keys: set<string>)
    ensures OneScaleEach(keys) || !Complete(keys) <==>
              forall weights: map<string, Array> | weights.Keys == keys && AllFit(KeyNaming(), weights, keys) ::
                OrderFree(weights)
  {
    if OneScaleEach(keys) || !Complete(keys) {
      forall weights: map<string, Array> | weights.Keys == keys && AllFit(KeyNaming(), weights, keys)
        ensures OrderFree(weights)
      {
        FitIsComplete(weights);
        OneScaleIsConsistent(weights);
        OrderFreeIs(weights);
      }
    } else {
      var s, t :| s in keys && t in keys && IsScale(s) && IsScale(t) && Unmarked(s) == Unmarked(t) && s != t;
      var weights := SharedWeightMatters(keys, s, t);
    }
  }

  lemma FitIsComplete(weights: map<string, Array>)
    requires AllFit(KeyNaming(), weights, weights.Keys)
    ensures Complete(weights.Keys)
  {
    forall s | s in weights.Keys && IsScale(s)
      ensures Unmarked(s) in weights.Keys
    {
      assert Fits(KeyNaming(), weights, s);
    }
  }

  /** The colliding keys make a dictionary whose order matters. */
  lemma CollisionMatters(middle: string)
    requires '_' !in middle
    ensures exists weights: map<string, Array> ::
        && weights.Keys == {Inner(middle), Outer(middle), "weight" + middle + "weight"}
        && AllFit(KeyNaming(), weights, weights.Keys) && !OrderFree(weights)
  {
    var weight := "weight" + middle + "weight";
    var keys := {Inner(middle), Outer(middle), weight};
    CollidingKeys(middle);
    PlainKey(weight);
    assert Complete(keys);
    OrderFreeIff(keys);
  }

  lemma PlainKey(key: string)
    requires '_' !in key
    ensures !IsScale(key)
  {
    UnmarkedAfter(key, "");
    assert key + "" == key;
    UnmarkedShorter(key);
    if IsScale(key) {
      ScaleIsMarked(key);
    }
  }

  // ---- Conventional keys ----

  /** The key contains the mark once, at its end. */
  ghost predicate MarkedAtEnd(key: string) {
    && |MARK| <= |key|
    && forall i | 0 <= i <= |key| - |MARK| :: MARK <= key[i..] <==> i == |key| - |MARK|
  }

  lemma {:induction false} UnmarkedEnd(key: string)
    requires MarkedAtEnd(key)
    ensures key == Unmarked(key) + MARK
    decreases |key|
  {
    assert key[0..] == key;
    if |key| == |MARK| {
      assert key == MARK && key[|MARK|..] == "";
    } else {
      MarkedAtEndRest(key);
      UnmarkedEnd(key[1..]);
    }
  }

  lemma MarkedAtEndRest(key: string)
    requires MarkedAtEnd(key) && |key| > |MARK|
    ensures MarkedAtEnd(key[1..])
  {
    forall i | 0 <= i < |key| - |MARK|
      ensures key[1..][i..] == key[i + 1..]
    {
    }
  }

  /**
   If every scale key contains the mark only at its end, the pass raises for every order
   of the dictionary or for none, and its result is the same for every order.
   */
  lemma ConventionalKeys(weights: map<string, Array>, a: seq<string>, b: seq<string>)
    requires forall s | s in weights && IsScale(s) :: MarkedAtEnd(s)
    requires OrderOf(a, weights) && OrderOf(b, weights)
    ensures PassOver(KeyNaming(), weights, a).Ok? <==> PassOver(KeyNaming(), weights, b).Ok?
    ensures PassOver(KeyNaming(), weights, a).Ok? ==>
              PassOver(KeyNaming(), weights, a) == PassOver(KeyNaming(), weights, b)
  {
    var n := KeyNaming();
    OrderInside(a, weights);
    OrderInside(b, weights);
    PassOkIff(n, weights, a);
    PassOkIff(n, weights, b);
    forall s, t | s in weights && t in weights && IsScale(s) && IsScale(t) && Unmarked(s) == Unmarked(t)
      ensures s == t
    {
      UnmarkedEnd(s);
      UnmarkedEnd(t);
    }
    OneScaleIsConsistent(weights);
    if PassOver(n, weights, a).Ok? {
      SameResult(n, weights, a, b);
    }
  }

  // ---- The pass ----

  /**
   The pass with these rules: a checkpoint without scale keys is returned as it is; else
   it raises exactly if a scale lacks its weight or does not fit it, and with one scale
   for each weight every key has the entry that `Final` describes.
   */
  method DequantizeWeights(weights: map<string, Array>, order: seq<string>)
    returns (r: Result<map<string, Array>, PassError>)
    requires OrderOf(order, weights)
    ensures (forall k | k in weights :: !IsScale(k)) ==> r == Ok(weights)
    ensures (exists k | k in weights :: IsScale(k)) ==> r == PassOver(KeyNaming(), weights, order)
    ensures (exists k | k in weights :: IsScale(k)) ==> (r.Ok? <==> AllFit(KeyNaming(), weights, weights.Keys))
    ensures (exists k | k in weights :: IsScale(k)) && r.Ok? && OneScaleEach(weights.Keys) ==>
              forall k :: Final(weights, r.value, k)
  {
    OrderInside(order, weights);
    r := DequantizeAll(KeyNaming(), weights, order);
    ScaleVisited(weights, order);
    PassOkIff(KeyNaming(), weights, order);
    if OneScaleEach(weights.Keys) && Pass(KeyNaming(), weights, order).Ok? {
      OneScaleIsConsistent(weights);
      PassIs(KeyNaming(), weights, order);
      EntriesAreFinal(weights, Pass(KeyNaming(), weights, order).value);
    }
  }

  /** `s` is a scale key of the dictionary and belongs to `k`. */
  ghost predicate ScaleOf(weights: map<string, Array>, s: string, k: string) {
    s in weights && Contains(s, "weight_scale_inv") && Unmarked(s) == k
  }

  /** The entry of `k` after the pass: dequantized, as it was, or dropped with the activation scales. */
  ghost predicate Final(weights: map<string, Array>, r: map<string, Array>, k: string) {
    if exists s :: ScaleOf(weights, s, k) then
      k in weights && k in r && forall s | ScaleOf(weights, s, k) :: Dequantize(weights[k], weights[s]) == Ok(r[k])
    else if k in weights && !Contains(k, "weight_scale_inv") && !Contains(k, "activation_scale") then
      k in r && r[k] == weights[k]
    else k !in r
  }

  lemma EntriesAreFinal(weights: map<string, Array>, r: map<string, Array>)
    requires forall k :: EntryIs(KeyNaming(), weights, weights.Keys, r, k)
    ensures forall k :: Final(weights, r, k)
  {
    forall k
      ensures Final(weights, r, k)
    {
      EntryIsFinal(weights, r, k);
    }
  }

  lemma EntryIsFinal(weights: map<string, Array>, r: map<string, Array>, k: string)
    requires EntryIs(KeyNaming(), weights, weights.Keys, r, k)
    ensures Final(weights, r, k)
  {
    forall s: string
      ensures ScaleOf(weights, s, k) <==> Folds(KeyNaming(), weights.Keys, s, k)
    {
      assert "weight" + MARK == "weight_scale_inv";
    }
    assert "weight" + MARK == "weight_scale_inv";
  }

  lemma ScaleVisited(weights: map<string, Array>, order: seq<string>)
    requires OrderOf(order, weights)
    ensures (exists k | k in weights :: IsScale(k)) <==> exists i | 0 <= i < |order| :: IsScale(order[i])
  {
    OrderInside(order, weights);
    if k :| k in weights && IsScale(k) {
      assert k in KeysOf(order);
      assert k in order;
    }
  }
}
