/** Which tensors of a model get which row and column index. */
module Adapter {
  import opened Reorders
  import opened Wrappers

  datatype BlockTensor =
    | AttnQWeight | AttnQBias | AttnKWeight | AttnKBias
    | AttnQkvWeight | SsmConv1dWeight | AttnGateWeight | SsmAlphaWeight | SsmBetaWeight | SsmA | SsmDtBias
    | SsmOutWeight

  /** A tensor of one decoder block. */
  datatype TensorName = TensorName(block: nat, tensor: BlockTensor)

  type Indexes = map<TensorName, seq<int>>

  // ---- RoPE rows ----

  predicate RopeTensor(t: BlockTensor) {
    t == AttnQWeight || t == AttnQBias || t == AttnKWeight || t == AttnKBias
  }

  /** Weight and bias share the index of their projection. */
  method BuildPermuteIndex(qRows: nat, kRows: nat, heads: nat, kvHeads: nat,
                           layers: nat) returns (r: Result<Indexes, ReorderError>)
    ensures r.Ok? <==> RopePermuteIndex(qRows, heads).Ok? && RopePermuteIndex(kRows, kvHeads).Ok?
    ensures r.Ok? ==> forall name :: name in r.value <==> name.block < layers && RopeTensor(name.tensor)
    ensures r.Ok? ==> forall name | name in r.value ::
        if name.tensor == AttnQWeight || name.tensor == AttnQBias
        then Undoes(r.value[name], RopeForward(qRows, heads), qRows)
        else Undoes(r.value[name], RopeForward(kRows, kvHeads), kRows)
  {
    RopeUndoes(qRows, heads);
    RopeUndoes(kRows, kvHeads);
    var q := RopePermuteIndex(qRows, heads);
    if q.Err? {
      return Err(q.error);
    }
    var k := RopePermuteIndex(kRows, kvHeads);
    if k.Err? {
      return Err(k.error);
    }
    var index: Indexes := map[];
    for i := 0 to layers
      invariant forall name :: name in index <==> name.block < i && RopeTensor(name.tensor)
      invariant forall name | name in index ::
          index[name] == if name.tensor == AttnQWeight || name.tensor == AttnQBias then q.value else k.value
    {
      index := index[TensorName(i, AttnQWeight) := q.value][TensorName(i, AttnQBias) := q.value];
      index := index[TensorName(i, AttnKWeight) := k.value][TensorName(i, AttnKBias) := k.value];
    }
    r := Ok(index);
  }

  // ---- V-head rows and columns ----

  /** A built Gated DeltaNet: head counts, all key rows, and rows per value head. */
  datatype Gdn = Gdn(keyHeads: nat, valueHeads: nat, keyDim: nat, headVDim: nat)

  predicate VHeadTensor(t: BlockTensor) {
    || t == AttnQkvWeight || t == SsmConv1dWeight || t == AttnGateWeight
    || t == SsmAlphaWeight || t == SsmBetaWeight || t == SsmA || t == SsmDtBias
  }

  /** llama.cpp reorders only when the head counts differ. */
  predicate Regrouped(layers: seq<Option<Gdn>>, i: nat) {
    i < |layers| && layers[i].Some? && layers[i].value.keyHeads != layers[i].value.valueHeads
  }

  predicate Divisible(g: Gdn) {
    g.keyHeads > 0 && g.valueHeads % g.keyHeads == 0
  }

  /** The reorder of one tensor's rows (or of `ssm_out`'s columns), given those of heads and of value rows. */
  function Placed(g: Gdn, t: BlockTensor, heads: seq<int>, values: seq<int>): seq<int> {
    if t == AttnQkvWeight || t == SsmConv1dWeight then Behind(2 * g.keyDim, values)
    else if t == AttnGateWeight || t == SsmOutWeight then values
    else heads
  }

  /** The size of the reordered axis. */
  function AxisSize(g: Gdn, t: BlockTensor): nat {
    if t == AttnQkvWeight || t == SsmConv1dWeight then 2 * g.keyDim + g.valueHeads * g.headVDim
    else if t == AttnGateWeight || t == SsmOutWeight then g.valueHeads * g.headVDim
    else g.valueHeads * 1
  }

  lemma BothExist(g: Gdn)
    ensures VHeadUntileIndex(g.keyHeads, g.valueHeads, 1).Ok? <==> Divisible(g)
    ensures Divisible(g) ==> VHeadUntileIndex(g.keyHeads, g.valueHeads, g.headVDim).Ok?
  {
    VHeadUndoes(g.keyHeads, g.valueHeads, 1);
    VHeadUndoes(g.keyHeads, g.valueHeads, g.headVDim);
  }

  function IndexOf(g: Gdn, t: BlockTensor): seq<int>
    requires Divisible(g)
  {
    BothExist(g);
    Placed(g, t, VHeadUntileIndex(g.keyHeads, g.valueHeads, 1).value,
           VHeadUntileIndex(g.keyHeads, g.valueHeads, g.headVDim).value)
  }

  ghost function ForwardOf(g: Gdn, t: BlockTensor): seq<int>
    requires Divisible(g)
  {
    BothExist(g);
    Placed(g, t, VHeadForward(g.keyHeads, g.valueHeads, 1), VHeadForward(g.keyHeads, g.valueHeads, g.headVDim))
  }

  /** Every index is a permutation of its axis and undoes llama.cpp's reorder of that tensor. */
  lemma IndexUndoes(g: Gdn, t: BlockTensor)
    requires Divisible(g)
    ensures Undoes(IndexOf(g, t), ForwardOf(g, t), AxisSize(g, t))
  {
    BothExist(g);
    VHeadUndoes(g.keyHeads, g.valueHeads, 1);
    VHeadUndoes(g.keyHeads, g.valueHeads, g.headVDim);
    BehindUndoes(2 * g.keyDim, VHeadUntileIndex(g.keyHeads, g.valueHeads, g.headVDim).value,
                 VHeadForward(g.keyHeads, g.valueHeads, g.headVDim), g.valueHeads * g.headVDim);
  }

  /** The rows and columns of the layers below `n`. */
  ghost predicate Tabled(layers: seq<Option<Gdn>>, n: nat, rows: Indexes, columns: Indexes) {
    && (forall i | 0 <= i < n :: Regrouped(layers, i) ==> Divisible(layers[i].value))
    && (forall name :: name in rows <==> name.block < n && Regrouped(layers, name.block) && VHeadTensor(name.tensor))
    && (forall name :: name in columns <==>
          name.block < n && Regrouped(layers, name.block) && name.tensor == SsmOutWeight)
    && (forall name | name in rows :: rows[name] == IndexOf(layers[name.block].value, name.tensor))
    && (forall name | name in columns :: columns[name] == IndexOf(layers[name.block].value, name.tensor))
  }

  /** The seven row entries of one layer are in place and the others are as before. */
  ghost predicate RowsAdded(rows: Indexes, more: Indexes, i: nat, qkv: seq<int>, values: seq<int>, heads: seq<int>) {
    && (forall name :: name in more <==> name in rows || (name.block == i && VHeadTensor(name.tensor)))
    && (forall name | name in more && !(name.block == i && VHeadTensor(name.tensor)) :: more[name] == rows[name])
    && (forall name | name in more && name.block == i && VHeadTensor(name.tensor) ::
          more[name] == if name.tensor == AttnQkvWeight || name.tensor == SsmConv1dWeight then qkv
                        else if name.tensor == AttnGateWeight then values else heads)
  }

  lemma TabledStep(layers: seq<Option<Gdn>>, i: nat, rows: Indexes, columns: Indexes, more: Indexes,
                   qkv: seq<int>, values: seq<int>, heads: seq<int>)
    requires Tabled(layers, i, rows, columns) && Regrouped(layers, i) && Divisible(layers[i].value)
    requires RowsAdded(rows, more, i, qkv, values, heads)
    requires values == IndexOf(layers[i].value, SsmOutWeight) == IndexOf(layers[i].value, AttnGateWeight)
    requires qkv == IndexOf(layers[i].value, AttnQkvWeight) && heads == IndexOf(layers[i].value, SsmA)
    ensures Tabled(layers, i + 1, more, columns[TensorName(i, SsmOutWeight) := values])
  {
    forall name | name in more
      ensures name.block < i + 1 && Regrouped(layers, name.block) &&
              more[name] == IndexOf(layers[name.block].value, name.tensor)
    {
      if name.block == i {
        assert more[name] == Placed(layers[i].value, name.tensor, heads, values);
      }
    }
  }

  lemma TabledSkip(layers: seq<Option<Gdn>>, i: nat, rows: Indexes, columns: Indexes)
    requires Tabled(layers, i, rows, columns) && !Regrouped(layers, i)
    ensures Tabled(layers, i + 1, rows, columns)
  {
  }

  method BuildVHeadIndex(layers: seq<Option<Gdn>>) returns (r: Result<(Indexes, Indexes), ReorderError>)
    ensures r.Ok? <==> forall i | 0 <= i < |layers| :: Regrouped(layers, i) ==> Divisible(layers[i].value)
    ensures r.Ok? ==> Tabled(layers, |layers|, r.value.0, r.value.1)
  {
    var rows: Indexes, columns: Indexes := map[], map[];
    for i := 0 to |layers|
      invariant Tabled(layers, i, rows, columns)
    {
      if layers[i] == None {
        TabledSkip(layers, i, rows, columns);
        continue;
      }
      var g := layers[i].value;
      if g.valueHeads == g.keyHeads {
        TabledSkip(layers, i, rows, columns);
        continue;
      }
      assert Regrouped(layers, i);
      BothExist(g);
      var heads := VHeadUntileIndex(g.keyHeads, g.valueHeads, 1);
      if heads.Err? {
        return Err(heads.error);
      }
      // Heads that divide evenly have an index for any rows per head.
      var values := VHeadUntileIndex(g.keyHeads, g.valueHeads, g.headVDim).value;
      var qkv := Behind(2 * g.keyDim, values);
      var more := AddRows(rows, i, qkv, values, heads.value);
      TabledStep(layers, i, rows, columns, more, qkv, values, heads.value);
      rows, columns := more, columns[TensorName(i, SsmOutWeight) := values];
    }
    r := Ok((rows, columns));
  }

  /** The seven row entries of one layer. */
  method AddRows(rows: Indexes, i: nat, qkv: seq<int>, values: seq<int>, heads: seq<int>) returns (more: Indexes)
    ensures RowsAdded(rows, more, i, qkv, values, heads)
  {
    more := rows[TensorName(i, AttnQkvWeight) := qkv][TensorName(i, SsmConv1dWeight) := qkv];
    more := more[TensorName(i, AttnGateWeight) := values];
    more := more[TensorName(i, SsmAlphaWeight) := heads][TensorName(i, SsmBetaWeight) := heads];
    more := more[TensorName(i, SsmA) := heads][TensorName(i, SsmDtBias) := heads];
  }
}
