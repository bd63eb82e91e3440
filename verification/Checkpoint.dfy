/** Expert tensors inside a safetensors checkpoint, in the stacked and the per-expert layout. */
module Checkpoint {
  import opened Arith
  import opened Bits
  import opened Sequences
  import opened Wrappers

  datatype Projection = GateProj | UpProj | DownProj
  datatype Component = Weight | Scales | Biases
  datatype Slot = Slot(projection: Projection, component: Component)

  /** Projections in order, components within each. */
  const SLOTS: seq<Slot> := [
    Slot(GateProj, Weight), Slot(GateProj, Scales), Slot(GateProj, Biases),
    Slot(UpProj, Weight), Slot(UpProj, Scales), Slot(UpProj, Biases),
    Slot(DownProj, Weight), Slot(DownProj, Scales), Slot(DownProj, Biases)]

  datatype DType = U32 | U8 | F16 | F32 | BF16

  function ItemSize(d: DType): nat {
    match d
    case U32 | F32 => 4
    case F16 | BF16 => 2
    case U8 => 1
  }

  datatype TensorLocation = TensorLocation(path: string, offset: nat, shape: seq<nat>, dtype: DType)

  /** Tensor names of the two layouts. */
  datatype Name =
    | StackedName(modulePath: string, slot: Slot)
    | SingleName(blockPath: string, expert: nat, slot: Slot)

  datatype ExpertSlice = ExpertSlice(location: TensorLocation, offset: nat, nbytes: nat, shape: seq<nat>)

  type Index = map<Name, TensorLocation>

  function NBytes(shape: seq<nat>, d: DType): nat {
    Elements(shape) * ItemSize(d)
  }

  /** The module path up to its last dot. */
  function BlockPath(modulePath: string): string {
    if '.' !in modulePath then modulePath
    else if modulePath[|modulePath| - 1] == '.' then modulePath[..|modulePath| - 1]
    else BlockPath(modulePath[..|modulePath| - 1])
  }

  function ExpertShape(shape: seq<nat>): seq<nat> {
    if |shape| == 0 then [] else shape[1..]
  }

  /** Where one expert's tensor lies: a slice of the stacked tensor if there is one, else its own tensor. */
  function SliceOf(index: Index, modulePath: string, slot: Slot, expert: nat): Option<ExpertSlice> {
    if StackedName(modulePath, slot) in index then
      var stacked := index[StackedName(modulePath, slot)];
      var nbytes := NBytes(ExpertShape(stacked.shape), stacked.dtype);
      Some(ExpertSlice(stacked, stacked.offset + expert * nbytes, nbytes, ExpertShape(stacked.shape)))
    else if SingleName(BlockPath(modulePath), expert, slot) in index then
      var single := index[SingleName(BlockPath(modulePath), expert, slot)];
      Some(ExpertSlice(single, single.offset, NBytes(single.shape, single.dtype), single.shape))
    else None
  }

  predicate Holds(s: ExpertSlice, position: nat) {
    s.offset <= position < s.offset + s.nbytes
  }

  /** Piece `e` of pieces of `size` bytes from `offset` on. */
  predicate InPiece(offset: nat, size: nat, e: nat, position: nat) {
    offset + Flat(e, size, 0) <= position < offset + Flat(e, size, 0) + size
  }

  lemma PiecesCover(offset: nat, size: nat, n: nat, position: nat)
    ensures offset <= position < offset + Flat(n, size, 0) <==>
              exists e: nat :: e < n && InPiece(offset, size, e, position)
  {
    if offset <= position < offset + Flat(n, size, 0) {
      var e, j := FlatCover(position - offset, n, size);
      FlatShift(e, size, 0, j);
      assert InPiece(offset, size, e, position);
    }
    forall e: nat | e < n && InPiece(offset, size, e, position)
      ensures position < offset + Flat(n, size, 0)
    {
      FlatInside(e, 0, size, n, size);
    }
  }

  lemma OnePiece(offset: nat, size: nat, e: nat, f: nat, position: nat)
    requires InPiece(offset, size, e, position) && InPiece(offset, size, f, position)
    ensures e == f
  {
    var i, j := position - offset - Flat(e, size, 0), position - offset - Flat(f, size, 0);
    FlatShift(e, size, 0, i);
    FlatShift(f, size, 0, j);
    FlatInjective(e, i, f, j, size);
  }

  /** The slice of expert `e` is piece `e` of the stacked tensor. */
  lemma SliceIsPiece(index: Index, modulePath: string, slot: Slot, e: nat, position: nat)
    requires StackedName(modulePath, slot) in index
    ensures var stacked := index[StackedName(modulePath, slot)];
            Holds(SliceOf(index, modulePath, slot, e).value, position) <==>
              InPiece(stacked.offset, NBytes(ExpertShape(stacked.shape), stacked.dtype), e, position)
  {
    var stacked := index[StackedName(modulePath, slot)];
    FlatIs(e, NBytes(ExpertShape(stacked.shape), stacked.dtype), 0);
  }

  /** The bytes of all pieces together are those of the tensor. */
  lemma StackedBytes(shape: seq<nat>, d: DType)
    requires |shape| > 0
    ensures NBytes(shape, d) == Flat(shape[0], NBytes(ExpertShape(shape), d), 0)
  {
    ElementsFirst(shape);
    PieceBytes(shape[0], Elements(shape[1..]), ItemSize(d), Elements(shape));
  }

  lemma PieceBytes(n: nat, elements: nat, itemSize: nat, all: nat)
    requires all == n * elements
    ensures all * itemSize == Flat(n, elements * itemSize, 0)
  {
    FlatIs(n, elements * itemSize, 0);
    Associate(n, itemSize, elements);
  }

  /**
   The slices of a stacked tensor tile it: every byte of the tensor belongs to the
   slice of exactly one expert, and no slice reaches outside the tensor.
   */
  lemma StackedSlicesTile(index: Index, modulePath: string, slot: Slot, position: nat)
    requires StackedName(modulePath, slot) in index && |index[StackedName(modulePath, slot)].shape| > 0
    ensures var stacked := index[StackedName(modulePath, slot)];
            var experts := stacked.shape[0];
            && (stacked.offset <= position < stacked.offset + NBytes(stacked.shape, stacked.dtype) <==>
                  exists e: nat :: e < experts && Holds(SliceOf(index, modulePath, slot, e).value, position))
            && (forall e: nat, f: nat |
                  Holds(SliceOf(index, modulePath, slot, e).value, position) &&
                  Holds(SliceOf(index, modulePath, slot, f).value, position) :: e == f)
  {
    var stacked := index[StackedName(modulePath, slot)];
    var size := NBytes(ExpertShape(stacked.shape), stacked.dtype);
    forall e: nat
      ensures Holds(SliceOf(index, modulePath, slot, e).value, position) <==>
                InPiece(stacked.offset, size, e, position)
    {
      SliceIsPiece(index, modulePath, slot, e, position);
    }
    StackedBytes(stacked.shape, stacked.dtype);
    PiecesCover(stacked.offset, size, stacked.shape[0], position);
    forall e: nat, f: nat | InPiece(stacked.offset, size, e, position) && InPiece(stacked.offset, size, f, position)
      ensures e == f
    {
      OnePiece(stacked.offset, size, e, f, position);
    }
  }

  // ---- Entries ----

  /** An array as the store makes it: the slice's shape and type over the bytes that were read. */
  datatype Tensor = Tensor(shape: seq<nat>, dtype: DType, data: seq<Byte>)

  datatype Entry = Entry(arrays: map<Slot, Tensor>)

  datatype Key = Key(modulePath: string, expert: nat)

  /** The index and the immutable contents of the shards. */
  datatype Store = Store(index: Index, files: map<string, seq<Byte>>)

  /** A full positional read; a range outside its shard is not part of this model and reads as zeros. */
  function Read(st: Store, piece: ExpertSlice): seq<Byte> {
    if piece.location.path in st.files && piece.offset + piece.nbytes <= |st.files[piece.location.path]|
    then st.files[piece.location.path][piece.offset..piece.offset + piece.nbytes]
    else seq(piece.nbytes, _ => 0)
  }

  function ToArray(st: Store, piece: ExpertSlice): Tensor {
    Tensor(piece.shape, piece.location.dtype, Read(st, piece))
  }

  function Arrays(st: Store, k: Key, slots: seq<Slot>): map<Slot, Tensor> {
    if |slots| == 0 then map[]
    else
      var rest := Arrays(st, k, slots[..|slots| - 1]);
      var slot := slots[|slots| - 1];
      match SliceOf(st.index, k.modulePath, slot, k.expert)
      case Some(piece) => rest[slot := ToArray(st, piece)]
      case None => rest
  }

  /** Bytes of an entry, component by component. */
  function ArrayBytes(arrays: map<Slot, Tensor>, slots: seq<Slot>): nat {
    if |slots| == 0 then 0
    else
      ArrayBytes(arrays, slots[..|slots| - 1]) +
      if slots[|slots| - 1] in arrays then |arrays[slots[|slots| - 1]].data| else 0
  }

  /** What the checkpoint holds for an expert; nothing at all if no component has a tensor. */
  function EntryOf(st: Store, k: Key): Option<Entry> {
    var arrays := Arrays(st, k, SLOTS);
    if arrays == map[] then None else Some(Entry(arrays))
  }

  function SizeOf(e: Option<Entry>): nat {
    if e.Some? then ArrayBytes(e.value.arrays, SLOTS) else 0
  }

  /** Bytes read for the first `n` slots of an expert. */
  function ReadBytes(st: Store, k: Key, slots: seq<Slot>): nat {
    if |slots| == 0 then 0
    else
      ReadBytes(st, k, slots[..|slots| - 1]) +
      match SliceOf(st.index, k.modulePath, slots[|slots| - 1], k.expert)
      case Some(piece) => piece.nbytes
      case None => 0
  }

  lemma {:induction false} ArraysAre(st: Store, k: Key, slots: seq<Slot>)
    requires Distinct(slots)
    ensures forall slot ::
        slot in Arrays(st, k, slots) <==> slot in slots && SliceOf(st.index, k.modulePath, slot, k.expert).Some?
    ensures forall slot | slot in Arrays(st, k, slots) ::
        Arrays(st, k, slots)[slot] == ToArray(st, SliceOf(st.index, k.modulePath, slot, k.expert).value)
  {
    if |slots| > 0 {
      ArraysAre(st, k, slots[..|slots| - 1]);
      assert slots == slots[..|slots| - 1] + [slots[|slots| - 1]];
    }
  }

  /** The bytes counted while reading are the bytes of the entry. */
  lemma {:induction false} ReadBytesAre(st: Store, k: Key, all: seq<Slot>, slots: seq<Slot>)
    requires Distinct(all) && forall slot | slot in slots :: slot in all
    ensures ArrayBytes(Arrays(st, k, all), slots) == ReadBytes(st, k, slots)
  {
    if |slots| > 0 {
      ArraysAre(st, k, all);
      var last := slots[|slots| - 1];
      assert last in slots;
      ReadBytesAre(st, k, all, slots[..|slots| - 1]);
    }
  }

  // ---- What the arrays hold, in terms of the files ----

  /** The bytes of an array of one of the safetensors types. */
  ghost function TensorBytes(shape: seq<nat>, d: DType): nat {
    Elements(shape) * (if d == F32 || d == U32 then 4 else if d == U8 then 1 else 2)
  }

  /** `block` is what remains of a dotted path without its last name. */
  ghost predicate IsBlock(modulePath: string, block: string) {
    || ('.' !in modulePath && block == modulePath)
    || exists name :: '.' !in name && modulePath == block + "." + name
  }

  /** The array has the given shape and the location's type, over the bytes of the shard from `offset` on. */
  ghost predicate IsPart(st: Store, t: Tensor, location: TensorLocation, shape: seq<nat>, offset: nat) {
    var size := TensorBytes(shape, location.dtype);
    && t.shape == shape && t.dtype == location.dtype
    && location.path in st.files && offset + size <= |st.files[location.path]|
    && t.data == st.files[location.path][offset..offset + size]
  }

  ghost predicate InShard(st: Store, location: TensorLocation) {
    && location.path in st.files
    && location.offset + TensorBytes(location.shape, location.dtype) <= |st.files[location.path]|
  }

  /** Expert `e` of a stacked tensor: its part of the tensor's bytes. */
  ghost predicate FromStacked(st: Store, location: TensorLocation, e: nat, slot: Slot, entry: Entry) {
    |location.shape| > 0 && e < location.shape[0] && InShard(st, location) ==>
      && slot in entry.arrays
      && IsPart(st, entry.arrays[slot], location, location.shape[1..],
                location.offset + e * TensorBytes(location.shape[1..], location.dtype))
  }

  /** An expert with a tensor of its own: all bytes of that tensor. */
  ghost predicate FromSingle(st: Store, location: TensorLocation, slot: Slot, entry: Entry) {
    InShard(st, location) ==>
      slot in entry.arrays && IsPart(st, entry.arrays[slot], location, location.shape, location.offset)
  }

  /** One component of an expert is what the files hold for it; a stacked tensor comes before a single one. */
  ghost predicate Delivered(st: Store, modulePath: string, e: nat, slot: Slot, entry: Entry) {
    if StackedName(modulePath, slot) in st.index
    then FromStacked(st, st.index[StackedName(modulePath, slot)], e, slot, entry)
    else
      forall block | IsBlock(modulePath, block) ::
        if SingleName(block, e, slot) in st.index then FromSingle(st, st.index[SingleName(block, e, slot)], slot, entry)
        else slot !in entry.arrays
  }

  ghost predicate DeliversAll(st: Store, modulePath: string, e: nat, entry: Entry) {
    forall slot :: Delivered(st, modulePath, e, slot, entry)
  }

  /** The checkpoint names no tensor for the expert. */
  ghost predicate NoTensorFor(st: Store, modulePath: string, e: nat) {
    && (forall slot :: StackedName(modulePath, slot) !in st.index)
    && (forall slot, block | IsBlock(modulePath, block) :: SingleName(block, e, slot) !in st.index)
  }

  lemma {:induction false} DottedBlock(block: string, name: string)
    requires '.' !in name
    ensures BlockPath(block + "." + name) == block
    decreases |name|
  {
    var path := block + "." + name;
    assert path[|block|] == '.';
    if |name| > 0 {
      assert path[|path| - 1] == name[|name| - 1] && name[|name| - 1] in name;
      assert path[..|path| - 1] == block + "." + name[..|name| - 1];
      DottedBlock(block, name[..|name| - 1]);
    } else {
      assert path[..|path| - 1] == block;
    }
  }

  lemma BlockPathIs(modulePath: string, block: string)
    requires IsBlock(modulePath, block)
    ensures BlockPath(modulePath) == block
  {
    if !('.' !in modulePath && block == modulePath) {
      var name :| '.' !in name && modulePath == block + "." + name;
      DottedBlock(block, name);
    }
  }

  lemma {:induction false} BlockExists(modulePath: string)
    ensures IsBlock(modulePath, BlockPath(modulePath))
    decreases |modulePath|
  {
    if '.' in modulePath {
      var n := |modulePath| - 1;
      if modulePath[n] == '.' {
        assert modulePath == modulePath[..n] + "." + "";
      } else {
        BlockExists(modulePath[..n]);
        assert modulePath == modulePath[..n] + [modulePath[n]];
        var name :| '.' !in name && modulePath[..n] == BlockPath(modulePath[..n]) + "." + name;
        assert modulePath == BlockPath(modulePath) + "." + (name + [modulePath[n]]);
      }
    }
  }

  lemma AllSlots(slot: Slot)
    ensures slot in SLOTS && Distinct(SLOTS)
  {
    var p, c := match slot.projection case GateProj => 0 case UpProj => 3 case DownProj => 6,
                match slot.component case Weight => 0 case Scales => 1 case Biases => 2;
    assert SLOTS[p + c] == slot;
  }

  lemma NBytesIs(shape: seq<nat>, d: DType)
    ensures NBytes(shape, d) == TensorBytes(shape, d)
  {
  }

  /** A part of a stacked tensor that lies in its shard lies in it too. */
  lemma PartInShard(st: Store, location: TensorLocation, e: nat)
    requires |location.shape| > 0 && e < location.shape[0] && InShard(st, location)
    ensures var size := TensorBytes(location.shape[1..], location.dtype);
            location.offset + e * size + size <= |st.files[location.path]|
  {
    var size := TensorBytes(location.shape[1..], location.dtype);
    StackedBytes(location.shape, location.dtype);
    FlatInside(e, 0, size, location.shape[0], size);
    FlatIs(e, size, 0);
  }

  /** What the reads of an expert give. */
  lemma EntryDelivers(st: Store, modulePath: string, e: nat)
    requires EntryOf(st, Key(modulePath, e)).Some?
    ensures DeliversAll(st, modulePath, e, EntryOf(st, Key(modulePath, e)).value)
  {
    forall slot
      ensures Delivered(st, modulePath, e, slot, EntryOf(st, Key(modulePath, e)).value)
    {
      SlotDelivers(st, modulePath, e, slot);
    }
  }

  lemma SlotDelivers(st: Store, modulePath: string, e: nat, slot: Slot)
    requires EntryOf(st, Key(modulePath, e)).Some?
    ensures Delivered(st, modulePath, e, slot, EntryOf(st, Key(modulePath, e)).value)
  {
    EntryIs(st, modulePath, e, slot);
    if StackedName(modulePath, slot) in st.index {
      StackedDelivers(st, modulePath, e, slot);
    } else {
      forall block | IsBlock(modulePath, block)
        ensures block == BlockPath(modulePath)
      {
        BlockPathIs(modulePath, block);
      }
    }
  }

  /** The entry has exactly the components that have a slice. */
  lemma EntryIs(st: Store, modulePath: string, e: nat, slot: Slot)
    ensures var piece, entry := SliceOf(st.index, modulePath, slot, e), EntryOf(st, Key(modulePath, e));
            && (piece.Some? ==> entry.Some? && slot in entry.value.arrays &&
                                entry.value.arrays[slot] == ToArray(st, piece.value))
            && (piece == None && entry.Some? ==> slot !in entry.value.arrays)
  {
    AllSlots(slot);
    ArraysAre(st, Key(modulePath, e), SLOTS);
  }

  lemma StackedDelivers(st: Store, modulePath: string, e: nat, slot: Slot)
    requires StackedName(modulePath, slot) in st.index
    ensures EntryOf(st, Key(modulePath, e)).Some?
    ensures FromStacked(st, st.index[StackedName(modulePath, slot)], e, slot, EntryOf(st, Key(modulePath, e)).value)
  {
    var location := st.index[StackedName(modulePath, slot)];
    EntryIs(st, modulePath, e, slot);
    if |location.shape| > 0 && e < location.shape[0] && InShard(st, location) {
      PartInShard(st, location, e);
    }
  }

  lemma NoSlice(st: Store, modulePath: string, e: nat, slot: Slot)
    requires NoTensorFor(st, modulePath, e)
    ensures SliceOf(st.index, modulePath, slot, e) == None
  {
    BlockExists(modulePath);
  }

  lemma NoSlices(st: Store, modulePath: string, e: nat)
    requires NoTensorFor(st, modulePath, e)
    ensures EntryOf(st, Key(modulePath, e)) == None
  {
    AllSlots(SLOTS[0]);
    ArraysAre(st, Key(modulePath, e), SLOTS);
    forall slot
      ensures slot !in Arrays(st, Key(modulePath, e), SLOTS)
    {
      NoSlice(st, modulePath, e, slot);
    }
  }

  /** The store has nothing for an expert exactly if the checkpoint names no tensor for it. */
  lemma NoEntryIff(st: Store, modulePath: string, e: nat)
    ensures EntryOf(st, Key(modulePath, e)) == None <==> NoTensorFor(st, modulePath, e)
  {
    if NoTensorFor(st, modulePath, e) {
      NoSlices(st, modulePath, e);
    } else if slot, block :| IsBlock(modulePath, block) && SingleName(block, e, slot) in st.index {
      BlockPathIs(modulePath, block);
      EntryIs(st, modulePath, e, slot);
    } else {
      var slot :| StackedName(modulePath, slot) in st.index;
      EntryIs(st, modulePath, e, slot);
    }
  }

  /** The parts of a tensor one after the other are the tensor. */
  function Joined(parts: seq<seq<Byte>>): seq<Byte> {
    if |parts| == 0 then [] else Joined(parts[..|parts| - 1]) + parts[|parts| - 1]
  }

  ghost predicate IsPiece(file: seq<Byte>, offset: nat, size: nat, e: nat, part: seq<Byte>) {
    offset + e * size + size <= |file| && part == file[offset + e * size..offset + e * size + size]
  }

  lemma OneMorePart(file: seq<Byte>, start: nat, middle: nat, end: nat)
    requires start <= middle <= end <= |file|
    ensures file[start..middle] + file[middle..end] == file[start..end]
  {
  }

  lemma {:induction false} PartsTogether(file: seq<Byte>, offset: nat, size: nat, parts: seq<seq<Byte>>)
    requires offset + |parts| * size <= |file|
    requires forall e: nat | e < |parts| :: IsPiece(file, offset, size, e, parts[e])
    ensures Joined(parts) == file[offset..offset + |parts| * size]
  {
    if |parts| > 0 {
      var n := |parts| - 1;
      Distribute(n, 1, size);
      PartsTogether(file, offset, size, parts[..n]);
      assert IsPiece(file, offset, size, n, parts[n]);
      OneMorePart(file, offset, offset + n * size, offset + |parts| * size);
    }
  }

  /** The bytes of one component of several experts. */
  ghost predicate DataOf(entries: seq<Entry>, slot: Slot, parts: seq<seq<Byte>>) {
    |parts| == |entries| &&
    forall e | 0 <= e < |entries| :: slot in entries[e].arrays && parts[e] == entries[e].arrays[slot].data
  }

  /** All experts of a stacked tensor together hold the bytes of that tensor, in order. */
  lemma StackedTogether(st: Store, modulePath: string, slot: Slot, entries: seq<Entry>, parts: seq<seq<Byte>>)
    requires StackedName(modulePath, slot) in st.index
    requires var location := st.index[StackedName(modulePath, slot)];
             |location.shape| > 0 && |entries| == location.shape[0] && InShard(st, location)
    requires forall e: nat | e < |entries| :: Delivered(st, modulePath, e, slot, entries[e])
    requires DataOf(entries, slot, parts)
    ensures var location := st.index[StackedName(modulePath, slot)];
            var size := TensorBytes(location.shape, location.dtype);
            Joined(parts) == st.files[location.path][location.offset..location.offset + size]
  {
    var location := st.index[StackedName(modulePath, slot)];
    var size := TensorBytes(location.shape[1..], location.dtype);
    forall e: nat | e < |parts|
      ensures IsPiece(st.files[location.path], location.offset, size, e, parts[e])
    {
      assert Delivered(st, modulePath, e, slot, entries[e]);
    }
    StackedBytes(location.shape, location.dtype);
    FlatIs(|parts|, size, 0);
    PartsTogether(st.files[location.path], location.offset, size, parts);
  }
}
