/** The streaming expert cache as the object it is: an ordered dictionary, a byte count and counters. */
module ExpertStores {
  import opened Checkpoint
  import opened Lru
  import opened Sequences
  import opened Wrappers

  /** What the checkpoint holds under each key, as presence and size. */
  function CatalogOf(held: Key -> Option<Entry>): Catalog<Key> {
    Catalog((k: Key) => held(k).Some?, (k: Key) => SizeOf(held(k)))
  }

  function KeysOf(modulePath: string, experts: seq<nat>): (keys: seq<Key>)
    ensures |keys| == |experts| && forall i | 0 <= i < |keys| :: keys[i] == Key(modulePath, experts[i])
  {
    seq(|experts|, i requires 0 <= i < |experts| => Key(modulePath, experts[i]))
  }

  /** The key order lists the dictionary once, and every cached entry is the checkpoint's. */
  ghost predicate Mirrors(held: Key -> Option<Entry>, order: seq<Key>, entries: map<Key, Entry>)
    decreases |order|
  {
    if |order| == 0 then entries == map[]
    else
      var k := order[0];
      k in entries && held(k) == Some(entries[k]) && Mirrors(held, order[1..], entries - {k})
  }

  lemma {:induction false} MirrorsOnlyIf(held: Key -> Option<Entry>, order: seq<Key>, entries: map<Key, Entry>)
    requires Mirrors(held, order, entries)
    ensures Distinct(order) && forall k :: k in order <==> k in entries
    ensures forall k | k in entries :: held(k) == Some(entries[k])
    decreases |order|
  {
    if |order| > 0 {
      MirrorsOnlyIf(held, order[1..], entries - {order[0]});
      assert order == [order[0]] + order[1..];
    }
  }

  lemma {:induction false} MirrorsIf(held: Key -> Option<Entry>, order: seq<Key>, entries: map<Key, Entry>)
    requires Distinct(order) && forall k :: k in order <==> k in entries
    requires forall k | k in entries :: held(k) == Some(entries[k])
    ensures Mirrors(held, order, entries)
    decreases |order|
  {
    if |order| == 0 {
      assert entries.Keys == {};
    } else {
      assert order == [order[0]] + order[1..];
      MirrorsIf(held, order[1..], entries - {order[0]});
    }
  }

  lemma AddMirrors(held: Key -> Option<Entry>, order: seq<Key>, entries: map<Key, Entry>, k: Key, e: Entry)
    requires Mirrors(held, order, entries) && held(k) == Some(e)
    ensures Mirrors(held, if k in order then order else order + [k], entries[k := e])
  {
    MirrorsOnlyIf(held, order, entries);
    MirrorsIf(held, if k in order then order else order + [k], entries[k := e]);
  }

  lemma MoveMirrors(held: Key -> Option<Entry>, order: seq<Key>, entries: map<Key, Entry>, k: Key)
    requires Mirrors(held, order, entries) && k in order
    ensures Mirrors(held, Minus(order, [k]) + [k], entries)
    ensures forall j :: j in Minus(order, [k]) + [k] <==> j in order
  {
    MirrorsOnlyIf(held, order, entries);
    MinusIs(order, [k]);
    MinusDistinct(order, [k]);
    MirrorsIf(held, Minus(order, [k]) + [k], entries);
  }

  lemma CachedEntry(held: Key -> Option<Entry>, order: seq<Key>, entries: map<Key, Entry>, k: Key)
    requires Mirrors(held, order, entries) && k in order
    ensures k in entries && held(k) == Some(entries[k])
  {
    MirrorsOnlyIf(held, order, entries);
  }

  /** The first `n` keys are cached and among the last `d` entries. */
  ghost predicate Recent(order: seq<Key>, keys: seq<Key>, n: nat, d: nat) {
    n <= |keys| && forall j | 0 <= j < n :: keys[j] in order && Near(order, keys[j], d)
  }

  lemma MoveRecent(order: seq<Key>, keys: seq<Key>, n: nat)
    requires n < |keys| && keys[n] in order && Recent(order, keys, n, n)
    ensures Recent(Minus(order, [keys[n]]) + [keys[n]], keys, n + 1, n + 1)
  {
    MinusIs(order, [keys[n]]);
    forall j | 0 <= j <= n
      ensures Near(Minus(order, [keys[n]]) + [keys[n]], keys[j], n + 1)
    {
      MoveOneNear(order, keys[n], keys[j], n);
    }
  }

  lemma EvictRecent(c: Catalog<Key>, s: State<Key>, budget: int, keys: seq<Key>, t: State<Key>)
    requires Recent(s.order, keys, |keys|, |keys|) && t == Evict(c, s, budget, |keys|)
    ensures Recent(t.order, keys, |keys|, |keys|)
  {
    forall j | 0 <= j < |keys|
      ensures keys[j] in t.order && Near(t.order, keys[j], |keys|)
    {
      EvictNear(c, s, budget, |keys|, keys[j]);
      NearCached(t.order, keys[j], |keys|);
    }
  }

  /** The first `n` results are the checkpoint's entries, in request order. */
  ghost predicate Collected(held: Key -> Option<Entry>, keys: seq<Key>, r: seq<Entry>, n: nat) {
    n <= |keys| && |r| == n && forall j | 0 <= j < n :: held(keys[j]) == Some(r[j])
  }

  lemma CollectedStep(held: Key -> Option<Entry>, keys: seq<Key>, r: seq<Entry>, i: nat, e: Entry)
    requires i < |keys| && Collected(held, keys, r, i) && held(keys[i]) == Some(e)
    ensures Collected(held, keys, r + [e], i + 1)
  {
    var more := r + [e];
    assert more[..i] == r && more[i] == e;
    forall j | 0 <= j < i + 1
      ensures held(keys[j]) == Some(more[j])
    {
      if j < i {
        assert more[j] == r[j];
      }
    }
  }

  lemma NearCached(order: seq<Key>, k: Key, d: nat)
    requires Near(order, k, d)
    ensures k in order
  {
  }

  /** All component reads of one expert, with the bytes they count. */
  method ReadComponents(st: Store, k: Key) returns (arrays: map<Slot, Tensor>, read: nat)
    ensures arrays == Arrays(st, k, SLOTS)
    ensures read == ArrayBytes(arrays, SLOTS)
  {
    arrays, read := map[], 0;
    for i := 0 to |SLOTS|
      invariant arrays == Arrays(st, k, SLOTS[..i]) && read == ReadBytes(st, k, SLOTS[..i])
    {
      var slot := SLOTS[i];
      assert SLOTS[..i + 1][..i] == SLOTS[..i];
      match SliceOf(st.index, k.modulePath, slot, k.expert)
      case Some(piece) =>
        var tensor := ToArray(st, piece);
        arrays := arrays[slot := tensor];
        read := read + |tensor.data|;
      case None =>
    }
    assert SLOTS[..|SLOTS|] == SLOTS;
    ReadBytesAre(st, k, SLOTS, SLOTS);
  }

  /** Every entry holds what the files hold for its expert. */
  ghost predicate EntriesDelivered(st: Store, modulePath: string, experts: seq<nat>, entries: seq<Entry>) {
    |entries| == |experts| && forall i | 0 <= i < |experts| :: DeliversAll(st, modulePath, experts[i], entries[i])
  }

  /** A ghost view of the checkpoint says of each expert whether there is a tensor for it. */
  lemma AbsentIs(st: Store, held: Key -> Option<Entry>, modulePath: string)
    requires forall k {:trigger EntryOf(st, k)} :: held(k) == EntryOf(st, k)
    ensures forall e: nat :: held(Key(modulePath, e)) == None <==> NoTensorFor(st, modulePath, e)
  {
    forall e: nat
      ensures held(Key(modulePath, e)) == None <==> NoTensorFor(st, modulePath, e)
    {
      NoEntryIff(st, modulePath, e);
    }
  }

  lemma Delivery(st: Store, held: Key -> Option<Entry>, modulePath: string, experts: seq<nat>, entries: seq<Entry>)
    requires forall k {:trigger EntryOf(st, k)} :: held(k) == EntryOf(st, k)
    requires |entries| == |experts|
    requires forall i | 0 <= i < |experts| :: held(Key(modulePath, experts[i])) == Some(entries[i])
    ensures EntriesDelivered(st, modulePath, experts, entries)
  {
    forall i | 0 <= i < |experts|
      ensures DeliversAll(st, modulePath, experts[i], entries[i])
    {
      assert held(Key(modulePath, experts[i])) == EntryOf(st, Key(modulePath, experts[i]));
      EntryDelivers(st, modulePath, experts[i]);
    }
  }

  class ExpertStore {
    const checkpoint: Store
    const cacheBytes: int
    /** What the checkpoint holds. */
    ghost const held: Key -> Option<Entry>
    /** The ordered dictionary: its key order and its contents. */
    var order: seq<Key>
    var entries: map<Key, Entry>
    var bytes: int
    var hits: nat
    var misses: nat

    constructor (checkpoint: Store, cacheBytes: int)
      ensures Consistent() && LruState() == State([], 0) && hits == misses == 0
      ensures this.checkpoint == checkpoint && this.cacheBytes == cacheBytes
    {
      this.checkpoint, this.cacheBytes := checkpoint, cacheBytes;
      held := k => EntryOf(checkpoint, k);
      order, entries, bytes, hits, misses := [], map[], 0, 0, 0;
    }

    /** Every cached entry is the checkpoint's. */
    ghost predicate Consistent()
      reads this
    {
      Mirrors(held, order, entries) && HoldsCheckpoint()
    }

    ghost predicate HoldsCheckpoint() {
      forall k {:trigger EntryOf(checkpoint, k)} :: held(k) == EntryOf(checkpoint, k)
    }

    ghost function LruState(): State<Key>
      reads this
    {
      State(order, bytes)
    }

    ghost function Keys(): Catalog<Key> {
      CatalogOf(held)
    }

    /** Read one missing expert, component by component, into the dictionary. */
    method ReadExpert(k: Key)
      requires Consistent()
      modifies this`order, this`entries, this`bytes
      ensures Consistent()
      ensures order == if held(k).Some? && k !in old(order) then old(order) + [k] else old(order)
      ensures bytes == old(bytes) + SizeOf(held(k))
    {
      var arrays, read := ReadComponents(checkpoint, k);
      assert held(k) == EntryOf(checkpoint, k);
      if arrays != map[] {
        AddMirrors(held, order, entries, k, Entry(arrays));
        if k !in order {
          order := order + [k];
        }
        entries := entries[k := Entry(arrays)];
        bytes := bytes + read;
      }
    }

    method ReadMissing(missing: seq<Key>)
      requires Consistent()
      modifies this`order, this`entries, this`bytes
      ensures Consistent()
      ensures order == Load(Keys(), old(order), missing) && bytes == old(bytes) + LoadBytes(Keys(), missing)
    {
      for i := 0 to |missing|
        invariant Consistent()
        invariant Load(Keys(), order, missing[i..]) == Load(Keys(), old(order), missing)
        invariant bytes + LoadBytes(Keys(), missing[i..]) == old(bytes) + LoadBytes(Keys(), missing)
      {
        assert missing[i..][1..] == missing[i + 1..];
        ReadExpert(missing[i]);
      }
    }

    /** `move_to_end` for every requested key; a key without an entry raises. */
    method MoveRequested(keys: seq<Key>) returns (absent: Option<Key>)
      requires Consistent()
      modifies this`order
      ensures Consistent() && order == Move(old(order), keys)
      ensures forall k :: k in order <==> k in old(order)
      ensures absent.Some? ==> absent.value in keys && absent.value !in order
      ensures absent == None ==> Recent(order, keys, |keys|, |keys|)
    {
      for i := 0 to |keys|
        invariant Consistent()
        invariant Move(order, keys[i..]) == Move(old(order), keys)
        invariant forall k :: k in order <==> k in old(order)
        invariant Recent(order, keys, i, i)
      {
        var k := keys[i];
        assert keys[i..][1..] == keys[i + 1..];
        if k !in order {
          return Some(k);
        }
        MoveMirrors(held, order, entries, k);
        MoveRecent(order, keys, i);
        order := Minus(order, [k]) + [k];
      }
      absent := None;
    }

    /** `popitem(last=False)` and its bytes. */
    method EvictOldest()
      requires Consistent() && |order| > 0
      modifies this`order, this`entries, this`bytes
      ensures Consistent() && order == old(order)[1..]
      ensures bytes == old(bytes) - SizeOf(held(old(order)[0]))
    {
      var k := order[0];
      bytes := bytes - ArrayBytes(entries[k].arrays, SLOTS);
      entries := entries - {k};
      order := order[1..];
    }

    method EvictOver(keep: nat)
      requires Consistent()
      modifies this`order, this`entries, this`bytes
      ensures Consistent() && LruState() == Evict(Keys(), old(LruState()), cacheBytes, keep)
    {
      while bytes > cacheBytes && |order| > keep
        invariant Consistent()
        invariant Evict(Keys(), LruState(), cacheBytes, keep) == Evict(Keys(), old(LruState()), cacheBytes, keep)
        decreases |order|
      {
        EvictOldest();
      }
    }

    /** The requested entries in request order. */
    method Collect(keys: seq<Key>) returns (r: seq<Entry>)
      requires Consistent() && Recent(order, keys, |keys|, |keys|)
      ensures Collected(held, keys, r, |keys|)
    {
      r := [];
      for i := 0 to |keys|
        invariant Collected(held, keys, r, i)
      {
        CachedEntry(held, order, entries, keys[i]);
        CollectedStep(held, keys, r, i, entries[keys[i]]);
        r := r + [entries[keys[i]]];
      }
    }

    /**
     `get`: the store moves exactly as the state machine says, whatever the request; on
     success the result holds, in request order, the bytes that the shards hold for each
     expert, and it fails exactly if the checkpoint names no tensor for some expert.
     */
    method Get(modulePath: string, experts: seq<nat>) returns (r: Result<seq<Entry>, Key>)
      requires Consistent()
      modifies this
      ensures Consistent()
      ensures LruState() == Lru.Get(Keys(), cacheBytes, old(LruState()), KeysOf(modulePath, experts))
      ensures misses == old(misses) + |Minus(KeysOf(modulePath, experts), old(order))|
      ensures hits + misses == old(hits + misses) + |experts|
      ensures r.Ok? <==> AllPresent(Keys(), KeysOf(modulePath, experts))
      ensures r.Ok? <==> forall e | e in experts :: !NoTensorFor(checkpoint, modulePath, e)
      ensures r.Ok? ==> EntriesDelivered(checkpoint, modulePath, experts, r.value)
      ensures r.Ok? ==> |r.value| == |experts| &&
                        forall i | 0 <= i < |experts| ::
                          held(Key(modulePath, experts[i])) == Some(r.value[i])
      ensures r.Err? ==> r.error.modulePath == modulePath && r.error.expert in experts && held(r.error) == None &&
                         NoTensorFor(checkpoint, modulePath, r.error.expert)
    {
      r := Fetch(modulePath, experts);
      AbsentIs(checkpoint, held, modulePath);
      if r.Ok? {
        Delivery(checkpoint, held, modulePath, experts, r.value);
      }
    }

    method Fetch(modulePath: string, experts: seq<nat>) returns (r: Result<seq<Entry>, Key>)
      requires Consistent()
      modifies this
      ensures Consistent()
      ensures LruState() == Lru.Get(Keys(), cacheBytes, old(LruState()), KeysOf(modulePath, experts))
      ensures misses == old(misses) + |Minus(KeysOf(modulePath, experts), old(order))|
      ensures hits + misses == old(hits + misses) + |experts|
      ensures r.Ok? <==> AllPresent(Keys(), KeysOf(modulePath, experts))
      ensures r.Ok? ==> |r.value| == |experts| &&
                        forall i | 0 <= i < |experts| ::
                          held(Key(modulePath, experts[i])) == Some(r.value[i])
      ensures r.Err? ==> r.error in KeysOf(modulePath, experts) && held(r.error) == None
    {
      var keys := KeysOf(modulePath, experts);
      var missing := Minus(keys, order);
      MinusShorter(keys, order);
      var absent := LoadAndMove(keys, missing);
      misses := misses + |missing|;
      hits := hits + (|keys| - |missing|);
      if absent.Some? {
        return Err(absent.value);
      }
      ghost var moved := LruState();
      EvictOver(|keys|);
      EvictRecent(Keys(), moved, cacheBytes, keys, LruState());
      var found := Collect(keys);
      r := Ok(found);
    }

    /** The reads and the moves of `get`; every read comes before the first move. */
    method LoadAndMove(keys: seq<Key>, missing: seq<Key>) returns (absent: Option<Key>)
      requires Consistent() && missing == Minus(keys, order)
      modifies this`order, this`entries, this`bytes
      ensures Consistent()
      ensures order == Move(Load(Keys(), old(order), missing), keys)
      ensures bytes == old(bytes) + LoadBytes(Keys(), missing)
      ensures absent == None <==> AllPresent(Keys(), keys)
      ensures absent.Some? ==> absent.value in keys && held(absent.value) == None
      ensures absent == None ==> Recent(order, keys, |keys|, |keys|)
    {
      MirrorsOnlyIf(held, order, entries);
      LoadedIff(Keys(), order, keys, Load(Keys(), order, missing));
      ReadMissing(missing);
      absent := MoveRequested(keys);
    }

    method Clear()
      requires Consistent()
      modifies this`order, this`entries, this`bytes
      ensures Consistent() && LruState() == State([], 0)
    {
      order, entries, bytes := [], map[], 0;
    }
  }
}
