/**
 `OffloadedSwitchGLU`: per call, the touched experts are stacked, routing goes through a
 compact index, and zero-expert placeholders are put back afterwards.
 */
module OffloadedSwitch {
  import opened Checkpoint
  import opened ExpertStores
  import opened Lru
  import opened Wrappers

  /** Stacked projection weights; the zero-expert placeholder is the empty stack. */
  type Weights = map<Slot, seq<Tensor>>

  datatype CallError =
    | NoTensor(key: Key)
    | EmptyStack
    | NoComponent(slot: Slot)
    | ShapeMismatch(slot: Slot)
    | ForwardRaised

  // ---- np.unique ----

  function Insert(x: nat, s: seq<nat>): seq<nat> {
    if |s| == 0 then [x] else if x < s[0] then [x] + s else if x == s[0] then s else [s[0]] + Insert(x, s[1..])
  }

  /** The sorted distinct values. */
  function Unique(s: seq<nat>): seq<nat> {
    if |s| == 0 then [] else Insert(s[0], Unique(s[1..]))
  }

  ghost predicate Increasing(s: seq<nat>) {
    forall i, j | 0 <= i < j < |s| :: s[i] < s[j]
  }

  lemma {:induction false} InsertIs(x: nat, s: seq<nat>)
    requires Increasing(s)
    ensures Increasing(Insert(x, s)) && forall y :: y in Insert(x, s) <==> y == x || y in s
  {
    if |s| > 0 && x > s[0] {
      assert s == [s[0]] + s[1..];
      InsertIs(x, s[1..]);
      var r := Insert(x, s[1..]);
      forall i | 0 <= i < |r|
        ensures s[0] < r[i]
      {
        assert r[i] in r;
      }
    }
  }

  lemma {:induction false} UniqueIs(s: seq<nat>)
    ensures Increasing(Unique(s)) && forall y :: y in Unique(s) <==> y in s
  {
    if |s| > 0 {
      UniqueIs(s[1..]);
      InsertIs(s[0], Unique(s[1..]));
      assert s == [s[0]] + s[1..];
    }
  }

  // ---- What the layer computes on ----

  predicate Pickable(weights: Weights, slots: seq<Slot>, index: nat) {
    forall slot | slot in slots :: slot in weights && index < |weights[slot]|
  }

  /** The weights that the forward selects for one routed index. */
  function Pick(weights: Weights, slots: seq<Slot>, index: nat): (r: map<Slot, Tensor>)
    requires Pickable(weights, slots, index)
  {
    map slot | slot in slots :: weights[slot][index]
  }

  /** The fully resident layer's selection: the checkpoint's own tensors. */
  function Resident(st: Store, modulePath: string, slots: seq<Slot>, expert: nat): map<Slot, Tensor>
    requires forall slot | slot in slots :: HasComponent(st, modulePath, expert, slot)
  {
    map slot | slot in slots :: ComponentOf(st, modulePath, expert, slot)
  }

  function ComponentOf(st: Store, modulePath: string, expert: nat, slot: Slot): Tensor
    requires HasComponent(st, modulePath, expert, slot)
  {
    EntryOf(st, Key(modulePath, expert)).value.arrays[slot]
  }

  predicate HasComponent(st: Store, modulePath: string, expert: nat, slot: Slot) {
    EntryOf(st, Key(modulePath, expert)).Some? && slot in EntryOf(st, Key(modulePath, expert)).value.arrays
  }

  predicate AllHave(st: Store, modulePath: string, experts: seq<nat>, slot: Slot) {
    forall e | e in experts :: HasComponent(st, modulePath, e, slot)
  }

  /** Whether `mx.stack` accepts a component: every touched expert has it, all in one shape. */
  ghost predicate CanStack(st: Store, modulePath: string, experts: seq<nat>, slot: Slot) {
    && AllHave(st, modulePath, experts, slot)
    && forall e, f | e in experts && f in experts ::
         ComponentOf(st, modulePath, e, slot).shape == ComponentOf(st, modulePath, f, slot).shape
  }

  /** How many slots can be stacked before one raises. */
  ghost function Stackable(st: Store, modulePath: string, experts: seq<nat>, slots: seq<Slot>): (n: nat)
    ensures n <= |slots|
  {
    if |slots| == 0 || !CanStack(st, modulePath, experts, slots[0]) then 0
    else 1 + Stackable(st, modulePath, experts, slots[1..])
  }

  /** What stacking a component raises: the gather of the arrays comes before their stack. */
  function StackFailure(st: Store, modulePath: string, experts: seq<nat>, slot: Slot): CallError {
    if AllHave(st, modulePath, experts, slot) then ShapeMismatch(slot) else NoComponent(slot)
  }

  lemma {:induction false} StackableIs(st: Store, modulePath: string, experts: seq<nat>, slots: seq<Slot>, n: nat)
    requires n <= |slots| && forall i | 0 <= i < n :: CanStack(st, modulePath, experts, slots[i])
    ensures n <= Stackable(st, modulePath, experts, slots)
    ensures n < |slots| && !CanStack(st, modulePath, experts, slots[n]) ==>
              Stackable(st, modulePath, experts, slots) == n
    decreases n
  {
    if n > 0 {
      StackableIs(st, modulePath, experts, slots[1..], n - 1);
    }
  }

  /** The arrays of one component, if every entry has it. */
  method GatherComponent(entries: seq<Entry>, slot: Slot) returns (r: Option<seq<Tensor>>)
    ensures r.Some? <==> forall i | 0 <= i < |entries| :: slot in entries[i].arrays
    ensures r.Some? ==> |r.value| == |entries| &&
                        forall i | 0 <= i < |entries| :: r.value[i] == entries[i].arrays[slot]
  {
    var arrays: seq<Tensor> := [];
    for i := 0 to |entries|
      invariant |arrays| == i
      invariant forall j | 0 <= j < i :: slot in entries[j].arrays && arrays[j] == entries[j].arrays[slot]
    {
      if slot !in entries[i].arrays {
        return None;
      }
      arrays := arrays + [entries[i].arrays[slot]];
    }
    r := Some(arrays);
  }

  /** The shape check of `mx.stack`. */
  predicate OneShape(arrays: seq<Tensor>) {
    forall i | 0 <= i < |arrays| :: arrays[i].shape == arrays[0].shape
  }

  /** `mx.stack` of one component over the touched experts. */
  method Stack(entries: seq<Entry>, slot: Slot) returns (r: Result<seq<Tensor>, CallError>)
    ensures r == Err(NoComponent(slot)) <==> exists i | 0 <= i < |entries| :: slot !in entries[i].arrays
    ensures r == Err(ShapeMismatch(slot)) <==>
              && (forall i | 0 <= i < |entries| :: slot in entries[i].arrays)
              && exists i | 0 <= i < |entries| :: entries[i].arrays[slot].shape != entries[0].arrays[slot].shape
    ensures r.Err? ==> r.error in {NoComponent(slot), ShapeMismatch(slot)}
    ensures r.Ok? ==> |r.value| == |entries| &&
                      forall i | 0 <= i < |entries| ::
                        slot in entries[i].arrays && r.value[i] == entries[i].arrays[slot]
  {
    var arrays := GatherComponent(entries, slot);
    if arrays == None {
      return Err(NoComponent(slot));
    }
    if !OneShape(arrays.value) {
      return Err(ShapeMismatch(slot));
    }
    r := Ok(arrays.value);
  }

  /** `compact[touched] = arange(len(touched))` over zeros. */
  method Compact(numExperts: nat, touched: seq<nat>) returns (compact: seq<nat>)
    requires Increasing(touched) && forall e | e in touched :: e < numExperts
    ensures |compact| == numExperts
    ensures forall i | 0 <= i < |touched| :: touched[i] < numExperts && compact[touched[i]] == i
  {
    compact := seq(numExperts, _ => 0);
    for i := 0 to |touched|
      invariant |compact| == numExperts && forall j | 0 <= j < i :: touched[j] < numExperts && compact[touched[j]] == j
    {
      assert touched[i] in touched;
      compact := compact[touched[i] := i];
    }
  }

  class OffloadedSwitchGlu {
    const modulePath: string
    const store: ExpertStore
    const numExperts: nat
    /** The components that have a placeholder. */
    const slots: seq<Slot>
    var weights: Weights

    /** The resting state: every component holds zero experts. */
    ghost predicate AtRest()
      reads this
    {
      weights == map slot | slot in slots :: []
    }

    constructor (modulePath: string, store: ExpertStore, numExperts: nat, slots: seq<Slot>)
      ensures AtRest() && this.modulePath == modulePath && this.store == store
      ensures this.numExperts == numExperts && this.slots == slots
    {
      this.modulePath, this.store, this.numExperts, this.slots := modulePath, store, numExperts, slots;
      weights := map slot | slot in slots :: [];
    }

    method Reset()
      requires weights.Keys == set slot | slot in slots
      modifies this
      ensures AtRest()
    {
      for i := 0 to |slots|
        invariant weights.Keys == set slot | slot in slots
        invariant forall j | 0 <= j < i :: weights[slots[j]] == []
      {
        weights := weights[slots[i] := []];
      }
    }

    /** Stack every component; the first one that does not stack raises and leaves the earlier ones in place. */
    method StackAll(entries: seq<Entry>, experts: seq<nat>) returns (failed: Option<CallError>)
      requires weights.Keys == (set slot | slot in slots) && EntriesOf(store.checkpoint, modulePath, experts, entries)
      modifies this
      ensures weights.Keys == set slot | slot in slots
      ensures StackedUpTo(weights, slots, entries, Stackable(store.checkpoint, modulePath, experts, slots))
      ensures var n := Stackable(store.checkpoint, modulePath, experts, slots);
              && failed == (if n == |slots| then None
                            else Some(StackFailure(store.checkpoint, modulePath, experts, slots[n])))
              && (n == 0 ==> weights == old(weights))
    {
      for i := 0 to |slots|
        invariant weights.Keys == set slot | slot in slots
        invariant i == 0 ==> weights == old(weights)
        invariant forall k | 0 <= k < i :: CanStack(store.checkpoint, modulePath, experts, slots[k])
        invariant StackedUpTo(weights, slots, entries, i)
      {
        StackableIs(store.checkpoint, modulePath, experts, slots, i);
        var stack := Stack(entries, slots[i]);
        HaveIs(store.checkpoint, modulePath, entries, experts, slots[i]);
        if AllHave(store.checkpoint, modulePath, experts, slots[i]) {
          CanStackIs(store.checkpoint, modulePath, entries, experts, slots[i]);
        }
        if stack.Err? {
          return Some(stack.error);
        }
        StackedStep(weights, slots, entries, i, stack.value);
        weights := weights[slots[i] := stack.value];
      }
      StackableIs(store.checkpoint, modulePath, experts, slots, |slots|);
      failed := None;
    }

    /**
     One call, from whatever state the last one left.  When it succeeds the forward has
     seen, for every routed index, exactly the weights of the resident layer, and the
     placeholders are back; they also are if the forward raises.  Every other failure
     leaves the weights as they were, except one: if a component does not stack, because
     some touched expert lacks it or has it in another shape, the components stacked
     before it stay in place of their placeholders.
     */
    method Call<Y>(forward: seq<map<Slot, Tensor>> -> Option<Y>, indices: seq<nat>) returns (r: Result<Y, CallError>)
      requires weights.Keys == set slot | slot in slots
      requires store.Consistent() && forall i | i in indices :: i < numExperts
      modifies this, store
      ensures weights.Keys == (set slot | slot in slots) && store.Consistent()
      ensures store.LruState() ==
                Lru.Get(store.Keys(), store.cacheBytes, old(store.LruState()), KeysOf(modulePath, Unique(indices)))
      ensures var present := AllPresent(store.Keys(), KeysOf(modulePath, Unique(indices)));
              var n := Stackable(store.checkpoint, modulePath, Unique(indices), slots);
              if !present then r.Err? && r.error.NoTensor? && weights == old(weights)
              else if indices == [] && slots != [] then r == Err(EmptyStack) && weights == old(weights)
              else if n < |slots| then
                && r == Err(StackFailure(store.checkpoint, modulePath, Unique(indices), slots[n]))
                && if n == 0 then weights == old(weights) else !AtRest()
              else
                && AtRest()
                && (forall i, slot | i in indices && slot in slots ::
                      HasComponent(store.checkpoint, modulePath, i, slot))
                && r == match forward(ResidentAll(store.checkpoint, modulePath, slots, indices))
                        case Some(y) => Ok(y)
                        case None => Err(ForwardRaised)
    {
      var touched := Unique(indices);
      UniqueIs(indices);
      UniqueEmpty(indices);
      var entries := store.Get(modulePath, touched);
      if entries.Err? {
        return Err(NoTensor(entries.error));
      }
      if touched == [] && slots != [] {
        return Err(EmptyStack);
      }
      var failed := StackAll(entries.value, touched);
      if failed.Some? {
        LeftStacked(weights, slots, entries.value, Stackable(store.checkpoint, modulePath, touched, slots));
        return Err(failed.value);
      }
      r := Forward(forward, indices, touched, entries.value);
    }

    /** The forward on the stacked weights, and the reset that follows it whether or not it raises. */
    method Forward<Y>(forward: seq<map<Slot, Tensor>> -> Option<Y>, indices: seq<nat>, touched: seq<nat>,
                      ghost entries: seq<Entry>)
      returns (r: Result<Y, CallError>)
      requires weights.Keys == (set slot | slot in slots) && StackedUpTo(weights, slots, entries, |slots|)
      requires EntriesOf(store.checkpoint, modulePath, touched, entries)
      requires Increasing(touched) && (forall i | i in touched :: i < numExperts) &&
               forall i | i in indices :: i in touched
      modifies this
      ensures AtRest()
      ensures forall i, slot | i in indices && slot in slots :: HasComponent(store.checkpoint, modulePath, i, slot)
      ensures r == match forward(ResidentAll(store.checkpoint, modulePath, slots, indices))
                   case Some(y) => Ok(y)
                   case None => Err(ForwardRaised)
    {
      var compact := Compact(numExperts, touched);
      SelectionIsResident(store.checkpoint, modulePath, weights, slots, touched, entries, compact, indices);
      forall k | 0 <= k < |indices|
        ensures indices[k] < |compact| && Pickable(weights, slots, compact[indices[k]])
      {
        assert indices[k] in indices;
      }
      var selected := Select(weights, slots, compact, indices);
      assert selected == ResidentAll(store.checkpoint, modulePath, slots, indices);
      var y := forward(selected);
      Reset();
      r := match y case Some(v) => Ok(v) case None => Err(ForwardRaised);
    }
  }

  /** The gather `weights[compact[indices]]`. */
  function Select(weights: Weights, slots: seq<Slot>, compact: seq<nat>, indices: seq<nat>): (r: seq<map<Slot, Tensor>>)
    requires forall k | 0 <= k < |indices| :: indices[k] < |compact| && Pickable(weights, slots, compact[indices[k]])
    ensures |r| == |indices| && forall i | 0 <= i < |indices| :: r[i] == Pick(weights, slots, compact[indices[i]])
  {
    seq(|indices|, i requires 0 <= i < |indices| => Pick(weights, slots, compact[indices[i]]))
  }

  /** What the resident layer selects for every routed index. */
  function ResidentAll(st: Store, modulePath: string, slots: seq<Slot>, indices: seq<nat>): seq<map<Slot, Tensor>>
    requires forall i, slot | i in indices && slot in slots :: HasComponent(st, modulePath, i, slot)
  {
    seq(|indices|, i requires 0 <= i < |indices| => Resident(st, modulePath, slots, indices[i]))
  }

  lemma UniqueEmpty(s: seq<nat>)
    ensures Unique(s) == [] <==> s == []
  {
    UniqueIs(s);
    if |s| > 0 {
      assert s[0] in Unique(s);
    }
  }

  /** Any component that was stacked is visible: it is no longer the placeholder. */
  lemma LeftStacked(weights: Weights, slots: seq<Slot>, entries: seq<Entry>, n: nat)
    requires StackedUpTo(weights, slots, entries, n) && |entries| > 0
    ensures n > 0 ==> weights != map slot | slot in slots :: []
  {
    if n > 0 {
      assert Stacked(weights, slots[0], entries);
    }
  }

  /** Offloading is transparent: the compact route selects the resident weights. */
  lemma SelectionIsResident(st: Store, modulePath: string, weights: Weights, slots: seq<Slot>, touched: seq<nat>,
                            entries: seq<Entry>, compact: seq<nat>, indices: seq<nat>)
    requires EntriesOf(st, modulePath, touched, entries) && StackedUpTo(weights, slots, entries, |slots|)
    requires forall i | i in indices :: i in touched
    requires forall i | 0 <= i < |touched| :: touched[i] < |compact| && compact[touched[i]] == i
    ensures forall i, slot | i in indices && slot in slots :: HasComponent(st, modulePath, i, slot)
    ensures forall i | i in indices :: i < |compact| && Pickable(weights, slots, compact[i])
    ensures forall i | i in indices :: Pick(weights, slots, compact[i]) == Resident(st, modulePath, slots, i)
  {
    forall i | i in indices
      ensures i < |compact| && Pickable(weights, slots, compact[i])
      ensures forall slot | slot in slots :: HasComponent(st, modulePath, i, slot)
      ensures Pick(weights, slots, compact[i]) == Resident(st, modulePath, slots, i)
    {
      var p :| 0 <= p < |touched| && touched[p] == i;
      forall slot | slot in slots
        ensures slot in weights && p < |weights[slot]| && HasComponent(st, modulePath, i, slot)
        ensures weights[slot][p] == ComponentOf(st, modulePath, i, slot)
      {
        var k :| 0 <= k < |slots| && slots[k] == slot;
        assert Stacked(weights, slots[k], entries);
      }
    }
  }

  /** The resident selection is what the shards hold for the expert. */
  lemma ResidentIsCheckpoint(st: Store, modulePath: string, slots: seq<Slot>, expert: nat) returns (entry: Entry)
    requires slots != [] && forall slot | slot in slots :: HasComponent(st, modulePath, expert, slot)
    ensures DeliversAll(st, modulePath, expert, entry)
    ensures forall slot | slot in slots ::
              slot in entry.arrays && Resident(st, modulePath, slots, expert)[slot] == entry.arrays[slot]
  {
    assert slots[0] in slots;
    entry := EntryOf(st, Key(modulePath, expert)).value;
    EntryDelivers(st, modulePath, expert);
  }

  /** The entries that the store returned for the touched experts. */
  ghost predicate EntriesOf(st: Store, modulePath: string, experts: seq<nat>, entries: seq<Entry>) {
    && |entries| == |experts|
    && forall i | 0 <= i < |experts| :: EntryOf(st, Key(modulePath, experts[i])) == Some(entries[i])
  }

  ghost predicate Stacked(weights: Weights, slot: Slot, entries: seq<Entry>) {
    && slot in weights && |weights[slot]| == |entries|
    && forall j | 0 <= j < |entries| :: slot in entries[j].arrays && weights[slot][j] == entries[j].arrays[slot]
  }

  ghost predicate StackedUpTo(weights: Weights, slots: seq<Slot>, entries: seq<Entry>, n: nat) {
    n <= |slots| && forall k | 0 <= k < n :: Stacked(weights, slots[k], entries)
  }

  lemma StackedStep(weights: Weights, slots: seq<Slot>, entries: seq<Entry>, i: nat, stack: seq<Tensor>)
    requires i < |slots| && StackedUpTo(weights, slots, entries, i) && |stack| == |entries|
    requires forall j | 0 <= j < |entries| :: slots[i] in entries[j].arrays && stack[j] == entries[j].arrays[slots[i]]
    requires weights.Keys == set slot | slot in slots
    ensures StackedUpTo(weights[slots[i] := stack], slots, entries, i + 1)
    ensures weights[slots[i] := stack].Keys == set slot | slot in slots
  {
  }

  lemma HaveIs(st: Store, modulePath: string, entries: seq<Entry>, experts: seq<nat>, slot: Slot)
    requires EntriesOf(st, modulePath, experts, entries)
    ensures AllHave(st, modulePath, experts, slot) <==> forall i | 0 <= i < |entries| :: slot in entries[i].arrays
  {
    if AllHave(st, modulePath, experts, slot) {
      forall i | 0 <= i < |entries|
        ensures slot in entries[i].arrays
      {
        assert HasComponent(st, modulePath, experts[i], slot);
      }
    }
  }

  lemma CanStackIs(st: Store, modulePath: string, entries: seq<Entry>, experts: seq<nat>, slot: Slot)
    requires EntriesOf(st, modulePath, experts, entries) && AllHave(st, modulePath, experts, slot)
    requires forall i | 0 <= i < |entries| :: slot in entries[i].arrays
    ensures CanStack(st, modulePath, experts, slot) <==>
              forall i | 0 <= i < |entries| :: entries[i].arrays[slot].shape == entries[0].arrays[slot].shape
  {
    if CanStack(st, modulePath, experts, slot) {
      forall i | 0 <= i < |entries|
        ensures entries[i].arrays[slot].shape == entries[0].arrays[slot].shape
      {
        assert experts[i] in experts && experts[0] in experts;
      }
    }
  }
}
