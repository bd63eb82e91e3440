/**
 Combining per-expert MoE tensors of a checkpoint into stacked ones, for any way to read
 names off keys.
 */
module ExpertStacking {
  import opened Wrappers

  datatype Proj = Gate | Up | Down

  /** What a per-expert key says, and whether it is the very key that the pass pops for it. */
  datatype ExpertName = ExpertName(prefix: string, index: nat, proj: Proj, canonical: bool)

  datatype Name = Expert(name: ExpertName) | GateUp(prefix: string) | DownAll(prefix: string) | Other

  /** How names are read off keys, and which keys the pass builds. */
  datatype Naming<!K> = Naming(
    nameOf: K -> Name, isPrefix: string -> bool,
    expertKey: (string, nat, Proj) -> K, gateUpKey: string -> K, downKey: string -> K)

  /** A key read as one that the pass builds is that key, and every built key is read as what it was built for. */
  ghost predicate Sound<K(!new)>(names: Naming<K>) {
    && (forall key: K :: ReadsWell(names, key))
    && (forall prefix: string :: BuildsWell(names, prefix))
  }

  ghost predicate ReadsWell<K>(names: Naming<K>, key: K) {
    match names.nameOf(key)
    case Expert(name) => Spells(names, key, name)
    case GateUp(prefix) => key == names.gateUpKey(prefix)
    case DownAll(prefix) => key == names.downKey(prefix)
    case Other => true
  }

  ghost predicate BuildsWell<K>(names: Naming<K>, prefix: string) {
    && names.nameOf(names.gateUpKey(prefix)) == GateUp(prefix)
    && names.nameOf(names.downKey(prefix)) == DownAll(prefix)
    && (names.isPrefix(prefix) ==> forall e: nat, proj :: BuildsExpert(names, prefix, e, proj))
  }

  ghost predicate BuildsExpert<K>(names: Naming<K>, prefix: string, e: nat, proj: Proj) {
    names.nameOf(names.expertKey(prefix, e, proj)) == Expert(ExpertName(prefix, e, proj, true))
  }

  lemma BuiltName<K(!new)>(names: Naming<K>, prefix: string, e: nat, proj: Proj)
    requires Sound(names) && names.isPrefix(prefix)
    ensures names.nameOf(names.expertKey(prefix, e, proj)) == Expert(ExpertName(prefix, e, proj, true))
  {
    assert BuildsWell(names, prefix) && BuildsExpert(names, prefix, e, proj);
  }

  ghost predicate Spells<K>(names: Naming<K>, k: K, name: ExpertName) {
    names.isPrefix(name.prefix) && (name.canonical <==> k == names.expertKey(name.prefix, name.index, name.proj))
  }

  type Rows = seq<seq<int>>

  /** A matrix, or one matrix per expert. */
  datatype Tensor = Matrix(rows: Rows) | Stack(experts: seq<Rows>)

  datatype StackError =
    | MissingProjection
    | NotContiguous
    | Mismatched
    | MissingKey(prefix: string, index: nat, proj: Proj)

  // ---- What a checkpoint holds ----

  /** A per-expert key of `prefix`. */
  predicate Under<K>(names: Naming<K>, key: K, prefix: string) {
    names.nameOf(key).Expert? && names.nameOf(key).name.prefix == prefix
  }

  predicate UnderProj<K>(names: Naming<K>, key: K, prefix: string, proj: Proj) {
    Under(names, key, prefix) && names.nameOf(key).name.proj == proj
  }

  function IndexOf<K>(names: Naming<K>, key: K): nat {
    if names.nameOf(key).Expert? then names.nameOf(key).name.index else 0
  }

  predicate Canonical<K>(names: Naming<K>, key: K) {
    names.nameOf(key).Expert? && names.nameOf(key).name.canonical
  }

  /** The expert indexes of one projection of one prefix. */
  function Indexes<K(==)>(names: Naming<K>, w: map<K, Tensor>, prefix: string, proj: Proj): set<nat> {
    set key | key in w && UnderProj(names, key, prefix, proj) :: IndexOf(names, key)
  }

  function Prefixes<K(==)>(names: Naming<K>, w: map<K, Tensor>): set<string> {
    set key | key in w && names.nameOf(key).Expert? :: names.nameOf(key).name.prefix
  }

  function RangeSet(n: nat): (r: set<nat>)
    ensures forall e: nat :: e in r <==> e < n
  {
    if n == 0 then {} else RangeSet(n - 1) + {n - 1}
  }

  /** The checks on the scanned index sets of one prefix. */
  function CheckSets(gates: set<nat>, ups: set<nat>, downs: set<nat>): Option<StackError> {
    if gates == {} || ups == {} || downs == {} then Some(MissingProjection)
    else if gates != RangeSet(|gates|) then Some(NotContiguous)
    else if ups != gates || downs != gates then Some(Mismatched)
    else None
  }

  function Check<K(==)>(names: Naming<K>, w: map<K, Tensor>, prefix: string): Option<StackError> {
    CheckSets(Indexes(names, w, prefix, Gate), Indexes(names, w, prefix, Up), Indexes(names, w, prefix, Down))
  }

  lemma {:induction false} RangeSize(n: nat)
    ensures |RangeSet(n)| == n
  {
    if n > 0 {
      RangeSize(n - 1);
    }
  }

  /** How many experts a prefix that passed its checks has. */
  function CountOf<K(==)>(names: Naming<K>, w: map<K, Tensor>, prefix: string): nat {
    |Indexes(names, w, prefix, Gate)|
  }

  lemma CheckedIndexes<K>(names: Naming<K>, w: map<K, Tensor>, prefix: string, proj: Proj)
    requires Check(names, w, prefix) == None
    ensures Indexes(names, w, prefix, proj) == RangeSet(CountOf(names, w, prefix))
  {
    match proj
    case Gate =>
    case Up =>
    case Down =>
  }

  /** A prefix passes exactly if all three projections have the experts below some positive count. */
  lemma CheckIff<K>(names: Naming<K>, w: map<K, Tensor>, prefix: string)
    ensures Check(names, w, prefix) == None <==>
              exists n: nat | n > 0 :: forall proj :: Indexes(names, w, prefix, proj) == RangeSet(n)
  {
    if n: nat :| n > 0 && forall proj :: Indexes(names, w, prefix, proj) == RangeSet(n) {
      RangeSize(n);
      assert Indexes(names, w, prefix, Gate) == RangeSet(n) && Indexes(names, w, prefix, Up) == RangeSet(n) &&
             Indexes(names, w, prefix, Down) == RangeSet(n);
      assert 0 in RangeSet(n);
    }
    if Check(names, w, prefix) == None {
      forall proj
        ensures Indexes(names, w, prefix, proj) == RangeSet(CountOf(names, w, prefix))
      {
        CheckedIndexes(names, w, prefix, proj);
      }
    }
  }

  /** Which check fails first: a projection without experts, gaps among the gates, then another set beside them. */
  lemma CheckErrors<K>(names: Naming<K>, w: map<K, Tensor>, prefix: string)
    ensures Check(names, w, prefix) == Some(MissingProjection) <==> exists proj :: Indexes(names, w, prefix, proj) == {}
    ensures Check(names, w, prefix) == Some(NotContiguous) <==>
              && (forall proj :: Indexes(names, w, prefix, proj) != {})
              && Indexes(names, w, prefix, Gate) != RangeSet(|Indexes(names, w, prefix, Gate)|)
    ensures Check(names, w, prefix) == Some(Mismatched) <==>
              && (forall proj :: Indexes(names, w, prefix, proj) != {})
              && Indexes(names, w, prefix, Gate) == RangeSet(|Indexes(names, w, prefix, Gate)|)
              && exists proj :: Indexes(names, w, prefix, proj) != Indexes(names, w, prefix, Gate)
  {
    assert Indexes(names, w, prefix, Gate) == {} || Indexes(names, w, prefix, Up) == {} ||
           Indexes(names, w, prefix, Down) == {} || forall proj :: Indexes(names, w, prefix, proj) != {};
    assert Indexes(names, w, prefix, Up) == Indexes(names, w, prefix, Gate) == Indexes(names, w, prefix, Down) ==>
      forall proj :: Indexes(names, w, prefix, proj) == Indexes(names, w, prefix, Gate);
  }

  // ---- Stacking ----

  function RowsOf(t: Tensor): Rows {
    match t
    case Matrix(rows) => rows
    case Stack(_) => []
  }

  /** The keys that the pass pops for the experts below `n` are there. */
  predicate HasExperts<K(==)>(names: Naming<K>, w: map<K, Tensor>, prefix: string, n: nat) {
    forall e, proj | 0 <= e < n :: names.expertKey(prefix, e, proj) in w
  }

  /** Experts below `n` of one projection, in order. */
  function Column<K(==)>(names: Naming<K>, w: map<K, Tensor>, prefix: string, proj: Proj, n: nat): (r: seq<Rows>)
    requires HasExperts(names, w, prefix, n)
    ensures |r| == n && forall e | 0 <= e < n :: r[e] == RowsOf(w[names.expertKey(prefix, e, proj)])
  {
    seq(n, e requires 0 <= e < n => RowsOf(w[names.expertKey(prefix, e, proj)]))
  }

  /** `mx.concatenate([gates, ups], axis=-2)`: each expert's gate rows, then its up rows. */
  function Joined(gates: seq<Rows>, ups: seq<Rows>): (r: seq<Rows>)
    requires |gates| == |ups|
    ensures |r| == |gates| && forall e | 0 <= e < |r| :: r[e] == gates[e] + ups[e]
  {
    seq(|gates|, e requires 0 <= e < |gates| => gates[e] + ups[e])
  }

  /** The stacked form of one prefix. */
  function StackedOf<K(==)>(names: Naming<K>, w: map<K, Tensor>, prefix: string, n: nat): (Tensor, Tensor)
    requires HasExperts(names, w, prefix, n)
  {
    (Stack(Joined(Column(names, w, prefix, Gate, n), Column(names, w, prefix, Up, n))),
     Stack(Column(names, w, prefix, Down, n)))
  }

  /** A prefix that passes the checks and has every key that the pass pops. */
  predicate Stackable<K(==)>(names: Naming<K>, w: map<K, Tensor>, prefix: string) {
    Check(names, w, prefix) == None && HasExperts(names, w, prefix, CountOf(names, w, prefix))
  }

  lemma IndexesFit<K>(names: Naming<K>, w: map<K, Tensor>, prefix: string, key: K)
    requires Check(names, w, prefix) == None && key in w && Under(names, key, prefix)
    ensures IndexOf(names, key) < CountOf(names, w, prefix)
  {
    var proj := names.nameOf(key).name.proj;
    assert UnderProj(names, key, prefix, proj);
    assert IndexOf(names, key) in Indexes(names, w, prefix, proj);
    CheckedIndexes(names, w, prefix, proj);
  }

  ghost predicate AllCanonical<K(!new)>(names: Naming<K>, w: map<K, Tensor>) {
    forall key | key in w && names.nameOf(key).Expert? :: Canonical(names, key)
  }

  /** If every per-expert key is spelled as the pass spells it, the checks are enough. */
  lemma CanonicalSuffices<K(!new)>(names: Naming<K>, w: map<K, Tensor>, prefix: string)
    requires Sound(names) && Check(names, w, prefix) == None && AllCanonical(names, w)
    ensures Stackable(names, w, prefix)
  {
    forall e, proj | 0 <= e < CountOf(names, w, prefix)
      ensures names.expertKey(prefix, e, proj) in w
    {
      CheckedIndexes(names, w, prefix, proj);
      assert e in Indexes(names, w, prefix, proj);
      var key :| key in w && UnderProj(names, key, prefix, proj) && IndexOf(names, key) == e;
      assert Canonical(names, key) && ReadsWell(names, key);
    }
  }

  ghost predicate Same<K>(w: map<K, Tensor>, r: map<K, Tensor>, key: K) {
    (key in r <==> key in w) && (key in r ==> r[key] == w[key])
  }

  /** The stacked tensors of one prefix, under the key that takes its gates and ups or its downs. */
  ghost predicate StackedIn<K>(names: Naming<K>, w: map<K, Tensor>, prefix: string, r: map<K, Tensor>, key: K,
                               down: bool)
  {
    && key in r && HasExperts(names, w, prefix, CountOf(names, w, prefix))
    && var (gateUp, downs) := StackedOf(names, w, prefix, CountOf(names, w, prefix));
       r[key] == if down then downs else gateUp
  }

  /** The entry of `key` once the prefixes in `done` are stacked. */
  ghost predicate EntryIs<K>(names: Naming<K>, w: map<K, Tensor>, done: set<string>, r: map<K, Tensor>, key: K) {
    match names.nameOf(key)
    case Expert(name) => if name.prefix in done && name.canonical then key !in r else Same(w, r, key)
    case GateUp(prefix) => if prefix in done then StackedIn(names, w, prefix, r, key, false) else Same(w, r, key)
    case DownAll(prefix) => if prefix in done then StackedIn(names, w, prefix, r, key, true) else Same(w, r, key)
    case Other => Same(w, r, key)
  }

  ghost predicate AllEntries<K(!new)>(names: Naming<K>, w: map<K, Tensor>, done: set<string>, r: map<K, Tensor>) {
    forall key :: EntryIs(names, w, done, r, key)
  }

  /** A key that is popped for an expert below `n`. */
  predicate PoppedKey<K>(names: Naming<K>, key: K, prefix: string, n: nat) {
    Under(names, key, prefix) && Canonical(names, key) && IndexOf(names, key) < n
  }

  /** The pops of one prefix: `n` experts are gone and their rows are in the three lists. */
  ghost predicate Popped<K(!new)>(names: Naming<K>, w: map<K, Tensor>, before: map<K, Tensor>, r: map<K, Tensor>,
                                  prefix: string, n: nat, gates: seq<Rows>, ups: seq<Rows>, downs: seq<Rows>) {
    && HasExperts(names, w, prefix, n)
    && gates == Column(names, w, prefix, Gate, n)
    && ups == Column(names, w, prefix, Up, n)
    && downs == Column(names, w, prefix, Down, n)
    && Without(names, before, r, prefix, n)
  }

  /** `before` without the experts below `n`. */
  ghost predicate Without<K(!new)>(names: Naming<K>, before: map<K, Tensor>, r: map<K, Tensor>, prefix: string, n: nat)
  {
    forall key {:trigger WithoutAt(names, before, r, prefix, n, key)} :: WithoutAt(names, before, r, prefix, n, key)
  }

  ghost predicate WithoutAt<K>(names: Naming<K>, before: map<K, Tensor>, r: map<K, Tensor>, prefix: string, n: nat,
                               key: K)
  {
    && (key in r <==> key in before && !PoppedKey(names, key, prefix, n))
    && (key in r ==> r[key] == before[key])
  }

  /** The keys of expert `n`. */
  function KeysOf<K(==)>(names: Naming<K>, prefix: string, n: nat): set<K> {
    {names.expertKey(prefix, n, Gate), names.expertKey(prefix, n, Up), names.expertKey(prefix, n, Down)}
  }

  lemma PoppedNext<K(!new)>(names: Naming<K>, prefix: string, n: nat, key: K)
    requires Sound(names) && names.isPrefix(prefix)
    ensures PoppedKey(names, key, prefix, n + 1) <==>
              PoppedKey(names, key, prefix, n) || key in KeysOf(names, prefix, n)
  {
    BuiltName(names, prefix, n, Gate);
    BuiltName(names, prefix, n, Up);
    BuiltName(names, prefix, n, Down);
    if PoppedKey(names, key, prefix, n + 1) && IndexOf(names, key) == n {
      assert ReadsWell(names, key);
      match names.nameOf(key).name.proj
      case Gate =>
      case Up =>
      case Down =>
    }
  }

  lemma WithoutNext<K(!new)>(names: Naming<K>, before: map<K, Tensor>, r: map<K, Tensor>, prefix: string, n: nat)
    requires Sound(names) && names.isPrefix(prefix) && Without(names, before, r, prefix, n)
    ensures Without(names, before, r - KeysOf(names, prefix, n), prefix, n + 1)
  {
    var after, m := r - KeysOf(names, prefix, n), n + 1;
    forall key
      ensures WithoutAt(names, before, after, prefix, m, key)
    {
      assert WithoutAt(names, before, r, prefix, n, key);
      PoppedNext(names, prefix, n, key);
    }
  }

  lemma ColumnNext<K>(names: Naming<K>, w: map<K, Tensor>, prefix: string, proj: Proj, n: nat)
    requires HasExperts(names, w, prefix, n + 1)
    ensures HasExperts(names, w, prefix, n)
    ensures Column(names, w, prefix, proj, n + 1) ==
              Column(names, w, prefix, proj, n) + [RowsOf(w[names.expertKey(prefix, n, proj)])]
  {
  }

  lemma PoppedStep<K(!new)>(names: Naming<K>, w: map<K, Tensor>, before: map<K, Tensor>, r: map<K, Tensor>,
                            prefix: string, n: nat, gates: seq<Rows>, ups: seq<Rows>, downs: seq<Rows>)
    requires Sound(names) && names.isPrefix(prefix)
    requires Popped(names, w, before, r, prefix, n, gates, ups, downs) && HasExperts(names, w, prefix, n + 1)
    ensures Popped(names, w, before, r - KeysOf(names, prefix, n), prefix, n + 1,
                   gates + [RowsOf(w[names.expertKey(prefix, n, Gate)])],
                   ups + [RowsOf(w[names.expertKey(prefix, n, Up)])],
                   downs + [RowsOf(w[names.expertKey(prefix, n, Down)])])
  {
    ColumnNext(names, w, prefix, Gate, n);
    ColumnNext(names, w, prefix, Up, n);
    ColumnNext(names, w, prefix, Down, n);
    WithoutNext(names, before, r, prefix, n);
  }

  /** The keys of the next expert are there exactly if the checkpoint has them, with the checkpoint's tensors. */
  lemma Unpopped<K(!new)>(names: Naming<K>, w: map<K, Tensor>, before: map<K, Tensor>, r: map<K, Tensor>,
                          done: set<string>, prefix: string, e: nat, proj: Proj)
    requires Sound(names) && names.isPrefix(prefix) && prefix !in done
    requires Without(names, before, r, prefix, e) && AllEntries(names, w, done, before)
    ensures Same(w, r, names.expertKey(prefix, e, proj))
  {
    var key := names.expertKey(prefix, e, proj);
    assert EntryIs(names, w, done, before, key) && WithoutAt(names, before, r, prefix, e, key);
    BuiltName(names, prefix, e, proj);
  }

  /** The projection of expert `e` whose key a pop would not find first. */
  method FirstAbsent<K(==, !new)>(names: Naming<K>, w: map<K, Tensor>, prefix: string, e: nat)
    returns (absent: Option<Proj>)
    ensures absent == None <==> forall proj :: names.expertKey(prefix, e, proj) in w
    ensures absent.Some? ==> names.expertKey(prefix, e, absent.value) !in w
  {
    if names.expertKey(prefix, e, Gate) !in w {
      return Some(Gate);
    }
    if names.expertKey(prefix, e, Up) !in w {
      return Some(Up);
    }
    if names.expertKey(prefix, e, Down) !in w {
      return Some(Down);
    }
    absent := None;
    forall proj
      ensures names.expertKey(prefix, e, proj) in w
    {
      match proj
      case Gate =>
      case Up =>
      case Down =>
    }
  }

  /** One prefix: pop its experts in order, and add the two stacked tensors. */
  method StackPrefix<K(==, !new)>(names: Naming<K>, w: map<K, Tensor>, prefix: string, before: map<K, Tensor>,
                                  ghost done: set<string>)
    returns (r: Result<map<K, Tensor>, StackError>)
    requires Sound(names) && names.isPrefix(prefix) && prefix !in done
    requires Check(names, w, prefix) == None && AllEntries(names, w, done, before)
    ensures r.Ok? <==> Stackable(names, w, prefix)
    ensures r.Ok? ==> AllEntries(names, w, done + {prefix}, r.value)
    ensures r.Err? ==> Fails(names, w, prefix, r.error)
  {
    var n := CountOf(names, w, prefix);
    var gates: seq<Rows>, ups: seq<Rows>, downs: seq<Rows> := [], [], [];
    var left := before;
    for e := 0 to n
      invariant Popped(names, w, before, left, prefix, e, gates, ups, downs)
    {
      forall proj {
        Unpopped(names, w, before, left, done, prefix, e, proj);
      }
      var absent := FirstAbsent(names, left, prefix, e);
      if absent.Some? {
        assert names.expertKey(prefix, e, absent.value) !in w;
        return Err(MissingKey(prefix, e, absent.value));
      }
      OneMoreExpert(names, w, prefix, e);
      PoppedStep(names, w, before, left, prefix, e, gates, ups, downs);
      gates := gates + [RowsOf(left[names.expertKey(prefix, e, Gate)])];
      ups := ups + [RowsOf(left[names.expertKey(prefix, e, Up)])];
      downs := downs + [RowsOf(left[names.expertKey(prefix, e, Down)])];
      left := left - KeysOf(names, prefix, e);
    }
    PrefixDone(names, w, before, left, done, prefix, gates, ups, downs);
    r := Ok(left[names.gateUpKey(prefix) := Stack(Joined(gates, ups))][names.downKey(prefix) := Stack(downs)]);
  }

  lemma OneMoreExpert<K>(names: Naming<K>, w: map<K, Tensor>, prefix: string, e: nat)
    requires HasExperts(names, w, prefix, e) && forall proj :: names.expertKey(prefix, e, proj) in w
    ensures HasExperts(names, w, prefix, e + 1)
  {
  }

  lemma PrefixDone<K(!new)>(names: Naming<K>, w: map<K, Tensor>, before: map<K, Tensor>, r: map<K, Tensor>,
                            done: set<string>, prefix: string, gates: seq<Rows>, ups: seq<Rows>, downs: seq<Rows>)
    requires Sound(names) && prefix !in done
    requires Check(names, w, prefix) == None && AllEntries(names, w, done, before)
    requires Popped(names, w, before, r, prefix, CountOf(names, w, prefix), gates, ups, downs)
    ensures AllEntries(names, w, done + {prefix},
                       r[names.gateUpKey(prefix) := Stack(Joined(gates, ups))][names.downKey(prefix) := Stack(downs)])
  {
    var after := r[names.gateUpKey(prefix) := Stack(Joined(gates, ups))][names.downKey(prefix) := Stack(downs)];
    assert BuildsWell(names, prefix);
    forall key
      ensures EntryIs(names, w, done + {prefix}, after, key)
    {
      assert EntryIs(names, w, done, before, key) && ReadsWell(names, key);
      assert WithoutAt(names, before, r, prefix, CountOf(names, w, prefix), key);
      if names.nameOf(key).Expert? {
        ExpertDone(names, w, before, r, done, prefix, key);
      }
    }
  }

  lemma ExpertDone<K(!new)>(names: Naming<K>, w: map<K, Tensor>, before: map<K, Tensor>, r: map<K, Tensor>,
                            done: set<string>, prefix: string, key: K)
    requires Check(names, w, prefix) == None && EntryIs(names, w, done, before, key) && prefix !in done
    requires WithoutAt(names, before, r, prefix, CountOf(names, w, prefix), key) && names.nameOf(key).Expert?
    ensures EntryIs(names, w, done + {prefix}, r, key)
  {
    if key in w && Under(names, key, prefix) {
      IndexesFit(names, w, prefix, key);
    }
  }

  // ---- The whole pass ----

  /** What the pass raises at one prefix. */
  ghost predicate Fails<K>(names: Naming<K>, w: map<K, Tensor>, prefix: string, error: StackError) {
    if Check(names, w, prefix).Some? then Check(names, w, prefix) == Some(error)
    else
      && error.MissingKey? && error.prefix == prefix && error.index < CountOf(names, w, prefix)
      && names.expertKey(prefix, error.index, error.proj) !in w
  }

  lemma PrefixesArePrefixes<K(!new)>(names: Naming<K>, w: map<K, Tensor>, prefix: string)
    requires Sound(names) && prefix in Prefixes(names, w)
    ensures names.isPrefix(prefix)
  {
    var key :| key in w && names.nameOf(key).Expert? && names.nameOf(key).name.prefix == prefix;
    assert ReadsWell(names, key);
  }

  ghost predicate AllStackable<K>(names: Naming<K>, w: map<K, Tensor>, prefixes: set<string>) {
    forall prefix | prefix in prefixes :: Stackable(names, w, prefix)
  }

  lemma FailedIsNotStackable<K>(names: Naming<K>, w: map<K, Tensor>, prefix: string, error: StackError)
    requires Fails(names, w, prefix, error)
    ensures !Stackable(names, w, prefix)
  {
  }

  lemma NothingDone<K(!new)>(names: Naming<K>, w: map<K, Tensor>, r: map<K, Tensor>)
    ensures AllEntries(names, w, {}, r) <==> r == w
  {
    if AllEntries(names, w, {}, r) {
      forall key
        ensures (key in r <==> key in w) && (key in r ==> r[key] == w[key])
      {
        assert EntryIs(names, w, {}, r, key);
      }
      assert r == w;
    }
  }

  /** The loop over the prefixes. */
  method StackEach<K(==, !new)>(names: Naming<K>, w: map<K, Tensor>) returns (r: Result<map<K, Tensor>, StackError>)
    requires Sound(names)
    ensures r.Ok? ==> AllStackable(names, w, Prefixes(names, w)) && AllEntries(names, w, Prefixes(names, w), r.value)
    ensures r.Err? ==> exists prefix | prefix in Prefixes(names, w) :: Fails(names, w, prefix, r.error)
  {
    var all := Prefixes(names, w);
    var done: set<string> := {};
    var stacked := w;
    NothingDone(names, w, w);
    while done != all
      invariant done <= all
      invariant AllStackable(names, w, done) && AllEntries(names, w, done, stacked)
      decreases |all - done|
    {
      var prefix :| prefix in all - done;
      var next := StackOne(names, w, prefix, stacked, done);
      if next.Err? {
        return Err(next.error);
      }
      stacked, done := next.value, done + {prefix};
    }
    r := Ok(stacked);
  }

  /**
   The whole pass.  It succeeds exactly if every prefix that has a per-expert tensor has
   the same experts below some count in all three projections, each under the key that
   the pass pops; then every other tensor is kept and each prefix has its two stacked ones.
   */
  method StackExperts<K(==, !new)>(names: Naming<K>, w: map<K, Tensor>) returns (r: Result<map<K, Tensor>, StackError>)
    requires Sound(names)
    ensures r.Ok? <==> AllStackable(names, w, Prefixes(names, w))
    ensures r.Ok? ==> AllEntries(names, w, Prefixes(names, w), r.value)
    ensures r.Err? ==> exists prefix | prefix in Prefixes(names, w) :: Fails(names, w, prefix, r.error)
    ensures Prefixes(names, w) == {} ==> r == Ok(w)
  {
    if Prefixes(names, w) == {} {
      NothingDone(names, w, w);
      return Ok(w);
    }
    r := StackEach(names, w);
    if r.Err? {
      ghost var prefix :| prefix in Prefixes(names, w) && Fails(names, w, prefix, r.error);
      FailedIsNotStackable(names, w, prefix, r.error);
    }
  }

  /** The checks of one prefix, then its pops. */
  method StackOne<K(==, !new)>(names: Naming<K>, w: map<K, Tensor>, prefix: string, before: map<K, Tensor>,
                               ghost done: set<string>)
    returns (r: Result<map<K, Tensor>, StackError>)
    requires Sound(names) && prefix in Prefixes(names, w) && prefix !in done && AllEntries(names, w, done, before)
    ensures r.Ok? <==> Stackable(names, w, prefix)
    ensures r.Ok? ==> AllEntries(names, w, done + {prefix}, r.value)
    ensures r.Err? ==> Fails(names, w, prefix, r.error)
  {
    var failed := Check(names, w, prefix);
    if failed.Some? {
      return Err(failed.value);
    }
    PrefixesArePrefixes(names, w, prefix);
    r := StackPrefix(names, w, prefix, before, done);
  }

  // ---- Consequences ----

  /** Every expert's matrices are still there: the gate and up rows one after the other, the down rows alone. */
  lemma ExpertsRecoverable<K(!new)>(names: Naming<K>, w: map<K, Tensor>, r: map<K, Tensor>, prefix: string, e: nat)
    requires Sound(names) && AllEntries(names, w, Prefixes(names, w), r)
    requires prefix in Prefixes(names, w) && e < CountOf(names, w, prefix)
    ensures HasExperts(names, w, prefix, e + 1) && names.gateUpKey(prefix) in r && names.downKey(prefix) in r
    ensures r[names.gateUpKey(prefix)].Stack? && e < |r[names.gateUpKey(prefix)].experts|
    ensures r[names.downKey(prefix)].Stack? && e < |r[names.downKey(prefix)].experts|
    ensures var gate, up, down :=
              w[names.expertKey(prefix, e, Gate)], w[names.expertKey(prefix, e, Up)],
              w[names.expertKey(prefix, e, Down)];
            && (gate.Matrix? && up.Matrix? ==> r[names.gateUpKey(prefix)].experts[e] == gate.rows + up.rows)
            && (down.Matrix? ==> r[names.downKey(prefix)].experts[e] == down.rows)
  {
    assert BuildsWell(names, prefix);
    assert EntryIs(names, w, Prefixes(names, w), r, names.gateUpKey(prefix));
    assert EntryIs(names, w, Prefixes(names, w), r, names.downKey(prefix));
  }

  /** What is left of the per-expert keys are those that the pass does not pop. */
  lemma LeftOver<K(!new)>(names: Naming<K>, w: map<K, Tensor>, r: map<K, Tensor>, key: K)
    requires AllEntries(names, w, Prefixes(names, w), r) && names.nameOf(key).Expert?
    ensures key in r <==> key in w && !Canonical(names, key)
  {
    assert EntryIs(names, w, Prefixes(names, w), r, key);
    assert key in w ==> names.nameOf(key).name.prefix in Prefixes(names, w);
  }

  /** Nothing is left to stack if and only if every per-expert key was canonical. */
  lemma NothingLeftIff<K(!new)>(names: Naming<K>, w: map<K, Tensor>, r: map<K, Tensor>)
    requires AllEntries(names, w, Prefixes(names, w), r)
    ensures Prefixes(names, r) == {} <==> AllCanonical(names, w)
  {
    forall key | names.nameOf(key).Expert?
      ensures key in r <==> key in w && !Canonical(names, key)
    {
      LeftOver(names, w, r, key);
    }
    if key :| key in r && names.nameOf(key).Expert? {
      assert names.nameOf(key).name.prefix in Prefixes(names, r);
    }
  }

  /** No prefix can be stacked twice: the keys to pop are gone. */
  lemma NotTwice<K(!new)>(names: Naming<K>, w: map<K, Tensor>, r: map<K, Tensor>, prefix: string)
    requires Sound(names) && AllEntries(names, w, Prefixes(names, w), r) && names.isPrefix(prefix)
    ensures !Stackable(names, r, prefix)
  {
    BuiltName(names, prefix, 0, Gate);
    LeftOver(names, w, r, names.expertKey(prefix, 0, Gate));
  }

  /** A second pass changes nothing after canonical keys, and raises after any other per-expert key. */
  lemma SecondPassIff<K(!new)>(names: Naming<K>, w: map<K, Tensor>, r: map<K, Tensor>)
    requires Sound(names) && AllEntries(names, w, Prefixes(names, w), r)
    ensures AllStackable(names, r, Prefixes(names, r)) <==> AllCanonical(names, w)
    ensures AllCanonical(names, w) <==> Prefixes(names, r) == {}
  {
    NothingLeftIff(names, w, r);
    if prefix :| prefix in Prefixes(names, r) {
      PrefixesArePrefixes(names, r, prefix);
      NotTwice(names, w, r, prefix);
    }
  }

  /** The result is determined by the checkpoint. */
  lemma StackedUnique<K(!new)>(names: Naming<K>, w: map<K, Tensor>, r: map<K, Tensor>, s: map<K, Tensor>)
    requires AllEntries(names, w, Prefixes(names, w), r) && AllEntries(names, w, Prefixes(names, w), s)
    ensures r == s
  {
    forall key
      ensures (key in r <==> key in s) && (key in r ==> r[key] == s[key])
    {
      assert EntryIs(names, w, Prefixes(names, w), r, key) && EntryIs(names, w, Prefixes(names, w), s, key);
    }
  }
}
