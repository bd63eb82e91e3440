/** The KV cache over whole runs: no cached token is lost or overwritten. */
module CacheRuns {
  import opened BlockTables
  import opened PagedContext
  import opened PackedLayout
  import opened Wrappers

  /** A request's block table in every group, and the tokens whose keys and values it has cached. */
  datatype Request<T> = Request(tables: seq<Table>, tokens: seq<T>)

  /** Flat cache rows of every group, and the requests. */
  datatype State<T> = State(caches: seq<map<nat, T>>, requests: seq<Request<T>>)

  /** What a forward pass computes for one request. */
  datatype Work<T> = Work(request: nat, tokens: seq<T>)

  // ---- What a cache keeps ----

  /** Every cached position holds its own token. */
  ghost predicate Kept<T>(cache: map<nat, T>, table: Table, blockSize: nat, tokens: seq<T>) {
    && blockSize > 0 && Covers(table, blockSize, |tokens|)
    && forall p: nat | p < |tokens| :: Holds(cache, table, blockSize, p, tokens[p])
  }

  ghost predicate Holds<T>(cache: map<nat, T>, table: Table, blockSize: nat, p: nat, token: T)
    requires blockSize > 0 && BlockIndex(blockSize, p) < |table|
  {
    Slot(table, blockSize, p) in cache && cache[Slot(table, blockSize, p)] == token
  }

  /** One group of a request. */
  ghost predicate KeptIn<T>(cache: map<nat, T>, r: Request<T>, g: nat, blockSize: nat) {
    g < |r.tables| && Kept(cache, r.tables[g], blockSize, r.tokens)
  }

  ghost predicate AllKept<T>(cache: map<nat, T>, requests: seq<Request<T>>, g: nat, blockSize: nat) {
    forall j | 0 <= j < |requests| :: KeptIn(cache, requests[j], g, blockSize)
  }

  ghost predicate Intact<T>(s: State<T>, blockSizes: seq<nat>) {
    |s.caches| == |blockSizes| && forall g | 0 <= g < |blockSizes| :: AllKept(s.caches[g], s.requests, g, blockSizes[g])
  }

  // ---- Writing ----

  /** The scatter of one step: row by row. */
  ghost function Write<T>(cache: map<nat, T>, slots: seq<nat>, values: seq<T>): map<nat, T>
    requires |slots| == |values|
  {
    if |slots| == 0 then cache
    else Write(cache, slots[..|slots| - 1], values[..|values| - 1])[slots[|slots| - 1] := values[|values| - 1]]
  }

  ghost function WriteRun<T>(cache: map<nat, T>, table: Table, blockSize: nat, start: nat, tokens: seq<T>): map<nat, T>
    requires blockSize > 0 && Covers(table, blockSize, start + |tokens|)
    decreases |tokens|
  {
    if |tokens| == 0 then cache
    else
      var n := |tokens| - 1;
      WriteRun(cache, table, blockSize, start, tokens[..n])[Slot(table, blockSize, start + n) := tokens[n]]
  }

  /** Scattering the rows of one more run is writing that run after the others. */
  lemma {:induction false} WriteAdds<T>(cache: map<nat, T>, slots: seq<nat>, values: seq<T>, table: Table,
                                        blockSize: nat,
                                        start: nat, tokens: seq<T>)
    requires |slots| == |values| && blockSize > 0 && Covers(table, blockSize, start + |tokens|)
    ensures Write(cache, AddSlots(slots, table, blockSize, start, |tokens|), values + tokens) ==
              WriteRun(Write(cache, slots, values), table, blockSize, start, tokens)
    decreases |tokens|
  {
    if |tokens| == 0 {
      assert values + tokens == values;
    } else {
      var n := |tokens| - 1;
      assert (values + tokens)[..|values| + n] == values + tokens[..n];
      WriteAdds(cache, slots, values, table, blockSize, start, tokens[..n]);
    }
  }

  ghost predicate Written(table: Table, blockSize: nat, start: nat, count: nat, slot: nat)
    requires blockSize > 0 && Covers(table, blockSize, start + count)
  {
    exists p: nat | start <= p < start + count :: Slot(table, blockSize, p) == slot
  }

  lemma {:induction false} WriteElsewhere<T>(cache: map<nat, T>, table: Table, blockSize: nat, start: nat,
                                             tokens: seq<T>, slot: nat)
    requires blockSize > 0 && Covers(table, blockSize, start + |tokens|) &&
             !Written(table, blockSize, start, |tokens|, slot)
    ensures var after := WriteRun(cache, table, blockSize, start, tokens);
            (slot in after <==> slot in cache) && (slot in cache ==> after[slot] == cache[slot])
    decreases |tokens|
  {
    if |tokens| > 0 {
      assert Slot(table, blockSize, start + (|tokens| - 1)) != slot;
      WriteElsewhere(cache, table, blockSize, start, tokens[..|tokens| - 1], slot);
    }
  }

  /** The table does not repeat a block among the written positions. */
  ghost predicate Unrepeated(table: Table, blockSize: nat, start: nat, count: nat)
    requires blockSize > 0 && Covers(table, blockSize, start + count)
  {
    forall p: nat, q: nat | start <= p < q < start + count :: Slot(table, blockSize, p) != Slot(table, blockSize, q)
  }

  lemma {:induction false} WriteHere<T>(cache: map<nat, T>, table: Table, blockSize: nat, start: nat,
                                        tokens: seq<T>, k: nat)
    requires blockSize > 0 && Covers(table, blockSize, start + |tokens|) &&
             Unrepeated(table, blockSize, start, |tokens|)
    requires k < |tokens|
    ensures Holds(WriteRun(cache, table, blockSize, start, tokens), table, blockSize, start + k, tokens[k])
    decreases |tokens|
  {
    var n := |tokens| - 1;
    if k < n {
      WriteHere(cache, table, blockSize, start, tokens[..n], k);
      assert Slot(table, blockSize, start + k) != Slot(table, blockSize, start + n);
    }
  }

  // ---- Exclusive ownership ----

  /** The block written for position `p` holds no other request's tokens, and no other part of its own request's. */
  ghost predicate OwnsBlock<T>(requests: seq<Request<T>>, g: nat, blockSize: nat, owner: nat, table: Table, p: nat)
    requires blockSize > 0 && BlockIndex(blockSize, p) < |table|
  {
    forall j: nat, q: nat |
        j < |requests| && q < |requests[j].tokens| && g < |requests[j].tables| &&
        BlockIndex(blockSize, q) < |requests[j].tables[g]| &&
        requests[j].tables[g][BlockIndex(blockSize, q)] == table[BlockIndex(blockSize, p)] ::
      j == owner && BlockIndex(blockSize, q) == BlockIndex(blockSize, p)
  }

  function Extended<T>(requests: seq<Request<T>>, w: Work<T>): seq<Request<T>>
    requires w.request < |requests|
  {
    var r := requests[w.request];
    requests[w.request := Request(r.tables, r.tokens + w.tokens)]
  }

  /** One request's work in one group: its blocks reach far enough and are its own, as the requests then are. */
  ghost predicate Legal<T>(requests: seq<Request<T>>, w: Work<T>, g: nat, blockSize: nat) {
    && w.request < |requests| && blockSize > 0 && g < |requests[w.request].tables|
    && Covers(requests[w.request].tables[g], blockSize, |requests[w.request].tokens| + |w.tokens|)
    && forall p: nat | |requests[w.request].tokens| <= p < |requests[w.request].tokens| + |w.tokens| ::
         OwnsBlock(Extended(requests, w), g, blockSize, w.request, requests[w.request].tables[g], p)
  }

  /** A cached position of any request other than the written ones keeps its slot. */
  lemma Untouched<T>(requests: seq<Request<T>>, w: Work<T>, g: nat, blockSize: nat, j: nat, q: nat)
    requires Legal(requests, w, g, blockSize) && j < |requests| && q < |requests[j].tokens|
    requires g < |requests[j].tables| && BlockIndex(blockSize, q) < |requests[j].tables[g]|
    ensures !Written(requests[w.request].tables[g], blockSize, |requests[w.request].tokens|, |w.tokens|,
                     Slot(requests[j].tables[g], blockSize, q))
  {
    var table, start := requests[w.request].tables[g], |requests[w.request].tokens|;
    forall p: nat | start <= p < start + |w.tokens|
      ensures Slot(table, blockSize, p) != Slot(requests[j].tables[g], blockSize, q)
    {
      if Slot(table, blockSize, p) == Slot(requests[j].tables[g], blockSize, q) {
        SamePosition(table, requests[j].tables[g], blockSize, p, q);
        Owned(requests, w, g, blockSize, p, j, q);
      }
    }
  }

  /** What ownership says of one position. */
  lemma Owned<T>(requests: seq<Request<T>>, w: Work<T>, g: nat, blockSize: nat, p: nat, j: nat, q: nat)
    requires Legal(requests, w, g, blockSize)
    requires |requests[w.request].tokens| <= p < |requests[w.request].tokens| + |w.tokens|
    requires j < |requests| && q < |Extended(requests, w)[j].tokens|
    requires g < |requests[j].tables| && BlockIndex(blockSize, q) < |requests[j].tables[g]|
    requires requests[j].tables[g][BlockIndex(blockSize, q)] == requests[w.request].tables[g][BlockIndex(blockSize, p)]
    ensures j == w.request && BlockIndex(blockSize, q) == BlockIndex(blockSize, p)
  {
    var after := Extended(requests, w);
    assert OwnsBlock(after, g, blockSize, w.request, requests[w.request].tables[g], p);
    assert after[j].tables == requests[j].tables;
  }

  lemma OwnUnrepeated<T>(requests: seq<Request<T>>, w: Work<T>, g: nat, blockSize: nat)
    requires Legal(requests, w, g, blockSize)
    ensures Unrepeated(requests[w.request].tables[g], blockSize, |requests[w.request].tokens|, |w.tokens|)
  {
    var table, start := requests[w.request].tables[g], |requests[w.request].tokens|;
    forall p: nat, q: nat | start <= p < q < start + |w.tokens|
      ensures Slot(table, blockSize, p) != Slot(table, blockSize, q)
    {
      if Slot(table, blockSize, p) == Slot(table, blockSize, q) {
        SamePosition(table, table, blockSize, p, q);
        Owned(requests, w, g, blockSize, p, w.request, q);
      }
    }
  }

  /** Writing one request's new tokens keeps every cached token of every request and adds the new ones. */
  lemma WorkKeeps<T>(cache: map<nat, T>, requests: seq<Request<T>>, w: Work<T>, g: nat, blockSize: nat)
    requires AllKept(cache, requests, g, blockSize) && Legal(requests, w, g, blockSize)
    ensures AllKept(WriteRun(cache, requests[w.request].tables[g], blockSize, |requests[w.request].tokens|, w.tokens),
                    Extended(requests, w), g, blockSize)
  {
    var r, after := requests[w.request], Extended(requests, w);
    var written := WriteRun(cache, r.tables[g], blockSize, |r.tokens|, w.tokens);
    OwnUnrepeated(requests, w, g, blockSize);
    forall j | 0 <= j < |after|
      ensures KeptIn(written, after[j], g, blockSize)
    {
      assert KeptIn(cache, requests[j], g, blockSize);
      forall q: nat | q < |after[j].tokens|
        ensures Holds(written, after[j].tables[g], blockSize, q, after[j].tokens[q])
      {
        if q < |requests[j].tokens| {
          Untouched(requests, w, g, blockSize, j, q);
          assert Holds(cache, requests[j].tables[g], blockSize, q, requests[j].tokens[q]);
          WriteElsewhere(cache, r.tables[g], blockSize, |r.tokens|, w.tokens,
                         Slot(requests[j].tables[g], blockSize, q));
        } else {
          WriteHere(cache, r.tables[g], blockSize, |r.tokens|, w.tokens, q - |r.tokens|);
        }
      }
    }
  }

  // ---- One batch ----

  ghost predicate InRange<T>(requests: seq<Request<T>>, works: seq<Work<T>>) {
    |works| == 0 || (InRange(requests, works[..|works| - 1]) && works[|works| - 1].request < |requests|)
  }

  /** The requests once the batch has run. */
  ghost function After<T>(requests: seq<Request<T>>, works: seq<Work<T>>): (r: seq<Request<T>>)
    requires InRange(requests, works)
    ensures |r| == |requests|
  {
    if |works| == 0 then requests else Extended(After(requests, works[..|works| - 1]), works[|works| - 1])
  }

  function RunOf<T>(requests: seq<Request<T>>, w: Work<T>): Run
    requires w.request < |requests|
  {
    Run(requests[w.request].tables, |requests[w.request].tokens|, |w.tokens|)
  }

  ghost function RunsOf<T>(requests: seq<Request<T>>, works: seq<Work<T>>): seq<Run>
    requires InRange(requests, works)
  {
    if |works| == 0 then []
    else RunsOf(requests, works[..|works| - 1]) + [RunOf(requests, works[|works| - 1])]
  }

  /** The batch's token rows, in packing order. */
  ghost function TokensOf<T>(works: seq<Work<T>>): seq<T> {
    if |works| == 0 then [] else TokensOf(works[..|works| - 1]) + works[|works| - 1].tokens
  }

  /** No request is scheduled twice in one batch. */
  ghost predicate OnceEach<T>(works: seq<Work<T>>) {
    forall i, j | 0 <= i < j < |works| :: works[i].request != works[j].request
  }

  /** The scheduler's guarantee: blocks reach far enough, and written blocks are exclusively owned. */
  ghost predicate BatchLegal<T>(requests: seq<Request<T>>, works: seq<Work<T>>, g: nat, blockSize: nat) {
    && InRange(requests, works) && OnceEach(works) && blockSize > 0
    && forall i | 0 <= i < |works| :: Ready(requests, works, g, blockSize, works[i])
  }

  ghost predicate Ready<T>(requests: seq<Request<T>>, works: seq<Work<T>>, g: nat, blockSize: nat, w: Work<T>)
    requires InRange(requests, works) && blockSize > 0
  {
    && w.request < |requests| && InGroup(RunOf(requests, w), g, blockSize)
    && forall p: nat | |requests[w.request].tokens| <= p < |requests[w.request].tokens| + |w.tokens| ::
         OwnsBlock(After(requests, works), g, blockSize, w.request, requests[w.request].tables[g], p)
  }

  lemma {:induction false} PrefixInRange<T>(requests: seq<Request<T>>, works: seq<Work<T>>, n: nat)
    requires InRange(requests, works) && n <= |works|
    ensures InRange(requests, works[..n])
    ensures n < |works| ==> works[n].request < |requests|
  {
    if n < |works| {
      PrefixInRange(requests, works[..|works| - 1], n);
      assert works[..|works| - 1][..n] == works[..n];
    } else {
      assert works[..n] == works;
    }
  }

  /** Tables stay, tokens only grow, and only for the requests of the batch. */
  lemma {:induction false} AfterIs<T>(requests: seq<Request<T>>, works: seq<Work<T>>, j: nat)
    requires InRange(requests, works) && j < |requests|
    ensures var r := After(requests, works)[j];
            && r.tables == requests[j].tables && requests[j].tokens <= r.tokens
            && ((forall i | 0 <= i < |works| :: works[i].request != j) ==> r == requests[j])
  {
    if |works| > 0 {
      AfterIs(requests, works[..|works| - 1], j);
    }
  }

  lemma {:induction false} AfterGrows<T>(requests: seq<Request<T>>, works: seq<Work<T>>, n: nat, j: nat)
    requires InRange(requests, works) && n <= |works| && j < |requests| && InRange(requests, works[..n])
    ensures |After(requests, works[..n])[j].tokens| <= |After(requests, works)[j].tokens|
  {
    if n < |works| {
      assert works[..|works| - 1][..n] == works[..n];
      AfterGrows(requests, works[..|works| - 1], n, j);
    } else {
      assert works[..n] == works;
    }
  }

  /** Shorter requests over the same tables. */
  ghost predicate Below<T>(a: seq<Request<T>>, b: seq<Request<T>>) {
    |a| == |b| && forall j | 0 <= j < |a| :: a[j].tables == b[j].tables && |a[j].tokens| <= |b[j].tokens|
  }

  lemma PrefixBelow<T>(requests: seq<Request<T>>, works: seq<Work<T>>, n: nat)
    requires InRange(requests, works) && n <= |works| && InRange(requests, works[..n])
    ensures Below(After(requests, works[..n]), After(requests, works))
  {
    forall j: nat | j < |requests|
      ensures After(requests, works[..n])[j].tables == After(requests, works)[j].tables
      ensures |After(requests, works[..n])[j].tokens| <= |After(requests, works)[j].tokens|
    {
      AfterIs(requests, works[..n], j);
      AfterIs(requests, works, j);
      AfterGrows(requests, works, n, j);
    }
  }

  lemma OwnsEarlier<T>(a: seq<Request<T>>, b: seq<Request<T>>, g: nat, blockSize: nat, owner: nat, table: Table, p: nat)
    requires Below(a, b) && blockSize > 0 && BlockIndex(blockSize, p) < |table|
    requires OwnsBlock(b, g, blockSize, owner, table, p)
    ensures OwnsBlock(a, g, blockSize, owner, table, p)
  {
  }

  /** Seen one after the other, every request's work is legal. */
  lemma LegalInTurn<T>(requests: seq<Request<T>>, works: seq<Work<T>>, n: nat, g: nat, blockSize: nat)
    requires BatchLegal(requests, works, g, blockSize) && n < |works|
    ensures InRange(requests, works[..n]) && works[n].request < |requests|
    ensures After(requests, works[..n])[works[n].request] == requests[works[n].request]
    ensures Legal(After(requests, works[..n]), works[n], g, blockSize)
  {
    var w := works[n];
    PrefixInRange(requests, works, n);
    PrefixInRange(requests, works, n + 1);
    AfterIs(requests, works[..n], w.request);
    PrefixBelow(requests, works, n + 1);
    assert Ready(requests, works, g, blockSize, w);
    OwnsInTurn(requests, works, n, g, blockSize);
  }

  lemma OwnsInTurn<T>(requests: seq<Request<T>>, works: seq<Work<T>>, n: nat, g: nat, blockSize: nat)
    requires n < |works| && InRange(requests, works) && InRange(requests, works[..n]) &&
             InRange(requests, works[..n + 1])
    requires blockSize > 0 && Ready(requests, works, g, blockSize, works[n])
    requires Below(After(requests, works[..n + 1]), After(requests, works))
    ensures forall p: nat |
              |requests[works[n].request].tokens| <= p < |requests[works[n].request].tokens| + |works[n].tokens| ::
        OwnsBlock(Extended(After(requests, works[..n]), works[n]), g, blockSize, works[n].request,
                  requests[works[n].request].tables[g], p)
  {
    var w := works[n];
    assert works[..n + 1][..n] == works[..n];
    forall p: nat | |requests[w.request].tokens| <= p < |requests[w.request].tokens| + |w.tokens|
      ensures OwnsBlock(Extended(After(requests, works[..n]), w), g, blockSize, w.request,
                        requests[w.request].tables[g], p)
    {
      OwnsEarlier(After(requests, works[..n + 1]), After(requests, works), g, blockSize, w.request,
                  requests[w.request].tables[g], p);
    }
  }

  /** The scatter of a batch is that of its runs. */
  ghost predicate Scatters<T>(requests: seq<Request<T>>, works: seq<Work<T>>, g: nat, blockSize: nat) {
    && InRange(requests, works) && AllIn(RunsOf(requests, works), g, blockSize)
    && |Slots(RunsOf(requests, works), g, blockSize)| == |TokensOf(works)|
  }

  ghost function Scattered<T>(cache: map<nat, T>, requests: seq<Request<T>>, works: seq<Work<T>>, g: nat,
                              blockSize: nat): map<nat, T>
    requires Scatters(requests, works, g, blockSize)
  {
    Write(cache, Slots(RunsOf(requests, works), g, blockSize), TokensOf(works))
  }

  lemma ScatterMore<T>(cache: map<nat, T>, requests: seq<Request<T>>, works: seq<Work<T>>, w: Work<T>, g: nat,
                       blockSize: nat)
    requires Scatters(requests, works, g, blockSize) && w.request < |requests| &&
             InGroup(RunOf(requests, w), g, blockSize)
    ensures Scatters(requests, works + [w], g, blockSize)
    ensures Scattered(cache, requests, works + [w], g, blockSize) ==
              WriteRun(Scattered(cache, requests, works, g, blockSize), requests[w.request].tables[g], blockSize,
                       |requests[w.request].tokens|, w.tokens)
  {
    var runs, r := RunsOf(requests, works), requests[w.request];
    var slots, values := Slots(runs, g, blockSize), TokensOf(works);
    assert (works + [w])[..|works|] == works;
    AddedLast(runs, RunOf(requests, w), g, blockSize, slots, SegmentTables(runs, g, blockSize));
    WriteAdds(cache, slots, values, r.tables[g], blockSize, |r.tokens|, w.tokens);
  }

  /** Writing a legal batch keeps every cached token and adds the batch's. */
  lemma {:induction false} BatchKeeps<T>(cache: map<nat, T>, requests: seq<Request<T>>, works: seq<Work<T>>,
                                         n: nat, g: nat,
                                         blockSize: nat)
    requires AllKept(cache, requests, g, blockSize) && BatchLegal(requests, works, g, blockSize) && n <= |works|
    ensures Scatters(requests, works[..n], g, blockSize)
    ensures AllKept(Scattered(cache, requests, works[..n], g, blockSize), After(requests, works[..n]), g, blockSize)
  {
    if n > 0 {
      var before, w := works[..n - 1], works[n - 1];
      BatchKeeps(cache, requests, works, n - 1, g, blockSize);
      LegalInTurn(requests, works, n - 1, g, blockSize);
      assert works[..n] == before + [w] && (before + [w])[..n - 1] == before;
      assert Ready(requests, works, g, blockSize, w);
      ScatterMore(cache, requests, before, w, g, blockSize);
      WorkKeeps(Scattered(cache, requests, before, g, blockSize), After(requests, before), w, g, blockSize);
    }
  }

  // ---- Steps ----

  function AsDecode<T>(requests: seq<Request<T>>, w: Work<T>): Decode
    requires w.request < |requests|
  {
    var r := requests[w.request];
    if |w.tokens| == 1 then Single(r.tables, |r.tokens|) else Window(r.tables, |r.tokens|, |w.tokens|)
  }

  function AsPrefill<T>(requests: seq<Request<T>>, w: Work<T>): Prefill
    requires w.request < |requests|
  {
    Prefill(requests[w.request].tables, |w.tokens|, |requests[w.request].tokens|)
  }

  ghost function AsDecodes<T>(requests: seq<Request<T>>, works: seq<Work<T>>): seq<Decode>
    requires InRange(requests, works)
  {
    if |works| == 0 then []
    else AsDecodes(requests, works[..|works| - 1]) + [AsDecode(requests, works[|works| - 1])]
  }

  ghost function AsPrefills<T>(requests: seq<Request<T>>, works: seq<Work<T>>): seq<Prefill>
    requires InRange(requests, works)
  {
    if |works| == 0 then []
    else AsPrefills(requests, works[..|works| - 1]) + [AsPrefill(requests, works[|works| - 1])]
  }

  /** The batch's segments in either layout. */
  ghost function BatchSegments<T>(requests: seq<Request<T>>, decodes: seq<Work<T>>, prefills: seq<Work<T>>,
                                  merge: bool): seq<Run>
    requires InRange(requests, decodes) && InRange(requests, prefills)
  {
    Segments(AsDecodes(requests, decodes), AsPrefills(requests, prefills), merge)
  }

  datatype Step<!T> =
    | Forward(decodes: seq<Work<T>>, prefills: seq<Work<T>>, merge: bool, context: Context)
    | Admit(tables: seq<Table>)
    | Fork(donor: nat, length: nat, tables: seq<Table>)
    | Grow(request: nat, tables: seq<Table>)
    | Shrink(request: nat, length: nat)
    | Release(request: nat)

  ghost predicate IsForward<T>(s: State<T>, t: State<T>, decodes: seq<Work<T>>, prefills: seq<Work<T>>, merge: bool,
                               c: Context, blockSizes: seq<nat>) {
    var works := decodes + prefills;
    && InRange(s.requests, decodes) && InRange(s.requests, prefills) && InRange(s.requests, works)
    && (forall g | 0 <= g < |blockSizes| :: BatchLegal(s.requests, works, g, blockSizes[g]))
    && LaidOut(c, BatchSegments(s.requests, decodes, prefills, merge), blockSizes)
    && t.requests == After(s.requests, works)
    && |t.caches| == |s.caches|
    && forall g | 0 <= g < |blockSizes| && g < |s.caches| ::
         t.caches[g] == Scatter(s.caches[g], c.groups[g].slots, TokensOf(works))
  }

  ghost function Scatter<T>(cache: map<nat, T>, slots: seq<nat>, values: seq<T>): map<nat, T> {
    if |slots| == |values| then Write(cache, slots, values) else cache
  }

  /** Positions below `n` go through the same blocks of both tables. */
  ghost predicate Shares(a: Table, b: Table, blockSize: nat, n: nat) {
    blockSize > 0 && forall p: nat | p < n ::
      BlockIndex(blockSize, p) < |a| && BlockIndex(blockSize, p) < |b| &&
      a[BlockIndex(blockSize, p)] == b[BlockIndex(blockSize, p)]
  }

  /**
   One step: a forward pass as packed by `prepare_grouped`, a new request, a new request
   that shares a cached prefix, a longer block table, a rollback of rejected tokens, or a
   request that gives its blocks back.
   */
  ghost predicate Next<T>(s: State<T>, t: State<T>, step: Step<T>, blockSizes: seq<nat>) {
    match step
    case Forward(decodes, prefills, merge, c) => IsForward(s, t, decodes, prefills, merge, c, blockSizes)
    case Admit(tables) =>
      |tables| == |blockSizes| && t == State(s.caches, s.requests + [Request(tables, [])])
    case Fork(donor, length, tables) =>
      && donor < |s.requests| && length <= |s.requests[donor].tokens|
      && |tables| == |blockSizes| && |s.requests[donor].tables| == |blockSizes|
      && (forall g | 0 <= g < |blockSizes| :: Shares(tables[g], s.requests[donor].tables[g], blockSizes[g], length))
      && t == State(s.caches, s.requests + [Request(tables, s.requests[donor].tokens[..length])])
    case Grow(r, tables) =>
      && r < |s.requests| && |tables| == |s.requests[r].tables|
      && (forall g | 0 <= g < |tables| :: s.requests[r].tables[g] <= tables[g])
      && t == State(s.caches, s.requests[r := Request(tables, s.requests[r].tokens)])
    case Shrink(r, length) =>
      && r < |s.requests| && length <= |s.requests[r].tokens|
      && t == State(s.caches, s.requests[r := Request(s.requests[r].tables, s.requests[r].tokens[..length])])
    case Release(r) =>
      && r < |s.requests|
      && t == State(s.caches, s.requests[r := Request(seq(|blockSizes|, _ => []), [])])
  }

  // ---- A forward pass ----

  lemma {:induction false} MergedPrefills<T>(requests: seq<Request<T>>, decodes: seq<Work<T>>, prefills: seq<Work<T>>)
    requires InRange(requests, decodes) && InRange(requests, prefills) && InRange(requests, decodes + prefills)
    ensures BatchSegments(requests, decodes, prefills, true) == RunsOf(requests, decodes + prefills)
    decreases |prefills|
  {
    if |prefills| == 0 {
      assert decodes + prefills == decodes;
      MergedDecodes(requests, decodes);
    } else {
      var before, w := prefills[..|prefills| - 1], prefills[|prefills| - 1];
      assert (decodes + prefills)[..|decodes + prefills| - 1] == decodes + before;
      MergedPrefills(requests, decodes, before);
      LastPrefill(requests, decodes, before, w);
      LastRun(requests, decodes + before, w);
      assert before + [w] == prefills && decodes + before + [w] == decodes + prefills;
    }
  }

  lemma LastRun<T>(requests: seq<Request<T>>, works: seq<Work<T>>, w: Work<T>)
    requires InRange(requests, works) && w.request < |requests|
    ensures InRange(requests, works + [w])
    ensures RunsOf(requests, works + [w]) == RunsOf(requests, works) + [RunOf(requests, w)]
  {
    assert (works + [w])[..|works|] == works;
  }

  lemma LastPrefill<T>(requests: seq<Request<T>>, decodes: seq<Work<T>>, prefills: seq<Work<T>>, w: Work<T>)
    requires InRange(requests, decodes) && InRange(requests, prefills) && w.request < |requests|
    ensures InRange(requests, prefills + [w])
    ensures BatchSegments(requests, decodes, prefills + [w], true) ==
              BatchSegments(requests, decodes, prefills, true) + [RunOf(requests, w)]
  {
    assert (prefills + [w])[..|prefills|] == prefills;
    var before := AsPrefills(requests, prefills);
    assert (before + [AsPrefill(requests, w)])[..|before|] == before;
  }

  lemma {:induction false} MergedDecodes<T>(requests: seq<Request<T>>, decodes: seq<Work<T>>)
    requires InRange(requests, decodes)
    ensures DecodeSegments(AsDecodes(requests, decodes), true) == RunsOf(requests, decodes)
  {
    if |decodes| > 0 {
      MergedDecodes(requests, decodes[..|decodes| - 1]);
    }
  }

  /** In either layout a batch scatters to the slots of its runs. */
  lemma ScatteredSlots<T>(requests: seq<Request<T>>, decodes: seq<Work<T>>, prefills: seq<Work<T>>,
                          merge: bool, g: nat, blockSize: nat)
    requires InRange(requests, decodes) && InRange(requests, prefills) && InRange(requests, decodes + prefills)
    requires AllIn(RunsOf(requests, decodes + prefills), g, blockSize)
    ensures AllIn(BatchSegments(requests, decodes, prefills, merge), g, blockSize)
    ensures Slots(BatchSegments(requests, decodes, prefills, merge), g, blockSize) ==
              Slots(RunsOf(requests, decodes + prefills), g, blockSize)
  {
    MergedPrefills(requests, decodes, prefills);
    if !merge {
      SameSlots(AsDecodes(requests, decodes), AsPrefills(requests, prefills), g, blockSize);
    }
  }

  lemma ForwardKeeps<T>(s: State<T>, t: State<T>, decodes: seq<Work<T>>, prefills: seq<Work<T>>, merge: bool,
                        c: Context,
                        blockSizes: seq<nat>)
    requires Intact(s, blockSizes) && IsForward(s, t, decodes, prefills, merge, c, blockSizes)
    ensures Intact(t, blockSizes)
  {
    forall g | 0 <= g < |blockSizes|
      ensures AllKept(t.caches[g], t.requests, g, blockSizes[g])
    {
      ForwardGroup(s, t, decodes, prefills, merge, c, blockSizes, g);
    }
  }

  lemma ForwardGroup<T>(s: State<T>, t: State<T>, decodes: seq<Work<T>>, prefills: seq<Work<T>>, merge: bool,
                        c: Context,
                        blockSizes: seq<nat>, g: nat)
    requires Intact(s, blockSizes) && IsForward(s, t, decodes, prefills, merge, c, blockSizes) && g < |blockSizes|
    ensures AllKept(t.caches[g], t.requests, g, blockSizes[g])
  {
    var works := decodes + prefills;
    assert BatchLegal(s.requests, works, g, blockSizes[g]);
    BatchKeeps(s.caches[g], s.requests, works, |works|, g, blockSizes[g]);
    assert works[..|works|] == works;
    ScatteredSlots(s.requests, decodes, prefills, merge, g, blockSizes[g]);
    assert c.groups[g] == GroupOf(BatchSegments(s.requests, decodes, prefills, merge), g, blockSizes[g]);
  }

  // ---- The other steps ----

  lemma SharedKept<T>(cache: map<nat, T>, donor: Request<T>, tables: seq<Table>, length: nat, g: nat, blockSize: nat)
    requires KeptIn(cache, donor, g, blockSize) && length <= |donor.tokens| && g < |tables|
    requires Shares(tables[g], donor.tables[g], blockSize, length)
    ensures KeptIn(cache, Request(tables, donor.tokens[..length]), g, blockSize)
  {
    forall p: nat | p < length
      ensures BlockIndex(blockSize, p) < |tables[g]| && Holds(cache, tables[g], blockSize, p, donor.tokens[p])
    {
      assert Holds(cache, donor.tables[g], blockSize, p, donor.tokens[p]);
    }
  }

  lemma PrefixShares(a: Table, b: Table, blockSize: nat, n: nat)
    requires a <= b && blockSize > 0 && Covers(a, blockSize, n)
    ensures Shares(b, a, blockSize, n)
  {
  }

  /** Every step keeps every cached token of every request. */
  lemma StepKeeps<T>(s: State<T>, t: State<T>, step: Step<T>, blockSizes: seq<nat>)
    requires Intact(s, blockSizes) && (forall g | 0 <= g < |blockSizes| :: blockSizes[g] > 0) &&
             Next(s, t, step, blockSizes)
    ensures Intact(t, blockSizes)
  {
    if step.Forward? {
      ForwardKeeps(s, t, step.decodes, step.prefills, step.merge, step.context, blockSizes);
    } else {
      forall g | 0 <= g < |blockSizes|
        ensures AllKept(t.caches[g], t.requests, g, blockSizes[g])
      {
        forall j | 0 <= j < |t.requests|
          ensures KeptIn(t.caches[g], t.requests[j], g, blockSizes[g])
        {
          StepKeepsOne(s, t, step, blockSizes, g, j);
        }
      }
    }
  }

  lemma StepKeepsOne<T>(s: State<T>, t: State<T>, step: Step<T>, blockSizes: seq<nat>, g: nat, j: nat)
    requires Intact(s, blockSizes) && !step.Forward? && Next(s, t, step, blockSizes)
    requires g < |blockSizes| && blockSizes[g] > 0 && j < |t.requests|
    ensures |t.caches| == |s.caches| && KeptIn(t.caches[g], t.requests[j], g, blockSizes[g])
  {
    assert AllKept(s.caches[g], s.requests, g, blockSizes[g]);
    if j < |s.requests| {
      assert KeptIn(s.caches[g], s.requests[j], g, blockSizes[g]);
    }
    match step
    case Admit(tables) =>
    case Fork(donor, length, tables) =>
      assert KeptIn(s.caches[g], s.requests[donor], g, blockSizes[g]);
      SharedKept(s.caches[g], s.requests[donor], tables, length, g, blockSizes[g]);
    case Grow(r, tables) =>
      assert KeptIn(s.caches[g], s.requests[r], g, blockSizes[g]);
      PrefixShares(s.requests[r].tables[g], tables[g], blockSizes[g], |s.requests[r].tokens|);
      SharedKept(s.caches[g], s.requests[r], tables, |s.requests[r].tokens|, g, blockSizes[g]);
      assert s.requests[r].tokens[..|s.requests[r].tokens|] == s.requests[r].tokens;
    case Shrink(r, length) =>
      assert KeptIn(s.caches[g], s.requests[r], g, blockSizes[g]);
      SharedKept(s.caches[g], s.requests[r], s.requests[r].tables, length, g, blockSizes[g]);
    case Release(r) =>
  }

  // ---- Whole runs ----

  /** A run from an empty cache without requests. */
  ghost predicate IsRun<T>(states: seq<State<T>>, steps: seq<Step<T>>, blockSizes: seq<nat>) {
    && |states| == |steps| + 1 && (forall g | 0 <= g < |blockSizes| :: blockSizes[g] > 0)
    && |states[0].caches| == |blockSizes| && states[0].requests == []
    && forall i | 0 <= i < |steps| :: Next(states[i], states[i + 1], steps[i], blockSizes)
  }

  /** At every moment of every run, every position below a request's length holds that request's token. */
  lemma {:induction false} RunsKeep<T>(states: seq<State<T>>, steps: seq<Step<T>>, blockSizes: seq<nat>, n: nat)
    requires IsRun(states, steps, blockSizes) && n < |states|
    ensures Intact(states[n], blockSizes)
  {
    if n > 0 {
      RunsKeep(states, steps, blockSizes, n - 1);
      StepKeeps(states[n - 1], states[n], steps[n - 1], blockSizes);
    }
  }

  // ---- Reading ----

  /** A segment belongs to a request of the batch and ends no later than the request's new tokens. */
  ghost predicate PartOf<T>(seg: Run, requests: seq<Request<T>>, w: Work<T>) {
    w.request < |requests| && seg.tables == requests[w.request].tables &&
    seg.start + seg.count <= |requests[w.request].tokens| + |w.tokens|
  }

  ghost predicate HasOwner<T>(seg: Run, requests: seq<Request<T>>, works: seq<Work<T>>) {
    exists k | 0 <= k < |works| :: PartOf(seg, requests, works[k])
  }

  ghost predicate AllOwned<T>(segs: seq<Run>, requests: seq<Request<T>>, works: seq<Work<T>>) {
    forall i | 0 <= i < |segs| :: HasOwner(segs[i], requests, works)
  }

  lemma OwnedByMore<T>(segs: seq<Run>, requests: seq<Request<T>>, works: seq<Work<T>>, w: Work<T>)
    requires AllOwned(segs, requests, works)
    ensures AllOwned(segs, requests, works + [w])
  {
    forall i | 0 <= i < |segs|
      ensures HasOwner(segs[i], requests, works + [w])
    {
      assert HasOwner(segs[i], requests, works);
      var k :| 0 <= k < |works| && PartOf(segs[i], requests, works[k]);
      assert PartOf(segs[i], requests, (works + [w])[k]);
    }
  }

  lemma OneMoreOwned<T>(segs: seq<Run>, seg: Run, requests: seq<Request<T>>, works: seq<Work<T>>, w: Work<T>)
    requires AllOwned(segs, requests, works) && PartOf(seg, requests, w) && w in works
    ensures AllOwned(segs + [seg], requests, works)
  {
    var k :| 0 <= k < |works| && works[k] == w;
    assert PartOf(seg, requests, works[k]);
  }

  lemma {:induction false} RowsOwned<T>(segs: seq<Run>, n: nat, requests: seq<Request<T>>, works: seq<Work<T>>,
                                        w: Work<T>)
    requires AllOwned(segs, requests, works) && w in works && w.request < |requests| && n <= |w.tokens|
    ensures AllOwned(AddRows(segs, RunOf(requests, w), n), requests, works)
  {
    if n > 0 {
      var run := RunOf(requests, w);
      RowsOwned(segs, n - 1, requests, works, w);
      OneMoreOwned(AddRows(segs, run, n - 1), Run(run.tables, run.start + n - 1, 1), requests, works, w);
    }
  }

  lemma {:induction false} DecodesOwned<T>(requests: seq<Request<T>>, works: seq<Work<T>>, merge: bool)
    requires InRange(requests, works)
    ensures AllOwned(DecodeSegments(AsDecodes(requests, works), merge), requests, works)
  {
    if |works| > 0 {
      var before, w := works[..|works| - 1], works[|works| - 1];
      var segs := DecodeSegments(AsDecodes(requests, before), merge);
      DecodesOwned(requests, before, merge);
      OwnedByMore(segs, requests, before, w);
      assert before + [w] == works;
      RowsOwned(segs, |w.tokens|, requests, works, w);
      OneMoreOwned(segs, RunOf(requests, w), requests, works, w);
    }
  }

  lemma {:induction false} SegmentsOwned<T>(requests: seq<Request<T>>, decodes: seq<Work<T>>,
                                            prefills: seq<Work<T>>, merge: bool)
    requires InRange(requests, decodes) && InRange(requests, prefills)
    ensures AllOwned(BatchSegments(requests, decodes, prefills, merge), requests, decodes + prefills)
    decreases |prefills|
  {
    if |prefills| == 0 {
      assert decodes + prefills == decodes;
      DecodesOwned(requests, decodes, merge);
    } else {
      var before, w := prefills[..|prefills| - 1], prefills[|prefills| - 1];
      var segs := BatchSegments(requests, decodes, before, merge);
      SegmentsOwned(requests, decodes, before, merge);
      OwnedByMore(segs, requests, decodes + before, w);
      assert decodes + before + [w] == decodes + prefills;
      OneMoreOwned(segs, RunOf(requests, w), requests, decodes + prefills, w);
    }
  }

  lemma {:induction false} WorkTokens<T>(requests: seq<Request<T>>, works: seq<Work<T>>, k: nat)
    requires InRange(requests, works) && OnceEach(works) && k < |works|
    ensures works[k].request < |requests|
    ensures After(requests, works)[works[k].request] ==
              Request(requests[works[k].request].tables, requests[works[k].request].tokens + works[k].tokens)
  {
    var before, last := works[..|works| - 1], works[|works| - 1];
    if k < |works| - 1 {
      WorkTokens(requests, before, k);
      assert before[k].request != last.request;
    } else {
      AfterIs(requests, before, last.request);
    }
  }

  /**
   During a forward pass every address that the kernel reads for a segment, through its
   own page size, holds the token of that position of the segment's request, for every
   position up to the segment's context length, the step's own tokens included.
   */
  lemma ReadsBack<T>(s: State<T>, t: State<T>, decodes: seq<Work<T>>, prefills: seq<Work<T>>, merge: bool, c: Context,
                     blockSizes: seq<nat>, g: nat, i: nat, p: nat, kernel: KernelTables)
    returns (k: nat)
    requires Intact(s, blockSizes) && IsForward(s, t, decodes, prefills, merge, c, blockSizes)
    requires g < |blockSizes| && i < |BatchSegments(s.requests, decodes, prefills, merge)| && i < |c.contextLens|
    requires p < c.contextLens[i] && BuildBlockTables(c.groups[g].tables, c.groups[g].blockSize) == Ok(kernel)
    ensures k < |decodes + prefills|
    ensures PartOf(BatchSegments(s.requests, decodes, prefills, merge)[i], s.requests, (decodes + prefills)[k])
    ensures var r := t.requests[(decodes + prefills)[k].request];
            && p < |r.tokens| && i < |kernel.rows| && kernel.blockSize > 0
            && BlockIndex(kernel.blockSize, p) < |kernel.rows[i]|
            && Holds(t.caches[g], kernel.rows[i], kernel.blockSize, p, r.tokens[p])
  {
    var works, segs := decodes + prefills, BatchSegments(s.requests, decodes, prefills, merge);
    assert BatchLegal(s.requests, works, g, blockSizes[g]);
    SegmentsOwned(s.requests, decodes, prefills, merge);
    assert HasOwner(segs[i], s.requests, works);
    k :| 0 <= k < |works| && PartOf(segs[i], s.requests, works[k]);
    WorkTokens(s.requests, works, k);
    PackedSegment(c, segs, blockSizes, g, i);
    ForwardGroup(s, t, decodes, prefills, merge, c, blockSizes, g);
    var r := t.requests[works[k].request];
    assert KeptIn(t.caches[g], r, g, blockSizes[g]);
    assert Holds(t.caches[g], r.tables[g], blockSizes[g], p, r.tokens[p]);
    ReaderIsWriter(c.groups[g].tables, blockSizes[g], kernel, i, p);
  }
}
