/**
 Routing GGUF tensors: permuted and column-wrapped quantized tensors, permuted plain
 tensors, and biases that follow their weight.
 */
module Loader {
  import opened Layout
  import opened Permutations
  import opened QuantTensors
  import opened RawBlocks
  import opened Wrappers

  /** A quantized tensor as installed: as it is, or wrapped with its column order. */
  datatype Loaded = Stored(q: Quantized) | Wrapped(q: Quantized, columnIndex: seq<int>)

  ghost predicate ValidLoaded(l: Loaded) {
    l.q.Valid() && (l.Wrapped? ==> Permutes(l.columnIndex, l.q.Columns()))
  }

  /** The weight that a loaded tensor computes with. */
  function LogicalOf(h: Half, l: Loaded): Weights
    requires ValidLoaded(l)
  {
    match l
    case Stored(q) => WeightsOf(h, q)
    case Wrapped(q, index) => GatherColumns(WeightsOf(h, q), index)
  }

  // ---- The two branches ----

  /** The quantized branch: rows first, then the column wrapper. */
  function QuantBranch(q: Quantized, permute: Option<seq<int>>, columns: Option<seq<int>>): Result<Loaded, PermuteError>
    requires q.Valid()
  {
    match (if permute.Some? then PermuteRows(q, permute.value) else Ok(q))
    case Err(e) => Err(e)
    case Ok(p) => Ok(if columns.Some? then Wrapped(p, columns.value) else Stored(p))
  }

  function MapRows<T>(w: Weights, f: int -> T): (r: seq<seq<T>>)
    ensures |r| == |w|
    ensures forall i | 0 <= i < |w| ::
              |r[i]| == |w[i]| && forall k | 0 <= k < |w[i]| :: r[i][k] == f(w[i][k])
  {
    seq(|w|, i requires 0 <= i < |w| => seq(|w[i]|, k requires 0 <= k < |w[i]| => f(w[i][k])))
  }

  ghost predicate RowsFit<T>(w: seq<seq<T>>, permute: Option<seq<int>>) {
    permute.Some? ==> Permutes(permute.value, |w|)
  }

  ghost predicate ColumnsFit<T>(w: seq<seq<T>>, columns: Option<seq<int>>) {
    columns.Some? ==> forall i | 0 <= i < |w| :: Permutes(columns.value, |w[i]|)
  }

  function PermuteBranch<T>(w: seq<seq<T>>, permute: Option<seq<int>>): seq<seq<T>>
    requires RowsFit(w, permute)
  {
    if permute.Some? then Gather(w, permute.value) else w
  }

  lemma PermutedFit<T>(w: seq<seq<T>>, permute: Option<seq<int>>, columns: Option<seq<int>>)
    requires RowsFit(w, permute) && ColumnsFit(w, columns)
    ensures ColumnsFit(PermuteBranch(w, permute), columns)
  {
  }

  /** The gathers of the plain branch: rows, then columns. */
  function Reordered<T>(w: seq<seq<T>>, permute: Option<seq<int>>, columns: Option<seq<int>>): (r: seq<seq<T>>)
    requires RowsFit(w, permute) && ColumnsFit(w, columns)
  {
    PermutedFit(w, permute, columns);
    if columns.Some? then GatherColumns(PermuteBranch(w, permute), columns.value) else PermuteBranch(w, permute)
  }

  /** How a plain tensor is stored: other values, or without a last axis of one entry. */
  datatype Transform = Values(f: int -> int) | UnitAxis

  /** A plain parameter of two axes, or of three of which the last has one entry. */
  datatype Parameter = Entries(rows: Weights) | UnitEntries(cells: seq<seq<seq<int>>>)

  /** The transform's `apply`. */
  function Apply(transform: Option<Transform>, w: Weights): Parameter {
    match transform
    case None => Entries(w)
    case Some(Values(f)) => Entries(MapRows(w, f))
    case Some(UnitAxis) => UnitEntries(MapRows(w, (v: int) => [v]))
  }

  /** The plain branch: the transform, then rows, then columns. */
  function PlainBranch(w: Weights, transform: Option<Transform>, permute: Option<seq<int>>,
                       columns: Option<seq<int>>): Parameter
    requires RowsFit(w, permute) && ColumnsFit(w, columns)
  {
    match Apply(transform, w)
    case Entries(rows) => Entries(Reordered(rows, permute, columns))
    case UnitEntries(cells) => UnitEntries(Reordered(cells, permute, columns))
  }

  /** A quantized tensor loads if and only if its row index is a permutation, and then as its plain twin would. */
  lemma BranchesAgree(h: Half, q: Quantized, permute: Option<seq<int>>, columns: Option<seq<int>>)
    requires q.Valid() && (columns.Some? ==> Permutes(columns.value, q.Columns()))
    ensures QuantBranch(q, permute, columns).Ok? <==> RowsFit(WeightsOf(h, q), permute)
    ensures QuantBranch(q, permute, columns).Ok? ==>
              && ColumnsFit(WeightsOf(h, q), columns) && ValidLoaded(QuantBranch(q, permute, columns).value)
              && Entries(LogicalOf(h, QuantBranch(q, permute, columns).value)) ==
                 PlainBranch(WeightsOf(h, q), None, permute, columns)
  {
    if permute.Some? {
      PermuteCommutes(h, q, permute.value);
    }
  }

  lemma MapReordered<T>(w: Weights, f: int -> T, permute: Option<seq<int>>, columns: Option<seq<int>>)
    requires RowsFit(w, permute) && ColumnsFit(w, columns)
    ensures Reordered(MapRows(w, f), permute, columns) == MapRows(Reordered(w, permute, columns), f)
  {
    var left, right := Reordered(MapRows(w, f), permute, columns), MapRows(Reordered(w, permute, columns), f);
    forall i | 0 <= i < |left|
      ensures left[i] == right[i]
    {
    }
  }

  /** Either transform may be applied before or after the rows and columns are put in order. */
  lemma TransformCommutes(w: Weights, transform: Option<Transform>, permute: Option<seq<int>>,
                          columns: Option<seq<int>>)
    requires RowsFit(w, permute) && ColumnsFit(w, columns)
    ensures PlainBranch(w, transform, permute, columns) == Apply(transform, Reordered(w, permute, columns))
  {
    match transform
    case None =>
    case Some(Values(f)) => MapReordered(w, f, permute, columns);
    case Some(UnitAxis) => MapReordered(w, (v: int) => [v], permute, columns);
  }

  /** The place that an index gives to `i`; without an index everything stays. */
  function Source(index: Option<seq<int>>, i: nat): int
    requires index.Some? ==> i < |index.value|
  {
    if index.Some? then index.value[i] else i
  }

  /**
   Entry by entry: the loaded parameter holds at `(i, k)` what the transform makes of the
   source's entry at the row and column that the indexes name; a unit axis is a cell of
   one entry.
   */
  lemma LoadedEntry(w: Weights, transform: Option<Transform>, permute: Option<seq<int>>, columns: Option<seq<int>>,
                    i: nat, k: nat)
    requires RowsFit(w, permute) && ColumnsFit(w, columns) && i < |w|
    requires 0 <= Source(permute, i) < |w| ==> k < |w[Source(permute, i)]|
    ensures 0 <= Source(permute, i) < |w| && 0 <= Source(columns, k) < |w[Source(permute, i)]|
    ensures var p, v := PlainBranch(w, transform, permute, columns), w[Source(permute, i)][Source(columns, k)];
            match transform
            case None => p.Entries? && i < |p.rows| && k < |p.rows[i]| && p.rows[i][k] == v
            case Some(Values(f)) => p.Entries? && i < |p.rows| && k < |p.rows[i]| && p.rows[i][k] == f(v)
            case Some(UnitAxis) => p.UnitEntries? && i < |p.cells| && k < |p.cells[i]| && p.cells[i][k] == [v]
  {
  }

  // ---- Routing ----

  datatype Path = Path(modulePath: string, param: string)

  const BIAS := "bias"

  datatype Content = QuantBlocks(q: Quantized) | PlainValues(w: Weights)

  /** One tensor of the file, with what the adapter says about it. */
  datatype Tensor = Tensor(
    translated: Option<Path>, content: Content, permute: Option<seq<int>>, columns: Option<seq<int>>,
    transform: Option<Transform>)

  datatype LoadError = AbsentModule(path: Path) | BadIndex(error: PermuteError) | QuantizedBias(path: Path)

  /** Quantized weights, plain parameters, and biases by module. */
  datatype Partitioned = Partitioned(
    quant: map<string, Loaded>, plain: map<Path, Parameter>, biases: map<string, Weights>)

  ghost predicate Loadable(t: Tensor) {
    match t.content
    case QuantBlocks(q) => q.Valid()
    case PlainValues(w) => RowsFit(w, t.permute) && ColumnsFit(w, t.columns)
  }

  /** No name, or the output table of a model whose head is tied. */
  predicate Skipped(t: Tensor, tied: bool) {
    t.translated == None || (tied && t.translated == Some(Path("lm_head", "weight")))
  }

  /** What one tensor adds. */
  function Route(p: Partitioned, t: Tensor, tied: bool, present: string -> bool): Result<Partitioned, LoadError>
    requires Loadable(t)
  {
    if Skipped(t, tied) then Ok(p)
    else
      var path := t.translated.value;
      if !present(path.modulePath) then Err(AbsentModule(path))
      else if path.param == BIAS then
        match t.content
        case QuantBlocks(_) => Err(QuantizedBias(path))
        case PlainValues(w) => Ok(p.(biases := p.biases[path.modulePath := PermuteBranch(w, t.permute)]))
      else
        match t.content
        case QuantBlocks(q) =>
          (match QuantBranch(q, t.permute, t.columns)
           case Err(e) => Err(BadIndex(e))
           case Ok(l) => Ok(p.(quant := p.quant[path.modulePath := l])))
        case PlainValues(w) => Ok(p.(plain := p.plain[path := PlainBranch(w, t.transform, t.permute, t.columns)]))
  }

  function RouteAll(tensors: seq<Tensor>, tied: bool, present: string -> bool): Result<Partitioned, LoadError>
    requires forall i | 0 <= i < |tensors| :: Loadable(tensors[i])
  {
    if |tensors| == 0 then Ok(Partitioned(map[], map[], map[]))
    else
      match RouteAll(tensors[..|tensors| - 1], tied, present)
      case Err(e) => Err(e)
      case Ok(p) => Route(p, tensors[|tensors| - 1], tied, present)
  }

  /** The modules whose bias has no quantized weight beside it. */
  function Unpaired(p: Partitioned): set<string> {
    set m | m in p.biases && m !in p.quant
  }

  /** The biases of `moved` have become plain parameters; no other entry has changed. */
  ghost predicate Rehomed(p: Partitioned, r: Partitioned, moved: set<string>) {
    && r.quant == p.quant
    && (forall m :: m in r.biases <==> m in p.biases && m !in moved)
    && (forall m | m in r.biases :: r.biases[m] == p.biases[m])
    && (forall path :: path in r.plain <==> path in p.plain || (path.param == "bias" && path.modulePath in moved))
    && (forall path | path in r.plain :: MovedValue(p, moved, path, r.plain[path]))
  }

  ghost predicate MovedValue(p: Partitioned, moved: set<string>, path: Path, value: Parameter) {
    if path.param == "bias" && path.modulePath in moved
    then path.modulePath in p.biases && value == Entries(p.biases[path.modulePath])
    else path in p.plain && value == p.plain[path]
  }

  lemma RehomeOne(p: Partitioned, r: Partitioned, moved: set<string>, m: string)
    requires Rehomed(p, r, moved) && m in r.biases
    ensures Rehomed(p, Partitioned(r.quant, r.plain[Path(m, BIAS) := Entries(r.biases[m])], r.biases - {m}),
                    moved + {m})
  {
    var plain := r.plain[Path(m, BIAS) := Entries(r.biases[m])];
    forall path | path in plain
      ensures MovedValue(p, moved + {m}, path, plain[path])
    {
      if path != Path(m, BIAS) {
        assert MovedValue(p, moved, path, r.plain[path]);
      }
    }
  }

  lemma OneLess(all: set<string>, moving: set<string>, m: string)
    requires moving <= all && m in moving
    ensures all - moving + {m} == all - (moving - {m})
  {
  }

  method RehomeBiases(p: Partitioned) returns (r: Partitioned)
    ensures Rehomed(p, r, set m | m in p.biases && m !in p.quant)
  {
    r := p;
    var moving := Unpaired(p);
    while moving != {}
      invariant moving <= Unpaired(p) && Rehomed(p, r, Unpaired(p) - moving)
      decreases |moving|
    {
      var m :| m in moving;
      RehomeOne(p, r, Unpaired(p) - moving, m);
      OneLess(Unpaired(p), moving, m);
      r := Partitioned(r.quant, r.plain[Path(m, BIAS) := Entries(r.biases[m])], r.biases - {m});
      moving := moving - {m};
    }
  }

  method Partition(tensors: seq<Tensor>, tied: bool, present: string -> bool)
    returns (r: Result<Partitioned, LoadError>)
    requires forall i | 0 <= i < |tensors| :: Loadable(tensors[i])
    ensures match RouteAll(tensors, tied, present)
            case Err(e) => r == Err(e)
            case Ok(p) => r.Ok? && Rehomed(p, r.value, set m | m in p.biases && m !in p.quant)
  {
    var p := Partitioned(map[], map[], map[]);
    for i := 0 to |tensors|
      invariant RouteAll(tensors[..i], tied, present) == Ok(p)
    {
      assert tensors[..i + 1][..i] == tensors[..i];
      var next := Route(p, tensors[i], tied, present);
      if next.Err? {
        ErrorStays(tensors, i + 1, tied, present);
        return Err(next.error);
      }
      p := next.value;
    }
    assert tensors[..|tensors|] == tensors;
    var moved := RehomeBiases(p);
    r := Ok(moved);
  }

  lemma {:induction false} ErrorStays(tensors: seq<Tensor>, n: nat, tied: bool, present: string -> bool)
    requires (forall i | 0 <= i < |tensors| :: Loadable(tensors[i])) && n <= |tensors|
    requires RouteAll(tensors[..n], tied, present).Err?
    ensures RouteAll(tensors, tied, present) == RouteAll(tensors[..n], tied, present)
  {
    if n < |tensors| {
      assert tensors[..|tensors| - 1][..n] == tensors[..n];
      ErrorStays(tensors[..|tensors| - 1], n, tied, present);
    } else {
      assert tensors[..n] == tensors;
    }
  }

  // ---- Nothing is lost ----

  /** A tensor with a live name, other than the output table of a tied head. */
  ghost predicate Counts(t: Tensor, tied: bool) {
    t.translated.Some? && !(tied && t.translated.value == Path("lm_head", "weight"))
  }

  /** Two tensors for one place: one bias, one quantized weight to a module, one plain parameter to a path. */
  ghost predicate SamePlace(t: Tensor, u: Tensor)
    requires t.translated.Some? && u.translated.Some?
  {
    var p, q := t.translated.value, u.translated.value;
    && p.modulePath == q.modulePath
    && if p.param == "bias" || q.param == "bias" then p.param == q.param
       else t.content.QuantBlocks? == u.content.QuantBlocks? && (t.content.PlainValues? ==> p.param == q.param)
  }

  ghost predicate DistinctPlaces(tensors: seq<Tensor>, tied: bool) {
    forall i, j | 0 <= i < j < |tensors| && Counts(tensors[i], tied) && Counts(tensors[j], tied) ::
      !SamePlace(tensors[i], tensors[j])
  }

  /** The tensor is where it belongs, permuted and wrapped as it should be. */
  ghost predicate Entered(p: Partitioned, t: Tensor)
    requires Loadable(t) && t.translated.Some?
  {
    var path := t.translated.value;
    if path.param == "bias" then
      && t.content.PlainValues? && path.modulePath in p.biases
      && p.biases[path.modulePath] == PermuteBranch(t.content.w, t.permute)
    else
      match t.content
      case QuantBlocks(q) =>
        path.modulePath in p.quant && QuantBranch(q, t.permute, t.columns) == Ok(p.quant[path.modulePath])
      case PlainValues(w) => path in p.plain && p.plain[path] == PlainBranch(w, t.transform, t.permute, t.columns)
  }

  lemma RouteEnters(p: Partitioned, t: Tensor, tied: bool, present: string -> bool)
    requires Loadable(t) && Counts(t, tied) && Route(p, t, tied, present).Ok?
    ensures Entered(Route(p, t, tied, present).value, t)
  {
  }

  lemma RouteKeeps(p: Partitioned, t: Tensor, tied: bool, present: string -> bool, u: Tensor)
    requires Loadable(t) && Loadable(u) && u.translated.Some? && Entered(p, u) && Route(p, t, tied, present).Ok?
    requires Counts(t, tied) ==> !SamePlace(t, u)
    ensures Entered(Route(p, t, tied, present).value, u)
  {
  }

  /** In a file without name clashes every tensor that counts is found at its place, in any file order. */
  lemma {:induction false} AllEntered(tensors: seq<Tensor>, tied: bool, present: string -> bool, i: nat)
    requires (forall j | 0 <= j < |tensors| :: Loadable(tensors[j])) && DistinctPlaces(tensors, tied)
    requires RouteAll(tensors, tied, present).Ok? && i < |tensors| && Counts(tensors[i], tied)
    ensures Entered(RouteAll(tensors, tied, present).value, tensors[i])
  {
    var n := |tensors| - 1;
    var before := RouteAll(tensors[..n], tied, present).value;
    if i < n {
      AllEntered(tensors[..n], tied, present, i);
      assert tensors[..n][i] == tensors[i];
      RouteKeeps(before, tensors[n], tied, present, tensors[i]);
    } else {
      RouteEnters(before, tensors[n], tied, present);
    }
  }

  // ---- Nothing is added ----

  /** One of the tensors counts and has this content and name. */
  ghost predicate Given(tensors: seq<Tensor>, tied: bool, quant: bool, path: Path) {
    exists i :: 0 <= i < |tensors| && Counts(tensors[i], tied) && tensors[i].translated == Some(path) &&
                tensors[i].content.QuantBlocks? == quant
  }

  lemma GivenMore(tensors: seq<Tensor>, tied: bool, quant: bool, path: Path)
    requires |tensors| > 0
    ensures Given(tensors[..|tensors| - 1], tied, quant, path) ==> Given(tensors, tied, quant, path)
  {
    if Given(tensors[..|tensors| - 1], tied, quant, path) {
      var i :| 0 <= i < |tensors| - 1 && Counts(tensors[..|tensors| - 1][i], tied) &&
        tensors[..|tensors| - 1][i].translated == Some(path) &&
        tensors[..|tensors| - 1][i].content.QuantBlocks? == quant;
      assert tensors[i] == tensors[..|tensors| - 1][i];
    }
  }

  ghost predicate SomeQuant(tensors: seq<Tensor>, tied: bool, m: string) {
    exists param :: param != "bias" && Given(tensors, tied, true, Path(m, param))
  }

  /** Every entry comes from a tensor of the file that counts; so a tied head leaves no output table. */
  lemma {:induction false} OnlyGiven(tensors: seq<Tensor>, tied: bool, present: string -> bool)
    requires forall i | 0 <= i < |tensors| :: Loadable(tensors[i])
    requires RouteAll(tensors, tied, present).Ok?
    ensures var p := RouteAll(tensors, tied, present).value;
            && (forall path | path in p.plain :: path.param != "bias" && Given(tensors, tied, false, path))
            && (forall m | m in p.biases :: Given(tensors, tied, false, Path(m, "bias")))
            && (forall m | m in p.quant :: SomeQuant(tensors, tied, m))
  {
    if |tensors| > 0 {
      var n := |tensors| - 1;
      OnlyGiven(tensors[..n], tied, present);
      var before, p := RouteAll(tensors[..n], tied, present).value, RouteAll(tensors, tied, present).value;
      forall path | path in p.plain
        ensures path.param != "bias" && Given(tensors, tied, false, path)
      {
        GivenMore(tensors, tied, false, path);
      }
      forall m | m in p.biases
        ensures Given(tensors, tied, false, Path(m, "bias"))
      {
        GivenMore(tensors, tied, false, Path(m, "bias"));
      }
      forall m | m in p.quant
        ensures SomeQuant(tensors, tied, m)
      {
        if m in before.quant {
          var param :| param != "bias" && Given(tensors[..n], tied, true, Path(m, param));
          GivenMore(tensors, tied, true, Path(m, param));
        } else {
          assert Given(tensors, tied, true, tensors[n].translated.value);
        }
      }
    }
  }

  // ---- When the loop raises ----

  /** What a tensor needs: its module, a bias that is plain, and a row index that is a permutation. */
  ghost predicate Routable(t: Tensor, present: string -> bool)
    requires t.translated.Some?
  {
    var path := t.translated.value;
    && present(path.modulePath)
    && if path.param == "bias" then t.content.PlainValues?
       else t.content.QuantBlocks? ==> IndexFits(t.content.q, t.permute)
  }

  ghost predicate IndexFits(q: Quantized, permute: Option<seq<int>>) {
    permute.Some? ==> Permutes(permute.value, q.Rows())
  }

  ghost predicate Raises(t: Tensor, present: string -> bool, error: LoadError)
    requires t.translated.Some?
  {
    var path := t.translated.value;
    match error
    case AbsentModule(p) => p == path && !present(path.modulePath)
    case QuantizedBias(p) => p == path && present(path.modulePath) && path.param == "bias" && t.content.QuantBlocks?
    case BadIndex(e) =>
      && present(path.modulePath) && path.param != "bias" && t.content.QuantBlocks? && t.permute.Some?
      && !IndexFits(t.content.q, t.permute)
      && (e == BadLength <==> |t.permute.value| != t.content.q.Rows())
  }

  lemma RouteIff(p: Partitioned, t: Tensor, tied: bool, present: string -> bool)
    requires Loadable(t)
    ensures Route(p, t, tied, present).Ok? <==> (Counts(t, tied) ==> Routable(t, present))
    ensures Route(p, t, tied, present).Err? ==> Counts(t, tied) && Raises(t, present, Route(p, t, tied, present).error)
  {
    if t.content.QuantBlocks? && t.permute.Some? {
      AcceptedIff(t.permute.value, t.content.q.Rows());
    }
  }

  /** The loop succeeds exactly if every tensor that counts is routable, and raises for the first that is not. */
  lemma {:induction false} RouteAllIff(tensors: seq<Tensor>, tied: bool, present: string -> bool)
    requires forall i | 0 <= i < |tensors| :: Loadable(tensors[i])
    ensures RouteAll(tensors, tied, present).Ok? <==>
              forall i | 0 <= i < |tensors| && Counts(tensors[i], tied) :: Routable(tensors[i], present)
    ensures RouteAll(tensors, tied, present).Err? ==>
              exists i | 0 <= i < |tensors| && Counts(tensors[i], tied) ::
                && Raises(tensors[i], present, RouteAll(tensors, tied, present).error)
                && forall j | 0 <= j < i && Counts(tensors[j], tied) :: Routable(tensors[j], present)
  {
    if |tensors| > 0 {
      var n := |tensors| - 1;
      RouteAllIff(tensors[..n], tied, present);
      if RouteAll(tensors[..n], tied, present).Ok? {
        RouteIff(RouteAll(tensors[..n], tied, present).value, tensors[n], tied, present);
      }
    }
  }
}
