/**
 The keys of per-expert MoE tensors: how the stacking pass scans them, the keys that it
 builds itself, and the pass with these rules.
 */
module ExpertNames {
  import opened ExpertStacking
  import opened Sequences
  import opened Wrappers

  const MARKER: string := ".mlp.experts."

  function Suffix(proj: Proj): string {
    match proj
    case Gate => ".gate_proj.weight"
    case Up => ".up_proj.weight"
    case Down => ".down_proj.weight"
  }

  predicate EndsWith(s: string, t: string) {
    |t| <= |s| && s[|s| - |t|..] == t
  }

  // ---- Expert numbers ----

  predicate IsDigit(c: char) {
    '0' <= c <= '9'
  }

  /** `isdigit`, for ASCII. */
  predicate IsDigits(s: string) {
    |s| > 0 && forall i | 0 <= i < |s| :: IsDigit(s[i])
  }

  function DigitOf(c: char): nat {
    if IsDigit(c) then c as nat - '0' as nat else 0
  }

  /** `int`. */
  function Number(s: string): nat {
    if |s| == 0 then 0 else 10 * Number(s[..|s| - 1]) + DigitOf(s[|s| - 1])
  }

  function DigitChar(d: nat): (c: char)
    requires d < 10
    ensures IsDigit(c) && DigitOf(c) == d
  {
    ('0' as nat + d) as char
  }

  /** How an f-string spells a number. */
  function Decimal(n: nat): string {
    (if n < 10 then "" else Decimal(n / 10)) + [DigitChar(n % 10)]
  }

  /** The text spells the number. */
  ghost predicate IsDecimal(s: string, n: nat) {
    IsDigits(s) && Number(s) == n
  }

  lemma {:induction false} DecimalIs(n: nat)
    ensures IsDecimal(Decimal(n), n)
  {
    if n < 10 {
      OneDigit(n);
    } else {
      DecimalIs(n / 10);
      MoreDigits(n, Decimal(n / 10), Decimal(n));
    }
  }

  lemma OneDigit(n: nat)
    requires n < 10
    ensures IsDecimal(Decimal(n), n)
  {
    AddDigit("", DigitChar(n));
  }

  lemma MoreDigits(n: nat, front: string, s: string)
    requires IsDecimal(front, n / 10) && s == front + [DigitChar(n % 10)]
    ensures IsDecimal(s, n)
  {
    AddDigit(front, DigitChar(n % 10));
  }

  lemma AddDigit(s: string, c: char)
    requires (s == "" || IsDigits(s)) && IsDigit(c)
    ensures IsDigits(s + [c]) && Number(s + [c]) == 10 * Number(s) + DigitOf(c)
  {
    assert (s + [c])[..|s|] == s;
  }

  // ---- Scanning ----

  /** Prefix, digits and projection of a per-expert key. */
  datatype Scanned = Scanned(prefix: string, digits: string, proj: Proj)

  function SuffixOf(key: string): Option<Proj> {
    if EndsWith(key, Suffix(Gate)) then Some(Gate)
    else if EndsWith(key, Suffix(Up)) then Some(Up)
    else if EndsWith(key, Suffix(Down)) then Some(Down)
    else None
  }

  /** The text between the marker, which ends at `start`, and the suffix; empty if they overlap. */
  function Between(key: string, start: nat, end: int): string {
    if start <= end <= |key| then key[start..end] else ""
  }

  /** The scan of a key whose marker ends at `start`. */
  function ScanFrom(key: string, start: nat, proj: Proj): Option<Scanned>
    requires 0 < start <= |key|
  {
    var digits := Between(key, start, |key| - |Suffix(proj)|);
    if IsDigits(digits) then Some(Scanned(key[..start - 1], digits, proj)) else None
  }

  /** Where the first marker ends. */
  function MarkerEnd(key: string): (end: Option<nat>)
    ensures end.Some? ==> 0 < end.value <= |key|
  {
    match Find(key, MARKER)
    case None => None
    case Some(at) =>
      FindAt(key, MARKER);
      Some(at + |MARKER|)
  }

  function Scan(key: string): Option<Scanned> {
    match MarkerEnd(key)
    case None => None
    case Some(start) =>
      match SuffixOf(key)
      case None => None
      case Some(proj) => ScanFrom(key, start, proj)
  }

  // ---- Building ----

  function Spelled(prefix: string, digits: string, proj: Proj): string {
    prefix + "." + digits + Suffix(proj)
  }

  /** The key that the pass pops for expert `e`. */
  function ExpertKey(prefix: string, e: nat, proj: Proj): string {
    Spelled(prefix, Decimal(e), proj)
  }

  function GateUpKey(prefix: string): string {
    prefix + ".gate_up_proj"
  }

  function DownKey(prefix: string): string {
    prefix + ".down_proj"
  }

  /** A text that the scan can find as a prefix: with a dot its first marker is at its end. */
  predicate IsPrefix(prefix: string) {
    MarkerEnd(prefix + ".") == Some(|prefix| + 1)
  }

  // ---- Scanning and building are inverse ----

  lemma {:induction false} FindAt(s: string, t: string)
    requires Find(s, t).Some?
    ensures Find(s, t).value + |t| <= |s|
    decreases |s|
  {
    if !(t <= s) {
      FindAt(s[1..], t);
    }
  }

  /** Where a text first occurs does not depend on what follows it. */
  lemma {:induction false} FindAppend(s: string, t: string, rest: string)
    requires Find(s, t).Some?
    ensures Find(s + rest, t) == Find(s, t)
    decreases |s|
  {
    FindAt(s, t);
    if !(t <= s) {
      assert (s + rest)[1..] == s[1..] + rest;
      assert (s + rest)[..|t|] == s[..|t|];
      FindAppend(s[1..], t, rest);
    }
  }

  lemma {:induction false} FindFound(s: string, t: string)
    requires Find(s, t).Some?
    ensures Find(s, t).value + |t| <= |s| && s[Find(s, t).value..Find(s, t).value + |t|] == t
    decreases |s|
  {
    if !(t <= s) {
      var i := Find(s[1..], t).value;
      FindFound(s[1..], t);
      assert s[1..][i..i + |t|] == s[i + 1..i + 1 + |t|];
    }
  }

  lemma {:induction false} FindCut(s: string, t: string, n: nat)
    requires Find(s, t).Some? && Find(s, t).value + |t| <= n <= |s|
    ensures Find(s[..n], t) == Find(s, t)
    decreases |s|
  {
    if t <= s {
      assert t <= s[..n];
    } else {
      FindCut(s[1..], t, n - 1);
      assert s[..n][1..] == s[1..][..n - 1];
      assert s[..n][..|t|] == s[..|t|];
    }
  }

  lemma MarkerAppend(s: string, rest: string)
    requires MarkerEnd(s).Some?
    ensures MarkerEnd(s + rest) == MarkerEnd(s)
  {
    FindAppend(s, MARKER, rest);
  }

  lemma MarkerCut(s: string)
    requires MarkerEnd(s).Some?
    ensures MarkerEnd(s[..MarkerEnd(s).value]) == MarkerEnd(s) && s[MarkerEnd(s).value - 1] == '.'
  {
    var i := Find(s, MARKER).value;
    FindFound(s, MARKER);
    FindCut(s, MARKER, i + |MARKER|);
    assert s[i..i + |MARKER|][|MARKER| - 1] == s[i + |MARKER| - 1];
  }

  lemma SplitKey(key: string, start: nat, end: nat)
    requires 0 < start <= end <= |key| && key[start - 1] == '.'
    ensures key == key[..start - 1] + "." + key[start..end] + key[end..] && key[..start] == key[..start - 1] + "."
  {
  }

  lemma ScanIs(key: string)
    requires Scan(key).Some?
    ensures var name := Scan(key).value;
            && IsPrefix(name.prefix) && key == Spelled(name.prefix, name.digits, name.proj)
            && |name.digits| > 0 && forall i | 0 <= i < |name.digits| :: '0' <= name.digits[i] <= '9'
  {
    var start, proj := MarkerEnd(key).value, SuffixOf(key).value;
    MarkerCut(key);
    SplitKey(key, start, |key| - |Suffix(proj)|);
  }

  lemma JoinedParts(prefix: string, digits: string, suffix: string)
    ensures var key := prefix + "." + digits + suffix;
            && Between(key, |prefix| + 1, |key| - |suffix|) == digits
            && key[..|prefix|] == prefix && key == (prefix + ".") + (digits + suffix)
  {
  }

  lemma ScanSpelled(prefix: string, digits: string, proj: Proj)
    requires IsPrefix(prefix) && |digits| > 0 && forall i | 0 <= i < |digits| :: '0' <= digits[i] <= '9'
    ensures Scan(Spelled(prefix, digits, proj)) == Some(Scanned(prefix, digits, proj))
  {
    JoinedParts(prefix, digits, Suffix(proj));
    MarkerAppend(prefix + ".", digits + Suffix(proj));
    SuffixOfSpelled(prefix + "." + digits, proj);
  }

  lemma SuffixOfSpelled(front: string, proj: Proj)
    ensures SuffixOf(front + Suffix(proj)) == Some(proj)
  {
    var key := front + Suffix(proj);
    assert EndsWith(key, Suffix(proj));
    match proj
    case Gate =>
    case Up =>
      OtherSuffix(key, Gate);
    case Down =>
      OtherSuffix(key, Gate);
      OtherSuffix(key, Up);
  }

  /** The character before `_proj.weight` tells the projections apart. */
  lemma OtherSuffix(key: string, proj: Proj)
    requires |key| >= 13 && key[|key| - 13] != Suffix(proj)[|Suffix(proj)| - 13]
    ensures !EndsWith(key, Suffix(proj))
  {
    if |Suffix(proj)| <= |key| {
      assert key[|key| - |Suffix(proj)|..][|Suffix(proj)| - 13] == key[|key| - 13];
    }
  }

  // ---- Every key ----

  /** The scan of a per-expert key, or which stacked tensor the pass puts under a key. */
  function NameOf(key: string): Name {
    if Scan(key).Some? then Expert(ExpertOf(Scan(key).value))
    else if EndsWith(key, ".gate_up_proj") then GateUp(key[..|key| - |".gate_up_proj"|])
    else if EndsWith(key, ".down_proj") then DownAll(key[..|key| - |".down_proj"|])
    else Other
  }

  function ExpertOf(s: Scanned): ExpertName {
    ExpertName(s.prefix, Number(s.digits), s.proj, s.digits == Decimal(Number(s.digits)))
  }

  function KeyNaming(): Naming<string> {
    Naming((key: string) => NameOf(key), (prefix: string) => IsPrefix(prefix),
           (prefix: string, e: nat, proj: Proj) => ExpertKey(prefix, e, proj),
           (prefix: string) => GateUpKey(prefix), (prefix: string) => DownKey(prefix))
  }

  lemma ScannedEnd(key: string)
    requires Scan(key).Some?
    ensures key != "" && key[|key| - 1] == 't'
  {
    ScanIs(key);
  }

  lemma NotScanned(key: string)
    requires key != "" && key[|key| - 1] == 'j'
    ensures Scan(key) == None
  {
    if Scan(key).Some? {
      ScannedEnd(key);
    }
  }

  lemma GateUpName(prefix: string)
    ensures NameOf(GateUpKey(prefix)) == GateUp(prefix)
  {
    var key := GateUpKey(prefix);
    assert key[|key| - 1] == 'j';
    NotScanned(key);
    assert key[|prefix|..] == ".gate_up_proj" && key[..|prefix|] == prefix;
  }

  lemma DownName(prefix: string)
    ensures NameOf(DownKey(prefix)) == DownAll(prefix)
  {
    var key := DownKey(prefix);
    assert key[|key| - 1] == 'j';
    NotScanned(key);
    assert key[|prefix|..] == ".down_proj" && key[..|prefix|] == prefix;
    assert key[|key| - 6] == 'n';
    assert |key| >= 13 ==> key[|key| - 13..][7] == key[|key| - 6];
  }

  lemma StackedNameIs(key: string)
    ensures NameOf(key).GateUp? ==> key == GateUpKey(NameOf(key).prefix)
    ensures NameOf(key).DownAll? ==> key == DownKey(NameOf(key).prefix)
  {
    match NameOf(key)
    case GateUp(prefix) => assert key == prefix + key[|prefix|..];
    case DownAll(prefix) => assert key == prefix + key[|prefix|..];
    case Expert(_) =>
    case Other =>
  }

  lemma ExpertNameIs(key: string)
    requires NameOf(key).Expert?
    ensures var name := NameOf(key).name;
            IsPrefix(name.prefix) && (name.canonical <==> key == ExpertKey(name.prefix, name.index, name.proj))
  {
    var s := Scan(key).value;
    ScanIs(key);
    SameDigits(s.prefix, s.digits, Decimal(Number(s.digits)), Suffix(s.proj));
  }

  lemma SameDigits(prefix: string, a: string, b: string, suffix: string)
    ensures prefix + "." + a + suffix == prefix + "." + b + suffix <==> a == b
  {
    JoinedParts(prefix, a, suffix);
    JoinedParts(prefix, b, suffix);
  }

  lemma ExpertKeyName(prefix: string, e: nat, proj: Proj)
    requires IsPrefix(prefix)
    ensures NameOf(ExpertKey(prefix, e, proj)) == Expert(ExpertName(prefix, e, proj, true))
  {
    DecimalIs(e);
    ScanSpelled(prefix, Decimal(e), proj);
  }

  /** The scan and the f-strings of the pass fit together. */
  lemma NamingSound()
    ensures Sound(KeyNaming())
  {
    var names := KeyNaming();
    forall key: string
      ensures ReadsWell(names, key)
    {
      StackedNameIs(key);
      if NameOf(key).Expert? {
        ExpertNameIs(key);
      }
    }
    forall prefix: string
      ensures BuildsWell(names, prefix)
    {
      GateUpName(prefix);
      DownName(prefix);
      forall e: nat, proj | IsPrefix(prefix)
        ensures BuildsExpert(names, prefix, e, proj)
      {
        ExpertKeyName(prefix, e, proj);
      }
    }
  }

  // ---- The spelling of the keys ----

  /** The keys that the pass pops, letter by letter. */
  lemma KeySpelling(layer: string, e: nat)
    ensures ExpertKey(layer + ".mlp.experts", e, Gate) ==
              layer + ".mlp.experts" + "." + Decimal(e) + ".gate_proj.weight"
    ensures ExpertKey(layer + ".mlp.experts", e, Up) == layer + ".mlp.experts" + "." + Decimal(e) + ".up_proj.weight"
    ensures ExpertKey(layer + ".mlp.experts", e, Down) ==
              layer + ".mlp.experts" + "." + Decimal(e) + ".down_proj.weight"
  {
  }

  /** The keys that the pass adds, letter by letter. */
  lemma StackedSpelling(layer: string)
    ensures GateUpKey(layer + ".mlp.experts") == layer + ".mlp.experts.gate_up_proj"
    ensures DownKey(layer + ".mlp.experts") == layer + ".mlp.experts.down_proj"
  {
    assert layer + ".mlp.experts" + ".gate_up_proj" == layer + ".mlp.experts.gate_up_proj";
    assert layer + ".mlp.experts" + ".down_proj" == layer + ".mlp.experts.down_proj";
  }

  /** The scan finds a prefix where the text `.mlp.experts.` first occurs. */
  lemma PrefixSpelling(layer: string)
    requires Find(layer + ".mlp.experts" + ".", ".mlp.experts.") == Some(|layer|)
    ensures IsPrefix(layer + ".mlp.experts")
  {
  }

  /** A number is written without leading zeros, and a digit as itself. */
  lemma {:induction false} NoLeadingZero(n: nat)
    ensures n > 0 ==> Decimal(n)[0] != '0'
    ensures n < 10 ==> Decimal(n) == [['0', '1', '2', '3', '4', '5', '6', '7', '8', '9'][n]]
  {
    if n >= 10 {
      NoLeadingZero(n / 10);
    }
  }

  // ---- The pass ----

  /** The pass over a checkpoint. */
  method StackWeights(w: map<string, Tensor>) returns (r: Result<map<string, Tensor>, StackError>)
    ensures r.Ok? <==> AllStackable(KeyNaming(), w, Prefixes(KeyNaming(), w))
    ensures r.Ok? ==> AllEntries(KeyNaming(), w, Prefixes(KeyNaming(), w), r.value)
    ensures r.Err? ==> exists prefix | prefix in Prefixes(KeyNaming(), w) :: Fails(KeyNaming(), w, prefix, r.error)
    ensures Prefixes(KeyNaming(), w) == {} ==> r == Ok(w)
  {
    NamingSound();
    r := StackExperts(KeyNaming(), w);
  }

  /** One expert whose number is spelled in some other way than the pass spells it. */
  function Padded(prefix: string, digits: string, t: Tensor): map<string, Tensor> {
    map[Spelled(prefix, digits, Gate) := t, Spelled(prefix, digits, Up) := t, Spelled(prefix, digits, Down) := t]
  }

  /** `00` is such a spelling of zero. */
  lemma TwoZeros()
    ensures IsDigits("00") && Number("00") == 0 && "00" != Decimal(0)
  {
    AddDigit("", '0');
    AddDigit("0", '0');
    assert "" + ['0'] == "0" && "0" + ['0'] == "00";
    assert |Decimal(0)| == 1;
  }

  lemma PaddedName(prefix: string, digits: string, proj: Proj)
    requires IsPrefix(prefix) && IsDigits(digits) && Number(digits) == 0 && digits != Decimal(0)
    ensures NameOf(Spelled(prefix, digits, proj)) == Expert(ExpertName(prefix, 0, proj, false))
  {
    ScanSpelled(prefix, digits, proj);
  }

  /** For any names: three keys of expert zero that the pass would not build pass the checks and lack the first pop. */
  lemma OtherZeros(names: Naming<string>, w: map<string, Tensor>, prefix: string,
                   gate: string, up: string, down: string)
    requires Sound(names) && names.isPrefix(prefix) && w.Keys == {gate, up, down}
    requires names.nameOf(gate) == Expert(ExpertName(prefix, 0, Gate, false))
    requires names.nameOf(up) == Expert(ExpertName(prefix, 0, Up, false))
    requires names.nameOf(down) == Expert(ExpertName(prefix, 0, Down, false))
    ensures prefix in Prefixes(names, w) && Check(names, w, prefix) == None && !Stackable(names, w, prefix)
  {
    OnlyZero(names, w, prefix, Gate, gate);
    OnlyZero(names, w, prefix, Up, up);
    OnlyZero(names, w, prefix, Down, down);
    assert RangeSet(1) == {0};
    assert gate in w;
    BuiltName(names, prefix, 0, Gate);
  }

  lemma OnlyZero(names: Naming<string>, w: map<string, Tensor>, prefix: string, proj: Proj, key: string)
    requires key in w && names.nameOf(key) == Expert(ExpertName(prefix, 0, proj, false))
    requires forall other | other in w && UnderProj(names, other, prefix, proj) :: other == key
    ensures Indexes(names, w, prefix, proj) == {0}
  {
    assert UnderProj(names, key, prefix, proj) && IndexOf(names, key) == 0;
  }

  /** A checkpoint with such an expert passes the checks, and its first pop raises. */
  lemma PaddedRaises(prefix: string, digits: string, t: Tensor)
    requires IsPrefix(prefix) && IsDigits(digits) && Number(digits) == 0 && digits != Decimal(0)
    ensures var w := Padded(prefix, digits, t);
            && prefix in Prefixes(KeyNaming(), w) && Check(KeyNaming(), w, prefix) == None
            && !Stackable(KeyNaming(), w, prefix)
  {
    NamingSound();
    PaddedName(prefix, digits, Gate);
    PaddedName(prefix, digits, Up);
    PaddedName(prefix, digits, Down);
    OtherZeros(KeyNaming(), Padded(prefix, digits, t), prefix,
               Spelled(prefix, digits, Gate), Spelled(prefix, digits, Up), Spelled(prefix, digits, Down));
  }
}
