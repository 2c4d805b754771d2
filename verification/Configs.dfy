/** The effective configuration of a run, resolved from six layers, with the provenance of every
    tunable. Reading files, environment strings and command lines is not part of this model:
    each layer comes as the values it gives. */
module Configs {
  import opened Options
  import Chunking
  import Orchestration
  import RunSafety

  datatype Path = Path(section: string, field: string)

  /** What a key may be given: numbers are finite, and lists and the like are no value of any tunable. */
  datatype Value = Null | Num(number: real) | Flag(flag: bool) | Text(text: string) | Other

  datatype Tunable =
    | MaxIterations | MaxQueries | MaxDocuments | MaxSources | MaxLlmCalls | MaxMinutes
    | NewEvidence | DuplicateRate | ReviewGates | ResultsPerQuery | ChunkSize | ChunkOverlap {

    function Name(): string {
      match this
      case MaxIterations => "max_iterations"
      case MaxQueries => "max_queries_per_iteration"
      case MaxDocuments => "max_documents"
      case MaxSources => "max_sources_total"
      case MaxLlmCalls => "max_llm_calls"
      case MaxMinutes => "max_wall_clock_minutes"
      case NewEvidence => "new_evidence_threshold"
      case DuplicateRate => "duplicate_rate_converged"
      case ReviewGates => "review_gates_enabled"
      case ResultsPerQuery => "results_per_query"
      case ChunkSize => "max_chunk_chars"
      case ChunkOverlap => "chunk_overlap_chars"
    }

    function Where(): Path {
      Path(if ResultsPerQuery? then "search" else if ChunkSize? || ChunkOverlap? then "resources" else "research", Name())
    }
  }

  const TUNABLES: seq<Tunable> :=
    [MaxIterations, MaxQueries, MaxDocuments, MaxSources, MaxLlmCalls, MaxMinutes,
     NewEvidence, DuplicateRate, ReviewGates, ResultsPerQuery, ChunkSize, ChunkOverlap]

  /** Tunables that are recorded but are no fields of the configuration. */
  const EXTRAS: seq<string> := ["ask_user_enabled", "ask_user_blocking", "max_user_questions_per_run"]

  function Extra(name: string): Path { Path("tunables", name) }

  datatype Origin = Origin(value: Value, layer: nat)

  datatype Resolution = Resolution(eff: map<Path, Value>, provenance: map<Path, Origin>)

  // ------------------------------------------------------------------ setting values

  /** Sets a field and records where its value comes from. */
  function Set(r: Resolution, path: Path, value: Value, layer: nat): Resolution {
    Resolution(r.eff[path := value], r.provenance[path := Origin(value, layer)])
  }

  function Record(r: Resolution, path: Path, value: Value, layer: nat): Resolution {
    r.(provenance := r.provenance[path := Origin(value, layer)])
  }

  /** A layer of plain values: the first n tunables as far as it gives them. */
  function Layered(r: Resolution, given: map<Path, Value>, layer: nat, n: nat): Resolution
    requires n <= |TUNABLES|
  {
    if n == 0 then r
    else
      var before, path := Layered(r, given, layer, n - 1), TUNABLES[n - 1].Where();
      if path in given then Set(before, path, given[path], layer) else before
  }

  /** The extra tunables as far as a layer gives them. */
  function Recorded(r: Resolution, given: map<string, Value>, layer: nat, n: nat): Resolution
    requires n <= |EXTRAS|
  {
    if n == 0 then r
    else
      var before, name := Recorded(r, given, layer, n - 1), EXTRAS[n - 1];
      if name in given then Record(before, Extra(name), given[name], layer) else before
  }

  // ------------------------------------------------------------------ overrides

  /** A dictionary entry: a value, or a section of values. */
  datatype Node = Leaf(value: Value) | Group(entries: seq<(string, Value)>)

  /** Dictionaries keep the place of a key that is set again. */
  function Put(flat: seq<(string, Value)>, key: string, value: Value): seq<(string, Value)> {
    if flat == [] then [(key, value)]
    else if flat[0].0 == key then [(key, value)] + flat[1..]
    else [flat[0]] + Put(flat[1..], key, value)
  }

  function PutGroup(flat: seq<(string, Value)>, prefix: string, entries: seq<(string, Value)>): seq<(string, Value)> {
    if entries == [] then flat
    else
      var n := |entries| - 1;
      Put(PutGroup(flat, prefix, entries[..n]), prefix + "." + entries[n].0, entries[n].1)
  }

  function Flattened(overrides: seq<(string, Node)>): seq<(string, Value)> {
    if overrides == [] then []
    else
      var before, entry := Flattened(overrides[..|overrides| - 1]), overrides[|overrides| - 1];
      match entry.1
      case Leaf(v) => Put(before, entry.0, v)
      case Group(entries) => PutGroup(before, entry.0, entries)
  }

  function Named(key: string, i: nat := 0): Option<Tunable>
    requires i <= |TUNABLES|
    decreases |TUNABLES| - i
  {
    if i == |TUNABLES| then None else if TUNABLES[i].Name() == key then Some(TUNABLES[i]) else Named(key, i + 1)
  }

  function FirstDot(key: string, i: nat): (k: nat)
    requires i <= |key|
    ensures i <= k <= |key|
    decreases |key| - i
  {
    if i == |key| || key[i] == '.' then i else FirstDot(key, i + 1)
  }

  /** What an override key stands for: a field of the configuration, or an extra tunable. */
  datatype Target = Field(path: Path) | Noted(path: Path) | Unknown

  function Resolved(key: string, fields: set<Path>): Target {
    if Named(key).Some? then Field(Named(key).value.Where())
    else if key in EXTRAS then Noted(Extra(key))
    else
      var k := FirstDot(key, 0);
      if k == |key| then Unknown
      else
        var section, field := key[..k], key[k + 1..];
        if section == "tunables" && Named(field).Some? then Field(Named(field).value.Where())
        else if section == "tunables" && field in EXTRAS then Noted(Extra(field))
        else if Path(section, field) in fields then Field(Path(section, field))
        else Unknown
  }

  datatype Result = Settled(r: Resolution) | UnknownKey(key: string) | Rejected

  function Overridden(r: Resolution, flat: seq<(string, Value)>, layer: nat): Result {
    if flat == [] then Settled(r)
    else
      var n := |flat| - 1;
      match Overridden(r, flat[..n], layer)
      case Settled(before) =>
        (match Resolved(flat[n].0, r.eff.Keys)
         case Field(path) => Settled(Set(before, path, flat[n].1, layer))
         case Noted(path) => Settled(Record(before, path, flat[n].1, layer))
         case Unknown => UnknownKey(flat[n].0))
      case error => error
  }

  // ------------------------------------------------------------------ bounds

  /** How texts are read as whole numbers, numbers and flags when the configuration is copied for its
      checks, and as the count of user questions: arbitrary. */
  datatype Reading = Reading(
    wholes: string -> Option<int>,
    numbers: string -> Option<real>,
    flags: string -> Option<bool>,
    counts: string -> Option<int>)

  function AsNumber(flag: bool): real { if flag then 1.0 else 0.0 }

  function ReadWhole(v: Value, reading: Reading): Option<Value> {
    match v
    case Null => Some(Null)
    case Num(x) => if x.Floor as real == x then Some(v) else None
    case Flag(b) => Some(Num(AsNumber(b)))
    case Text(s) => if reading.wholes(s).Some? then Some(Num(reading.wholes(s).value as real)) else None
    case Other => None
  }

  function ReadNumber(v: Value, reading: Reading): Option<Value> {
    match v
    case Null => Some(Null)
    case Num(_) => Some(v)
    case Flag(b) => Some(Num(AsNumber(b)))
    case Text(s) => if reading.numbers(s).Some? then Some(Num(reading.numbers(s).value)) else None
    case Other => None
  }

  function ReadFlag(v: Value, reading: Reading): Option<Value> {
    match v
    case Null => Some(Null)
    case Num(x) => if x == 0.0 || x == 1.0 then Some(Flag(x == 1.0)) else None
    case Flag(_) => Some(v)
    case Text(s) => if reading.flags(s).Some? then Some(Flag(reading.flags(s).value)) else None
    case Other => None
  }

  /** The value that a tunable has in the copy, if its effective value can be read as one. */
  function Read(t: Tunable, v: Value, reading: Reading): Option<Value> {
    match t
    case NewEvidence | DuplicateRate => ReadNumber(v, reading)
    case ReviewGates => ReadFlag(v, reading)
    case _ => ReadWhole(v, reading)
  }

  /** Tunables with bounds of their own. */
  function Range(t: Tunable): Option<(real, real)> {
    match t
    case MaxIterations => Some((1.0, 20.0))
    case MaxQueries => Some((1.0, 50.0))
    case NewEvidence | DuplicateRate => Some((0.0, 1.0))
    case _ => None
  }

  predicate Between(v: Value, low: real, high: real) {
    v.Num? ==> low <= v.number <= high
  }

  predicate Below(a: Value, b: Value, strictly: bool) {
    a.Num? && b.Num? ==> if strictly then a.number < b.number else a.number <= b.number
  }

  predicate ReadWithin(t: Tunable, v: Value, reading: Reading) {
    var copy := Read(t, v, reading);
    copy.Some? && (Range(t).Some? ==> Between(copy.value, Range(t).value.0, Range(t).value.1))
  }

  predicate ReadBelow(t: Tunable, v: Value, u: Tunable, w: Value, strictly: bool, reading: Reading) {
    var a, b := Read(t, v, reading), Read(u, w, reading);
    a.Some? && b.Some? ==> Below(a.value, b.value, strictly)
  }

  /** The copy can be made and is within bounds; a null value is not checked. */
  predicate WithinBounds(eff: map<Path, Value>, reading: Reading)
    requires forall t: Tunable :: t.Where() in eff
  {
    && (forall t: Tunable :: ReadWithin(t, eff[t.Where()], reading))
    && ReadBelow(ChunkOverlap, eff[ChunkOverlap.Where()], ChunkSize, eff[ChunkSize.Where()], true, reading)
    && ReadBelow(MaxDocuments, eff[MaxDocuments.Where()], MaxSources, eff[MaxSources.Where()], false, reading)
  }

  /** The count of user questions can be read as a number; fractions are cut off. */
  predicate Countable(v: Value, reading: Reading) {
    v.Num? || v.Flag? || (v.Text? && reading.counts(v.text).Some?)
  }

  predicate QuestionsCounted(r: Resolution, reading: Reading) {
    var path := Extra(EXTRAS[2]);
    path in r.provenance ==> Countable(r.provenance[path].value, reading)
  }

  // ------------------------------------------------------------------ the six layers

  /** What each layer gives; the base configuration also holds all fields that are no tunables. */
  datatype Layers = Layers(
    base: map<Path, Value>,
    defaults: map<Path, Value>, extraDefaults: map<string, Value>,
    engine: map<Path, Value>, extraEngine: map<string, Value>,
    user: map<Path, Value>,
    environment: map<Path, Value>,
    workspace: seq<(string, Node)>,
    commandLine: seq<(string, Node)>)

  /** The configuration has all its fields, and the defaults cover every tunable. */
  predicate Complete(l: Layers) {
    && (forall t: Tunable :: t.Where() in l.base && t.Where() in l.defaults)
    && (forall k :: 0 <= k < |EXTRAS| ==> EXTRAS[k] in l.extraDefaults && Extra(EXTRAS[k]) !in l.base)
  }

  function Plain(l: Layers): Resolution {
    var r1 := Recorded(Layered(Resolution(l.base, map[]), l.defaults, 1, |TUNABLES|), l.extraDefaults, 1, |EXTRAS|);
    var r2 := Recorded(Layered(r1, l.engine, 2, |TUNABLES|), l.extraEngine, 2, |EXTRAS|);
    var r3 := Layered(r2, l.user, 3, |TUNABLES|);
    Layered(r3, l.environment, 4, |TUNABLES|)
  }

  /** Before the bounds are checked. */
  function Merged(l: Layers): Result {
    match Overridden(Plain(l), Flattened(l.workspace), 5)
    case Settled(r5) => Overridden(r5, Flattened(l.commandLine), 6)
    case error => error
  }

  // ------------------------------------------------------------------ what every layer keeps

  /** The configuration's fields stay, every tunable among them and no extra, and provenance tells
      the effective values. */
  predicate Faithful(r: Resolution, fields: set<Path>) {
    && r.eff.Keys == fields
    && (forall t: Tunable :: t.Where() in fields)
    && (forall k :: 0 <= k < |EXTRAS| ==> Extra(EXTRAS[k]) !in fields)
    && (forall p :: p in r.provenance && p in r.eff ==> r.provenance[p].value == r.eff[p])
  }

  lemma {:induction false} LayeredFaithful(r: Resolution, fields: set<Path>, given: map<Path, Value>, layer: nat, n: nat)
    requires Faithful(r, fields) && n <= |TUNABLES|
    ensures Faithful(Layered(r, given, layer, n), fields)
  {
    if n > 0 {
      LayeredFaithful(r, fields, given, layer, n - 1);
      assert TUNABLES[n - 1].Where() in fields;
      hide Tunable.Where;
    }
  }

  lemma {:induction false} RecordedFaithful(r: Resolution, fields: set<Path>, given: map<string, Value>, layer: nat, n: nat)
    requires Faithful(r, fields) && n <= |EXTRAS|
    ensures Faithful(Recorded(r, given, layer, n), fields)
    ensures Recorded(r, given, layer, n).eff == r.eff
  {
    hide Tunable.Where;
    if n > 0 {
      RecordedFaithful(r, fields, given, layer, n - 1);
    }
  }

  lemma ResolvedTarget(key: string, fields: set<Path>)
    requires forall t: Tunable :: t.Where() in fields
    ensures match Resolved(key, fields)
      case Field(path) => path in fields
      case Noted(path) => exists k :: 0 <= k < |EXTRAS| && path == Extra(EXTRAS[k])
      case Unknown => true
  {
    hide Tunable.Where;
    hide Named;
  }

  lemma {:induction false} OverriddenFaithful(r: Resolution, fields: set<Path>, flat: seq<(string, Value)>, layer: nat)
    requires Faithful(r, fields)
    ensures Overridden(r, flat, layer).Settled? ==> Faithful(Overridden(r, flat, layer).r, fields)
  {
    hide Tunable.Where;
    hide Resolved;
    if flat != [] {
      var n := |flat| - 1;
      OverriddenFaithful(r, fields, flat[..n], layer);
      ResolvedTarget(flat[n].0, fields);
    }
  }

  lemma PlainFaithful(l: Layers)
    requires Complete(l)
    ensures Faithful(Plain(l), l.base.Keys)
  {
    hide Tunable.Where;
    var fields := l.base.Keys;
    var r0 := Resolution(l.base, map[]);
    var r1 := Layered(r0, l.defaults, 1, |TUNABLES|);
    LayeredFaithful(r0, fields, l.defaults, 1, |TUNABLES|);
    RecordedFaithful(r1, fields, l.extraDefaults, 1, |EXTRAS|);
    var r1' := Recorded(r1, l.extraDefaults, 1, |EXTRAS|);
    LayeredFaithful(r1', fields, l.engine, 2, |TUNABLES|);
    var r2 := Layered(r1', l.engine, 2, |TUNABLES|);
    RecordedFaithful(r2, fields, l.extraEngine, 2, |EXTRAS|);
    var r2' := Recorded(r2, l.extraEngine, 2, |EXTRAS|);
    LayeredFaithful(r2', fields, l.user, 3, |TUNABLES|);
    LayeredFaithful(Layered(r2', l.user, 3, |TUNABLES|), fields, l.environment, 4, |TUNABLES|);
    hide Faithful;
  }

  /** Provenance tells the truth: every value it records for a field is the field's effective value. */
  lemma ProvenanceIsEffective(l: Layers)
    requires Complete(l) && Merged(l).Settled?
    ensures Faithful(Merged(l).r, l.base.Keys)
  {
    PlainFaithful(l);
    OverriddenFaithful(Plain(l), l.base.Keys, Flattened(l.workspace), 5);
    var r5 := Overridden(Plain(l), Flattened(l.workspace), 5);
    if r5.Settled? {
      OverriddenFaithful(r5.r, l.base.Keys, Flattened(l.commandLine), 6);
    }
    hide Plain;
    hide Overridden;
    hide Faithful;
  }

  // ------------------------------------------------------------------ the highest layer wins

  /** The last of a dictionary's entries that stands for the field. */
  function LastSetting(flat: seq<(string, Value)>, path: Path, fields: set<Path>): Option<Value> {
    if flat == [] then None
    else
      var n := |flat| - 1;
      if Resolved(flat[n].0, fields) == Field(path) then Some(flat[n].1) else LastSetting(flat[..n], path, fields)
  }

  /** A field's value and where it comes from. */
  predicate Comes(r: Resolution, path: Path, origin: Origin) {
    path in r.eff && path in r.provenance && r.eff[path] == origin.value && r.provenance[path] == origin
  }

  /** The two resolutions say the same about a field. */
  predicate Alike(r: Resolution, r1: Resolution, path: Path) {
    && (path in r1.eff <==> path in r.eff) && (path in r.eff ==> r1.eff[path] == r.eff[path])
    && (path in r1.provenance <==> path in r.provenance) && (path in r.provenance ==> r1.provenance[path] == r.provenance[path])
  }

  predicate IsTunable(path: Path, n: nat)
    requires n <= |TUNABLES|
  {
    exists k :: 0 <= k < n && TUNABLES[k].Where() == path
  }

  lemma {:induction false} LayeredAt(r: Resolution, given: map<Path, Value>, layer: nat, n: nat, path: Path)
    requires n <= |TUNABLES|
    ensures var r1 := Layered(r, given, layer, n);
      if IsTunable(path, n) && path in given then Comes(r1, path, Origin(given[path], layer))
      else Alike(r, r1, path)
  {
    hide Tunable.Where;
    if n > 0 {
      LayeredAt(r, given, layer, n - 1, path);
    }
  }

  lemma {:induction false} RecordedAt(r: Resolution, given: map<string, Value>, layer: nat, n: nat, path: Path, origin: Origin)
    requires n <= |EXTRAS| && path.section != "tunables" && Comes(r, path, origin)
    ensures Comes(Recorded(r, given, layer, n), path, origin)
  {
    if n > 0 {
      RecordedAt(r, given, layer, n - 1, path, origin);
    }
  }

  lemma {:induction false} OverriddenAt(r: Resolution, flat: seq<(string, Value)>, layer: nat, path: Path, origin: Origin)
    requires path.section != "tunables" && Comes(r, path, origin) && forall t: Tunable :: t.Where() in r.eff
    requires Overridden(r, flat, layer).Settled?
    ensures var last := LastSetting(flat, path, r.eff.Keys);
      Comes(Overridden(r, flat, layer).r, path, if last.Some? then Origin(last.value, layer) else origin)
  {
    hide Tunable.Where;
    if flat != [] {
      var n := |flat| - 1;
      OverriddenAt(r, flat[..n], layer, path, origin);
      ResolvedTarget(flat[n].0, r.eff.Keys);
      hide Resolved;
    }
  }

  /** The highest layer that sets a tunable: value and layer. */
  function Chosen(l: Layers, path: Path): Origin
    requires path in l.defaults
  {
    var sixth := LastSetting(Flattened(l.commandLine), path, l.base.Keys);
    var fifth := LastSetting(Flattened(l.workspace), path, l.base.Keys);
    if sixth.Some? then Origin(sixth.value, 6)
    else if fifth.Some? then Origin(fifth.value, 5)
    else if path in l.environment then Origin(l.environment[path], 4)
    else if path in l.user then Origin(l.user[path], 3)
    else if path in l.engine then Origin(l.engine[path], 2)
    else Origin(l.defaults[path], 1)
  }

  function PlainChoice(l: Layers, path: Path): Origin
    requires path in l.defaults
  {
    if path in l.environment then Origin(l.environment[path], 4)
    else if path in l.user then Origin(l.user[path], 3)
    else if path in l.engine then Origin(l.engine[path], 2)
    else Origin(l.defaults[path], 1)
  }

  lemma InTable(t: Tunable)
    ensures IsTunable(t.Where(), |TUNABLES|) && t.Where().section != "tunables"
  {
    var k := match t
      case MaxIterations => 0 case MaxQueries => 1 case MaxDocuments => 2 case MaxSources => 3
      case MaxLlmCalls => 4 case MaxMinutes => 5 case NewEvidence => 6 case DuplicateRate => 7
      case ReviewGates => 8 case ResultsPerQuery => 9 case ChunkSize => 10 case ChunkOverlap => 11;
    assert TUNABLES[k] == t;
    hide Tunable.Name;
  }

  lemma PlainAt(l: Layers, t: Tunable)
    requires Complete(l)
    ensures Comes(Plain(l), t.Where(), PlainChoice(l, t.Where()))
  {
    var path := t.Where();
    InTable(t);
    hide Tunable.Where;
    hide IsTunable;
    var r0 := Resolution(l.base, map[]);
    LayeredAt(r0, l.defaults, 1, |TUNABLES|, path);
    var r1 := Layered(r0, l.defaults, 1, |TUNABLES|);
    var o1 := Origin(l.defaults[path], 1);
    RecordedAt(r1, l.extraDefaults, 1, |EXTRAS|, path, o1);
    var r1' := Recorded(r1, l.extraDefaults, 1, |EXTRAS|);
    LayeredAt(r1', l.engine, 2, |TUNABLES|, path);
    var r2 := Layered(r1', l.engine, 2, |TUNABLES|);
    var o2 := if path in l.engine then Origin(l.engine[path], 2) else o1;
    RecordedAt(r2, l.extraEngine, 2, |EXTRAS|, path, o2);
    var r2' := Recorded(r2, l.extraEngine, 2, |EXTRAS|);
    LayeredAt(r2', l.user, 3, |TUNABLES|, path);
    LayeredAt(Layered(r2', l.user, 3, |TUNABLES|), l.environment, 4, |TUNABLES|, path);
    hide Layered;
    hide Recorded;
  }

  /** Each tunable ends up with the value of the highest layer that sets it, and with that layer as
      its provenance. */
  lemma HighestLayerWins(l: Layers, t: Tunable)
    requires Complete(l) && Merged(l).Settled?
    ensures Comes(Merged(l).r, t.Where(), Chosen(l, t.Where()))
  {
    var path, fields := t.Where(), l.base.Keys;
    PlainAt(l, t);
    PlainFaithful(l);
    InTable(t);
    var r4 := Plain(l);
    OverriddenAt(r4, Flattened(l.workspace), 5, path, PlainChoice(l, path));
    OverriddenFaithful(r4, fields, Flattened(l.workspace), 5);
    var r5 := Overridden(r4, Flattened(l.workspace), 5).r;
    var fifth := LastSetting(Flattened(l.workspace), path, fields);
    OverriddenAt(r5, Flattened(l.commandLine), 6, path, if fifth.Some? then Origin(fifth.value, 5) else PlainChoice(l, path));
    hide Tunable.Where;
    hide Plain;
    hide Overridden;
    hide LastSetting;
  }

  // ------------------------------------------------------------------ spellings

  lemma {:induction false} FirstDotAt(a: string, b: string, i: nat)
    requires i <= |a| && forall k :: 0 <= k < |a| ==> a[k] != '.'
    ensures FirstDot(a + "." + b, i) == |a|
    decreases |a| - i
  {
    var key := a + "." + b;
    if i < |a| {
      assert key[i] == a[i];
      FirstDotAt(a, b, i + 1);
    } else {
      assert key[i] == '.';
    }
  }

  predicate NoDots(s: string) {
    forall k :: 0 <= k < |s| ==> s[k] != '.'
  }

  lemma CountsHaveNoDots(t: Tunable)
    requires t.MaxIterations? || t.MaxQueries? || t.MaxDocuments?
    ensures NoDots(t.Name())
  {
  }

  lemma LimitsHaveNoDots(t: Tunable)
    requires t.MaxSources? || t.MaxLlmCalls? || t.MaxMinutes?
    ensures NoDots(t.Name())
  {
  }

  lemma RatesHaveNoDots(t: Tunable)
    requires t.NewEvidence? || t.DuplicateRate? || t.ReviewGates?
    ensures NoDots(t.Name())
  {
  }

  lemma SizesHaveNoDots(t: Tunable)
    requires t.ResultsPerQuery? || t.ChunkSize? || t.ChunkOverlap?
    ensures NoDots(t.Name())
  {
  }

  lemma NamesHaveNoDots(t: Tunable)
    ensures NoDots(t.Name())
  {
    hide Tunable.Name;
    hide NoDots;
    match t
    case MaxIterations | MaxQueries | MaxDocuments => CountsHaveNoDots(t);
    case MaxSources | MaxLlmCalls | MaxMinutes => LimitsHaveNoDots(t);
    case NewEvidence | DuplicateRate | ReviewGates => RatesHaveNoDots(t);
    case _ => SizesHaveNoDots(t);
  }

  lemma SectionsHaveNoDots(t: Tunable)
    ensures NoDots(t.Where().section) && t.Where().section != "tunables" && t.Where().field == t.Name()
  {
    hide Tunable.Name;
  }

  lemma DottedHasDot(a: string, b: string)
    ensures !NoDots(a + "." + b)
  {
    assert (a + "." + b)[|a|] == '.';
  }

  lemma {:induction false} NamedNot(key: string, i: nat)
    requires i <= |TUNABLES| && forall t: Tunable :: t.Name() != key
    ensures Named(key, i) == None
    decreases |TUNABLES| - i
  {
    if i < |TUNABLES| {
      NamedNot(key, i + 1);
    }
    hide Tunable.Name;
  }

  lemma DottedIsNotNamed(a: string, b: string)
    ensures Named(a + "." + b) == None && a + "." + b !in EXTRAS
  {
    DottedHasDot(a, b);
    forall t: Tunable ensures t.Name() != a + "." + b {
      NamesHaveNoDots(t);
    }
    NamedNot(a + "." + b, 0);
    ExtrasHaveNoDots();
    hide Named;
    hide NoDots;
  }

  lemma ExtrasHaveNoDots()
    ensures forall k :: 0 <= k < |EXTRAS| ==> NoDots(EXTRAS[k])
  {
  }

  /** Length, first and fifth character tell the names apart. */
  function Code(s: string): (nat, char, char)
    requires |s| > 4
  {
    (|s|, s[0], s[4])
  }

  lemma NameCodes(t: Tunable)
    ensures |t.Name()| > 4
    ensures Code(t.Name()) == match t
      case MaxIterations => (14, 'm', 'i') case MaxQueries => (25, 'm', 'q') case MaxDocuments => (13, 'm', 'd')
      case MaxSources => (17, 'm', 's') case MaxLlmCalls => (13, 'm', 'l') case MaxMinutes => (22, 'm', 'w')
      case NewEvidence => (22, 'n', 'e') case DuplicateRate => (24, 'd', 'i') case ReviewGates => (20, 'r', 'e')
      case ResultsPerQuery => (17, 'r', 'l') case ChunkSize => (15, 'm', 'c') case ChunkOverlap => (19, 'c', 'k')
  {
  }

  lemma NamesDiffer(t: Tunable, u: Tunable)
    ensures t.Name() == u.Name() ==> t == u
  {
    NameCodes(t);
    NameCodes(u);
    hide Tunable.Name;
    hide Code;
  }

  lemma {:induction false} NamedFrom(t: Tunable, i: nat, k: nat)
    requires i <= k < |TUNABLES| && TUNABLES[k] == t
    ensures Named(t.Name(), i) == Some(t)
    decreases k - i
  {
    hide Tunable.Name;
    NamesDiffer(TUNABLES[i], t);
    if i < k && TUNABLES[i] != t {
      NamedFrom(t, i + 1, k);
    }
  }

  lemma NamedSelf(t: Tunable)
    ensures Named(t.Name()) == Some(t)
  {
    InTable(t);
    var k :| 0 <= k < |TUNABLES| && TUNABLES[k].Where() == t.Where();
    NamesDiffer(TUNABLES[k], t);
    SectionsHaveNoDots(t);
    SectionsHaveNoDots(TUNABLES[k]);
    NamedFrom(t, 0, k);
    hide Tunable.Where;
    hide Tunable.Name;
  }

  lemma SplitDotted(a: string, b: string)
    requires NoDots(a)
    ensures var key := a + "." + b;
      FirstDot(key, 0) == |a| < |key| && key[..|a|] == a && key[|a| + 1..] == b
  {
    FirstDotAt(a, b, 0);
  }

  lemma DottedResolved(section: string, t: Tunable, fields: set<Path>)
    requires NoDots(section) && t.Where() in fields
    requires section == "tunables" || section == t.Where().section
    ensures Resolved(section + "." + t.Name(), fields) == Field(t.Where())
  {
    NamedSelf(t);
    SectionsHaveNoDots(t);
    DottedIsNotNamed(section, t.Name());
    SplitDotted(section, t.Name());
    hide Named;
    hide NoDots;
    hide FirstDot;
    hide Tunable.Name;
    hide Tunable.Where;
  }

  /** A tunable may be given by its own name, under tunables, or under its section: all three stand
      for the same field. */
  lemma SpellingsAgree(t: Tunable, fields: set<Path>)
    requires t.Where() in fields
    ensures Resolved(t.Name(), fields) == Field(t.Where())
    ensures Resolved("tunables" + "." + t.Name(), fields) == Field(t.Where())
    ensures Resolved(t.Where().section + "." + t.Name(), fields) == Field(t.Where())
  {
    hide NoDots;
    hide Resolved;
    hide Tunable.Name;
    hide Tunable.Where;
    NameResolved(t, fields);
    SectionsHaveNoDots(t);
    TunablesHasNoDots();
    DottedResolved("tunables", t, fields);
    DottedResolved(t.Where().section, t, fields);
  }

  lemma NameResolved(t: Tunable, fields: set<Path>)
    ensures Resolved(t.Name(), fields) == Field(t.Where())
  {
    NamedSelf(t);
    hide Named;
    hide FirstDot;
    hide Tunable.Name;
    hide Tunable.Where;
  }

  lemma TunablesHasNoDots()
    ensures NoDots("tunables")
  {
  }

  lemma {:induction false} NamedMeans(key: string, i: nat)
    requires i <= |TUNABLES|
    ensures Named(key, i).Some? ==> Named(key, i).value.Name() == key
    decreases |TUNABLES| - i
  {
    if i < |TUNABLES| {
      NamedMeans(key, i + 1);
    }
    hide Tunable.Name;
  }

  lemma DottedKey(key: string)
    requires FirstDot(key, 0) < |key|
    ensures var k := FirstDot(key, 0); key == key[..k] + "." + key[k + 1..]
  {
    FoundDot(key, 0);
    CutAt(key, FirstDot(key, 0));
    hide FirstDot;
  }

  lemma CutAt(key: string, k: nat)
    requires k < |key| && key[k] == '.'
    ensures key == key[..k] + "." + key[k + 1..]
  {
  }

  lemma {:induction false} FoundDot(key: string, i: nat)
    requires i <= |key|
    ensures FirstDot(key, i) < |key| ==> key[FirstDot(key, i)] == '.'
    decreases |key| - i
  {
    if i < |key| {
      FoundDot(key, i + 1);
    }
  }

  /** The ways to write a tunable. */
  predicate Spells(key: string, t: Tunable) {
    key == t.Name() || key == "tunables" + "." + t.Name() || key == t.Where().section + "." + t.Name()
  }

  /** Exactly these three spellings stand for a tunable's field. */
  lemma SpellingsExactly(key: string, t: Tunable, fields: set<Path>)
    requires t.Where() in fields
    ensures Resolved(key, fields) == Field(t.Where()) <==> Spells(key, t)
  {
    if Resolved(key, fields) == Field(t.Where()) {
      SpelledOut(key, t, fields);
    } else if Spells(key, t) {
      SpellingsAgree(t, fields);
    }
    hide Resolved;
    hide Tunable.Name;
    hide Tunable.Where;
  }

  lemma SpelledOut(key: string, t: Tunable, fields: set<Path>)
    requires Resolved(key, fields) == Field(t.Where())
    ensures Spells(key, t)
  {
    hide Named;
    hide FirstDot;
    hide Tunable.Name;
    hide Tunable.Where;
    NamedMeans(key, 0);
    SectionsHaveNoDots(t);
    if Named(key).Some? {
      PlacesDiffer(Named(key).value, t);
    } else {
      DottedKey(key);
      var field := key[FirstDot(key, 0) + 1..];
      NamedMeans(field, 0);
      if Named(field).Some? {
        PlacesDiffer(Named(field).value, t);
      }
    }
  }

  // ------------------------------------------------------------------ the resolved configuration

  function Checked(r: Resolution, reading: Reading): Result
    requires forall t: Tunable :: t.Where() in r.eff
  {
    if QuestionsCounted(r, reading) && WithinBounds(r.eff, reading) then Settled(r) else Rejected
  }

  function Final(l: Layers, reading: Reading): Result
    requires Complete(l)
  {
    match Merged(l)
    case Settled(r) =>
      ProvenanceIsEffective(l);
      Checked(r, reading)
    case error => error
  }

  /** What a resolved configuration says about a count. */
  predicate Says(l: Layers, reading: Reading, t: Tunable, n: int)
    requires Complete(l)
  {
    Final(l, reading).Settled? && t.Where() in Final(l, reading).r.eff && Final(l, reading).r.eff[t.Where()] == Num(n as real)
  }

  lemma ResolvedWithin(l: Layers, reading: Reading)
    requires Complete(l) && Final(l, reading).Settled?
    ensures Merged(l) == Final(l, reading)
    ensures Faithful(Final(l, reading).r, l.base.Keys) && WithinBounds(Final(l, reading).r.eff, reading)
  {
    ProvenanceIsEffective(l);
    hide Merged;
    hide Faithful;
    hide WithinBounds;
    hide QuestionsCounted;
  }

  /** The checks in terms of what the layers set: the values chosen for the tunables can be read and
      their readings are within bounds. */
  predicate ChoicesWithin(l: Layers, reading: Reading)
    requires Complete(l)
  {
    && (forall t: Tunable :: ReadWithin(t, Chosen(l, t.Where()).value, reading))
    && ReadBelow(ChunkOverlap, Chosen(l, ChunkOverlap.Where()).value, ChunkSize, Chosen(l, ChunkSize.Where()).value, true, reading)
    && ReadBelow(MaxDocuments, Chosen(l, MaxDocuments.Where()).value, MaxSources, Chosen(l, MaxSources.Where()).value, false, reading)
  }

  /** A configuration resolves exactly when no key is unknown and the readings of the chosen values,
      not the values themselves, are within bounds. */
  lemma ResolvesExactlyWhen(l: Layers, reading: Reading)
    requires Complete(l)
    ensures Final(l, reading).Settled? <==> Merged(l).Settled? && QuestionsCounted(Merged(l).r, reading) && ChoicesWithin(l, reading)
  {
    if Merged(l).Settled? {
      ProvenanceIsEffective(l);
      var eff := Merged(l).r.eff;
      forall t: Tunable ensures t.Where() in eff && eff[t.Where()] == Chosen(l, t.Where()).value {
        HighestLayerWins(l, t);
      }
    }
    hide Merged;
    hide Chosen;
    hide Faithful;
    hide Tunable.Where;
    hide ReadWithin;
    hide ReadBelow;
    hide QuestionsCounted;
  }

  predicate NumberWithin(v: Value, low: real, high: real) {
    v.Num? && low <= v.number <= high
  }

  /** In a resolved configuration a tunable's effective value is a number within its bounds exactly when
      the highest layer that sets it gives a number: flags, texts and null values pass the checks as
      what they are read as, and stay what they are. */
  lemma EffectiveWithinExactlyWhen(l: Layers, reading: Reading, t: Tunable)
    requires Complete(l) && Final(l, reading).Settled? && Range(t).Some?
    ensures t.Where() in Final(l, reading).r.eff
    ensures NumberWithin(Final(l, reading).r.eff[t.Where()], Range(t).value.0, Range(t).value.1) <==> Chosen(l, t.Where()).value.Num?
  {
    ResolvedWithin(l, reading);
    HighestLayerWins(l, t);
    assert ReadWithin(t, Final(l, reading).r.eff[t.Where()], reading);
    hide Final;
    hide Merged;
    hide Chosen;
    hide Faithful;
    hide WithinBounds;
    hide Tunable.Where;
  }

  /** The same for two sizes that are checked against each other. */
  lemma EffectiveOrderExactlyWhen(l: Layers, reading: Reading)
    requires Complete(l) && Final(l, reading).Settled?
    ensures var eff := Final(l, reading).r.eff;
      && ChunkOverlap.Where() in eff && ChunkSize.Where() in eff
      && var overlap, size := eff[ChunkOverlap.Where()], eff[ChunkSize.Where()];
         (overlap.Num? && size.Num? && overlap.number < size.number)
           <==> Chosen(l, ChunkOverlap.Where()).value.Num? && Chosen(l, ChunkSize.Where()).value.Num?
  {
    ResolvedWithin(l, reading);
    HighestLayerWins(l, ChunkOverlap);
    HighestLayerWins(l, ChunkSize);
    var eff := Final(l, reading).r.eff;
    assert ReadWithin(ChunkOverlap, eff[ChunkOverlap.Where()], reading);
    assert ReadWithin(ChunkSize, eff[ChunkSize.Where()], reading);
    hide Final;
    hide Merged;
    hide Chosen;
    hide Faithful;
    hide Tunable.Where;
  }

  /** And for the two limits on documents and sources. */
  lemma EffectiveLimitsExactlyWhen(l: Layers, reading: Reading)
    requires Complete(l) && Final(l, reading).Settled?
    ensures var eff := Final(l, reading).r.eff;
      && MaxDocuments.Where() in eff && MaxSources.Where() in eff
      && var documents, sources := eff[MaxDocuments.Where()], eff[MaxSources.Where()];
         (documents.Num? && sources.Num? && documents.number <= sources.number)
           <==> Chosen(l, MaxDocuments.Where()).value.Num? && Chosen(l, MaxSources.Where()).value.Num?
  {
    ResolvedWithin(l, reading);
    HighestLayerWins(l, MaxDocuments);
    HighestLayerWins(l, MaxSources);
    var eff := Final(l, reading).r.eff;
    assert ReadWithin(MaxDocuments, eff[MaxDocuments.Where()], reading);
    assert ReadWithin(MaxSources, eff[MaxSources.Where()], reading);
    hide Final;
    hide Merged;
    hide Chosen;
    hide Faithful;
    hide Tunable.Where;
  }

  /** With a resolved number of iterations the run loop's guard is never tripped. */
  lemma ResolvedNeverTrips(l: Layers, reading: Reading, n: int, cfg: Orchestration.Settings, w: Orchestration.World)
    requires Complete(l) && Says(l, reading, MaxIterations, n) && cfg.maxIterations == n
    ensures 1 <= n <= 20 && !Orchestration.RunToRest(cfg, w, Orchestration.NEW_PROJECT, 0).tripped
  {
    ResolvedWithin(l, reading);
    assert ReadWithin(MaxIterations, Final(l, reading).r.eff[MaxIterations.Where()], reading);
    hide Final;
    hide WithinBounds;
    hide Orchestration.RunToRest;
    hide Tunable.Where;
    RunSafety.NeverTrips(cfg, w, Orchestration.NEW_PROJECT);
  }

  /** With resolved sizes the chunker terminates; it loses text exactly when the overlap is negative,
      which nothing rules out. */
  lemma ResolvedChunking(l: Layers, reading: Reading, size: int, overlap: int)
    requires Complete(l) && Says(l, reading, ChunkSize, size) && Says(l, reading, ChunkOverlap, overlap)
    ensures overlap < size
    ensures 0 < size ==> ((forall text :: Chunking.Recoverable(text, size, overlap)) <==> 0 <= overlap)
  {
    ResolvedWithin(l, reading);
    var eff := Final(l, reading).r.eff;
    assert ReadBelow(ChunkOverlap, eff[ChunkOverlap.Where()], ChunkSize, eff[ChunkSize.Where()], true, reading);
    hide Final;
    hide WithinBounds;
    hide Tunable.Where;
    if 0 < size {
      Chunking.RecoverableExactlyWhen(size, overlap);
    }
  }

  // ------------------------------------------------------------------ what the command line can set

  /** Changing one tunable. */
  lemma OneChanged(eff: map<Path, Value>, t: Tunable, v: Value)
    requires forall u: Tunable :: u.Where() in eff
    ensures forall u: Tunable :: u.Where() in eff[t.Where() := v] && eff[t.Where() := v][u.Where()] == if u == t then v else eff[u.Where()]
  {
    forall u: Tunable ensures u.Where() in eff[t.Where() := v] && eff[t.Where() := v][u.Where()] == if u == t then v else eff[u.Where()] {
      PlacesDiffer(u, t);
    }
    hide Tunable.Where;
  }

  /** The same layers with one tunable set on the command line. */
  function WithSetting(l: Layers, t: Tunable, v: Value): Layers {
    l.(commandLine := [(t.Name(), Leaf(v))])
  }

  lemma SettingFlattened(key: string, v: Value)
    ensures Flattened([(key, Leaf(v))]) == [(key, v)]
  {
    assert [(key, Leaf(v))][..0] == [];
  }

  lemma NothingFlattened()
    ensures Flattened([]) == []
  {
  }

  lemma SamePlain(l: Layers, t: Tunable, v: Value)
    ensures Plain(WithSetting(l, t, v)) == Plain(l)
  {
  }

  lemma OneOverride(r: Resolution, t: Tunable, v: Value)
    requires t.Where() in r.eff
    ensures Overridden(r, [(t.Name(), v)], 6) == Settled(Set(r, t.Where(), v, 6))
  {
    SpellingsAgree(t, r.eff.Keys);
    var flat := [(t.Name(), v)];
    assert flat[..0] == [];
    assert Overridden(r, flat[..0], 6) == Settled(r);
    hide Resolved;
    hide Tunable.Where;
    hide Tunable.Name;
  }

  lemma SettingMerged(l: Layers, t: Tunable, v: Value)
    requires Complete(l) && Merged(l).Settled? && l.commandLine == []
    ensures Complete(WithSetting(l, t, v)) && Merged(WithSetting(l, t, v)) == Settled(Set(Merged(l).r, t.Where(), v, 6))
  {
    hide Plain;
    hide Tunable.Where;
    hide Tunable.Name;
    hide Faithful;
    hide Set;
    ProvenanceIsEffective(l);
    FieldsStay(Merged(l).r, l.base.Keys);
    SettingFlattened(t.Name(), v);
    OneOverride(Merged(l).r, t, v);
    NothingFlattened();
    SamePlain(l, t, v);
    hide Flattened;
  }

  /** What becomes of a resolved configuration when one tunable is set on the command line: it resolves
      exactly when the new value can be read within bounds, and the value is effective as it was given. */
  lemma SettingResolves(l: Layers, reading: Reading, t: Tunable, v: Value)
    requires Complete(l) && Final(l, reading).Settled? && l.commandLine == []
    ensures Complete(WithSetting(l, t, v)) && (forall u: Tunable :: u.Where() in Final(l, reading).r.eff[t.Where() := v])
    ensures Final(WithSetting(l, t, v), reading) ==
      if WithinBounds(Final(l, reading).r.eff[t.Where() := v], reading) then Settled(Set(Final(l, reading).r, t.Where(), v, 6)) else Rejected
  {
    ResolvedWithin(l, reading);
    SettingMerged(l, t, v);
    OneChanged(Final(l, reading).r.eff, t, v);
    SettingKeepsCount(Final(l, reading).r, t, v, reading);
    hide Merged;
    hide Faithful;
    hide WithSetting;
    hide WithinBounds;
    hide QuestionsCounted;
    hide Tunable.Where;
  }

  lemma SettingKeepsCount(r: Resolution, t: Tunable, v: Value, reading: Reading)
    ensures QuestionsCounted(Set(r, t.Where(), v, 6), reading) == QuestionsCounted(r, reading)
  {
    SectionsHaveNoDots(t);
    hide Tunable.Where;
  }

  /** A bounded configuration stays bounded when one value is replaced by one with a harmless reading. */
  lemma StaysWithin(eff: map<Path, Value>, reading: Reading, t: Tunable, v: Value)
    requires (forall u: Tunable :: u.Where() in eff) && WithinBounds(eff, reading) && ReadWithin(t, v, reading)
    requires t.ChunkOverlap? ==> ReadBelow(t, v, ChunkSize, eff[ChunkSize.Where()], true, reading)
    requires t.ChunkSize? ==> ReadBelow(ChunkOverlap, eff[ChunkOverlap.Where()], t, v, true, reading)
    requires t.MaxDocuments? ==> ReadBelow(t, v, MaxSources, eff[MaxSources.Where()], false, reading)
    requires t.MaxSources? ==> ReadBelow(MaxDocuments, eff[MaxDocuments.Where()], t, v, false, reading)
    ensures var eff1 := eff[t.Where() := v]; (forall u: Tunable :: u.Where() in eff1) && WithinBounds(eff1, reading)
  {
    OneChanged(eff, t, v);
    hide Tunable.Where;
    hide ReadWithin;
    hide ReadBelow;
  }

  /** Bounds miss negatives: whatever resolves also resolves with any smaller overlap set on the command
      line, however far below zero. */
  lemma BoundsMissNegatives(l: Layers, reading: Reading, overlap: int)
    requires Complete(l) && Final(l, reading).Settled? && l.commandLine == []
    requires ChunkOverlap.Where() in Final(l, reading).r.eff
    requires var v := Final(l, reading).r.eff[ChunkOverlap.Where()]; v.Num? && overlap as real <= v.number
    ensures var l1 := WithSetting(l, ChunkOverlap, Num(overlap as real)); Complete(l1) && Says(l1, reading, ChunkOverlap, overlap)
  {
    var eff, v := Final(l, reading).r.eff, Num(overlap as real);
    ResolvedWithin(l, reading);
    SettingResolves(l, reading, ChunkOverlap, v);
    hide Final;
    hide Faithful;
    hide WithSetting;
    hide Tunable.Where;
    SmallerOverlap(eff, reading, overlap);
    hide WithinBounds;
  }

  lemma SmallerOverlap(eff: map<Path, Value>, reading: Reading, overlap: int)
    requires (forall u: Tunable :: u.Where() in eff) && WithinBounds(eff, reading)
    requires var v := eff[ChunkOverlap.Where()]; v.Num? && overlap as real <= v.number
    ensures var eff1 := eff[ChunkOverlap.Where() := Num(overlap as real)];
      (forall u: Tunable :: u.Where() in eff1) && WithinBounds(eff1, reading)
  {
    assert ReadWithin(ChunkOverlap, eff[ChunkOverlap.Where()], reading);
    assert ReadBelow(ChunkOverlap, eff[ChunkOverlap.Where()], ChunkSize, eff[ChunkSize.Where()], true, reading);
    hide Tunable.Where;
    StaysWithin(eff, reading, ChunkOverlap, Num(overlap as real));
    hide WithinBounds;
  }

  /** A null value is never out of bounds: whatever resolves also resolves with any tunable set to null. */
  lemma BoundsMissNull(l: Layers, reading: Reading, t: Tunable)
    requires Complete(l) && Final(l, reading).Settled? && l.commandLine == []
    ensures var l1 := WithSetting(l, t, Null);
      Complete(l1) && Final(l1, reading).Settled? && Final(l1, reading).r.eff == Final(l, reading).r.eff[t.Where() := Null]
  {
    ResolvedWithin(l, reading);
    SettingResolves(l, reading, t, Null);
    hide Final;
    hide Faithful;
    hide WithinBounds;
    hide WithSetting;
    hide Tunable.Where;
    StaysWithin(Final(l, reading).r.eff, reading, t, Null);
  }

  /** A text that reads as an allowed number of iterations resolves, and stays a text. */
  lemma BoundsMissText(l: Layers, reading: Reading, s: string)
    requires Complete(l) && Final(l, reading).Settled? && l.commandLine == []
    requires reading.wholes(s).Some? && 1 <= reading.wholes(s).value <= 20
    ensures var l1 := WithSetting(l, MaxIterations, Text(s));
      Complete(l1) && Final(l1, reading).Settled? && Final(l1, reading).r.eff == Final(l, reading).r.eff[MaxIterations.Where() := Text(s)]
  {
    ResolvedWithin(l, reading);
    SettingResolves(l, reading, MaxIterations, Text(s));
    hide Final;
    hide Faithful;
    hide WithinBounds;
    hide WithSetting;
    hide Tunable.Where;
    StaysWithin(Final(l, reading).r.eff, reading, MaxIterations, Text(s));
  }

  // ------------------------------------------------------------------ the defaults

  function Default(t: Tunable): Value {
    match t
    case MaxIterations => Num(3.0) case MaxQueries => Num(8.0) case MaxDocuments => Num(50.0) case MaxSources => Num(150.0)
    case MaxLlmCalls => Num(300.0) case MaxMinutes => Num(60.0) case NewEvidence => Num(0.1) case DuplicateRate => Num(0.7)
    case ReviewGates => Flag(false) case ResultsPerQuery => Num(10.0) case ChunkSize => Num(6000.0) case ChunkOverlap => Num(400.0)
  }

  function DefaultValues(n: nat): map<Path, Value>
    requires n <= |TUNABLES|
  {
    if n == 0 then map[] else DefaultValues(n - 1)[TUNABLES[n - 1].Where() := Default(TUNABLES[n - 1])]
  }

  lemma {:induction false} DefaultAt(n: nat, k: nat)
    requires k < n <= |TUNABLES|
    ensures var t := TUNABLES[k]; t.Where() in DefaultValues(n) && DefaultValues(n)[t.Where()] == Default(t)
  {
    hide Tunable.Where;
    hide Default;
    if k < n - 1 {
      DefaultAt(n - 1, k);
      PlacesDiffer(TUNABLES[k], TUNABLES[n - 1]);
    }
  }

  lemma {:induction false} DefaultPaths(n: nat, path: Path)
    requires n <= |TUNABLES| && path in DefaultValues(n)
    ensures path.section != "tunables"
  {
    if n > 0 {
      SectionsHaveNoDots(TUNABLES[n - 1]);
      if path != TUNABLES[n - 1].Where() {
        DefaultPaths(n - 1, path);
      }
    }
    hide Tunable.Where;
    hide Default;
  }

  lemma DefaultOf(t: Tunable)
    ensures t.Where() in DefaultValues(|TUNABLES|) && DefaultValues(|TUNABLES|)[t.Where()] == Default(t)
  {
    InTable(t);
    var k :| 0 <= k < |TUNABLES| && TUNABLES[k].Where() == t.Where();
    PlacesDiffer(TUNABLES[k], t);
    DefaultAt(|TUNABLES|, k);
    hide Tunable.Where;
    hide DefaultValues;
    hide Default;
  }

  /** Nothing but the built-in defaults. */
  function DefaultLayers(): Layers {
    var values := DefaultValues(|TUNABLES|);
    Layers(values, values, map[EXTRAS[0] := Flag(false), EXTRAS[1] := Flag(false), EXTRAS[2] := Num(3.0)],
           map[], map[], map[], map[], [], [])
  }

  lemma DefaultsComplete()
    ensures Complete(DefaultLayers())
  {
    forall t: Tunable ensures t.Where() in DefaultValues(|TUNABLES|) {
      DefaultOf(t);
    }
    forall k | 0 <= k < |EXTRAS| ensures Extra(EXTRAS[k]) !in DefaultValues(|TUNABLES|) {
      if Extra(EXTRAS[k]) in DefaultValues(|TUNABLES|) {
        DefaultPaths(|TUNABLES|, Extra(EXTRAS[k]));
      }
    }
    hide DefaultValues;
    hide Tunable.Where;
  }

  lemma DefaultsMerge()
    ensures Complete(DefaultLayers()) && Merged(DefaultLayers()) == Settled(Plain(DefaultLayers()))
  {
    DefaultsComplete();
    hide Plain;
    hide DefaultValues;
  }

  lemma DefaultsRead(t: Tunable, reading: Reading)
    ensures ReadWithin(t, Default(t), reading)
  {
    assert 3.0.Floor == 3 && 8.0.Floor == 8 && 50.0.Floor == 50 && 150.0.Floor == 150 && 300.0.Floor == 300
      && 60.0.Floor == 60 && 10.0.Floor == 10 && 6000.0.Floor == 6000 && 400.0.Floor == 400;
  }

  lemma {:induction false} NothingLayered(r: Resolution, layer: nat, n: nat)
    requires n <= |TUNABLES|
    ensures Layered(r, map[], layer, n) == r
  {
    if n > 0 {
      NothingLayered(r, layer, n - 1);
    }
    hide Tunable.Where;
  }

  lemma {:induction false} NothingRecorded(r: Resolution, layer: nat, n: nat)
    requires n <= |EXTRAS|
    ensures Recorded(r, map[], layer, n) == r
  {
    if n > 0 {
      NothingRecorded(r, layer, n - 1);
    }
  }

  lemma DefaultsCounted(reading: Reading)
    ensures QuestionsCounted(Plain(DefaultLayers()), reading)
  {
    var l := DefaultLayers();
    var r0 := Layered(Resolution(l.base, map[]), l.defaults, 1, |TUNABLES|);
    var r1 := Recorded(r0, l.extraDefaults, 1, |EXTRAS|);
    assert r1 == Record(Recorded(r0, l.extraDefaults, 1, 2), Extra(EXTRAS[2]), Num(3.0), 1);
    NothingLayered(r1, 2, |TUNABLES|);
    NothingRecorded(r1, 2, |EXTRAS|);
    NothingLayered(r1, 3, |TUNABLES|);
    NothingLayered(r1, 4, |TUNABLES|);
    hide Layered;
    hide Recorded;
    hide DefaultValues;
  }

  lemma DefaultChosen(t: Tunable)
    ensures t.Where() in DefaultLayers().defaults && Chosen(DefaultLayers(), t.Where()).value == Default(t)
  {
    DefaultOf(t);
    hide DefaultValues;
    hide Tunable.Where;
    hide Default;
  }

  lemma DefaultsOrdered(reading: Reading)
    ensures ReadBelow(ChunkOverlap, Default(ChunkOverlap), ChunkSize, Default(ChunkSize), true, reading)
    ensures ReadBelow(MaxDocuments, Default(MaxDocuments), MaxSources, Default(MaxSources), false, reading)
  {
  }

  lemma DefaultsWithin(reading: Reading)
    ensures Complete(DefaultLayers()) && ChoicesWithin(DefaultLayers(), reading)
  {
    hide Chosen;
    hide Default;
    hide DefaultLayers;
    hide Tunable.Where;
    hide ReadWithin;
    hide ReadBelow;
    DefaultsComplete();
    forall t: Tunable ensures t.Where() in DefaultLayers().defaults && ReadWithin(t, Chosen(DefaultLayers(), t.Where()).value, reading) {
      DefaultChosen(t);
      DefaultsRead(t, reading);
    }
    DefaultChosen(ChunkOverlap);
    DefaultChosen(ChunkSize);
    DefaultChosen(MaxDocuments);
    DefaultChosen(MaxSources);
    DefaultsOrdered(reading);
  }

  /** The built-in defaults resolve, so each of the results above speaks of some configuration. */
  lemma DefaultsResolve(reading: Reading)
    ensures Complete(DefaultLayers()) && Final(DefaultLayers(), reading).Settled?
    ensures DefaultLayers().commandLine == []
  {
    hide Plain;
    hide Merged;
    hide Complete;
    hide Final;
    hide DefaultValues;
    hide QuestionsCounted;
    hide ChoicesWithin;
    DefaultsMerge();
    DefaultsCounted(reading);
    DefaultsWithin(reading);
    ResolvesExactlyWhen(DefaultLayers(), reading);
  }

  /** Any overlap from 400 down resolves, negative ones too, with nothing but the command line setting it. */
  lemma NegativeOverlapResolves(reading: Reading, overlap: int)
    requires overlap <= 400
    ensures var l := WithSetting(DefaultLayers(), ChunkOverlap, Num(overlap as real)); Complete(l) && Says(l, reading, ChunkOverlap, overlap)
  {
    DefaultsResolve(reading);
    ResolvedWithin(DefaultLayers(), reading);
    HighestLayerWins(DefaultLayers(), ChunkOverlap);
    DefaultChosen(ChunkOverlap);
    hide Final;
    hide Merged;
    hide Chosen;
    hide Complete;
    hide Faithful;
    hide WithinBounds;
    hide WithSetting;
    hide DefaultLayers;
    hide Tunable.Where;
    BoundsMissNegatives(DefaultLayers(), reading, overlap);
  }

  lemma PlacesDiffer(t: Tunable, u: Tunable)
    ensures t.Where() == u.Where() ==> t == u
  {
    SectionsHaveNoDots(t);
    SectionsHaveNoDots(u);
    NamesDiffer(t, u);
    hide Tunable.Where;
    hide Tunable.Name;
  }

  // ------------------------------------------------------------------ the resolver

  class ConfigResolver {
    var eff: map<Path, Value>
    var provenance: map<Path, Origin>

    ghost function Now(): Resolution
      reads this
    {
      Resolution(eff, provenance)
    }

    constructor (base: map<Path, Value>)
      ensures Now() == Resolution(base, map[])
    {
      eff, provenance := base, map[];
    }

    method ApplyTunables(given: map<Path, Value>, layer: nat)
      modifies this
      ensures Now() == Layered(old(Now()), given, layer, |TUNABLES|)
    {
      hide Tunable.Where;
      for i := 0 to |TUNABLES|
        invariant Now() == Layered(old(Now()), given, layer, i)
      {
        var path := TUNABLES[i].Where();
        if path in given {
          eff := eff[path := given[path]];
          provenance := provenance[path := Origin(given[path], layer)];
        }
      }
    }

    method RecordExtras(given: map<string, Value>, layer: nat)
      modifies this`provenance
      ensures Now() == Recorded(old(Now()), given, layer, |EXTRAS|)
    {
      for i := 0 to |EXTRAS|
        invariant Now() == Recorded(old(Now()), given, layer, i)
      {
        if EXTRAS[i] in given {
          provenance := provenance[Extra(EXTRAS[i]) := Origin(given[EXTRAS[i]], layer)];
        }
      }
    }

    /** Applies the entries of a flattened dictionary one by one, up to the first unknown key. */
    method ApplyOverrides(flat: seq<(string, Value)>, layer: nat) returns (unknown: Option<string>)
      requires forall t: Tunable :: t.Where() in eff
      modifies this
      ensures Overridden(old(Now()), flat, layer) == if unknown.None? then Settled(Now()) else UnknownKey(unknown.value)
    {
      hide Resolved;
      hide Tunable.Where;
      for i := 0 to |flat|
        invariant eff.Keys == old(eff).Keys
        invariant Overridden(old(Now()), flat[..i], layer) == Settled(Now())
      {
        assert flat[..i + 1][..i] == flat[..i];
        ResolvedTarget(flat[i].0, eff.Keys);
        match Resolved(flat[i].0, eff.Keys)
        case Field(path) =>
          eff := eff[path := flat[i].1];
          provenance := provenance[path := Origin(flat[i].1, layer)];
        case Noted(path) =>
          provenance := provenance[path := Origin(flat[i].1, layer)];
        case Unknown =>
          StuckAt(old(Now()), flat, layer, i + 1);
          return Some(flat[i].0);
      }
      assert flat[..|flat|] == flat;
      return None;
    }

    /** The layers without overrides. */
    method ApplyPlain(l: Layers)
      requires Now() == Resolution(l.base, map[])
      modifies this
      ensures Now() == Plain(l)
    {
      hide Layered;
      hide Recorded;
      ApplyTunables(l.defaults, 1);
      RecordExtras(l.extraDefaults, 1);
      ApplyTunables(l.engine, 2);
      RecordExtras(l.extraEngine, 2);
      ApplyTunables(l.user, 3);
      ApplyTunables(l.environment, 4);
    }

    /** Resolves the six layers and checks the bounds of the outcome. */
    method Resolve(l: Layers, reading: Reading) returns (result: Result)
      requires Complete(l) && Now() == Resolution(l.base, map[])
      modifies this
      ensures result == Final(l, reading)
    {
      hide Plain;
      hide Overridden;
      hide Faithful;
      hide WithinBounds;
      hide Tunable.Where;
      ApplyPlain(l);
      PlainFaithful(l);
      FieldsStay(Now(), l.base.Keys);
      var unknown := ApplyOverrides(Flattened(l.workspace), 5);
      if unknown.Some? {
        return UnknownKey(unknown.value);
      }
      OverriddenFaithful(Plain(l), l.base.Keys, Flattened(l.workspace), 5);
      FieldsStay(Now(), l.base.Keys);
      unknown := ApplyOverrides(Flattened(l.commandLine), 6);
      if unknown.Some? {
        return UnknownKey(unknown.value);
      }
      ProvenanceIsEffective(l);
      FieldsStay(Now(), l.base.Keys);
      var questions := Extra(EXTRAS[2]);
      if questions in provenance && !Countable(provenance[questions].value, reading) {
        return Rejected;
      }
      return if WithinBounds(eff, reading) then Settled(Resolution(eff, provenance)) else Rejected;
    }
  }

  lemma FieldsStay(r: Resolution, fields: set<Path>)
    requires Faithful(r, fields)
    ensures forall t: Tunable :: t.Where() in r.eff
  {
    hide Tunable.Where;
  }

  /** After the first unknown key nothing more is applied. */
  lemma {:induction false} StuckAt(r: Resolution, flat: seq<(string, Value)>, layer: nat, i: nat)
    requires i <= |flat| && Overridden(r, flat[..i], layer).UnknownKey?
    ensures Overridden(r, flat, layer) == Overridden(r, flat[..i], layer)
  {
    hide Resolved;
    if i == |flat| {
      assert flat[..i] == flat;
    } else {
      assert flat[..|flat| - 1][..i] == flat[..i];
      StuckAt(r, flat[..|flat| - 1], layer, i);
    }
  }
}
