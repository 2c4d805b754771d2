/** Override dictionaries: what a nested dictionary gives for a key, and which dictionaries are accepted. */
module Overrides {
  import opened Options
  import opened Configs

  /** What a flat dictionary holds for a key. */
  function Lookup(flat: seq<(string, Value)>, key: string): Option<Value> {
    if flat == [] then None else if flat[0].0 == key then Some(flat[0].1) else Lookup(flat[1..], key)
  }

  /** What the entries of a section give for a key, the last of them counting. */
  function GivenIn(section: string, entries: seq<(string, Value)>, key: string): Option<Value> {
    if entries == [] then None
    else
      var last := entries[|entries| - 1];
      if section + "." + last.0 == key then Some(last.1) else GivenIn(section, entries[..|entries| - 1], key)
  }

  /** What a dictionary gives for a key, plainly or in a section, the last entry counting. */
  function Given(overrides: seq<(string, Node)>, key: string): Option<Value> {
    if overrides == [] then None
    else
      var last, before := overrides[|overrides| - 1], Given(overrides[..|overrides| - 1], key);
      match last.1
      case Leaf(v) => if last.0 == key then Some(v) else before
      case Group(entries) => if GivenIn(last.0, entries, key).Some? then GivenIn(last.0, entries, key) else before
  }

  lemma {:induction false} PutHolds(flat: seq<(string, Value)>, put: string, value: Value, key: string)
    ensures Lookup(Put(flat, put, value), key) == if key == put then Some(value) else Lookup(flat, key)
  {
    if flat != [] && flat[0].0 != put {
      PutHolds(flat[1..], put, value, key);
    }
  }

  lemma {:induction false} GroupHolds(flat: seq<(string, Value)>, section: string, entries: seq<(string, Value)>, key: string)
    ensures Lookup(PutGroup(flat, section, entries), key)
      == if GivenIn(section, entries, key).Some? then GivenIn(section, entries, key) else Lookup(flat, key)
  {
    if entries != [] {
      var n := |entries| - 1;
      GroupHolds(flat, section, entries[..n], key);
      PutHolds(PutGroup(flat, section, entries[..n]), section + "." + entries[n].0, entries[n].1, key);
    }
  }

  /** Flattening a dictionary loses nothing that counts: every key holds what the last entry for it gives,
      an entry of a section being one for the section's name, a dot and its own. */
  lemma {:induction false} FlattenedHolds(overrides: seq<(string, Node)>, key: string)
    ensures Lookup(Flattened(overrides), key) == Given(overrides, key)
  {
    if overrides != [] {
      var before, last := overrides[..|overrides| - 1], overrides[|overrides| - 1];
      FlattenedHolds(before, key);
      match last.1
      case Leaf(v) => PutHolds(Flattened(before), last.0, v, key);
      case Group(entries) => GroupHolds(Flattened(before), last.0, entries, key);
    }
  }

  predicate KeyOnce(flat: seq<(string, Value)>) {
    forall i, j :: 0 <= i < j < |flat| ==> flat[i].0 != flat[j].0
  }

  predicate HasKey(flat: seq<(string, Value)>, key: string) {
    exists k :: 0 <= k < |flat| && flat[k].0 == key
  }

  lemma {:induction false} PutKeys(flat: seq<(string, Value)>, put: string, value: Value, key: string)
    ensures HasKey(Put(flat, put, value), key) ==> key == put || HasKey(flat, key)
  {
    hide HasKey;
    if flat == [] {
      OneKey((put, value), key);
      return;
    }
    var rest := flat[1..];
    assert flat == [flat[0]] + rest;
    KeyInFront(flat[0], rest, key);
    if flat[0].0 == put {
      KeyInFront((put, value), rest, key);
    } else {
      PutKeys(rest, put, value, key);
      KeyInFront(flat[0], Put(rest, put, value), key);
    }
  }

  lemma OneKey(e: (string, Value), key: string)
    ensures HasKey([e], key) <==> e.0 == key
  {
    assert [e][0] == e;
  }

  lemma KeyInFront(e: (string, Value), flat: seq<(string, Value)>, key: string)
    ensures HasKey([e] + flat, key) <==> e.0 == key || HasKey(flat, key)
    ensures KeyOnce(flat) && !HasKey(flat, e.0) ==> KeyOnce([e] + flat)
    ensures KeyOnce([e] + flat) ==> KeyOnce(flat) && !HasKey(flat, e.0)
  {
    var all := [e] + flat;
    assert all[0] == e && forall k :: 0 <= k < |flat| ==> all[k + 1] == flat[k];
  }

  lemma {:induction false} PutOnce(flat: seq<(string, Value)>, put: string, value: Value)
    requires KeyOnce(flat)
    ensures KeyOnce(Put(flat, put, value))
  {
    hide KeyOnce;
    hide HasKey;
    if flat == [] {
      OneKeyOnce((put, value));
    } else {
      var rest := flat[1..];
      assert flat == [flat[0]] + rest;
      KeyInFront(flat[0], rest, put);
      if flat[0].0 == put {
        KeyInFront((put, value), rest, put);
      } else {
        PutOnce(rest, put, value);
        PutKeys(rest, put, value, flat[0].0);
        KeyInFront(flat[0], Put(rest, put, value), put);
      }
    }
  }

  lemma OneKeyOnce(e: (string, Value))
    ensures KeyOnce([e])
  {
  }

  lemma {:induction false} GroupOnce(flat: seq<(string, Value)>, section: string, entries: seq<(string, Value)>)
    requires KeyOnce(flat)
    ensures KeyOnce(PutGroup(flat, section, entries))
  {
    if entries != [] {
      var n := |entries| - 1;
      GroupOnce(flat, section, entries[..n]);
      PutOnce(PutGroup(flat, section, entries[..n]), section + "." + entries[n].0, entries[n].1);
    }
  }

  lemma {:induction false} FlattenedOnce(overrides: seq<(string, Node)>)
    ensures KeyOnce(Flattened(overrides))
  {
    if overrides != [] {
      var before, last := overrides[..|overrides| - 1], overrides[|overrides| - 1];
      FlattenedOnce(before);
      match last.1
      case Leaf(v) => PutOnce(Flattened(before), last.0, v);
      case Group(entries) => GroupOnce(Flattened(before), last.0, entries);
    }
  }

  lemma {:induction false} LookupMeans(flat: seq<(string, Value)>, key: string)
    ensures Lookup(flat, key).Some? <==> HasKey(flat, key)
  {
    if flat != [] {
      LookupMeans(flat[1..], key);
      KeyInFront(flat[0], flat[1..], key);
      assert flat == [flat[0]] + flat[1..];
    }
  }

  // ------------------------------------------------------------------ which are accepted

  predicate AllKnown(flat: seq<(string, Value)>, fields: set<Path>) {
    forall k :: 0 <= k < |flat| ==> !Resolved(flat[k].0, fields).Unknown?
  }

  /** The last entry is set, noted or refused. */
  lemma OneSettles(r: Resolution, flat: seq<(string, Value)>, layer: nat, fields: set<Path>)
    requires flat != [] && r.eff.Keys == fields && forall t: Tunable :: t.Where() in fields
    requires var before := Overridden(r, flat[..|flat| - 1], layer); before.Settled? ==> before.r.eff.Keys == fields
    ensures var before, after, n := Overridden(r, flat[..|flat| - 1], layer), Overridden(r, flat, layer), |flat| - 1;
      && (after.Settled? <==> before.Settled? && !Resolved(flat[n].0, fields).Unknown?)
      && (after.Settled? ==> after.r.eff.Keys == fields)
  {
    ResolvedTarget(flat[|flat| - 1].0, fields);
    hide Resolved;
    hide Tunable.Where;
  }

  lemma OneKnown(flat: seq<(string, Value)>, fields: set<Path>)
    requires flat != []
    ensures AllKnown(flat, fields) <==> AllKnown(flat[..|flat| - 1], fields) && !Resolved(flat[|flat| - 1].0, fields).Unknown?
  {
    var n := |flat| - 1;
    hide Resolved;
    assert forall k :: 0 <= k < n ==> flat[..n][k] == flat[k];
  }

  lemma {:induction false} SettlesExactlyWhen(r: Resolution, flat: seq<(string, Value)>, layer: nat)
    requires forall t: Tunable :: t.Where() in r.eff
    ensures Overridden(r, flat, layer).Settled? <==> AllKnown(flat, r.eff.Keys)
    ensures Overridden(r, flat, layer).Settled? ==> Overridden(r, flat, layer).r.eff.Keys == r.eff.Keys
  {
    if flat != [] {
      hide Overridden;
      hide AllKnown;
      hide Resolved;
      SettlesExactlyWhen(r, flat[..|flat| - 1], layer);
      OneSettles(r, flat, layer, r.eff.Keys);
      OneKnown(flat, r.eff.Keys);
    }
  }

  /** Every key that a dictionary gives stands for something. */
  ghost predicate AllStand(overrides: seq<(string, Node)>, fields: set<Path>) {
    forall key :: Given(overrides, key).Some? ==> !Resolved(key, fields).Unknown?
  }

  lemma KnownExactlyWhen(overrides: seq<(string, Node)>, fields: set<Path>)
    ensures AllKnown(Flattened(overrides), fields) <==> AllStand(overrides, fields)
  {
    hide Resolved;
    hide Flattened;
    var flat := Flattened(overrides);
    if AllKnown(flat, fields) {
      forall key | Given(overrides, key).Some? ensures !Resolved(key, fields).Unknown? {
        FlattenedHolds(overrides, key);
        LookupMeans(flat, key);
      }
    }
    if AllStand(overrides, fields) {
      forall k | 0 <= k < |flat| ensures !Resolved(flat[k].0, fields).Unknown? {
        FlattenedHolds(overrides, flat[k].0);
        LookupMeans(flat, flat[k].0);
      }
    }
  }

  /** The layers can be merged exactly when each key that the workspace or the command line gives, plainly or
      in a section, stands for a field or a tunable of the configuration. */
  lemma MergesExactlyWhen(l: Layers)
    requires Complete(l)
    ensures Merged(l).Settled? <==> AllStand(l.workspace, l.base.Keys) && AllStand(l.commandLine, l.base.Keys)
  {
    PlainFaithful(l);
    var r4 := Plain(l);
    SettlesExactlyWhen(r4, Flattened(l.workspace), 5);
    KnownExactlyWhen(l.workspace, l.base.Keys);
    KnownExactlyWhen(l.commandLine, l.base.Keys);
    if Overridden(r4, Flattened(l.workspace), 5).Settled? {
      SettlesExactlyWhen(Overridden(r4, Flattened(l.workspace), 5).r, Flattened(l.commandLine), 6);
    }
    hide AllStand;
    hide AllKnown;
    hide Plain;
    hide Overridden;
    hide Flattened;
    hide Tunable.Where;
  }

  // ------------------------------------------------------------------ numbers

  /** What a number given for a tunable must be like. */
  predicate Fitting(t: Tunable, x: real) {
    match t
    case ReviewGates => x == 0.0 || x == 1.0
    case NewEvidence | DuplicateRate => 0.0 <= x <= 1.0
    case MaxIterations => Whole(x) && 1.0 <= x <= 20.0
    case MaxQueries => Whole(x) && 1.0 <= x <= 50.0
    case _ => Whole(x)
  }

  predicate Whole(x: real) {
    x - x.Floor as real == 0.0
  }

  lemma FittingExactlyWhen(t: Tunable, x: real, reading: Reading)
    ensures ReadWithin(t, Num(x), reading) <==> Fitting(t, x)
  {
  }

  /** In a configuration that resolves, a number chosen for a tunable is whole where a whole number is asked
      for, 0 or 1 where a flag is, and within the tunable's range. */
  lemma NumbersFit(l: Layers, reading: Reading, t: Tunable)
    requires Complete(l) && Final(l, reading).Settled? && Chosen(l, t.Where()).value.Num?
    ensures Fitting(t, Chosen(l, t.Where()).value.number)
  {
    ResolvesExactlyWhen(l, reading);
    FittingExactlyWhen(t, Chosen(l, t.Where()).value.number, reading);
    assert ReadWithin(t, Chosen(l, t.Where()).value, reading);
    hide Final;
    hide Merged;
    hide Chosen;
    hide ReadWithin;
    hide Fitting;
    hide Tunable.Where;
  }
}
