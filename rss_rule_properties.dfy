/** What RSS::Rule promises, proved about the value model in rss_rule.dfy:
    defaults, whitelisted bulk assignment, the slots each setter writes, the
    merging `recurrence=`, date normalisation, the snapshot, `==`,
    `one_off?`, and `load` after `dump`. */
module RssRuleProperties {
  import opened Results
  import opened RubyValues
  import opened RubyRuntime
  import opened RssRule

  // ----- the slots of a rule and who writes them -----

  /** The slot a setter named `name` writes: `id`, `duration`, or the
      recurrence entry under the Symbol `name`. */
  function Read(s: RuleState, name: string): Option<Value> {
    if name == "id" then Some(Str(s.id))
    else if name == "duration" then (if s.duration.Some? then Some(Int(s.duration.value)) else None)
    else Lookup(s.recurrence, SymKey(name))
  }

  /** Whether sending `setter` the value `v` can write the slot `name`: a plain
      setter writes its own slot, `recurrence=` and `attributes=` whatever
      the setters of the Hash's keys write. */
  predicate Writes(setter: Setter, v: Value, name: string)
    decreases v
  {
    match setter
    case AssignId => name == "id"
    case AssignField(f) => name == f.Name()
    case AssignDuration => name == "duration"
    case _ => v.Hash? && WritesFrom(v.pairs, 0, name)
  }

  predicate WritesFrom(ps: seq<Entry>, i: nat, name: string)
    requires i <= |ps|
    decreases Hash(ps), |ps| - i
  {
    i < |ps| &&
    ((SetterFor(ps[i].key.name).Some? && Writes(SetterFor(ps[i].key.name).value, ps[i].val, name)) ||
     WritesFrom(ps, i + 1, name))
  }

  /** A setter changes no slot it does not write: each field setter writes
      only its own slot, so `recurrence=` merges into the recurrence instead
      of replacing it. */
  lemma {:induction false} AssignFrame(rt: Runtime, s: RuleState, setter: Setter, v: Value, name: string)
    requires !Writes(setter, v, name)
    ensures Read(Assign(rt, s, setter, v).state, name) == Read(s, name)
    decreases v
  {
    var r := Assign(rt, s, setter, v);
    match setter
    case AssignField(f) =>
      if r.state != s {
        assert r.state.id == s.id && r.state.duration == s.duration;
        var d :| r.state.recurrence == Put(s.recurrence, f.Key(), d);
        LookupPut(s.recurrence, f.Key(), d, SymKey(name));
      }
    case AssignRecurrence =>
      if v.Hash? {
        AssignFromFrame(rt, s, v.pairs, 0, name);
      }
    case AssignAttributes =>
      if v.Hash? {
        AssignFromFrame(rt, s, v.pairs, 0, name);
      }
    case _ =>
  }

  lemma {:induction false} AssignFromFrame(rt: Runtime, s: RuleState, ps: seq<Entry>, i: nat, name: string)
    requires i <= |ps|
    requires !WritesFrom(ps, i, name)
    ensures Read(AssignFrom(rt, s, ps, i).state, name) == Read(s, name)
    decreases Hash(ps), |ps| - i
  {
    if i < |ps| {
      var setter := SetterFor(ps[i].key.name);
      var next := AssignPair(rt, s, ps, i);
      if setter.Some? {
        AssignFrame(rt, s, setter.value, ps[i].val, name);
      }
      if next.error.None? {
        AssignFromFrame(rt, next.state, ps, i + 1, name);
      }
    }
  }

  /** `recurrence=` with a Hash keeps every slot the Hash does not name: a rule
      with a start date keeps it when given only a count. */
  lemma {:induction false} RecurrenceMerges(rt: Runtime, s: RuleState, ps: seq<Entry>, name: string)
    requires !WritesFrom(ps, 0, name)
    ensures Read(Assign(rt, s, AssignRecurrence, Hash(ps)).state, name) == Read(s, name)
  {
    AssignFromFrame(rt, s, ps, 0, name);
  }

  /** `recurrence=` given a Hash is `attributes=` given that Hash: it reaches
      `id=` and `duration=` as well as the field setters. */
  lemma {:induction false} RecurrenceIsAttributes(rt: Runtime, s: RuleState, ps: seq<Entry>)
    ensures Assign(rt, s, AssignRecurrence, Hash(ps)) == Assign(rt, s, AssignAttributes, Hash(ps))
  {
  }

  /** `recurrence=` with a Hash naming `id` or `duration` sets the rule's id
      or duration from the last such pair, like `attributes=`. */
  lemma {:induction false} RecurrenceSetsIdAndDuration(rt: Runtime, s: RuleState, ps: seq<Entry>, k: nat, name: string)
    requires k < |ps| && (name == "id" || name == "duration")
    requires ps[k].key.name == name && !WritesFrom(ps, k + 1, name)
    ensures var r := Assign(rt, s, AssignRecurrence, Hash(ps));
      r.error.None? ==>
        (name == "id" ==> r.state.id == ToS(rt, ps[k].val)) &&
        (name == "duration" ==> ToI(ps[k].val).Ok? && r.state.duration == Some(ToI(ps[k].val).value))
  {
    LastWriteWins(rt, s, ps, 0, k, name);
  }

  /** The last pair of a Hash that names `id` (or `duration`) decides the id
      (or duration) once `attributes=` has gone through the Hash without an
      exception, whatever kind of key it has and wherever it stands. */
  lemma {:induction false} LastWriteWins(rt: Runtime, s: RuleState, ps: seq<Entry>, i: nat, k: nat, name: string)
    requires i <= k < |ps| && (name == "id" || name == "duration")
    requires ps[k].key.name == name && !WritesFrom(ps, k + 1, name)
    ensures var r := AssignFrom(rt, s, ps, i);
      r.error.None? ==>
        (name == "id" ==> r.state.id == ToS(rt, ps[k].val)) &&
        (name == "duration" ==> ToI(ps[k].val).Ok? && r.state.duration == Some(ToI(ps[k].val).value))
    decreases |ps| - i
  {
    var next := AssignPair(rt, s, ps, i);
    if next.error.None? {
      if i == k {
        if name == "id" {
          assert SetterFor(ps[k].key.name) == Some(AssignId);
          assert next == Assign(rt, s, AssignId, ps[k].val);
          assert next.state.id == ToS(rt, ps[k].val);
        } else {
          assert SetterFor(ps[k].key.name) == Some(AssignDuration);
          assert next == Assign(rt, s, AssignDuration, ps[k].val);
          assert ToI(ps[k].val).Ok? && next.state.duration == Some(ToI(ps[k].val).value);
        }
        AssignFromFrame(rt, next.state, ps, k + 1, name);
        assert AssignFrom(rt, s, ps, i) == AssignFrom(rt, next.state, ps, k + 1);
      } else {
        LastWriteWins(rt, next.state, ps, i + 1, k, name);
      }
    }
  }

  /** `recurrence=` with anything but a Hash raises a RuntimeError naming the
      class it received and changes nothing. */
  lemma {:induction false} RecurrenceRejectsNonHash(rt: Runtime, s: RuleState, v: Value)
    requires !v.Hash?
    ensures Assign(rt, s, AssignRecurrence, v).state == s
    ensures Assign(rt, s, AssignRecurrence, v).error == Some(RuntimeError("recurrence= can only receive a Hash. Received " + ClassName(v)))
  {
  }

  // ----- the whitelist -----

  /** The pairs of `ps` whose key names a setter of Rule, in order. */
  function Known(ps: seq<Entry>): (r: seq<Entry>)
    ensures |r| <= |ps|
    ensures forall j | 0 <= j < |r| :: r[j] in ps && SetterFor(r[j].key.name).Some?
  {
    if |ps| == 0 then []
    else if SetterFor(ps[0].key.name).Some? then [ps[0]] + Known(ps[1..])
    else Known(ps[1..])
  }

  /** The loop over `ps` from `i` on depends only on the pairs from `j` on. */
  lemma {:induction false} AssignFromSuffix(rt: Runtime, s: RuleState, ps: seq<Entry>, i: nat, j: nat)
    requires j <= i <= |ps|
    ensures AssignFrom(rt, s, ps, i) == AssignFrom(rt, s, ps[j..], i - j)
    decreases |ps| - i
  {
    if i < |ps| {
      assert ps[j..][i - j] == ps[i];
      var next := AssignPair(rt, s, ps, i);
      assert AssignPair(rt, s, ps[j..], i - j) == next;
      if next.error.None? {
        AssignFromSuffix(rt, next.state, ps, i + 1, j);
      }
    }
  }

  /** `attributes=` dispatches only to the recognised setters: dropping every
      pair whose key names no setter gives the same result. */
  lemma {:induction false} IgnoresUnknown(rt: Runtime, s: RuleState, ps: seq<Entry>, i: nat)
    requires i <= |ps|
    ensures AssignFrom(rt, s, ps, i) == AssignFrom(rt, s, Known(ps[i..]), 0)
    decreases |ps| - i
  {
    if i < |ps| {
      var rest := ps[i + 1..];
      assert ps[i..] == [ps[i]] + rest;
      assert ps[i..][1..] == rest;
      var next := AssignPair(rt, s, ps, i);
      if SetterFor(ps[i].key.name).None? {
        assert Known(ps[i..]) == Known(rest);
        IgnoresUnknown(rt, s, ps, i + 1);
      } else {
        var k := Known(ps[i..]);
        assert k == [ps[i]] + Known(rest);
        assert AssignPair(rt, s, k, 0) == next;
        if next.error.None? {
          IgnoresUnknown(rt, next.state, ps, i + 1);
          AssignFromSuffix(rt, next.state, k, 1, 1);
          assert k[1..] == Known(rest);
        }
      }
    }
  }

  /** A Hash with no key naming a setter changes nothing: `Rule.new(foo: 'bar')`
      is a fresh rule. */
  lemma {:induction false} UnknownKeysChangeNothing(rt: Runtime, freshId: string, ps: seq<Entry>)
    requires forall j | 0 <= j < |ps| :: SetterFor(ps[j].key.name).None?
    ensures Construct(rt, freshId, Hash(ps)) == Ok(Initial(freshId))
  {
    IgnoresUnknown(rt, Initial(freshId), ps, 0);
    assert ps[0..] == ps;
  }

  /** `Rule.new(attributes)` ignores keys naming no setter, such as the
      `time_zone` a stored series rule carries. */
  lemma {:induction false} ConstructIgnoresUnknown(rt: Runtime, freshId: string, ps: seq<Entry>)
    ensures Construct(rt, freshId, Hash(ps)) == Construct(rt, freshId, Hash(Known(ps)))
  {
    IgnoresUnknown(rt, Initial(freshId), ps, 0);
    assert ps[0..] == ps;
  }

  // ----- defaults and the id -----

  /** `Rule.new` with no attributes keeps the generated id and an empty
      recurrence, and the frequency and interval getters report `'daily'`
      and 1 without storing either. */
  lemma {:induction false} NewRuleDefaults(rt: Runtime, freshId: string)
    ensures Construct(rt, freshId, Hash([])).Ok?
    ensures var r := Construct(rt, freshId, Hash([])).value;
      r.id == freshId && r.duration.None? && r.recurrence == [] &&
      r.Frequency() == Str("daily") && r.Interval() == Int(1) &&
      r.Count() == Nil && r.StartsAt() == Nil && r.EndsAt() == Nil
  {
    UnknownKeysChangeNothing(rt, freshId, []);
  }

  /** An `id` pair, with a Symbol or a String key and wherever it stands,
      overrides the generated id with its `to_s`, unless a later pair writes
      the id again. */
  lemma {:induction false} IdOverrides(rt: Runtime, freshId: string, ps: seq<Entry>, k: nat)
    requires k < |ps| && ps[k].key.name == "id" && !WritesFrom(ps, k + 1, "id")
    ensures Construct(rt, freshId, Hash(ps)).Ok? ==> Construct(rt, freshId, Hash(ps)).value.id == ToS(rt, ps[k].val)
  {
    LastWriteWins(rt, Initial(freshId), ps, 0, k, "id");
  }

  // ----- the invariant -----

  lemma {:induction false} SetterForField(f: Field)
    ensures SetterFor(f.Name()) == Some(AssignField(f))
  {
  }

  lemma {:induction false} FieldOfSetter(name: string)
    requires SetterFor(name).Some? && SetterFor(name).value.AssignField?
    ensures SetterFor(name).value.field.Name() == name
  {
  }

  /** Under the time library's law `convert_date` yields nil or a UTC wire
      timestamp, and that timestamp denotes the second it was given: a time
      is rendered at its own second, and a parsed String reads back at the
      second it was parsed to. Only nil, a time and a String convert. */
  lemma {:induction false} ConvertDateNormal(rt: Runtime, v: Value)
    requires Lawful(rt)
    ensures ConvertDate(rt, v).Ok? ==>
      (ConvertDate(rt, v).value.Nil? ||
       (ConvertDate(rt, v).value.Str? && IsWire(rt, ConvertDate(rt, v).value.s)))
    ensures v.Time? ==> ConvertDate(rt, v) == Ok(Str(rt.utcIso8601(v.t.epochSeconds)))
    ensures v.Str? && rt.zoneParse(v.s).Parsed? ==>
      ConvertDate(rt, v).Ok? && ConvertDate(rt, v).value.Str? &&
      rt.zoneParse(ConvertDate(rt, v).value.s).t.epochSeconds == rt.zoneParse(v.s).t.epochSeconds
    ensures ConvertDate(rt, v).Ok? ==> v.Nil? || v.Time? || v.Str?
  {
    match v
    case Str(x) =>
      if rt.zoneParse(x).Parsed? {
        var n := rt.zoneParse(x).t.epochSeconds;
        assert rt.zoneParse(rt.utcIso8601(n)).t.epochSeconds == n;
      }
    case Time(t) =>
      var n := t.epochSeconds;
      assert rt.zoneParse(rt.utcIso8601(n)).t.epochSeconds == n;
    case _ =>
  }

  /** Storing a normal value under a field's key keeps the recurrence valid. */
  lemma {:induction false} PutFieldValid(rt: Runtime, s: RuleState, f: Field, d: Value)
    requires Valid(rt, s) && Normal(rt, f, d)
    ensures Valid(rt, s.(recurrence := Put(s.recurrence, f.Key(), d)))
  {
    var r := Put(s.recurrence, f.Key(), d);
    PutKeepsDistinct(s.recurrence, f.Key(), d);
    PutEntries(s.recurrence, f.Key(), d);
    SetterForField(f);
    forall j | 0 <= j < |r| ensures FieldEntry(rt, r[j]) {
      if r[j] in s.recurrence {
        var m :| 0 <= m < |s.recurrence| && s.recurrence[m] == r[j];
      }
    }
  }

  /** Every setter keeps a valid rule valid, also when it raises part way:
      the recurrence holds only the five fields, each once, each in the form
      its setter stores. */
  lemma {:induction false} AssignValid(rt: Runtime, s: RuleState, setter: Setter, v: Value)
    requires Lawful(rt) && Valid(rt, s) && WellFormed(v)
    ensures Valid(rt, Assign(rt, s, setter, v).state)
    decreases v
  {
    match setter
    case AssignField(f) => {
      match f
      case Count => PutFieldValid(rt, s, f, v);
      case Frequency => PutFieldValid(rt, s, f, Str(ToS(rt, v)));
      case Interval =>
        if ToI(v).Ok? {
          PutFieldValid(rt, s, f, Int(ToI(v).value));
        }
      case _ =>
        ConvertDateNormal(rt, v);
        if ConvertDate(rt, v).Ok? {
          PutFieldValid(rt, s, f, ConvertDate(rt, v).value);
        }
    }
    case AssignRecurrence =>
      if v.Hash? {
        AssignFromValid(rt, s, v.pairs, 0);
      }
    case AssignAttributes =>
      if v.Hash? {
        AssignFromValid(rt, s, v.pairs, 0);
      }
    case _ =>
  }

  lemma {:induction false} AssignFromValid(rt: Runtime, s: RuleState, ps: seq<Entry>, i: nat)
    requires Lawful(rt) && Valid(rt, s) && i <= |ps|
    requires forall j | 0 <= j < |ps| :: WellFormed(ps[j].val)
    ensures Valid(rt, AssignFrom(rt, s, ps, i).state)
    decreases Hash(ps), |ps| - i
  {
    if i < |ps| {
      var setter := SetterFor(ps[i].key.name);
      var next := AssignPair(rt, s, ps, i);
      if setter.Some? {
        AssignValid(rt, s, setter.value, ps[i].val);
      }
      if next.error.None? {
        AssignFromValid(rt, next.state, ps, i + 1);
      }
    }
  }

  /** Every rule `Rule.new` builds is valid. */
  lemma {:induction false} ConstructValid(rt: Runtime, freshId: string, attributes: Value)
    requires Lawful(rt) && WellFormed(attributes)
    ensures Construct(rt, freshId, attributes).Ok? ==> Valid(rt, Construct(rt, freshId, attributes).value)
  {
    AssignValid(rt, Initial(freshId), AssignAttributes, attributes);
  }

  // ----- dates -----

  /** A field setter given a value already in the form it stores stores it
      unchanged; for `starts_at=` and `ends_at=` this is idempotence: a UTC
      wire timestamp is parsed and rendered back to itself. */
  lemma {:induction false} AssignNormal(rt: Runtime, s: RuleState, f: Field, v: Value)
    requires Normal(rt, f, v)
    ensures Assign(rt, s, AssignField(f), v) == Step(s.(recurrence := Put(s.recurrence, f.Key(), v)), None)
  {
    match f
    case Frequency =>
    case Interval =>
    case Count =>
    case _ =>
      if v.Str? {
        assert ConvertDate(rt, v) == Ok(Str(rt.utcIso8601(rt.zoneParse(v.s).t.epochSeconds)));
      }
  }

  /** `starts_at=` and `ends_at=` store a UTC wire timestamp or nil, nil for nil,
      the UTC rendering of a given time, for a String a timestamp of the second
      it parses to, and assigning what was stored a second time changes
      nothing. */
  lemma {:induction false} DateSetterNormalises(rt: Runtime, s: RuleState, f: Field, v: Value)
    requires Lawful(rt) && (f.StartsAt? || f.EndsAt?)
    ensures var r := Assign(rt, s, AssignField(f), v);
      r.error.None? ==>
        var d := Fetch(r.state.recurrence, f.Key());
        (d.Nil? || (d.Str? && IsWire(rt, d.s))) &&
        (v.Nil? ==> d.Nil?) &&
        (v.Time? ==> d == Str(rt.utcIso8601(v.t.epochSeconds))) &&
        (v.Str? && rt.zoneParse(v.s).Parsed? ==>
          d.Str? && rt.zoneParse(d.s).t.epochSeconds == rt.zoneParse(v.s).t.epochSeconds) &&
        Assign(rt, r.state, AssignField(f), d) == r
  {
    var r := Assign(rt, s, AssignField(f), v);
    ConvertDateNormal(rt, v);
    if r.error.None? {
      var d := ConvertDate(rt, v).value;
      assert r.state.recurrence == Put(s.recurrence, f.Key(), d);
      LookupPut(s.recurrence, f.Key(), d, f.Key());
      AssignNormal(rt, r.state, f, d);
      PutOverwrite(s.recurrence, f.Key(), d, d);
    }
  }

  // ----- the snapshot -----

  /** `ps` with every key turned into the String of its name. */
  function Renamed(ps: seq<Entry>): (r: seq<Entry>)
    ensures |r| == |ps|
    ensures forall j | 0 <= j < |ps| :: r[j] == Entry(StrKey(ps[j].key.name), ps[j].val)
  {
    seq(|ps|, j requires 0 <= j < |ps| => Entry(StrKey(ps[j].key.name), ps[j].val))
  }

  predicate DistinctNames(ps: seq<Entry>) {
    forall i, j | 0 <= i < j < |ps| :: ps[i].key.name != ps[j].key.name
  }

  /** When no two keys share a name, `stringify_keys` keeps every pair in
      place and only turns its key into a String. */
  lemma {:induction false} StringifyRenames(ps: seq<Entry>)
    requires DistinctNames(ps)
    ensures Stringify(ps) == Renamed(ps)
    decreases |ps|
  {
    if |ps| > 0 {
      var n := |ps| - 1;
      var front := ps[..n];
      assert DistinctNames(front);
      StringifyRenames(front);
      var k := StrKey(ps[n].key.name);
      assert k !in KeysOf(Renamed(front)) by {
        forall e | e in Renamed(front) ensures e.key != k {
          var m :| 0 <= m < n && Renamed(front)[m] == e;
        }
      }
      PutAppends(Renamed(front), k, ps[n].val);
      assert Renamed(front) + [Entry(k, ps[n].val)] == Renamed(ps);
    }
  }

  /** Symbol keys that differ have different names. */
  lemma {:induction false} SymbolKeysHaveDistinctNames(rt: Runtime, s: RuleState)
    requires Valid(rt, s)
    ensures DistinctNames(s.recurrence)
  {
    forall i, j | 0 <= i < j < |s.recurrence|
      ensures s.recurrence[i].key.name != s.recurrence[j].key.name
    {
      assert FieldEntry(rt, s.recurrence[i]) && FieldEntry(rt, s.recurrence[j]);
    }
  }

  /** The `as_json` pairs of a rule: `id`, then `recurrence`, then `duration`
      when it has been set. */
  function SnapshotPairs(s: RuleState): seq<Entry> {
    [Entry(StrKey("id"), Str(s.id)), Entry(StrKey("recurrence"), Hash(Renamed(s.recurrence)))] +
    (if s.duration.Some? then [Entry(StrKey("duration"), Int(s.duration.value))] else [])
  }

  /** The snapshot of a valid rule always holds `id` and `recurrence`, holds
      `duration` exactly when it is set, and its recurrence has each stored
      field under the String of the field's name. */
  lemma {:induction false} SnapshotShape(rt: Runtime, s: RuleState)
    requires Valid(rt, s)
    ensures AsJson(s) == Hash(SnapshotPairs(s))
    ensures KeysOf(AsJson(s).pairs) ==
      {StrKey("id"), StrKey("recurrence")} + (if s.duration.Some? then {StrKey("duration")} else {})
    ensures forall f: Field :: Lookup(Renamed(s.recurrence), StrKey(f.Name())) == Lookup(s.recurrence, f.Key())
  {
    SymbolKeysHaveDistinctNames(rt, s);
    StringifyRenames(s.recurrence);
    var top := Attributes(s).pairs;
    assert DistinctNames(top);
    StringifyRenames(top);
    assert Renamed(top) == SnapshotPairs(s);
    var p := SnapshotPairs(s);
    assert KeysOf(p) == {StrKey("id"), StrKey("recurrence")} + (if s.duration.Some? then {StrKey("duration")} else {}) by {
      assert p[0] in p && p[1] in p;
      if s.duration.Some? {
        assert p[2] in p;
      }
    }
    forall f: Field ensures Lookup(Renamed(s.recurrence), StrKey(f.Name())) == Lookup(s.recurrence, f.Key()) {
      RenamedLookup(s.recurrence, f.Name());
    }
  }

  /** On Symbol keys, looking up a String key in the renamed pairs finds what
      the Symbol of the same name finds in the original. */
  lemma {:induction false} RenamedLookup(ps: seq<Entry>, name: string)
    requires forall j | 0 <= j < |ps| :: ps[j].key.SymKey?
    ensures Lookup(Renamed(ps), StrKey(name)) == Lookup(ps, SymKey(name))
  {
    if |ps| > 0 {
      assert Renamed(ps)[1..] == Renamed(ps[1..]);
      RenamedLookup(ps[1..], name);
    }
  }

  // ----- == -----

  /** Two valid rules are `==` exactly when they have the same id, the same
      duration (both unset or equal) and recurrences that are equal Hashes. */
  lemma {:induction false} EqualIff(rt: Runtime, a: RuleState, b: RuleState)
    requires Valid(rt, a) && Valid(rt, b)
    ensures Equal(a, b) <==>
      a.id == b.id && a.duration == b.duration &&
      RubyEq(Hash(Renamed(a.recurrence)), Hash(Renamed(b.recurrence)))
  {
    SnapshotShape(rt, a);
    SnapshotShape(rt, b);
    if Equal(a, b) {
      SnapshotsEqualFields(a, b);
    }
    if a.id == b.id && a.duration == b.duration && RubyEq(Hash(Renamed(a.recurrence)), Hash(Renamed(b.recurrence))) {
      FieldsEqualSnapshots(a, b);
    }
  }

  lemma {:induction false} SnapshotLookups(b: RuleState)
    ensures Lookup(SnapshotPairs(b), StrKey("id")) == Some(Str(b.id))
    ensures Lookup(SnapshotPairs(b), StrKey("recurrence")) == Some(Hash(Renamed(b.recurrence)))
    ensures Lookup(SnapshotPairs(b), StrKey("duration")) ==
      if b.duration.Some? then Some(Int(b.duration.value)) else None
  {
    var pb := SnapshotPairs(b);
    var k := StrKey("duration");
    var tail := pb[1..][1..];
    assert tail == if b.duration.Some? then [Entry(k, Int(b.duration.value))] else [];
    assert Lookup(tail, k) == if b.duration.Some? then Some(Int(b.duration.value)) else None;
    assert Lookup(pb[1..], k) == Lookup(tail, k);
  }

  lemma {:induction false} SnapshotsEqualFields(a: RuleState, b: RuleState)
    requires RubyEq(Hash(SnapshotPairs(a)), Hash(SnapshotPairs(b)))
    ensures a.id == b.id && a.duration == b.duration
    ensures RubyEq(Hash(Renamed(a.recurrence)), Hash(Renamed(b.recurrence)))
  {
    var pa := SnapshotPairs(a);
    var pb := SnapshotPairs(b);
    SnapshotLookups(b);
    assert RubyEq(pa[0].val, Fetch(pb, pa[0].key));
    assert RubyEq(pa[1].val, Fetch(pb, pa[1].key));
    if a.duration.Some? {
      assert RubyEq(pa[2].val, Fetch(pb, pa[2].key));
    }
  }

  lemma {:induction false} FieldsEqualSnapshots(a: RuleState, b: RuleState)
    requires a.id == b.id && a.duration == b.duration
    requires RubyEq(Hash(Renamed(a.recurrence)), Hash(Renamed(b.recurrence)))
    ensures RubyEq(Hash(SnapshotPairs(a)), Hash(SnapshotPairs(b)))
  {
    var pa := SnapshotPairs(a);
    var pb := SnapshotPairs(b);
    SnapshotLookups(b);
    LookupKeys(pb, StrKey("id"));
    LookupKeys(pb, StrKey("recurrence"));
    LookupKeys(pb, StrKey("duration"));
    forall i | 0 <= i < |pa| ensures pa[i].key in KeysOf(pb) && RubyEq(pa[i].val, Fetch(pb, pa[i].key)) {
    }
  }

  /** Every valid rule is `==` to itself. */
  lemma {:induction false} EqualReflexive(rt: Runtime, s: RuleState)
    requires Valid(rt, s)
    ensures Equal(s, s)
  {
    SnapshotShape(rt, s);
    SymbolKeysHaveDistinctNames(rt, s);
    var r := Renamed(s.recurrence);
    forall j | 0 <= j < |r| ensures WellFormed(r[j].val) {
      assert FieldEntry(rt, s.recurrence[j]);
    }
    assert WellFormed(Hash(r));
    RubyEqReflexive(AsJson(s));
  }

  // ----- one_off? -----

  /** In a valid rule each field holds nil or the form its setter stores. */
  lemma {:induction false} ValidFetch(rt: Runtime, s: RuleState, f: Field)
    requires Valid(rt, s)
    ensures var v := Fetch(s.recurrence, f.Key()); v.Nil? || Normal(rt, f, v)
  {
    LookupKeys(s.recurrence, f.Key());
    if f.Key() in KeysOf(s.recurrence) {
      var m :| 0 <= m < |s.recurrence| && s.recurrence[m].key == f.Key();
      LookupAt(s.recurrence, m);
      assert FieldEntry(rt, s.recurrence[m]);
      SetterForField(f);
    }
  }

  /** `one_off?` is exactly "count is 1, or the two bounds are equal"; with
      neither bound set the bounds are both nil, so such a rule is one-off. */
  lemma {:induction false} OneOffExactly(rt: Runtime, s: RuleState)
    requires Valid(rt, s)
    ensures OneOff(s) <==> s.Count() == Int(1) || s.StartsAt() == s.EndsAt()
    ensures s.StartsAt() == Nil && s.EndsAt() == Nil ==> OneOff(s)
  {
    ValidFetch(rt, s, StartsAt);
    assert RubyEq(s.Count(), Int(1)) <==> s.Count() == Int(1);
    assert RubyEq(s.StartsAt(), s.EndsAt()) <==> s.StartsAt() == s.EndsAt();
  }

  /** Under the time library's law two times render to the same UTC wire
      timestamp only when they fall in the same second. */
  lemma {:induction false} RenderingInjective(rt: Runtime, n: int, m: int)
    requires Lawful(rt)
    ensures rt.utcIso8601(n) == rt.utcIso8601(m) <==> n == m
  {
    assert rt.zoneParse(rt.utcIso8601(n)).t.epochSeconds == n;
    assert rt.zoneParse(rt.utcIso8601(m)).t.epochSeconds == m;
  }

  /** `Rule.new(count: c, starts_at: t1, ends_at: t2).one_off?` holds exactly
      when the count is 1 or the two times fall in the same second. */
  lemma {:induction false} OneOffOfNewRule(rt: Runtime, freshId: string, c: int, t1: Instant, t2: Instant)
    requires Lawful(rt)
    ensures var attrs := Hash([Entry(SymKey("count"), Int(c)), Entry(SymKey("starts_at"), Time(t1)),
                               Entry(SymKey("ends_at"), Time(t2))]);
      Construct(rt, freshId, attrs).Ok? &&
      (OneOff(Construct(rt, freshId, attrs).value) <==> c == 1 || t1.epochSeconds == t2.epochSeconds)
  {
    var ps := [Entry(SymKey("count"), Int(c)), Entry(SymKey("starts_at"), Time(t1)),
               Entry(SymKey("ends_at"), Time(t2))];
    var u1 := Str(rt.utcIso8601(t1.epochSeconds));
    var u2 := Str(rt.utcIso8601(t2.epochSeconds));
    var s0 := Initial(freshId);
    var e1 := Entry(SymKey("starts_at"), u1);
    var e2 := Entry(SymKey("ends_at"), u2);
    var s1 := s0.(recurrence := [ps[0]]);
    var s2 := s0.(recurrence := [ps[0], e1]);
    var s3 := s0.(recurrence := [ps[0], e1, e2]);
    assert AssignPair(rt, s0, ps, 0) == Step(s1, None);
    assert ConvertDate(rt, Time(t1)) == Ok(u1);
    assert SymKey("starts_at") !in KeysOf(s1.recurrence);
    PutAppends(s1.recurrence, SymKey("starts_at"), u1);
    assert AssignPair(rt, s1, ps, 1) == Step(s2, None);
    assert ConvertDate(rt, Time(t2)) == Ok(u2);
    assert SymKey("ends_at") !in KeysOf(s2.recurrence) by {
      assert s2.recurrence[0] != s2.recurrence[1];
    }
    PutAppends(s2.recurrence, SymKey("ends_at"), u2);
    assert AssignPair(rt, s2, ps, 2) == Step(s3, None);
    assert AssignFrom(rt, s3, ps, 3) == Step(s3, None);
    assert AssignFrom(rt, s2, ps, 2) == Step(s3, None);
    assert AssignFrom(rt, s1, ps, 1) == Step(s3, None);
    assert AssignFrom(rt, s0, ps, 0) == Step(s3, None);
    assert DistinctKeys(s3.recurrence);
    LookupAt(s3.recurrence, 0);
    LookupAt(s3.recurrence, 1);
    LookupAt(s3.recurrence, 2);
    assert s3.Count() == Int(c);
    assert s3.StartsAt() == u1;
    assert s3.EndsAt() == u2;
    RenderingInjective(rt, t1.epochSeconds, t2.epochSeconds);
  }

  // ----- load and dump -----

  /** `Rule.load` of anything but an Array gives no rules; `Rule.dump` of
      anything but an Array gives an empty Array. */
  lemma {:induction false} LoadDumpNonArray(rt: Runtime, freshIds: nat -> string, parsed: Value)
    requires !parsed.Array?
    ensures Load(rt, freshIds, parsed) == Ok([])
    ensures Dump(None) == Array([])
  {
  }

  /** Sending the stored fields back through the field setters, in order,
      rebuilds the recurrence pair for pair. */
  lemma {:induction false} RebuildRecurrence(rt: Runtime, t: RuleState, rec: seq<Entry>, i: nat)
    requires i <= |rec| && t.recurrence == rec[..i]
    requires Valid(rt, t.(recurrence := rec))
    ensures AssignFrom(rt, t, Renamed(rec), i) == Step(t.(recurrence := rec), None)
    decreases |rec| - i
  {
    if i == |rec| {
      assert rec[..i] == rec;
    } else {
      var e := rec[i];
      assert FieldEntry(rt, e);
      var f := SetterFor(e.key.name).value.field;
      FieldOfSetter(e.key.name);
      assert e.key == f.Key();
      AssignNormal(rt, t, f, e.val);
      assert f.Key() !in KeysOf(rec[..i]) by {
        forall x | x in rec[..i] ensures x.key != f.Key() {
          var m :| 0 <= m < i && rec[m] == x;
        }
      }
      PutAppends(rec[..i], f.Key(), e.val);
      assert rec[..i] + [e] == rec[..i + 1];
      RebuildRecurrence(rt, t.(recurrence := rec[..i + 1]), rec, i + 1);
    }
  }

  /** The snapshot's first pair sets the id of a new rule and nothing else. */
  lemma SnapshotIdStep(rt: Runtime, freshId: string, s: RuleState)
    requires Valid(rt, s)
    ensures AssignPair(rt, Initial(freshId), SnapshotPairs(s), 0) == Step(RuleState(s.id, None, []), None)
  {
    SnapshotShape(rt, s);
  }

  /** The pairs after the snapshot's recurrence restore its duration, if any. */
  lemma SnapshotTailSteps(rt: Runtime, s: RuleState)
    requires Valid(rt, s)
    ensures AssignFrom(rt, s.(duration := None), SnapshotPairs(s), 2) == Step(s, None)
  {
    SnapshotShape(rt, s);
    var p := SnapshotPairs(s);
    if s.duration.Some? {
      assert AssignPair(rt, s.(duration := None), p, 2) == Step(s, None);
      assert AssignFrom(rt, s, p, 3) == Step(s, None);
    } else {
      assert |p| == 2;
    }
  }

  /** `Rule.new(rule.as_json)` rebuilds a valid rule exactly, whatever uuid it
      draws. */
  lemma {:induction false} ConstructSnapshot(rt: Runtime, freshId: string, s: RuleState)
    requires Valid(rt, s)
    ensures Construct(rt, freshId, AsJson(s)) == Ok(s)
  {
    SnapshotShape(rt, s);
    var p := SnapshotPairs(s);
    var t1 := RuleState(s.id, None, []);
    SnapshotIdStep(rt, freshId, s);
    var t2 := t1.(recurrence := s.recurrence);
    RebuildRecurrence(rt, t1, s.recurrence, 0);
    assert AssignPair(rt, t1, p, 1) == Step(t2, None);
    SnapshotTailSteps(rt, s);
    assert t2 == s.(duration := None);
    assert AssignFrom(rt, t1, p, 1) == Step(s, None);
    assert AssignFrom(rt, Initial(freshId), p, 0) == Step(s, None);
  }

  lemma {:induction false} ConstructAllSnapshots(rt: Runtime, freshIds: nat -> string, rules: seq<RuleState>, k: nat)
    requires forall j | 0 <= j < |rules| :: Valid(rt, rules[j])
    ensures ConstructAll(rt, freshIds, seq(|rules|, j requires 0 <= j < |rules| => AsJson(rules[j])), k) == Ok(rules)
    decreases |rules|
  {
    var items := seq(|rules|, j requires 0 <= j < |rules| => AsJson(rules[j]));
    if |rules| > 0 {
      ConstructSnapshot(rt, freshIds(k), rules[0]);
      ConstructAllSnapshots(rt, freshIds, rules[1..], k + 1);
      assert items[1..] == seq(|rules[1..]|, j requires 0 <= j < |rules[1..]| => AsJson(rules[1..][j]));
      assert [rules[0]] + rules[1..] == rules;
    }
  }

  /** `Rule.load(Rule.dump(rules))` gives back the same rules, every field
      intact, on the parsed JSON. */
  lemma {:induction false} LoadDump(rt: Runtime, freshIds: nat -> string, rules: seq<RuleState>)
    requires forall j | 0 <= j < |rules| :: Valid(rt, rules[j])
    ensures Load(rt, freshIds, Dump(Some(rules))) == Ok(rules)
  {
    ConstructAllSnapshots(rt, freshIds, rules, 0);
  }

  /** `interval=` and `duration=` read back the Integer whose decimal String
      they are given, and `id=` stores an Integer id as that String: `to_i`
      undoes `to_s` on every Integer. */
  lemma {:induction false} CoercionsRoundTrip(rt: Runtime, s: RuleState, n: int)
    ensures Assign(rt, s, AssignField(Interval), Str(ToS(rt, Int(n)))) ==
      Step(s.(recurrence := Put(s.recurrence, Interval.Key(), Int(n))), None)
    ensures Assign(rt, s, AssignDuration, Str(ToS(rt, Int(n)))) == Step(s.(duration := Some(n)), None)
    ensures ToI(Str(Assign(rt, s, AssignId, Int(n)).state.id)) == Ok(n)
  {
    DecimalStringRoundTrip(n);
  }

  // ----- loading stored rules in any key order -----

  /** A pair of a stored rule: a key naming no setter (such as `time_zone`),
      `id` with any value, `duration` with a value that has `to_i`, or
      `recurrence` holding the fields `rec` with String keys. */
  predicate StoredPair(e: Entry, rec: seq<Entry>) {
    SetterFor(e.key.name).None? ||
    e.key.name == "id" ||
    (e.key.name == "duration" && ToI(e.val).Ok?) ||
    (e.key.name == "recurrence" && e.val == Hash(Renamed(rec)))
  }

  /** The id after the pairs from `i` on: the `to_s` of the last `id`. */
  function LastId(rt: Runtime, ps: seq<Entry>, i: nat, current: string): string
    requires i <= |ps|
    decreases |ps| - i
  {
    if i == |ps| then current
    else LastId(rt, ps, i + 1, if ps[i].key.name == "id" then ToS(rt, ps[i].val) else current)
  }

  /** The duration after the pairs from `i` on: the `to_i` of the last
      `duration`. */
  function LastDuration(ps: seq<Entry>, i: nat, current: Option<int>): Option<int>
    requires i <= |ps|
    decreases |ps| - i
  {
    if i == |ps| then current
    else
      var d := ToI(ps[i].val);
      LastDuration(ps, i + 1, if ps[i].key.name == "duration" && d.Ok? then Some(d.value) else current)
  }

  predicate HasRecurrence(ps: seq<Entry>, i: nat)
    requires i <= |ps|
    decreases |ps| - i
  {
    i < |ps| && (ps[i].key.name == "recurrence" || HasRecurrence(ps, i + 1))
  }

  /** No two pairs from `i` on are named `recurrence`. */
  predicate OneRecurrence(ps: seq<Entry>, i: nat) {
    forall j1, j2 | i <= j1 < j2 < |ps| :: !(ps[j1].key.name == "recurrence" && ps[j2].key.name == "recurrence")
  }

  lemma {:induction false} NoRecurrenceAfter(ps: seq<Entry>, i: nat)
    requires i <= |ps|
    requires forall j | i <= j < |ps| :: ps[j].key.name != "recurrence"
    ensures !HasRecurrence(ps, i)
    decreases |ps| - i
  {
    if i < |ps| {
      NoRecurrenceAfter(ps, i + 1);
    }
  }

  /** `attributes=` over the pairs of a stored rule, in any order: the id and
      the duration of the last such pairs, and the recurrence rebuilt exactly
      when a `recurrence` pair is there. */
  lemma {:induction false} AssignStoredPairs(rt: Runtime, s: RuleState, ps: seq<Entry>, i: nat, rec: seq<Entry>)
    requires i <= |ps| && Valid(rt, s.(recurrence := rec))
    requires forall j | i <= j < |ps| :: StoredPair(ps[j], rec)
    requires OneRecurrence(ps, i)
    requires HasRecurrence(ps, i) ==> s.recurrence == []
    ensures AssignFrom(rt, s, ps, i) ==
      Step(RuleState(LastId(rt, ps, i, s.id), LastDuration(ps, i, s.duration),
                     if HasRecurrence(ps, i) then rec else s.recurrence), None)
    decreases |ps| - i
  {
    if i < |ps| {
      var e := ps[i];
      assert StoredPair(e, rec);
      var next := AssignPair(rt, s, ps, i);
      if e.key.name == "recurrence" {
        assert SetterFor(e.key.name) == Some(AssignRecurrence);
        RebuildRecurrence(rt, s, rec, 0);
        assert next == Assign(rt, s, AssignRecurrence, Hash(Renamed(rec)));
        assert next == Step(s.(recurrence := rec), None);
        NoRecurrenceAfter(ps, i + 1);
        AssignStoredPairs(rt, next.state, ps, i + 1, rec);
      } else if e.key.name == "id" {
        assert SetterFor(e.key.name) == Some(AssignId);
        assert next == Assign(rt, s, AssignId, e.val);
        assert next == Step(s.(id := ToS(rt, e.val)), None);
        AssignStoredPairs(rt, next.state, ps, i + 1, rec);
      } else if e.key.name == "duration" {
        assert SetterFor(e.key.name) == Some(AssignDuration);
        assert next == Assign(rt, s, AssignDuration, e.val);
        assert next == Step(s.(duration := Some(ToI(e.val).value)), None);
        AssignStoredPairs(rt, next.state, ps, i + 1, rec);
      } else {
        assert next == Step(s, None);
        AssignStoredPairs(rt, s, ps, i + 1, rec);
      }
    }
  }

  /** `Rule.new` of a stored rule whose pairs come in any order, with keys of
      either kind and with keys it ignores, takes the last id and duration
      and rebuilds the recurrence exactly. */
  lemma {:induction false} ConstructStored(rt: Runtime, freshId: string, ps: seq<Entry>, rec: seq<Entry>)
    requires Valid(rt, RuleState(freshId, None, rec))
    requires forall j | 0 <= j < |ps| :: StoredPair(ps[j], rec)
    requires OneRecurrence(ps, 0)
    ensures Construct(rt, freshId, Hash(ps)) ==
      Ok(RuleState(LastId(rt, ps, 0, freshId), LastDuration(ps, 0, None), if HasRecurrence(ps, 0) then rec else []))
  {
    AssignStoredPairs(rt, Initial(freshId), ps, 0, rec);
  }

  /** A stored series rule as the service keeps it, keys in the order `id`,
      `time_zone`, `duration`, `recurrence`, after JSON has made them Strings. */
  function StoredSeriesRule(x: string, tz: Value, d: int, rec: seq<Entry>): seq<Entry> {
    [Entry(StrKey("id"), Str(x)), Entry(StrKey("time_zone"), tz),
     Entry(StrKey("duration"), Int(d)), Entry(StrKey("recurrence"), Hash(Renamed(rec)))]
  }

  lemma {:induction false} StoredSeriesRuleScan(rt: Runtime, freshId: string, x: string, tz: Value, d: int, rec: seq<Entry>)
    ensures var ps := StoredSeriesRule(x, tz, d, rec);
      LastId(rt, ps, 0, freshId) == x && LastDuration(ps, 0, None) == Some(d) && HasRecurrence(ps, 0)
  {
    var ps := StoredSeriesRule(x, tz, d, rec);
    assert LastId(rt, ps, 1, x) == x by {
      assert LastId(rt, ps, 4, x) == x;
      assert LastId(rt, ps, 3, x) == x;
      assert LastId(rt, ps, 2, x) == x;
    }
    assert LastDuration(ps, 2, None) == Some(d) by {
      assert LastDuration(ps, 4, Some(d)) == Some(d);
      assert LastDuration(ps, 3, Some(d)) == Some(d);
    }
    assert LastDuration(ps, 1, None) == Some(d);
    assert HasRecurrence(ps, 3);
  }

  lemma {:induction false} StoredSeriesRulePairs(x: string, tz: Value, d: int, rec: seq<Entry>)
    ensures var ps := StoredSeriesRule(x, tz, d, rec);
      (forall j | 0 <= j < |ps| :: StoredPair(ps[j], rec)) && OneRecurrence(ps, 0)
  {
    var ps := StoredSeriesRule(x, tz, d, rec);
    assert SetterFor("time_zone").None?;
    assert StoredPair(ps[0], rec) && StoredPair(ps[1], rec) && StoredPair(ps[2], rec) && StoredPair(ps[3], rec);
  }

  /** `Rule.load` of a stored series rule with its keys in the order `id`,
      `time_zone`, `duration`, `recurrence` gives the rule with that id,
      duration and recurrence; the time zone is dropped. */
  lemma {:induction false} LoadStoredRule(rt: Runtime, freshIds: nat -> string, x: string, tz: Value, d: int, rec: seq<Entry>)
    requires Valid(rt, RuleState(x, Some(d), rec))
    ensures Load(rt, freshIds, Array([Hash(StoredSeriesRule(x, tz, d, rec))])) == Ok([RuleState(x, Some(d), rec)])
  {
    var ps := StoredSeriesRule(x, tz, d, rec);
    StoredSeriesRulePairs(x, tz, d, rec);
    StoredSeriesRuleScan(rt, freshIds(0), x, tz, d, rec);
    ConstructStored(rt, freshIds(0), ps, rec);
    assert Construct(rt, freshIds(0), Hash(ps)) == Ok(RuleState(x, Some(d), rec));
    assert ConstructAll(rt, freshIds, [], 1) == Ok([]);
    assert [Hash(ps)][1..] == [];
    assert [RuleState(x, Some(d), rec)] + [] == [RuleState(x, Some(d), rec)];
    assert ConstructAll(rt, freshIds, [Hash(ps)], 0) == Ok([RuleState(x, Some(d), rec)]);
  }

  /** Two rules that differ only in the offset a stored time is shown in are
      `==`: `Time#==` compares instants. */
  lemma {:induction false} EqualAcrossOffsets(rt: Runtime, x: string, t: Instant, offset: int)
    ensures var a := RuleState(x, None, [Entry(SymKey("count"), Time(t))]);
      var b := RuleState(x, None, [Entry(SymKey("count"), Time(t.(utcOffset := offset)))]);
      Valid(rt, a) && Valid(rt, b) && Equal(a, b)
  {
    var a := RuleState(x, None, [Entry(SymKey("count"), Time(t))]);
    var b := RuleState(x, None, [Entry(SymKey("count"), Time(t.(utcOffset := offset)))]);
    assert FieldEntry(rt, a.recurrence[0]);
    assert FieldEntry(rt, b.recurrence[0]);
    EqualIff(rt, a, b);
    var ra := Renamed(a.recurrence);
    var rb := Renamed(b.recurrence);
    assert ra == [Entry(StrKey("count"), Time(t))];
    assert rb == [Entry(StrKey("count"), Time(t.(utcOffset := offset)))];
    assert Fetch(rb, StrKey("count")) == Time(t.(utcOffset := offset));
    assert RubyEq(Hash(ra), Hash(rb));
  }
}
