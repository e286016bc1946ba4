/** RSS::Rule as the object Ruby mutates: `@id`, `@duration` and `@recurrence`
    are fields, each setter updates them in place, and `attributes=` loops
    over the pairs of its Hash. Every method is proved to leave the object in
    the state the value model in rss_rule.dfy computes, exceptions included. */
module RssRuleObjects {
  import opened Results
  import opened RubyValues
  import opened RubyRuntime
  import opened RssRule

  class Rule {
    var id: string
    var duration: Option<int>
    var recurrence: seq<Entry>

    /** The object's fields as a value. */
    function State(): RuleState
      reads this
    {
      RuleState(id, duration, recurrence)
    }

    /** The start of `initialize`: an empty recurrence, then `self.id =` the
        generated uuid. */
    constructor Init(freshId: string)
      ensures State() == Initial(freshId)
    {
      id := freshId;
      duration := None;
      recurrence := [];
    }

    /** `Rule.new(attributes)`: the empty rule, then `self.attributes =`. */
    static method New(rt: Runtime, freshId: string, attributes: Value) returns (r: Rule, err: Option<Error>)
      ensures fresh(r)
      ensures Step(r.State(), err) == Assign(rt, Initial(freshId), AssignAttributes, attributes)
    {
      r := new Rule.Init(freshId);
      err := r.SetAttributes(rt, attributes);
    }

    /** `id=`. */
    method SetId(rt: Runtime, v: Value)
      modifies this
      ensures Step(State(), None) == Assign(rt, old(State()), AssignId, v)
    {
      id := ToS(rt, v);
    }

    /** `count=`. */
    method SetCount(v: Value)
      modifies this
      ensures forall rt: Runtime :: Step(State(), None) == Assign(rt, old(State()), AssignField(Count), v)
    {
      recurrence := Put(recurrence, Field.Count.Key(), v);
    }

    /** `frequency=`. */
    method SetFrequency(rt: Runtime, v: Value)
      modifies this
      ensures Step(State(), None) == Assign(rt, old(State()), AssignField(Frequency), v)
    {
      recurrence := Put(recurrence, Field.Frequency.Key(), Str(ToS(rt, v)));
    }

    /** `interval=`: raises, and changes nothing, when `v` has no `to_i`. */
    method SetInterval(rt: Runtime, v: Value) returns (err: Option<Error>)
      modifies this
      ensures Step(State(), err) == Assign(rt, old(State()), AssignField(Interval), v)
    {
      var n := ToI(v);
      if n.Err? {
        return Some(n.error);
      }
      recurrence := Put(recurrence, Field.Interval.Key(), Int(n.value));
      err := None;
    }

    /** `starts_at=` and `ends_at=`: the date is converted first, and only a
        successful conversion is stored. */
    method SetDate(rt: Runtime, f: Field, v: Value) returns (err: Option<Error>)
      requires f.StartsAt? || f.EndsAt?
      modifies this
      ensures Step(State(), err) == Assign(rt, old(State()), AssignField(f), v)
    {
      var d := ConvertDate(rt, v);
      if d.Err? {
        return Some(d.error);
      }
      recurrence := Put(recurrence, f.Key(), d.value);
      err := None;
    }

    /** `duration=`. */
    method SetDuration(v: Value) returns (err: Option<Error>)
      modifies this
      ensures forall rt: Runtime :: Step(State(), err) == Assign(rt, old(State()), AssignDuration, v)
    {
      var n := ToI(v);
      if n.Err? {
        return Some(n.error);
      }
      duration := Some(n.value);
      err := None;
    }

    /** `recurrence=`: a Hash is handed to `attributes=`, anything else raises. */
    method SetRecurrence(rt: Runtime, v: Value) returns (err: Option<Error>)
      modifies this
      ensures Step(State(), err) == Assign(rt, old(State()), AssignRecurrence, v)
      decreases v, 1
    {
      if !v.Hash? {
        return Some(RuntimeError(RecurrenceMessage(v)));
      }
      err := SetAttributes(rt, v);
    }

    /** `attributes=`: each pair in order, sent to its setter when Rule has
        one; the first exception ends the loop with the earlier pairs applied. */
    method SetAttributes(rt: Runtime, v: Value) returns (err: Option<Error>)
      modifies this
      ensures Step(State(), err) == Assign(rt, old(State()), AssignAttributes, v)
      decreases v, 0
    {
      if !v.Hash? {
        return Some(NoMethod("each_pair", ClassName(v)));
      }
      var ps := v.pairs;
      var i := 0;
      while i < |ps|
        invariant 0 <= i <= |ps|
        invariant AssignFrom(rt, old(State()), ps, 0) == AssignFrom(rt, State(), ps, i)
      {
        var setter := SetterFor(ps[i].key.name);
        if setter.Some? {
          assert ps[i] in ps;
          err := Send(rt, setter.value, ps[i].val);
          if err.Some? {
            return;
          }
        }
        i := i + 1;
      }
      err := None;
    }

    /** `send("#{name}=", v)` for a setter Rule has. */
    method Send(rt: Runtime, setter: Setter, v: Value) returns (err: Option<Error>)
      modifies this
      ensures Step(State(), err) == Assign(rt, old(State()), setter, v)
      decreases v, 2
    {
      match setter
      case AssignId =>
        SetId(rt, v);
        err := None;
      case AssignField(f) =>
        match f {
          case Count =>
            SetCount(v);
            err := None;
          case Frequency =>
            SetFrequency(rt, v);
            err := None;
          case Interval =>
            err := SetInterval(rt, v);
          case StartsAt =>
            err := SetDate(rt, f, v);
          case EndsAt =>
            err := SetDate(rt, f, v);
        }
      case AssignDuration =>
        err := SetDuration(v);
      case AssignRecurrence =>
        err := SetRecurrence(rt, v);
      case AssignAttributes =>
        err := SetAttributes(rt, v);
    }
  }

  /** The states of a sequence of rules. */
  function States(rules: seq<Rule>): seq<RuleState>
    reads set j | 0 <= j < |rules| :: rules[j]
  {
    seq(|rules|, j reads set j | 0 <= j < |rules| :: rules[j] requires 0 <= j < |rules| => rules[j].State())
  }

  /** `Rule.load` on the parsed JSON: one new Rule per element of an Array,
      built in order; the first exception ends the load. */
  method LoadRules(rt: Runtime, freshIds: nat -> string, parsed: Value) returns (rules: seq<Rule>, err: Option<Error>)
    ensures forall j | 0 <= j < |rules| :: fresh(rules[j])
    ensures Load(rt, freshIds, parsed) == if err.Some? then Err(err.value) else Ok(States(rules))
  {
    rules := [];
    if !parsed.Array? {
      assert States(rules) == [];
      return rules, None;
    }
    var items := parsed.items;
    var i := 0;
    assert items[0..] == items;
    assert States(rules) == [];
    assert forall xs: seq<RuleState> :: [] + xs == xs;
    while i < |items|
      invariant 0 <= i <= |items|
      invariant |rules| == i
      invariant forall j | 0 <= j < i :: fresh(rules[j])
      invariant ConstructAll(rt, freshIds, items, 0) == Prefixed(States(rules), ConstructAll(rt, freshIds, items[i..], i))
    {
      ghost var done := States(rules);
      var r, e := Rule.New(rt, freshIds(i), items[i]);
      ConstructAllAt(rt, freshIds, items, i);
      assert States(rules) == done;
      if e.Some? {
        return rules, e;
      }
      rules := rules + [r];
      assert States(rules) == done + [r.State()];
      PrefixedAppend(done, [r.State()], ConstructAll(rt, freshIds, items[i + 1..], i + 1));
      i := i + 1;
    }
    assert items[i..] == [];
    assert States(rules) + [] == States(rules);
    err := None;
  }

  /** `Ok(xs + ys)` for `Ok(ys)`, the error otherwise. */
  function Prefixed(xs: seq<RuleState>, r: Result<seq<RuleState>, Error>): Result<seq<RuleState>, Error> {
    if r.Ok? then Ok(xs + r.value) else r
  }

  lemma PrefixedAppend(xs: seq<RuleState>, ys: seq<RuleState>, r: Result<seq<RuleState>, Error>)
    ensures Prefixed(xs, Prefixed(ys, r)) == Prefixed(xs + ys, r)
  {
    if r.Ok? {
      assert xs + (ys + r.value) == (xs + ys) + r.value;
    }
  }

  /** Building the rules from position `i` on: rule `i` first, then the rest. */
  lemma ConstructAllAt(rt: Runtime, freshIds: nat -> string, items: seq<Value>, i: nat)
    requires i < |items|
    ensures Construct(rt, freshIds(i), items[i]).Err? ==>
      ConstructAll(rt, freshIds, items[i..], i) == Err(Construct(rt, freshIds(i), items[i]).error)
    ensures Construct(rt, freshIds(i), items[i]).Ok? ==>
      ConstructAll(rt, freshIds, items[i..], i) ==
        Prefixed([Construct(rt, freshIds(i), items[i]).value], ConstructAll(rt, freshIds, items[i + 1..], i + 1))
  {
    assert items[i..][0] == items[i] && items[i..][1..] == items[i + 1..];
  }
}
