/** RSS::Rule as values: the state of a rule, what each setter and the bulk
    assignment do to it, its snapshot, `one_off?`, `==`, `load` and `dump`.
    The class in rss_rule_class.dfy holds the same state in fields and its
    methods are proved to follow these functions. */
module RssRule {
  import opened Results
  import opened RubyValues
  import opened RubyRuntime

  /** The five keys `@recurrence` can hold, each written by the setter of the
      same name. */
  datatype Field = Frequency | Interval | Count | StartsAt | EndsAt {
    function Name(): string {
      match this
      case Frequency => "frequency"
      case Interval => "interval"
      case Count => "count"
      case StartsAt => "starts_at"
      case EndsAt => "ends_at"
    }

    /** The Symbol key the setter stores the field under. */
    function Key(): Key {
      SymKey(Name())
    }
  }

  /** The public setters of Rule: the methods `respond_to?("#{attr}=")` finds. */
  datatype Setter =
    | AssignId
    | AssignField(field: Field)
    | AssignDuration
    | AssignRecurrence
    | AssignAttributes

  /** The setter `"#{name}="` names, if Rule has one. (Object's `==`, `!=` and
      `===` also end in `=`; sending them changes nothing, so they are treated
      like the unknown names they otherwise resemble.) */
  function SetterFor(name: string): Option<Setter> {
    if name == "id" then Some(AssignId)
    else if name == "count" then Some(AssignField(Count))
    else if name == "frequency" then Some(AssignField(Frequency))
    else if name == "interval" then Some(AssignField(Interval))
    else if name == "starts_at" then Some(AssignField(StartsAt))
    else if name == "ends_at" then Some(AssignField(EndsAt))
    else if name == "duration" then Some(AssignDuration)
    else if name == "recurrence" then Some(AssignRecurrence)
    else if name == "attributes" then Some(AssignAttributes)
    else None
  }

  /** The state of a Rule: `@id`, `@duration` (nil until assigned) and the
      `@recurrence` Hash, whose keys are Symbols. */
  datatype RuleState = RuleState(id: string, duration: Option<int>, recurrence: seq<Entry>) {

    function StartsAt(): Value {
      Fetch(recurrence, Field.StartsAt.Key())
    }

    function EndsAt(): Value {
      Fetch(recurrence, Field.EndsAt.Key())
    }

    function Count(): Value {
      Fetch(recurrence, Field.Count.Key())
    }

    /** `@recurrence[:frequency] || 'daily'`. */
    function Frequency(): Value {
      var f := Fetch(recurrence, Field.Frequency.Key());
      if Truthy(f) then f else Str("daily")
    }

    /** `@recurrence[:interval] || 1`. */
    function Interval(): Value {
      var i := Fetch(recurrence, Field.Interval.Key());
      if Truthy(i) then i else Int(1)
    }
  }

  /** The state `initialize` starts from before applying its argument: an
      empty recurrence and the generated id. */
  function Initial(freshId: string): RuleState {
    RuleState(freshId, None, [])
  }

  /** A state after a setter: the state and the exception that stopped the
      assignment, if one did. Ruby keeps every change made before the raise. */
  datatype Step = Step(state: RuleState, error: Option<Error>)

  /** `convert_date`: a String is parsed in the configured zone, then a time is
      rendered as a UTC wire timestamp; nil, and a string with no date in it,
      give nil. */
  function ConvertDate(rt: Runtime, v: Value): Result<Value, Error> {
    match v
    case Str(s) =>
      (match rt.zoneParse(s)
       case Parsed(t) => Ok(Str(rt.utcIso8601(t.epochSeconds)))
       case NoTime => Ok(Nil)
       case OutOfRange => Err(ArgumentError(s)))
    case Nil => Ok(Nil)
    case Time(t) => Ok(Str(rt.utcIso8601(t.epochSeconds)))
    case _ => Err(NoMethod("utc", ClassName(v)))
  }

  /** The message of the RuntimeError `recurrence=` raises for a non-Hash. */
  function RecurrenceMessage(v: Value): string {
    "recurrence= can only receive a Hash. Received " + ClassName(v)
  }

  /** One setter call `send("#{name}=", v)`. */
  function Assign(rt: Runtime, s: RuleState, setter: Setter, v: Value): Step
    decreases v
  {
    match setter
    case AssignId => Step(s.(id := ToS(rt, v)), None)
    case AssignField(f) =>
      (match f
       case Count => Step(s.(recurrence := Put(s.recurrence, Count.Key(), v)), None)
       case Frequency => Step(s.(recurrence := Put(s.recurrence, Frequency.Key(), Str(ToS(rt, v)))), None)
       case Interval =>
         (match ToI(v)
          case Ok(n) => Step(s.(recurrence := Put(s.recurrence, Interval.Key(), Int(n))), None)
          case Err(e) => Step(s, Some(e)))
       case _ =>
         (match ConvertDate(rt, v)
          case Ok(d) => Step(s.(recurrence := Put(s.recurrence, f.Key(), d)), None)
          case Err(e) => Step(s, Some(e))))
    case AssignDuration =>
      (match ToI(v)
       case Ok(n) => Step(s.(duration := Some(n)), None)
       case Err(e) => Step(s, Some(e)))
    case AssignRecurrence =>
      if v.Hash? then AssignFrom(rt, s, v.pairs, 0)
      else Step(s, Some(RuntimeError(RecurrenceMessage(v))))
    case AssignAttributes =>
      if v.Hash? then AssignFrom(rt, s, v.pairs, 0)
      else Step(s, Some(NoMethod("each_pair", ClassName(v))))
  }

  /** The loop of `attributes=` from pair `i` on: each key is sent to its
      setter when Rule has one and skipped otherwise, in order, and the first
      exception stops the loop. */
  function AssignFrom(rt: Runtime, s: RuleState, ps: seq<Entry>, i: nat): Step
    requires i <= |ps|
    decreases Hash(ps), |ps| - i
  {
    if i == |ps| then Step(s, None)
    else
      var next := AssignPair(rt, s, ps, i);
      if next.error.Some? then next else AssignFrom(rt, next.state, ps, i + 1)
  }

  /** One turn of that loop: `send("#{attr}=", value)` if Rule responds to it. */
  function AssignPair(rt: Runtime, s: RuleState, ps: seq<Entry>, i: nat): Step
    requires i < |ps|
    decreases Hash(ps), |ps| - i, 0
  {
    var setter := SetterFor(ps[i].key.name);
    if setter.Some? then Assign(rt, s, setter.value, ps[i].val) else Step(s, None)
  }

  /** `Rule.new(attributes)` with `freshId` as the generated uuid. */
  function Construct(rt: Runtime, freshId: string, attributes: Value): Result<RuleState, Error> {
    var st := Assign(rt, Initial(freshId), AssignAttributes, attributes);
    if st.error.Some? then Err(st.error.value) else Ok(st.state)
  }

  /** `stringify_keys`: each key replaced by its String, in order. */
  function Stringify(ps: seq<Entry>): seq<Entry> {
    if |ps| == 0 then []
    else Put(Stringify(ps[..|ps| - 1]), StrKey(ps[|ps| - 1].key.name), ps[|ps| - 1].val)
  }

  /** `attributes`: the snapshot `{id:, recurrence:, duration:}`, with the
      recurrence keys as Strings and duration only once it has been set. */
  function Attributes(s: RuleState): Value {
    Hash([Entry(SymKey("id"), Str(s.id)), Entry(SymKey("recurrence"), Hash(Stringify(s.recurrence)))] +
         (if s.duration.Some? then [Entry(SymKey("duration"), Int(s.duration.value))] else []))
  }

  /** `as_json`: the snapshot with String keys at the top as well. */
  function AsJson(s: RuleState): Value {
    Hash(Stringify(Attributes(s).pairs))
  }

  /** `one_off?`: `count == 1 || starts_at == ends_at`. */
  predicate OneOff(s: RuleState) {
    RubyEq(s.Count(), Int(1)) || RubyEq(s.StartsAt(), s.EndsAt())
  }

  /** `==`: the two `as_json` snapshots are equal Hashes. */
  predicate Equal(a: RuleState, b: RuleState) {
    RubyEq(AsJson(a), AsJson(b))
  }

  /** `parsed.map { |p| new(p) }`, the rule at position `k` taking the uuid
      `freshIds(k)`; the first exception ends the load. */
  function ConstructAll(rt: Runtime, freshIds: nat -> string, items: seq<Value>, k: nat): Result<seq<RuleState>, Error>
    decreases |items|
  {
    if |items| == 0 then Ok([])
    else
      var first :- Construct(rt, freshIds(k), items[0]);
      var rest :- ConstructAll(rt, freshIds, items[1..], k + 1);
      Ok([first] + rest)
  }

  /** `Rule.load` on the already parsed JSON: an Array gives one rule per
      element, anything else no rules. */
  function Load(rt: Runtime, freshIds: nat -> string, parsed: Value): Result<seq<RuleState>, Error> {
    if parsed.Array? then ConstructAll(rt, freshIds, parsed.items, 0) else Ok([])
  }

  /** `Rule.dump` before JSON printing: the `as_json` of each rule, or an empty
      Array when the argument is not an Array (`None`). */
  function Dump(rules: Option<seq<RuleState>>): Value {
    match rules
    case None => Array([])
    case Some(rs) => Array(seq(|rs|, i requires 0 <= i < |rs| => AsJson(rs[i])))
  }

  // ----- the shape every reachable state has -----

  /** What a field setter can have stored: a String frequency, an Integer
      interval, nil or a UTC wire timestamp for the bounds, any Ruby object for
      count. */
  predicate Normal(rt: Runtime, f: Field, v: Value) {
    match f
    case Frequency => v.Str?
    case Interval => v.Int?
    case Count => WellFormed(v)
    case _ => v.Nil? || (v.Str? && IsWire(rt, v.s))
  }

  predicate FieldEntry(rt: Runtime, e: Entry) {
    e.key.SymKey? && SetterFor(e.key.name).Some? && SetterFor(e.key.name).value.AssignField? &&
    Normal(rt, SetterFor(e.key.name).value.field, e.val)
  }

  /** The invariant of every Rule: `@recurrence` holds only the five fields,
      each once, each in the form its setter stores. */
  predicate Valid(rt: Runtime, s: RuleState) {
    DistinctKeys(s.recurrence) &&
    forall i | 0 <= i < |s.recurrence| :: FieldEntry(rt, s.recurrence[i])
  }
}
