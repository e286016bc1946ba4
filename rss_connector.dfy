/** RSS::Connector without the network: each public operation takes the
    tenant, scope and arguments together with the status code and the parsed
    body of the response, and yields the request it would send and what it
    returns or raises. The request-side preparation of series, rules,
    occurrences and filters and the response-side occurrence payload are
    functions on values; rss_connector_in_place.dfy performs the three that
    Ruby runs on the caller's own Hash in place. */
module RssConnector {
  import opened Results
  import opened RubyValues
  import opened RubyRuntime
  import opened RssRule

  // ----- requests and outcomes -----

  datatype Verb = GET | POST | PUT | PATCH | DELETE {
    function Name(): string {
      match this
      case GET => "GET"
      case POST => "POST"
      case PUT => "PUT"
      case PATCH => "PATCH"
      case DELETE => "DELETE"
    }
  }

  /** A request as the transport receives it: verb, path and, where the
      operation sends one, the `query:` Hash. */
  datatype Request = Request(verb: Verb, path: string, query: Option<Value>)

  /** What an operation does with the response: return a payload, return nil
      (`Absent`, on 404 where the operation allows it), fail with its
      RuntimeError, or raise some other exception while preparing the request
      or reading the body. */
  datatype Outcome =
    | Payload(v: Value)
    | Absent
    | Failed(verb: Verb, path: string, code: int)
    | Raised(error: Error)
  {
    /** The exception the operation ends with: the RuntimeError an
        unexpected status raises, or the one raised on the way. */
    function Exception(): Option<Error> {
      match this
      case Failed(verb, path, code) => Some(RuntimeError(FailureMessage(verb, path, code)))
      case Raised(e) => Some(e)
      case _ => None
    }
  }

  /** The message of the RuntimeError an unexpected status raises. */
  function FailureMessage(verb: Verb, path: string, code: int): string {
    "RSS: '" + verb.Name() + " " + path + "' failed with status = " + DecimalString(code) + "."
  }

  /** The request sent, if preparing it did not raise, and the outcome. */
  datatype Exchange = Exchange(sent: Option<Request>, outcome: Outcome)

  function Lift(r: Result<Value, Error>): Outcome {
    if r.Ok? then Payload(r.value) else Raised(r.error)
  }

  // ----- the status table -----

  /** The fifteen public operations. */
  datatype Operation =
    | GetSeries | CreateSeries | CreateOrUpdateSeries | UpdateSeries | DeleteSeries
    | GetRule | GetRules | CreateRule | CreateOrUpdateRule | UpdateRule | DeleteRule
    | GetOccurrences | GetOccurrence | UpdateOccurrence | DeleteOccurrence
  {
    function Verb(): Verb {
      match this
      case GetSeries | GetRule | GetRules | GetOccurrences | GetOccurrence => GET
      case CreateSeries | CreateRule => POST
      case CreateOrUpdateSeries | CreateOrUpdateRule => PUT
      case UpdateSeries | UpdateRule | UpdateOccurrence => PATCH
      case DeleteSeries | DeleteRule | DeleteOccurrence => DELETE
    }
  }

  /** How an operation reads a status code: the codes it accepts, and whether
      404 means "not there" rather than a failure. */
  datatype StatusRow = StatusRow(success: set<int>, absentOn404: bool)

  /** The status handling of every operation, as a table: POST accepts only
      201, PUT 200 or 201, everything else 200; every single-resource GET,
      PATCH and DELETE, and `get_rules`, answer 404 with nil. */
  function Row(op: Operation): StatusRow {
    match op
    case CreateSeries | CreateRule => StatusRow({201}, false)
    case CreateOrUpdateSeries | CreateOrUpdateRule => StatusRow({200, 201}, false)
    case GetOccurrences => StatusRow({200}, false)
    case _ => StatusRow({200}, true)
  }

  /** `o` is how the row of `op` answers `code` on `path`: an accepted code
      yields the payload (or an exception reading it), 404 yields nil where
      the row says so, and every other code the failure naming the verb, the
      path and the code. */
  predicate FollowsRow(op: Operation, path: string, code: int, o: Outcome) {
    var row := Row(op);
    (code in row.success ==> o.Payload? || o.Raised?) &&
    (code !in row.success && code == 404 && row.absentOn404 ==> o == Absent) &&
    (code !in row.success && !(code == 404 && row.absentOn404) ==> o == Failed(op.Verb(), path, code))
  }

  // ----- reading the parsed body -----

  /** The text of a String or Symbol, the receivers whose `[]` takes a String. */
  function Text(v: Value): string
    requires v.Str? || v.Symbol?
  {
    if v.Str? then v.s else v.name
  }

  predicate OccursAt(s: string, sub: string, i: nat) {
    i + |sub| <= |s| && s[i..i + |sub|] == sub
  }

  /** `sub` occurs somewhere in `s`. */
  predicate Contains(s: string, sub: string) {
    exists i: nat | i <= |s| :: OccursAt(s, sub, i)
  }

  /** `body[name]`: a Hash gives the value under the String key, a String or
      Symbol gives `name` when it occurs in its text and nil otherwise, and
      every other object raises. */
  function Index(body: Value, name: string): (r: Result<Value, Error>)
    ensures body.Hash? ==> r == Ok(Fetch(body.pairs, StrKey(name)))
    ensures r.Err? <==> !(body.Hash? || body.Str? || body.Symbol?)
  {
    match body
    case Hash(ps) => Ok(Fetch(ps, StrKey(name)))
    case Str(_) => Ok(if Contains(Text(body), name) then Str(name) else Nil)
    case Symbol(_) => Ok(if Contains(Text(body), name) then Str(name) else Nil)
    case _ => Err(NoMethod("[]", ClassName(body)))
  }

  // ----- request preparation -----

  /** `iso8601_param`: a time in its own offset, anything else by `to_s`. */
  function Iso8601Param(rt: Runtime, v: Value): (r: string)
    ensures v.Str? ==> r == v.s
  {
    if v.Time? then rt.iso8601(v.t) else ToS(rt, v)
  }

  /** The duration `prepare_rule_attributes` sends for a rule of a series:
      the series' own when it is truthy, the rule's otherwise. */
  function SeriesDuration(series: seq<Entry>, rule: RuleState): Value {
    var d := Fetch(series, SymKey("duration"));
    if Truthy(d) then d else if rule.duration.Some? then Int(rule.duration.value) else Nil
  }

  /** The Hash `prepare_rule_attributes` fills for a built rule: its id and
      recurrence, and for a rule of a series the duration and the series'
      time zone. */
  function RuleEntries(rule: RuleState, series: Option<seq<Entry>>): (ps: seq<Entry>)
    ensures DistinctKeys(ps)
    ensures KeysOf(ps) ==
      {SymKey("id"), SymKey("recurrence")} + (if series.Some? then {SymKey("duration"), SymKey("time_zone")} else {})
    ensures Fetch(ps, SymKey("id")) == Str(rule.id)
    ensures Fetch(ps, SymKey("recurrence")) == Hash(rule.recurrence)
    ensures series.Some? ==>
      Fetch(ps, SymKey("duration")) == SeriesDuration(series.value, rule) &&
      Fetch(ps, SymKey("time_zone")) == Fetch(series.value, SymKey("time_zone"))
  {
    var base := [Entry(SymKey("id"), Str(rule.id)), Entry(SymKey("recurrence"), Hash(rule.recurrence))];
    var ps := base +
      (if series.None? then []
       else [Entry(SymKey("duration"), SeriesDuration(series.value, rule)),
             Entry(SymKey("time_zone"), Fetch(series.value, SymKey("time_zone")))]);
    assert DistinctKeys(ps);
    LookupEvery(ps);
    assert KeysOf(ps) ==
      {SymKey("id"), SymKey("recurrence")} + (if series.Some? then {SymKey("duration"), SymKey("time_zone")} else {}) by {
      assert forall i | 0 <= i < |ps| :: ps[i] in ps;
    }
    ps
  }

  /** `prepare_rule_attributes`: a new Rule built from the attributes, sent as
      its id and recurrence; for a rule of a series also the duration and the
      series' time zone. */
  function PrepareRule(rt: Runtime, freshId: string, attributes: Value, series: Option<seq<Entry>>): (r: Result<Value, Error>)
    ensures r.Err? <==> Construct(rt, freshId, attributes).Err?
    ensures r.Ok? ==> r.value.Hash? && DistinctKeys(r.value.pairs)
    ensures r.Ok? ==>
      KeysOf(r.value.pairs) ==
        {SymKey("id"), SymKey("recurrence")} + (if series.Some? then {SymKey("duration"), SymKey("time_zone")} else {})
    ensures r.Ok? ==>
      var rule := Construct(rt, freshId, attributes).value;
      Fetch(r.value.pairs, SymKey("id")) == Str(rule.id) &&
      Fetch(r.value.pairs, SymKey("recurrence")) == Hash(rule.recurrence) &&
      (series.Some? ==>
        Fetch(r.value.pairs, SymKey("duration")) == SeriesDuration(series.value, rule) &&
        Fetch(r.value.pairs, SymKey("time_zone")) == Fetch(series.value, SymKey("time_zone")))
  {
    var rule :- Construct(rt, freshId, attributes);
    Ok(Hash(RuleEntries(rule, series)))
  }

  /** A rule of a series reads only the series' `duration` and `time_zone`. */
  lemma {:induction false} PrepareRuleReadsSeriesView(rt: Runtime, freshId: string, a: Value, s1: seq<Entry>, s2: seq<Entry>)
    requires Fetch(s1, SymKey("duration")) == Fetch(s2, SymKey("duration"))
    requires Fetch(s1, SymKey("time_zone")) == Fetch(s2, SymKey("time_zone"))
    ensures PrepareRule(rt, freshId, a, Some(s1)) == PrepareRule(rt, freshId, a, Some(s2))
  {
  }

  /** What a call that works on the caller's Hash leaves behind: the Hash's
      pairs afterwards and the exception it raised, if any. Ruby keeps every
      change made before the exception. */
  datatype Mutation = Mutation(after: seq<Entry>, error: Option<Error>)

  /** `map!` from position `i` stopped at rule `k` with exception `e`: rule
      `k` raised `e`, the rules from `i` up to `k` were replaced by their
      prepared forms in `out`, and `k` and every rule after it are as given. */
  predicate FailsAt(rt: Runtime, freshIds: nat -> string, series: seq<Entry>, items: seq<Value>, i: nat,
                    out: seq<Value>, e: Error, k: nat)
    requires i <= k < |items| == |out|
  {
    PrepareRule(rt, freshIds(k), items[k], Some(series)) == Err(e) &&
    PreparedBetween(rt, freshIds, series, items, out, i, k) &&
    (forall j | k <= j < |items| :: out[j] == items[j])
  }

  /** Every rule from `lo` up to `hi` was prepared into `out` without an
      exception. */
  predicate PreparedBetween(rt: Runtime, freshIds: nat -> string, series: seq<Entry>, items: seq<Value>,
                            out: seq<Value>, lo: nat, hi: nat)
    requires lo <= hi <= |items| == |out|
  {
    forall j | lo <= j < hi :: PrepareRule(rt, freshIds(j), items[j], Some(series)) == Ok(out[j])
  }

  /** Rules prepared from `i + 1` on, after rule `i` was prepared into `p`,
      are the rules prepared from `i` on before that step. */
  lemma PreparedEarlier(rt: Runtime, freshIds: nat -> string, series: seq<Entry>, items: seq<Value>, i: nat,
                        p: Value, out: seq<Value>)
    requires i < |items| == |out|
    requires PrepareRule(rt, freshIds(i), items[i], Some(series)) == Ok(p) && out[i] == p
    requires PreparedBetween(rt, freshIds, series, items[i := p], out, i + 1, |items|)
    ensures PreparedBetween(rt, freshIds, series, items, out, i, |items|)
  {
    forall j | i < j < |items|
      ensures PrepareRule(rt, freshIds(j), items[j], Some(series)) == Ok(out[j])
    {
      assert items[i := p][j] == items[j];
    }
  }

  /** A failure at `k` seen from `i + 1`, after rule `i` was prepared into
      `p`, is a failure at `k` seen from `i` on the rules before that step. */
  lemma FailsAtEarlier(rt: Runtime, freshIds: nat -> string, series: seq<Entry>, items: seq<Value>, i: nat,
                       p: Value, out: seq<Value>, e: Error, k: nat)
    requires i < k < |items| == |out|
    requires PrepareRule(rt, freshIds(i), items[i], Some(series)) == Ok(p) && out[i] == p
    requires FailsAt(rt, freshIds, series, items[i := p], i + 1, out, e, k)
    ensures FailsAt(rt, freshIds, series, items, i, out, e, k)
  {
    assert items[i := p][k] == items[k];
    forall j | i < j < k
      ensures PrepareRule(rt, freshIds(j), items[j], Some(series)) == Ok(out[j])
    {
      assert items[i := p][j] == items[j];
    }
    forall j | k <= j < |items|
      ensures out[j] == items[j]
    {
      assert items[i := p][j] == items[j];
    }
  }

  /** `rules.map!` from position `i` on: each rule replaced by its prepared
      form, rule `i` drawing the uuid `freshIds(i)`; the first exception
      leaves the rules before it replaced and the rest as they were. */
  function MapRules(rt: Runtime, freshIds: nat -> string, series: seq<Entry>, items: seq<Value>, i: nat): (r: (seq<Value>, Option<Error>))
    requires i <= |items|
    ensures |r.0| == |items|
    ensures forall j | 0 <= j < i :: r.0[j] == items[j]
    ensures r.1.None? ==> PreparedBetween(rt, freshIds, series, items, r.0, i, |items|)
    ensures r.1.Some? ==> exists k | i <= k < |items| :: FailsAt(rt, freshIds, series, items, i, r.0, r.1.value, k)
    decreases |items| - i
  {
    if i == |items| then (items, None)
    else
      match PrepareRule(rt, freshIds(i), items[i], Some(series))
      case Err(e) =>
        assert FailsAt(rt, freshIds, series, items, i, items, e, i);
        (items, Some(e))
      case Ok(p) =>
        var rest := MapRules(rt, freshIds, series, items[i := p], i + 1);
        assert rest.1.None? ==> PreparedBetween(rt, freshIds, series, items, rest.0, i, |items|) by {
          if rest.1.None? {
            PreparedEarlier(rt, freshIds, series, items, i, p, rest.0);
          }
        }
        assert rest.1.Some? ==> exists k | i <= k < |items| :: FailsAt(rt, freshIds, series, items, i, rest.0, rest.1.value, k) by {
          if rest.1.Some? {
            var k :| i + 1 <= k < |items| && FailsAt(rt, freshIds, series, items[i := p], i + 1, rest.0, rest.1.value, k);
            FailsAtEarlier(rt, freshIds, series, items, i, p, rest.0, rest.1.value, k);
          }
        }
        rest
  }

  /** One turn of `map!`: a rule that prepares without an exception is
      replaced and the rest of the walk continues from the next rule. */
  lemma MapRulesStep(rt: Runtime, freshIds: nat -> string, series: seq<Entry>, items: seq<Value>, i: nat, p: Value)
    requires i < |items|
    requires PrepareRule(rt, freshIds(i), items[i], Some(series)) == Ok(p)
    ensures MapRules(rt, freshIds, series, items, i) == MapRules(rt, freshIds, series, items[i := p], i + 1)
  {
  }

  /** A rule that raises ends `map!` with that exception, the rules as they
      stand. */
  lemma MapRulesStops(rt: Runtime, freshIds: nat -> string, series: seq<Entry>, items: seq<Value>, i: nat, e: Error)
    requires i < |items|
    requires PrepareRule(rt, freshIds(i), items[i], Some(series)) == Err(e)
    ensures MapRules(rt, freshIds, series, items, i) == (items, Some(e))
  {
  }

  /** Past the last rule `map!` is done. */
  lemma MapRulesDone(rt: Runtime, freshIds: nat -> string, series: seq<Entry>, items: seq<Value>)
    ensures MapRules(rt, freshIds, series, items, |items|) == (items, None)
  {
  }

  /** `prepare_series_attributes` on a Hash, which it changes in place: the
      rules default to `[]` and each rule is replaced by its prepared form. */
  function PrepareSeriesPairs(rt: Runtime, freshIds: nat -> string, ps: seq<Entry>): Mutation {
    var rules := Fetch(ps, SymKey("rules"));
    var ps1 := if Truthy(rules) then ps else Put(ps, SymKey("rules"), Array([]));
    var list := Fetch(ps1, SymKey("rules"));
    if !list.Array? then Mutation(ps1, Some(NoMethod("map!", ClassName(list))))
    else
      var m := MapRules(rt, freshIds, ps1, list.items, 0);
      Mutation(Put(ps1, SymKey("rules"), Array(m.0)), m.1)
  }

  /** `prepare_series_attributes`: nil and false stand for a new empty Hash,
      a Hash is prepared in place, and anything else has no `[]` for a
      Symbol. */
  function PrepareSeries(rt: Runtime, freshIds: nat -> string, attributes: Value): Result<Value, Error> {
    var a := if Truthy(attributes) then attributes else Hash([]);
    if !a.Hash? then Err(NoMethod("[]", ClassName(a)))
    else
      var m := PrepareSeriesPairs(rt, freshIds, a.pairs);
      if m.error.Some? then Err(m.error.value) else Ok(Hash(m.after))
  }

  /** `out` carries the field `name` of `attributes` as
      `prepare_occurrence_attributes` sends it: exactly when it is present,
      and then as its `iso8601_param`. */
  predicate SendsField(rt: Runtime, attributes: seq<Entry>, out: seq<Entry>, name: string) {
    var v := Fetch(attributes, SymKey(name));
    (SymKey(name) in KeysOf(out) <==> Present(v)) &&
    (Present(v) ==> Fetch(out, SymKey(name)) == Str(Iso8601Param(rt, v)))
  }

  /** `prepare_occurrence_attributes`: only a present `starts_at` and a
      present `ends_at`, each as an `iso8601_param`. */
  function PrepareOccurrence(rt: Runtime, attributes: Value): (r: Result<Value, Error>)
    ensures r.Err? <==> !attributes.Hash?
    ensures r.Ok? ==> r.value.Hash? && DistinctKeys(r.value.pairs)
    ensures r.Ok? ==> SendsField(rt, attributes.pairs, r.value.pairs, "starts_at")
    ensures r.Ok? ==> SendsField(rt, attributes.pairs, r.value.pairs, "ends_at")
    ensures r.Ok? ==> KeysOf(r.value.pairs) <= {SymKey("starts_at"), SymKey("ends_at")}
  {
    if !attributes.Hash? then Err(NoMethod("[]", ClassName(attributes)))
    else
      var s := Fetch(attributes.pairs, SymKey("starts_at"));
      var e := Fetch(attributes.pairs, SymKey("ends_at"));
      var ps1 := if Present(s) then [Entry(SymKey("starts_at"), Str(Iso8601Param(rt, s)))] else [];
      var ps2 := if Present(e) then ps1 + [Entry(SymKey("ends_at"), Str(Iso8601Param(rt, e)))] else ps1;
      assert DistinctKeys(ps2);
      assert forall x | x in ps2 :: x.key == SymKey("starts_at") || x.key == SymKey("ends_at");
      LookupEvery(ps2);
      LookupKeys(ps2, SymKey("starts_at"));
      LookupKeys(ps2, SymKey("ends_at"));
      Ok(Hash(ps2))
  }

  /** `sanitize_filters` on a Hash, which it changes in place: a present
      `interval_starts_at`, then a present `interval_ends_at`, replaced by its
      `iso8601_param`. */
  function SanitizedPairs(rt: Runtime, ps: seq<Entry>): seq<Entry> {
    var s := Fetch(ps, SymKey("interval_starts_at"));
    var ps1 := if Present(s) then Put(ps, SymKey("interval_starts_at"), Str(Iso8601Param(rt, s))) else ps;
    var e := Fetch(ps1, SymKey("interval_ends_at"));
    if Present(e) then Put(ps1, SymKey("interval_ends_at"), Str(Iso8601Param(rt, e))) else ps1
  }

  /** `sanitize_filters`: only a Hash has `[]` for a Symbol key. */
  function SanitizeFilters(rt: Runtime, filters: Value): Result<Value, Error> {
    if filters.Hash? then Ok(Hash(SanitizedPairs(rt, filters.pairs)))
    else Err(NoMethod("[]", ClassName(filters)))
  }

  // ----- the occurrence payload -----

  /** `Time.zone.parse(v)` for a value read from the body: a String becomes a
      time, or nil when it holds no date; other objects are not Strings. */
  function ParseTime(rt: Runtime, v: Value): Result<Value, Error> {
    if !v.Str? then Err(NoMethod("parse", ClassName(v)))
    else
      match rt.zoneParse(v.s)
      case Parsed(t) => Ok(Time(t))
      case NoTime => Ok(Nil)
      case OutOfRange => Err(ArgumentError(v.s))
  }

  /** `p[name] = Time.zone.parse(p[name]) if p[name]` on a Hash, in place. */
  function ConvertTimeField(rt: Runtime, ps: seq<Entry>, name: string): Mutation {
    var v := Fetch(ps, StrKey(name));
    if !Truthy(v) then Mutation(ps, None)
    else
      match ParseTime(rt, v)
      case Ok(t) => Mutation(Put(ps, StrKey(name), t), None)
      case Err(e) => Mutation(ps, Some(e))
  }

  /** `build_occurrence_payload` on a Hash, which it changes in place:
      `starts_at`, then `ends_at`, parsed into times when truthy. */
  function PayloadPairs(rt: Runtime, ps: seq<Entry>): Mutation {
    var m := ConvertTimeField(rt, ps, "starts_at");
    if m.error.Some? then m else ConvertTimeField(rt, m.after, "ends_at")
  }

  /** `build_occurrence_payload`: nil for nil and false; a Hash with its times
      parsed; a String or Symbol that mentions neither key is returned as it
      is, one that does fails to take the assignment; anything else raises. */
  function BuildOccurrencePayload(rt: Runtime, v: Value): (r: Result<Value, Error>)
    ensures !Truthy(v) ==> r == Ok(Nil)
  {
    if !Truthy(v) then Ok(Nil)
    else if v.Hash? then
      var m := PayloadPairs(rt, v.pairs);
      if m.error.Some? then Err(m.error.value) else Ok(Hash(m.after))
    else if v.Str? || v.Symbol? then
      if Contains(Text(v), "starts_at") then
        var _ :- ParseTime(rt, Str("starts_at"));
        Err(NoMethod("[]=", ClassName(v)))
      else if Contains(Text(v), "ends_at") then
        var _ :- ParseTime(rt, Str("ends_at"));
        Err(NoMethod("[]=", ClassName(v)))
      else Ok(v)
    else Err(NoMethod("[]", ClassName(v)))
  }

  /** The payloads of a list of occurrences, in order; the first exception
      ends the list. */
  function BuildAll(rt: Runtime, xs: seq<Value>): (r: Result<seq<Value>, Error>)
    ensures r.Ok? ==>
      |r.value| == |xs| &&
      forall j | 0 <= j < |xs| :: BuildOccurrencePayload(rt, xs[j]) == Ok(r.value[j])
    ensures r.Err? ==> exists j | 0 <= j < |xs| :: BuildOccurrencePayload(rt, xs[j]) == Err(r.error)
  {
    if |xs| == 0 then Ok([])
    else
      var first :- BuildOccurrencePayload(rt, xs[0]);
      var rest :- BuildAll(rt, xs[1..]);
      assert forall j | 1 <= j < |xs| :: xs[j] == xs[1..][j - 1];
      Ok([first] + rest)
  }

  /** `(body['occurrences'] || []).map { |h| build_occurrence_payload(h) }`:
      a missing list is empty; a Hash maps its `[key, value]` pairs, which
      are Arrays and raise; other objects have no `map`. */
  function OccurrenceList(rt: Runtime, v: Value): Result<Value, Error> {
    if !Truthy(v) then Ok(Array([]))
    else
      match v
      case Array(xs) =>
        var ys :- BuildAll(rt, xs);
        Ok(Array(ys))
      case Hash(ps) => if |ps| == 0 then Ok(Array([])) else Err(NoMethod("[]", "Array"))
      case _ => Err(NoMethod("map", ClassName(v)))
  }

  // ----- the operations -----

  /** The three collections of the service. */
  datatype Resource = Series | Rules | Occurrences {
    function Segment(): string {
      match this
      case Series => "series"
      case Rules => "rules"
      case Occurrences => "occurrences"
    }
  }

  /** A connector for one organization and scope. Ids are interpolated as
      Strings. */
  datatype Connector = Connector(oid: string, scope: string) {

    /** `base_path`. */
    function BasePath(): string {
      "/v1/" + oid + "/" + scope
    }

    /** The path of a collection, or of one of its members. */
    function Path(r: Resource, id: Option<string>): (p: string)
      ensures id.None? ==> p == "/v1/" + oid + "/" + scope + "/" + r.Segment()
      ensures id.Some? ==> p == "/v1/" + oid + "/" + scope + "/" + r.Segment() + "/" + id.value
    {
      var collection := BasePath() + "/" + r.Segment();
      if id.Some? then collection + "/" + id.value else collection
    }

    /** A request that sends no query. */
    function Plain(op: Operation, path: string): Option<Request> {
      Some(Request(op.Verb(), path, None))
    }

    function GetSeries(seriesId: string, code: int, body: Value): (x: Exchange)
      ensures x.sent == Some(Request(GET, Path(Series, Some(seriesId)), None))
      ensures FollowsRow(Operation.GetSeries, Path(Series, Some(seriesId)), code, x.outcome)
      ensures code == 200 ==> x.outcome == Lift(Index(body, "series"))
    {
      var path := Path(Series, Some(seriesId));
      Exchange(Plain(Operation.GetSeries, path),
        if code == 200 then Lift(Index(body, "series"))
        else if code == 404 then Absent
        else Failed(GET, path, code))
    }

    function CreateSeries(rt: Runtime, freshIds: nat -> string, attributes: Value, code: int, body: Value): (x: Exchange)
      ensures x.sent.None? <==> PrepareSeries(rt, freshIds, attributes).Err?
      ensures x.sent.None? ==> x.outcome == Raised(PrepareSeries(rt, freshIds, attributes).error)
      ensures x.sent.Some? ==>
        x.sent.value == Request(POST, Path(Series, None), Some(PrepareSeries(rt, freshIds, attributes).value)) &&
        FollowsRow(Operation.CreateSeries, Path(Series, None), code, x.outcome) &&
        (code == 201 ==> x.outcome == Payload(body))
    {
      var path := Path(Series, None);
      match PrepareSeries(rt, freshIds, attributes)
      case Err(e) => Exchange(None, Raised(e))
      case Ok(q) =>
        Exchange(Some(Request(POST, path, Some(q))),
          if code == 201 then Payload(body) else Failed(POST, path, code))
    }

    function CreateOrUpdateSeries(rt: Runtime, freshIds: nat -> string, seriesId: string, attributes: Value, code: int, body: Value): (x: Exchange)
      ensures x.sent.None? <==> PrepareSeries(rt, freshIds, attributes).Err?
      ensures x.sent.None? ==> x.outcome == Raised(PrepareSeries(rt, freshIds, attributes).error)
      ensures x.sent.Some? ==>
        x.sent.value == Request(PUT, Path(Series, Some(seriesId)), Some(PrepareSeries(rt, freshIds, attributes).value)) &&
        FollowsRow(Operation.CreateOrUpdateSeries, Path(Series, Some(seriesId)), code, x.outcome) &&
        (code in {200, 201} ==> x.outcome == Payload(body))
    {
      var path := Path(Series, Some(seriesId));
      match PrepareSeries(rt, freshIds, attributes)
      case Err(e) => Exchange(None, Raised(e))
      case Ok(q) =>
        Exchange(Some(Request(PUT, path, Some(q))),
          if code == 200 || code == 201 then Payload(body) else Failed(PUT, path, code))
    }

    function UpdateSeries(rt: Runtime, freshIds: nat -> string, seriesId: string, attributes: Value, code: int, body: Value): (x: Exchange)
      ensures x.sent.None? <==> PrepareSeries(rt, freshIds, attributes).Err?
      ensures x.sent.None? ==> x.outcome == Raised(PrepareSeries(rt, freshIds, attributes).error)
      ensures x.sent.Some? ==>
        x.sent.value == Request(PATCH, Path(Series, Some(seriesId)), Some(PrepareSeries(rt, freshIds, attributes).value)) &&
        FollowsRow(Operation.UpdateSeries, Path(Series, Some(seriesId)), code, x.outcome) &&
        (code == 200 ==> x.outcome == Payload(body))
    {
      var path := Path(Series, Some(seriesId));
      match PrepareSeries(rt, freshIds, attributes)
      case Err(e) => Exchange(None, Raised(e))
      case Ok(q) =>
        Exchange(Some(Request(PATCH, path, Some(q))),
          if code == 200 then Payload(body)
          else if code == 404 then Absent
          else Failed(PATCH, path, code))
    }

    function DeleteSeries(seriesId: string, code: int, body: Value): (x: Exchange)
      ensures x.sent == Some(Request(DELETE, Path(Series, Some(seriesId)), None))
      ensures FollowsRow(Operation.DeleteSeries, Path(Series, Some(seriesId)), code, x.outcome)
      ensures code == 200 ==> x.outcome == Payload(body)
    {
      var path := Path(Series, Some(seriesId));
      Exchange(Plain(Operation.DeleteSeries, path),
        if code == 200 then Payload(body)
        else if code == 404 then Absent
        else Failed(DELETE, path, code))
    }

    function GetRule(ruleId: string, code: int, body: Value): (x: Exchange)
      ensures x.sent == Some(Request(GET, Path(Rules, Some(ruleId)), None))
      ensures FollowsRow(Operation.GetRule, Path(Rules, Some(ruleId)), code, x.outcome)
      ensures code == 200 ==> x.outcome == Payload(body)
    {
      var path := Path(Rules, Some(ruleId));
      Exchange(Plain(Operation.GetRule, path),
        if code == 200 then Payload(body)
        else if code == 404 then Absent
        else Failed(GET, path, code))
    }

    function GetRules(rt: Runtime, filters: Value, code: int, body: Value): (x: Exchange)
      ensures x.sent.None? <==> !filters.Hash?
      ensures x.sent.Some? ==>
        x.sent.value == Request(GET, Path(Rules, None), Some(Hash(SanitizedPairs(rt, filters.pairs)))) &&
        FollowsRow(Operation.GetRules, Path(Rules, None), code, x.outcome) &&
        (code == 200 ==> x.outcome == Lift(Index(body, "rules")))
    {
      var path := Path(Rules, None);
      match SanitizeFilters(rt, filters)
      case Err(e) => Exchange(None, Raised(e))
      case Ok(q) =>
        Exchange(Some(Request(GET, path, Some(q))),
          if code == 200 then Lift(Index(body, "rules"))
          else if code == 404 then Absent
          else Failed(GET, path, code))
    }

    function CreateRule(rt: Runtime, freshId: string, attributes: Value, code: int, body: Value): (x: Exchange)
      ensures x.sent.None? <==> Construct(rt, freshId, attributes).Err?
      ensures x.sent.None? ==> x.outcome == Raised(Construct(rt, freshId, attributes).error)
      ensures x.sent.Some? ==>
        x.sent.value == Request(POST, Path(Rules, None), Some(PrepareRule(rt, freshId, attributes, None).value)) &&
        FollowsRow(Operation.CreateRule, Path(Rules, None), code, x.outcome) &&
        (code == 201 ==> x.outcome == Payload(body))
    {
      var path := Path(Rules, None);
      match PrepareRule(rt, freshId, attributes, None)
      case Err(e) => Exchange(None, Raised(e))
      case Ok(q) =>
        Exchange(Some(Request(POST, path, Some(q))),
          if code == 201 then Payload(body) else Failed(POST, path, code))
    }

    function CreateOrUpdateRule(rt: Runtime, freshId: string, ruleId: string, attributes: Value, code: int, body: Value): (x: Exchange)
      ensures x.sent.None? <==> Construct(rt, freshId, attributes).Err?
      ensures x.sent.None? ==> x.outcome == Raised(Construct(rt, freshId, attributes).error)
      ensures x.sent.Some? ==>
        x.sent.value == Request(PUT, Path(Rules, Some(ruleId)), Some(PrepareRule(rt, freshId, attributes, None).value)) &&
        FollowsRow(Operation.CreateOrUpdateRule, Path(Rules, Some(ruleId)), code, x.outcome) &&
        (code in {200, 201} ==> x.outcome == Payload(body))
    {
      var path := Path(Rules, Some(ruleId));
      match PrepareRule(rt, freshId, attributes, None)
      case Err(e) => Exchange(None, Raised(e))
      case Ok(q) =>
        Exchange(Some(Request(PUT, path, Some(q))),
          if code == 200 || code == 201 then Payload(body) else Failed(PUT, path, code))
    }

    function UpdateRule(rt: Runtime, freshId: string, ruleId: string, attributes: Value, code: int, body: Value): (x: Exchange)
      ensures x.sent.None? <==> Construct(rt, freshId, attributes).Err?
      ensures x.sent.None? ==> x.outcome == Raised(Construct(rt, freshId, attributes).error)
      ensures x.sent.Some? ==>
        x.sent.value == Request(PATCH, Path(Rules, Some(ruleId)), Some(PrepareRule(rt, freshId, attributes, None).value)) &&
        FollowsRow(Operation.UpdateRule, Path(Rules, Some(ruleId)), code, x.outcome) &&
        (code == 200 ==> x.outcome == Payload(body))
    {
      var path := Path(Rules, Some(ruleId));
      match PrepareRule(rt, freshId, attributes, None)
      case Err(e) => Exchange(None, Raised(e))
      case Ok(q) =>
        Exchange(Some(Request(PATCH, path, Some(q))),
          if code == 200 then Payload(body)
          else if code == 404 then Absent
          else Failed(PATCH, path, code))
    }

    function DeleteRule(ruleId: string, code: int, body: Value): (x: Exchange)
      ensures x.sent == Some(Request(DELETE, Path(Rules, Some(ruleId)), None))
      ensures FollowsRow(Operation.DeleteRule, Path(Rules, Some(ruleId)), code, x.outcome)
      ensures code == 200 ==> x.outcome == Payload(body)
    {
      var path := Path(Rules, Some(ruleId));
      Exchange(Plain(Operation.DeleteRule, path),
        if code == 200 then Payload(body)
        else if code == 404 then Absent
        else Failed(DELETE, path, code))
    }

    function GetOccurrences(rt: Runtime, filters: Value, code: int, body: Value): (x: Exchange)
      ensures x.sent.None? <==> !filters.Hash?
      ensures x.sent.Some? ==>
        x.sent.value == Request(GET, Path(Occurrences, None), Some(Hash(SanitizedPairs(rt, filters.pairs)))) &&
        FollowsRow(Operation.GetOccurrences, Path(Occurrences, None), code, x.outcome) &&
        (code == 200 ==> x.outcome == Lift(var l :- Index(body, "occurrences"); OccurrenceList(rt, l)))
    {
      var path := Path(Occurrences, None);
      match SanitizeFilters(rt, filters)
      case Err(e) => Exchange(None, Raised(e))
      case Ok(q) =>
        Exchange(Some(Request(GET, path, Some(q))),
          if code == 200 then Lift(var l :- Index(body, "occurrences"); OccurrenceList(rt, l))
          else Failed(GET, path, code))
    }

    function GetOccurrence(rt: Runtime, occurrenceId: string, code: int, body: Value): (x: Exchange)
      ensures x.sent == Some(Request(GET, Path(Occurrences, Some(occurrenceId)), None))
      ensures FollowsRow(Operation.GetOccurrence, Path(Occurrences, Some(occurrenceId)), code, x.outcome)
      ensures code == 200 ==> x.outcome == Lift(var h :- Index(body, "occurrence"); BuildOccurrencePayload(rt, h))
    {
      var path := Path(Occurrences, Some(occurrenceId));
      Exchange(Plain(Operation.GetOccurrence, path),
        if code == 200 then Lift(var h :- Index(body, "occurrence"); BuildOccurrencePayload(rt, h))
        else if code == 404 then Absent
        else Failed(GET, path, code))
    }

    function UpdateOccurrence(rt: Runtime, occurrenceId: string, attributes: Value, code: int, body: Value): (x: Exchange)
      ensures x.sent.None? <==> !attributes.Hash?
      ensures x.sent.Some? ==>
        x.sent.value == Request(PATCH, Path(Occurrences, Some(occurrenceId)), Some(PrepareOccurrence(rt, attributes).value)) &&
        FollowsRow(Operation.UpdateOccurrence, Path(Occurrences, Some(occurrenceId)), code, x.outcome) &&
        (code == 200 ==> x.outcome == Lift(var h :- Index(body, "occurrence"); BuildOccurrencePayload(rt, h)))
    {
      var path := Path(Occurrences, Some(occurrenceId));
      match PrepareOccurrence(rt, attributes)
      case Err(e) => Exchange(None, Raised(e))
      case Ok(q) =>
        Exchange(Some(Request(PATCH, path, Some(q))),
          if code == 200 then Lift(var h :- Index(body, "occurrence"); BuildOccurrencePayload(rt, h))
          else if code == 404 then Absent
          else Failed(PATCH, path, code))
    }

    function DeleteOccurrence(occurrenceId: string, code: int, body: Value): (x: Exchange)
      ensures x.sent == Some(Request(DELETE, Path(Occurrences, Some(occurrenceId)), None))
      ensures FollowsRow(Operation.DeleteOccurrence, Path(Occurrences, Some(occurrenceId)), code, x.outcome)
      ensures code == 200 ==> x.outcome == Payload(body)
    {
      var path := Path(Occurrences, Some(occurrenceId));
      Exchange(Plain(Operation.DeleteOccurrence, path),
        if code == 200 then Payload(body)
        else if code == 404 then Absent
        else Failed(DELETE, path, code))
    }
  }
}
