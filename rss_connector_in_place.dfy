/** The three helpers of RSS::Connector that change the caller's Hash rather
    than build a new one: `prepare_series_attributes` (`||=` and `map!`),
    `sanitize_filters` and `build_occurrence_payload` (both through `tap`).
    Each method updates the Hash object step by step and is proved to leave
    it as the matching function in rss_connector.dfy says, exceptions
    included. */
module RssConnectorInPlace {
  import opened Results
  import opened RubyValues
  import opened RubyRuntime
  import opened RssConnector

  /** A Ruby Hash object, which several callers can hold. */
  class HashRef {
    var pairs: seq<Entry>

    constructor(ps: seq<Entry>)
      ensures pairs == ps
    {
      pairs := ps;
    }
  }

  /** `prepare_series_attributes` on a Hash: `attributes[:rules] ||= []`, then
      `map!` over the rules, replacing each in the Hash as it goes. */
  method PrepareSeriesAttributes(rt: Runtime, freshIds: nat -> string, h: HashRef) returns (err: Option<Error>)
    modifies h
    ensures Mutation(h.pairs, err) == PrepareSeriesPairs(rt, freshIds, old(h.pairs))
  {
    var rulesKey := SymKey("rules");
    if !Truthy(Fetch(h.pairs, rulesKey)) {
      h.pairs := Put(h.pairs, rulesKey, Array([]));
    }
    var list := Fetch(h.pairs, rulesKey);
    if !list.Array? {
      return Some(NoMethod("map!", ClassName(list)));
    }
    err := MapRulesInPlace(rt, freshIds, h, list.items);
  }

  /** `attributes[:rules].map!`: each rule prepared against the series Hash as
      it stands and written back into the rules Array held by that Hash. */
  method MapRulesInPlace(rt: Runtime, freshIds: nat -> string, h: HashRef, rules: seq<Value>) returns (err: Option<Error>)
    requires Fetch(h.pairs, SymKey("rules")) == Array(rules)
    modifies h
    ensures var m := MapRules(rt, freshIds, old(h.pairs), rules, 0);
      h.pairs == Put(old(h.pairs), SymKey("rules"), Array(m.0)) && err == m.1
  {
    var rulesKey := SymKey("rules");
    ghost var start := h.pairs;
    assert Lookup(start, rulesKey) == Some(Array(rules));
    PutSame(start, rulesKey, Array(rules));
    var items := rules;
    var i := 0;
    while i < |items|
      invariant 0 <= i <= |items|
      invariant h.pairs == Put(start, rulesKey, Array(items))
      invariant MapRules(rt, freshIds, start, rules, 0) == MapRules(rt, freshIds, start, items, i)
    {
      RulesKeepSeriesView(rt, freshIds(i), items[i], start, items);
      var p := PrepareRule(rt, freshIds(i), items[i], Some(h.pairs));
      if p.Err? {
        MapRulesStops(rt, freshIds, start, items, i, p.error);
        return Some(p.error);
      }
      ghost var before := items;
      MapRulesStep(rt, freshIds, start, items, i, p.value);
      items := items[i := p.value];
      h.pairs := Put(h.pairs, rulesKey, Array(items));
      PutOverwrite(start, rulesKey, Array(before), Array(items));
      i := i + 1;
    }
    MapRulesDone(rt, freshIds, start, items);
    err := None;
  }

  /** Rewriting the series' rules leaves what a rule of it reads unchanged. */
  lemma RulesKeepSeriesView(rt: Runtime, freshId: string, a: Value, series: seq<Entry>, items: seq<Value>)
    ensures PrepareRule(rt, freshId, a, Some(Put(series, SymKey("rules"), Array(items)))) ==
            PrepareRule(rt, freshId, a, Some(series))
  {
    LookupPut(series, SymKey("rules"), Array(items), SymKey("duration"));
    LookupPut(series, SymKey("rules"), Array(items), SymKey("time_zone"));
    PrepareRuleReadsSeriesView(rt, freshId, a, Put(series, SymKey("rules"), Array(items)), series);
  }

  /** `sanitize_filters` on a Hash: each present interval bound replaced in
      place by its `iso8601_param`. */
  method SanitizeFiltersInPlace(rt: Runtime, h: HashRef)
    modifies h
    ensures h.pairs == SanitizedPairs(rt, old(h.pairs))
  {
    var s := Fetch(h.pairs, SymKey("interval_starts_at"));
    if Present(s) {
      h.pairs := Put(h.pairs, SymKey("interval_starts_at"), Str(Iso8601Param(rt, s)));
    }
    var e := Fetch(h.pairs, SymKey("interval_ends_at"));
    if Present(e) {
      h.pairs := Put(h.pairs, SymKey("interval_ends_at"), Str(Iso8601Param(rt, e)));
    }
  }

  /** `build_occurrence_payload` on a Hash: `starts_at`, then `ends_at`,
      parsed in place when truthy; a parse that raises leaves the earlier
      change behind. */
  method BuildOccurrencePayloadInPlace(rt: Runtime, h: HashRef) returns (err: Option<Error>)
    modifies h
    ensures Mutation(h.pairs, err) == PayloadPairs(rt, old(h.pairs))
  {
    err := ConvertTimeFieldInPlace(rt, h, "starts_at");
    if err.Some? {
      return;
    }
    err := ConvertTimeFieldInPlace(rt, h, "ends_at");
  }

  /** `p[name] = Time.zone.parse(p[name]) if p[name]`. */
  method ConvertTimeFieldInPlace(rt: Runtime, h: HashRef, name: string) returns (err: Option<Error>)
    modifies h
    ensures Mutation(h.pairs, err) == ConvertTimeField(rt, old(h.pairs), name)
  {
    var v := Fetch(h.pairs, StrKey(name));
    if !Truthy(v) {
      return None;
    }
    var t := ParseTime(rt, v);
    if t.Err? {
      return Some(t.error);
    }
    h.pairs := Put(h.pairs, StrKey(name), t.value);
    err := None;
  }
}
