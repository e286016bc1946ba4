/** What RSS::Connector promises, proved about the model in
    rss_connector.dfy: the shape of every path, the status table, what the
    request preparation keeps and changes, and the occurrence payload. */
module RssConnectorProperties {
  import opened Results
  import opened RubyValues
  import opened RubyRuntime
  import opened RssRule
  import opened RssRuleProperties
  import opened RssConnector

  // ----- paths -----

  /** Two members of one collection share a path only when they share an id. */
  lemma {:induction false} PathsDistinguishIds(c: Connector, r: Resource, a: string, b: string)
    ensures c.Path(r, Some(a)) == c.Path(r, Some(b)) <==> a == b
  {
    var prefix := c.Path(r, None) + "/";
    if c.Path(r, Some(a)) == c.Path(r, Some(b)) {
      assert c.Path(r, Some(a)) == prefix + a;
      assert c.Path(r, Some(b)) == prefix + b;
      assert a == (prefix + a)[|prefix|..];
      assert b == (prefix + b)[|prefix|..];
    }
  }

  /** The three collections of one connector have three different paths. */
  lemma {:induction false} CollectionsDistinct(c: Connector, r1: Resource, r2: Resource)
    ensures c.Path(r1, None) == c.Path(r2, None) <==> r1 == r2
  {
    if c.Path(r1, None) == c.Path(r2, None) {
      assert |r1.Segment()| == |r2.Segment()|;
    }
  }

  // ----- the status table -----

  /** POST succeeds only on 201 and PUT on 200 or 201, neither with a 404
      branch; every other operation succeeds only on 200, and all of them
      except `get_occurrences` answer 404 with nil. */
  lemma {:induction false} StatusTableByVerb(op: Operation)
    ensures op.Verb() == POST ==> Row(op) == StatusRow({201}, false)
    ensures op.Verb() == PUT ==> Row(op) == StatusRow({200, 201}, false)
    ensures op.Verb() in {GET, PATCH, DELETE} ==> Row(op).success == {200}
    ensures Row(op).absentOn404 <==> op.Verb() in {GET, PATCH, DELETE} && op != GetOccurrences
  {
    match op
    case CreateSeries =>
    case CreateRule =>
    case CreateOrUpdateSeries =>
    case CreateOrUpdateRule =>
    case GetOccurrences =>
    case _ =>
  }

  /** `create_series` treats 200 and 404 as failures like any other code but
      201. */
  lemma {:induction false} CreateSeriesFailsOnOkAndNotFound(c: Connector, rt: Runtime, freshIds: nat -> string, a: Value, body: Value)
    requires PrepareSeries(rt, freshIds, a).Ok?
    ensures c.CreateSeries(rt, freshIds, a, 200, body).outcome == Failed(POST, c.Path(Series, None), 200)
    ensures c.CreateSeries(rt, freshIds, a, 404, body).outcome == Failed(POST, c.Path(Series, None), 404)
  {
    assert 200 !in Row(Operation.CreateSeries).success;
  }

  /** `get_occurrences` has no 404 branch: a 404 is a failure. */
  lemma {:induction false} GetOccurrencesNotFoundFails(c: Connector, rt: Runtime, filters: Value, body: Value)
    requires filters.Hash?
    ensures c.GetOccurrences(rt, filters, 404, body).outcome == Failed(GET, c.Path(Occurrences, None), 404)
  {
    assert 404 !in Row(Operation.GetOccurrences).success;
  }

  /** A body without an `occurrences` list gives an empty list of occurrences. */
  lemma {:induction false} GetOccurrencesWithoutList(c: Connector, rt: Runtime, filters: Value, ps: seq<Entry>)
    requires filters.Hash?
    requires !Truthy(Fetch(ps, StrKey("occurrences")))
    ensures c.GetOccurrences(rt, filters, 200, Hash(ps)).outcome == Payload(Array([]))
  {
  }

  /** On 200 every occurrence of the list is the payload built from the
      body's entry at the same position. */
  lemma {:induction false} GetOccurrencesBuildsEach(c: Connector, rt: Runtime, filters: Value, ps: seq<Entry>, xs: seq<Value>)
    requires filters.Hash? && Fetch(ps, StrKey("occurrences")) == Array(xs)
    ensures var o := c.GetOccurrences(rt, filters, 200, Hash(ps)).outcome;
      o.Payload? ==>
        o.v.Array? && |o.v.items| == |xs| &&
        forall j | 0 <= j < |xs| :: BuildOccurrencePayload(rt, xs[j]) == Ok(o.v.items[j])
  {
  }

  // ----- preparing a series -----

  /** The rules a series is given: its `:rules`, or `[]` when that is falsy. */
  function RulesGiven(ps: seq<Entry>): Value {
    var r := Fetch(ps, SymKey("rules"));
    if Truthy(r) then r else Array([])
  }

  /** `prepare_series_attributes` changes nothing but `:rules`, which it adds
      when missing; when it succeeds `:rules` holds, position by position,
      the prepared form of each given rule. */
  lemma {:induction false} PrepareSeriesShape(rt: Runtime, freshIds: nat -> string, ps: seq<Entry>, k: Key)
    ensures var m := PrepareSeriesPairs(rt, freshIds, ps);
      KeysOf(m.after) == KeysOf(ps) + {SymKey("rules")} &&
      (k != SymKey("rules") ==> Lookup(m.after, k) == Lookup(ps, k))
    ensures var m := PrepareSeriesPairs(rt, freshIds, ps);
      m.error.None? ==>
        RulesGiven(ps).Array? &&
        var xs := RulesGiven(ps).items;
        var ys := Fetch(m.after, SymKey("rules"));
        ys.Array? && |ys.items| == |xs| &&
        forall j | 0 <= j < |xs| :: PrepareRule(rt, freshIds(j), xs[j], Some(ps)) == Ok(ys.items[j])
  {
    var rk := SymKey("rules");
    var rules := Fetch(ps, rk);
    var ps1 := if Truthy(rules) then ps else Put(ps, rk, Array([]));
    LookupPut(ps, rk, Array([]), k);
    LookupPut(ps, rk, Array([]), rk);
    KeysOfPut(ps, rk, Array([]));
    LookupKeys(ps, rk);
    var list := Fetch(ps1, rk);
    assert list == RulesGiven(ps);
    if list.Array? {
      var m := MapRules(rt, freshIds, ps1, list.items, 0);
      LookupPut(ps1, rk, Array(m.0), k);
      LookupPut(ps1, rk, Array(m.0), rk);
      KeysOfPut(ps1, rk, Array(m.0));
      LookupPut(ps, rk, Array([]), SymKey("duration"));
      LookupPut(ps, rk, Array([]), SymKey("time_zone"));
      forall j | 0 <= j < |list.items|
        ensures PrepareRule(rt, freshIds(j), list.items[j], Some(ps)) == PrepareRule(rt, freshIds(j), list.items[j], Some(ps1))
      {
        PrepareRuleReadsSeriesView(rt, freshIds(j), list.items[j], ps, ps1);
      }
    }
  }

  /** `prepare_series_attributes(nil)` sends `{rules: []}`. */
  lemma {:induction false} PrepareSeriesOfNil(rt: Runtime, freshIds: nat -> string)
    ensures PrepareSeries(rt, freshIds, Nil) == Ok(Hash([Entry(SymKey("rules"), Array([]))]))
  {
    var ps1 := [Entry(SymKey("rules"), Array([]))];
    assert Put([], SymKey("rules"), Array([])) == ps1;
    assert MapRules(rt, freshIds, ps1, [], 0) == ([], None);
    assert Put(ps1, SymKey("rules"), Array([])) == ps1;
  }

  /** Under the time library's law every rule a series sends has a valid
      recurrence: the five fields only, dates as UTC wire timestamps. */
  lemma {:induction false} PreparedRuleValid(rt: Runtime, freshId: string, a: Value, series: Option<seq<Entry>>)
    requires Lawful(rt) && WellFormed(a)
    requires PrepareRule(rt, freshId, a, series).Ok?
    ensures var rule := Construct(rt, freshId, a).value;
      Fetch(PrepareRule(rt, freshId, a, series).value.pairs, SymKey("recurrence")) == Hash(rule.recurrence) &&
      Valid(rt, rule)
  {
    ConstructValid(rt, freshId, a);
  }

  /** `create_series(rules: [recurrence: {starts_at: t}])` sends the rule's
      start as `t.utc.iso8601`. */
  lemma {:induction false} SeriesRuleStartsAtInUtc(rt: Runtime, freshIds: nat -> string, t: Instant)
    ensures var rule := Hash([Entry(SymKey("recurrence"), Hash([Entry(SymKey("starts_at"), Time(t))]))]);
      var r := PrepareSeries(rt, freshIds, Hash([Entry(SymKey("rules"), Array([rule]))]));
      r.Ok? && r.value.Hash? &&
      var sent := Fetch(r.value.pairs, SymKey("rules"));
      sent.Array? && |sent.items| == 1 && sent.items[0].Hash? &&
      Fetch(sent.items[0].pairs, SymKey("recurrence")) ==
        Hash([Entry(SymKey("starts_at"), Str(rt.utcIso8601(t.epochSeconds)))])
  {
    var u := Str(rt.utcIso8601(t.epochSeconds));
    var rule := Hash([Entry(SymKey("recurrence"), Hash([Entry(SymKey("starts_at"), Time(t))]))]);
    var ps := [Entry(SymKey("rules"), Array([rule]))];
    StartsAtRuleBuilt(rt, freshIds(0), t);
    var p := PrepareRule(rt, freshIds(0), rule, Some(ps));
    assert p.Ok?;
    assert Fetch(p.value.pairs, SymKey("recurrence")) == Hash([Entry(SymKey("starts_at"), u)]);
    MapRulesStep(rt, freshIds, ps, [rule], 0, p.value);
    assert [rule][0 := p.value] == [p.value];
    assert MapRules(rt, freshIds, ps, [p.value], 1) == ([p.value], None);
    LookupPut(ps, SymKey("rules"), Array([p.value]), SymKey("rules"));
  }

  /** `Rule.new(recurrence: {starts_at: t})` stores only the start, in UTC. */
  lemma StartsAtRuleBuilt(rt: Runtime, freshId: string, t: Instant)
    ensures Construct(rt, freshId, Hash([Entry(SymKey("recurrence"), Hash([Entry(SymKey("starts_at"), Time(t))]))])) ==
      Ok(Initial(freshId).(recurrence := [Entry(SymKey("starts_at"), Str(rt.utcIso8601(t.epochSeconds)))]))
  {
    var inner := [Entry(SymKey("starts_at"), Time(t))];
    var outer := [Entry(SymKey("recurrence"), Hash(inner))];
    var s0 := Initial(freshId);
    var s1 := s0.(recurrence := [Entry(SymKey("starts_at"), Str(rt.utcIso8601(t.epochSeconds)))]);
    assert AssignPair(rt, s0, inner, 0) == Step(s1, None);
    assert AssignFrom(rt, s1, inner, 1) == Step(s1, None);
    assert AssignFrom(rt, s0, inner, 0) == Step(s1, None);
    assert AssignPair(rt, s0, outer, 0) == Step(s1, None);
    assert AssignFrom(rt, s1, outer, 1) == Step(s1, None);
    assert AssignFrom(rt, s0, outer, 0) == Step(s1, None);
  }

  // ----- filters -----

  /** `sanitize_filters` keeps every key and every value except a present
      `interval_starts_at` or `interval_ends_at`, which becomes its
      `iso8601_param`. */
  lemma {:induction false} SanitizeShape(rt: Runtime, ps: seq<Entry>, k: Key)
    ensures KeysOf(SanitizedPairs(rt, ps)) == KeysOf(ps)
    ensures k !in {SymKey("interval_starts_at"), SymKey("interval_ends_at")} ==>
      Lookup(SanitizedPairs(rt, ps), k) == Lookup(ps, k)
    ensures k in {SymKey("interval_starts_at"), SymKey("interval_ends_at")} ==>
      Lookup(SanitizedPairs(rt, ps), k) ==
        if Present(Fetch(ps, k)) then Some(Str(Iso8601Param(rt, Fetch(ps, k)))) else Lookup(ps, k)
  {
    var sk := SymKey("interval_starts_at");
    var ek := SymKey("interval_ends_at");
    var s := Fetch(ps, sk);
    var ps1 := if Present(s) then Put(ps, sk, Str(Iso8601Param(rt, s))) else ps;
    var e := Fetch(ps1, ek);
    LookupPut(ps, sk, Str(Iso8601Param(rt, s)), k);
    LookupPut(ps, sk, Str(Iso8601Param(rt, s)), ek);
    LookupPut(ps1, ek, Str(Iso8601Param(rt, e)), k);
    PresentKeyStays(ps, sk);
    PresentKeyStays(ps1, ek);
    KeysOfPut(ps, sk, Str(Iso8601Param(rt, s)));
    KeysOfPut(ps1, ek, Str(Iso8601Param(rt, e)));
  }

  /** A key whose value is present is stored in the Hash. */
  lemma {:induction false} PresentKeyStays(ps: seq<Entry>, k: Key)
    ensures Present(Fetch(ps, k)) ==> k in KeysOf(ps)
  {
    LookupKeys(ps, k);
  }

  /** Sanitizing filters a second time changes nothing. */
  lemma {:induction false} SanitizeIdempotent(rt: Runtime, ps: seq<Entry>)
    ensures SanitizedPairs(rt, SanitizedPairs(rt, ps)) == SanitizedPairs(rt, ps)
  {
    var sk := SymKey("interval_starts_at");
    var ek := SymKey("interval_ends_at");
    var q := SanitizedPairs(rt, ps);
    SanitizeShape(rt, ps, sk);
    SanitizeShape(rt, ps, ek);
    var s := Fetch(q, sk);
    if Present(s) {
      assert s.Str?;
      PutSame(q, sk, s);
    }
    var e := Fetch(q, ek);
    if Present(e) {
      assert e.Str?;
      PutSame(q, ek, e);
    }
  }

  // ----- the occurrence payload -----

  /** `build_occurrence_payload` on a Hash keeps every key, leaves every value
      but `starts_at` and `ends_at` alone, and when it succeeds holds for each
      of those two the parsed time, or the value as it was when it is falsy. */
  lemma {:induction false} PayloadShape(rt: Runtime, ps: seq<Entry>, k: Key)
    ensures var m := PayloadPairs(rt, ps);
      KeysOf(m.after) == KeysOf(ps) &&
      (k !in {StrKey("starts_at"), StrKey("ends_at")} ==> Lookup(m.after, k) == Lookup(ps, k))
    ensures var m := PayloadPairs(rt, ps);
      m.error.None? && k in {StrKey("starts_at"), StrKey("ends_at")} ==>
        if Truthy(Fetch(ps, k)) then ParseTime(rt, Fetch(ps, k)) == Ok(Fetch(m.after, k))
        else Lookup(m.after, k) == Lookup(ps, k)
  {
    var sk := StrKey("starts_at");
    var ek := StrKey("ends_at");
    var m1 := ConvertTimeField(rt, ps, "starts_at");
    ConvertTimeFieldShape(rt, ps, "starts_at", k);
    ConvertTimeFieldShape(rt, ps, "starts_at", ek);
    if m1.error.None? {
      ConvertTimeFieldShape(rt, m1.after, "ends_at", k);
      ConvertTimeFieldShape(rt, m1.after, "ends_at", sk);
    }
  }

  lemma {:induction false} ConvertTimeFieldShape(rt: Runtime, ps: seq<Entry>, name: string, k: Key)
    ensures var m := ConvertTimeField(rt, ps, name);
      KeysOf(m.after) == KeysOf(ps) &&
      (k != StrKey(name) ==> Lookup(m.after, k) == Lookup(ps, k)) &&
      (m.error.None? && k == StrKey(name) ==>
        if Truthy(Fetch(ps, k)) then ParseTime(rt, Fetch(ps, k)) == Ok(Fetch(m.after, k))
        else Lookup(m.after, k) == Lookup(ps, k))
  {
    var v := Fetch(ps, StrKey(name));
    if Truthy(v) && ParseTime(rt, v).Ok? {
      var t := ParseTime(rt, v).value;
      LookupPut(ps, StrKey(name), t, k);
      KeysOfPut(ps, StrKey(name), t);
      LookupKeys(ps, StrKey(name));
    }
  }

  /** `build_occurrence_payload(nil)` is nil. */
  lemma {:induction false} PayloadOfNil(rt: Runtime)
    ensures BuildOccurrencePayload(rt, Nil) == Ok(Nil)
  {
  }

  // ----- the duration a series rule sends -----

  /** A rule of a series sends the series' duration when it is truthy, and
      otherwise the `to_i` of the last `duration` pair of the rule's own
      Hash. */
  lemma {:induction false} SeriesRuleDuration(rt: Runtime, freshId: string, ps: seq<Entry>, series: seq<Entry>, k: nat)
    requires k < |ps| && ps[k].key.name == "duration" && !WritesFrom(ps, k + 1, "duration")
    requires PrepareRule(rt, freshId, Hash(ps), Some(series)).Ok?
    ensures var sent := Fetch(PrepareRule(rt, freshId, Hash(ps), Some(series)).value.pairs, SymKey("duration"));
      var own := Fetch(series, SymKey("duration"));
      (Truthy(own) ==> sent == own) &&
      (!Truthy(own) ==> ToI(ps[k].val).Ok? && sent == Int(ToI(ps[k].val).value))
  {
    LastWriteWins(rt, Initial(freshId), ps, 0, k, "duration");
  }

  /** A rule of a series whose Hash names no duration sends nil unless the
      series has a truthy duration. */
  lemma {:induction false} SeriesRuleWithoutDuration(rt: Runtime, freshId: string, ps: seq<Entry>, series: seq<Entry>)
    requires !WritesFrom(ps, 0, "duration")
    requires PrepareRule(rt, freshId, Hash(ps), Some(series)).Ok?
    ensures !Truthy(Fetch(series, SymKey("duration"))) ==>
      Fetch(PrepareRule(rt, freshId, Hash(ps), Some(series)).value.pairs, SymKey("duration")) == Nil
  {
    AssignFromFrame(rt, Initial(freshId), ps, 0, "duration");
  }

  // ----- the failure message -----

  /** The RuntimeError of an unexpected status names the code: for the same
      verb and path, two codes give the same message only when they are
      equal. */
  lemma {:induction false} FailureMessageNamesCode(verb: Verb, path: string, c1: int, c2: int)
    ensures Failed(verb, path, c1).Exception() == Failed(verb, path, c2).Exception() <==> c1 == c2
  {
    var prefix := "RSS: '" + verb.Name() + " " + path + "' failed with status = ";
    var m1 := FailureMessage(verb, path, c1);
    var m2 := FailureMessage(verb, path, c2);
    if m1 == m2 {
      assert m1 == prefix + DecimalString(c1) + ".";
      assert m2 == prefix + DecimalString(c2) + ".";
      assert DecimalString(c1) == m1[|prefix|..|m1| - 1];
      assert DecimalString(c2) == m2[|prefix|..|m2| - 1];
      DecimalStringRoundTrip(c1);
      DecimalStringRoundTrip(c2);
    }
  }
}
