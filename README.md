# rss-connector in Dafny

A model of the two classes that hold the logic of the `rss-connector` gem, a
Ruby client for the recurring-schedule service RSS:

- `RSS::Rule` (lib/rss/rule.rb) describes a recurrence: an `id`, an optional
  `duration` and a `recurrence` Hash with up to five fields: `count`,
  `frequency`, `interval`, `starts_at` and `ends_at`. Attributes are
  assigned through a whitelist of setters. Dates are normalised to UTC
  ISO 8601 with whole seconds. A rule offers a snapshot (`attributes`,
  `as_json`), `==`, `one_off?`, and `load`/`dump` over arrays of snapshots.
- `RSS::Connector` (lib/rss/connector.rb) turns series, rule and occurrence
  calls into HTTP requests under `/v1/{oid}/{scope}`. It reads each response
  by its status code, rewrites the attributes it sends, and parses the times
  of the occurrences it receives.

Files:

- `results.dfy`: `Option` and `Result`.
- `ruby_values.dfy`: the Ruby objects the core handles.
  - A Hash is an ordered sequence of pairs. `Put` replaces a value in place
    or appends a new key, as Ruby's `[]=` does.
  - Hash lookup, truthiness, `blank?`/`present?` and `==` on nested
    objects.
- `ruby_runtime.dfy`: the library calls the core makes.
  - Time parsing and rendering are a `Runtime` parameter.
  - `to_s` and `to_i`.
  - The exceptions raised.
- `rss_rule.dfy`: `RSS::Rule` as functions on a `RuleState` value. Each
  setter returns the new state and the exception it raised, if any.
- `rss_rule_class.dfy`: `RSS::Rule` as a class with the fields `id`,
  `duration` and `recurrence`.
  - Each setter is a method that updates the fields in place.
  - `attributes=` and `Rule.load` are loops.
  - Each method is proved to leave the object in the state the
    `rss_rule.dfy` functions compute.
- `rss_rule_properties.dfy`: what a Rule promises. This covers defaults,
  whitelisting, the frame of each setter, the merging `recurrence=`, date
  normalisation, the snapshot, `==`, `one_off?`, and `load` after `dump`.
- `rss_connector.dfy`: the request-side preparation, the response-side
  occurrence payload and the fifteen public operations of `RSS::Connector`.
  - Each operation takes the status code and the parsed body of the
    response.
  - It yields the request it sends and its outcome: a payload, nil, the
    failure for an unexpected status, or an exception raised on the way.
- `rss_connector_in_place.dfy`: the three helpers that rewrite the caller's
  own Hash, as methods on a `HashRef` object: `prepare_series_attributes`,
  `sanitize_filters` and `build_occurrence_payload`.
- `rss_connector_properties.dfy`: what the connector promises. This covers
  paths, the status table, the preparation of series and filters, and the
  occurrence payload.

Ruby keeps every change made before an exception, and the model does the
same. A failing `attributes=` returns the state after the pairs it already
applied (`Step`). A failing `map!` or `tap` returns the Hash as far as it
was rewritten (`Mutation`).

## Model

| member | source | states |
|---|---|---|
| RssRule.Initial | lib/rss/rule.rb:6-9 | the rule before `attributes=`; `NewRuleDefaults` states its getters |
| RssRule.RuleState.StartsAt | lib/rss/rule.rb:16-18 | the stored `:starts_at` or nil; `ValidFetch` states its form |
| RssRule.RuleState.EndsAt | lib/rss/rule.rb:20-22 | the stored `:ends_at` or nil; `ValidFetch` states its form |
| RssRule.RuleState.Count | lib/rss/rule.rb:24-26 | the stored `:count` or nil; `OneOffExactly` uses it |
| RssRule.RuleState.Frequency | lib/rss/rule.rb:28-30 | the stored frequency or `'daily'`; `NewRuleDefaults` states the default |
| RssRule.RuleState.Interval | lib/rss/rule.rb:32-34 | the stored interval or 1; `NewRuleDefaults` states the default |
| RssRule.Construct | lib/rss/rule.rb:6-11 | `Rule.new`; `ConstructValid`, `IdOverrides`, `ConstructIgnoresUnknown` and `ConstructSnapshot` state its properties |
| RssRule.ConvertDate | lib/rss/rule.rb:44-48 | `convert_date`; `ConvertDateNormal` and `DateSetterNormalises` state its properties |
| RssRule.Assign | lib/rss/rule.rb:51-85 | each setter, exceptions included; `AssignFrame`, `AssignValid` and `AssignNormal` state its properties, and the class methods follow it |
| RssRule.AssignFrom | lib/rss/rule.rb:87-93 | the `attributes=` loop; `IgnoresUnknown`, `AssignFromFrame`, `AssignFromValid` and `LastWriteWins` state its properties |
| RssRule.AssignPair | lib/rss/rule.rb:89-91 | one turn of that loop: a recognised key goes to its setter, any other key is skipped; `IgnoresUnknown` states it |
| RssRule.Stringify | lib/rss/rule.rb:39 | `stringify_keys`; `StringifyRenames` states it |
| RssRule.Attributes | lib/rss/rule.rb:36-42 | the snapshot; `SnapshotShape` states its keys |
| RssRule.AsJson | lib/rss/rule.rb:96-99 | `as_json`; `SnapshotShape` and `ConstructSnapshot` state its shape and that it rebuilds the rule |
| RssRule.OneOff | lib/rss/rule.rb:108-112 | `one_off?`; `OneOffExactly` and `OneOffOfNewRule` state it |
| RssRule.Equal | lib/rss/rule.rb:120-122 | `==`; `EqualIff`, `EqualReflexive` and `EqualAcrossOffsets` state it |
| RssRule.ConstructAll | lib/rss/rule.rb:117 | `parsed.map { new }`; `ConstructAllSnapshots` states it |
| RssRule.Load | lib/rss/rule.rb:115-118 | `Rule.load` on parsed JSON; `LoadDump`, `LoadDumpNonArray` and `LoadStoredRule` state it, and `LoadRules` follows it |
| RssRule.Dump | lib/rss/rule.rb:125-128 | `Rule.dump` before printing; `LoadDump` and `LoadDumpNonArray` state it |
| RssConnector.Connector.BasePath | lib/rss/connector.rb:245-247 | `base_path`; `Path`, `PathsDistinguishIds` and `CollectionsDistinct` state the paths built on it |
| RssConnector.PrepareSeriesPairs | lib/rss/connector.rb:251-259 | `prepare_series_attributes` on a Hash; `PrepareSeriesShape` states it, and `PrepareSeriesAttributes` follows it |
| RssConnector.PrepareSeries | lib/rss/connector.rb:251-259 | nil, false, Hash or error; `PrepareSeriesOfNil` and `SeriesRuleStartsAtInUtc` state it |
| RssConnector.SanitizedPairs | lib/rss/connector.rb:291-301 | `sanitize_filters` on a Hash; `SanitizeShape` and `SanitizeIdempotent` state it, and `SanitizeFiltersInPlace` follows it |
| RssConnector.SanitizeFilters | lib/rss/connector.rb:291-301 | a non-Hash raises; `GetRules` and `GetOccurrences` state the request it yields |
| RssConnector.ParseTime | lib/rss/connector.rb:310-311 | `Time.zone.parse` of a body value; `PayloadShape` states its use |
| RssConnector.ConvertTimeField | lib/rss/connector.rb:310-311 | one time field parsed in place; `ConvertTimeFieldShape` states it |
| RssConnector.PayloadPairs | lib/rss/connector.rb:308-313 | both time fields in order; `PayloadShape` states it, and `BuildOccurrencePayloadInPlace` follows it |
| RssConnector.OccurrenceList | lib/rss/connector.rb:181-183 | `(list \|\| []).map`; `GetOccurrencesWithoutList` and `GetOccurrencesBuildsEach` state it |
| RssConnector.Outcome.Exception | lib/rss/connector.rb:38 | the RuntimeError of an unexpected status; `FailureMessageNamesCode` states that it names the code |
| RubyRuntime.ToS | lib/rss/rule.rb:51-61 | `to_s`; `CoercionsRoundTrip` and `DecimalStringRoundTrip` state it on Integers |
| RubyRuntime.ToI | lib/rss/rule.rb:63-77 | `to_i`, which raises for objects without it; `CoercionsRoundTrip` states it |
| RubyRuntime.StringToI | lib/rss/rule.rb:63-77 | `String#to_i` with leading space, sign, `0d` prefix and underscores; `DecimalStringRoundTrip` and `DecimalPrefixRoundTrip` state it |
| RubyValues.RubyEq | lib/rss/rule.rb:120-122 | Ruby `==` on Hashes, Arrays and times; `RubyEqReflexive`, `TimeEqIgnoresOffset` and `EqualIff` state it |
| RubyValues.Present | lib/rss/connector.rb:281-298 | `present?`; `PrepareOccurrence` and `SanitizeShape` state where it decides |
| RssRuleObjects.Rule.Init | lib/rss/rule.rb:6-9 | a new object holds the generated uuid as id, no duration and an empty recurrence |
| RssRuleObjects.Rule.New | lib/rss/rule.rb:6-11 | `Rule.new(attributes)` is the empty rule followed by `attributes=`, exceptions included |
| RssRuleObjects.Rule.SetId | lib/rss/rule.rb:51-53 | `id=` replaces only the id, with the argument's `to_s` |
| RssRuleObjects.Rule.SetCount | lib/rss/rule.rb:55-57 | `count=` stores the object as given under `:count`, whatever the time library |
| RssRuleObjects.Rule.SetFrequency | lib/rss/rule.rb:59-61 | `frequency=` stores the argument's `to_s` under `:frequency` |
| RssRuleObjects.Rule.SetInterval | lib/rss/rule.rb:63-65 | `interval=` stores `to_i` under `:interval`; a receiver without `to_i` raises and nothing changes |
| RssRuleObjects.Rule.SetDate | lib/rss/rule.rb:67-73 | `starts_at=`/`ends_at=` store the converted date; a conversion that raises leaves the rule as it was |
| RssRuleObjects.Rule.SetDuration | lib/rss/rule.rb:75-77 | `duration=` sets the duration to `to_i`, or raises and changes nothing |
| RssRuleObjects.Rule.SetRecurrence | lib/rss/rule.rb:79-85 | `recurrence=` runs `attributes=` on a Hash and raises the RuntimeError on anything else |
| RssRuleObjects.Rule.SetAttributes | lib/rss/rule.rb:87-93 | the loop sends each recognised key to its setter in order and stops at the first exception; the object ends in the state `AssignFrom` specifies |
| RssRuleObjects.Rule.Send | lib/rss/rule.rb:89-90 | `send("#{attr}=", value)` has the effect of the named setter |
| RssRuleObjects.LoadRules | lib/rss/rule.rb:115-118 | builds one fresh Rule per Array element, in order, with the states `Load` specifies, and stops at the first exception |
| RssRuleProperties.NewRuleDefaults | lib/rss/rule.rb:6-34 | a new rule keeps the generated id and an empty recurrence; frequency and interval read `'daily'` and 1 without being stored |
| RssRuleProperties.IdOverrides | lib/rss/rule.rb:6-11 | an `id` pair anywhere in the attributes, with a Symbol or String key, replaces the generated uuid with its `to_s` unless a later pair writes the id again |
| RssRuleProperties.LastWriteWins | lib/rss/rule.rb:87-93 | after `attributes=` runs through a Hash without an exception, the last pair naming `id` or `duration` decides that slot |
| RssRuleProperties.UnknownKeysChangeNothing | lib/rss/rule.rb:87-93 | a Hash whose keys name no setter gives exactly the fresh rule |
| RssRuleProperties.IgnoresUnknown | lib/rss/rule.rb:87-93 | `attributes=` over any Hash equals `attributes=` over only its keys that name a setter |
| RssRuleProperties.ConstructIgnoresUnknown | lib/rss/rule.rb:87-93 | `Rule.new` ignores unknown keys such as a stored rule's `time_zone` |
| RssRuleProperties.AssignFrame | lib/rss/rule.rb:51-93 | a setter changes no slot (id, duration, recurrence field) that it or the keys it forwards do not name |
| RssRuleProperties.AssignFromFrame | lib/rss/rule.rb:87-93 | the `attributes=` loop changes only the slots its keys name |
| RssRuleProperties.RecurrenceMerges | lib/rss/rule.rb:79-82 | `recurrence=` merges: every slot the given Hash does not name keeps its value |
| RssRuleProperties.RecurrenceIsAttributes | lib/rss/rule.rb:79-82 | `recurrence=` with a Hash is `attributes=` with that Hash, for every Hash and every rule |
| RssRuleProperties.RecurrenceSetsIdAndDuration | lib/rss/rule.rb:79-82 | `recurrence=` with a Hash naming `id` or `duration` sets the rule's id or duration from the last such pair |
| RssRuleProperties.RecurrenceRejectsNonHash | lib/rss/rule.rb:79-85 | `recurrence=` of a non-Hash raises the RuntimeError naming its class and changes nothing |
| RssRuleProperties.ConvertDateNormal | lib/rss/rule.rb:44-48 | `convert_date` yields nil or a UTC wire timestamp; a time gives its own UTC rendering, a parsable String a timestamp of the same second; only nil, times and Strings convert |
| RssRuleProperties.AssignNormal | lib/rss/rule.rb:55-73 | a field setter given a value already in its stored form stores it unchanged |
| RssRuleProperties.DateSetterNormalises | lib/rss/rule.rb:67-73 | the date setters store nil or a UTC wire timestamp: nil for nil, `t.utc.iso8601` for a time, a timestamp of the parsed second for a String; assigning the stored value again changes nothing |
| RssRuleProperties.CoercionsRoundTrip | lib/rss/rule.rb:51-77 | `interval=` and `duration=` read back the Integer whose decimal string they get; an Integer id read back with `to_i` is that Integer |
| RssRuleProperties.AssignValid | lib/rss/rule.rb:51-93 | every setter keeps the invariant: the recurrence holds only the five fields, each once, each in its stored form, even when it raises part way |
| RssRuleProperties.AssignFromValid | lib/rss/rule.rb:87-93 | the `attributes=` loop keeps that invariant |
| RssRuleProperties.ConstructValid | lib/rss/rule.rb:6-11 | every rule `Rule.new` returns satisfies that invariant |
| RssRuleProperties.ValidFetch | lib/rss/rule.rb:16-26 | each field getter of a valid rule returns nil or the form its setter stores |
| RssRuleProperties.StringifyRenames | lib/rss/rule.rb:39 | on keys with distinct names `stringify_keys` keeps every pair in place and only makes the key a String |
| RssRuleProperties.SnapshotShape | lib/rss/rule.rb:36-42 | the snapshot always has `id` and `recurrence`, has `duration` exactly when it is set, and each field sits under its String name |
| RssRuleProperties.EqualIff | lib/rss/rule.rb:120-122 | two rules are `==` iff they have the same id, the same duration and equal recurrence Hashes |
| RssRuleProperties.EqualReflexive | lib/rss/rule.rb:120-122 | every rule is `==` to itself |
| RssRuleProperties.OneOffExactly | lib/rss/rule.rb:108-112 | `one_off?` holds iff count is 1 or the two bounds are equal, so a rule with neither bound is one-off |
| RssRuleProperties.OneOffOfNewRule | lib/rss/rule.rb:108-112 | a rule built with count c and two times is one-off iff c is 1 or the times fall in the same second |
| RssRuleProperties.LoadDumpNonArray | lib/rss/rule.rb:115-128 | `load` of a non-Array gives no rules; `dump` of a non-Array gives an empty Array |
| RssRuleProperties.ConstructSnapshot | lib/rss/rule.rb:115-118 | `Rule.new(rule.as_json)` rebuilds a valid rule exactly |
| RssRuleProperties.ConstructAllSnapshots | lib/rss/rule.rb:115-118 | building rules from a list of snapshots gives back the rules |
| RssRuleProperties.LoadDump | lib/rss/rule.rb:115-128 | `load(dump(rules))` gives back the same rules |
| RssRuleProperties.AssignStoredPairs | lib/rss/rule.rb:87-93 | `attributes=` over a stored rule's pairs in any order sets the last id and duration and rebuilds the recurrence exactly |
| RssRuleProperties.ConstructStored | lib/rss/rule.rb:115-117 | `Rule.new` of a stored rule with keys in any order, of either kind and with ignored keys, yields the last id and duration and the stored recurrence |
| RssRuleProperties.LoadStoredRule | lib/rss/rule.rb:115-118 | loading a stored series rule keyed `id`, `time_zone`, `duration`, `recurrence` gives the rule with that id, duration and recurrence; the time zone is dropped |
| RssRuleProperties.EqualAcrossOffsets | lib/rss/rule.rb:120-122 | two rules storing the same instant in different offsets are `==` |
| RssConnector.Index | lib/rss/connector.rb:36 | `body[name]` on a Hash is the value under the String key; every object except a Hash, String or Symbol raises |
| RssConnector.Iso8601Param | lib/rss/connector.rb:303-305 | `iso8601_param` returns a String unchanged |
| RssConnector.RuleEntries | lib/rss/connector.rb:264-273 | the Hash sent for a built rule has distinct keys, exactly `id` and `recurrence` plus `duration` and `time_zone` in a series, holding the rule's id, its recurrence, the series-or-rule duration and the series' time zone |
| RssConnector.PrepareRule | lib/rss/connector.rb:263-275 | raises iff `Rule.new` raises; the result has exactly `id` and `recurrence` from the new rule, plus `duration` and `time_zone` in a series |
| RssConnector.MapRules | lib/rss/connector.rb:255-257 | `map!` keeps the length and replaces each rule by its prepared form; on an exception, some rule raised it, every rule before it is replaced and it and every rule after it are untouched |
| RssConnector.PrepareOccurrence | lib/rss/connector.rb:279-289 | sends `starts_at` and `ends_at` only, each exactly when present and as its `iso8601_param`; a non-Hash raises |
| RssConnector.BuildOccurrencePayload | lib/rss/connector.rb:308-313 | nil and false give nil |
| RssConnector.BuildAll | lib/rss/connector.rb:181-183 | the list of payloads has one entry per occurrence, each built from the occurrence at its position; an error comes from one of them |
| RssConnector.Connector.Path | lib/rss/connector.rb:245-247 | paths are `/v1/{oid}/{scope}/{resource}`, followed by `/{id}` for one member |
| RssConnector.Connector.GetSeries | lib/rss/connector.rb:31-40 | GET on the series path; 200 gives the body's `series`, 404 nil, any other code the failure |
| RssConnector.Connector.CreateSeries | lib/rss/connector.rb:43-53 | POST of the prepared series; only 201 gives the body |
| RssConnector.Connector.CreateOrUpdateSeries | lib/rss/connector.rb:56-66 | PUT of the prepared series; 200 or 201 gives the body, no 404 branch |
| RssConnector.Connector.UpdateSeries | lib/rss/connector.rb:69-80 | PATCH of the prepared series; 200 gives the body, 404 nil |
| RssConnector.Connector.DeleteSeries | lib/rss/connector.rb:83-92 | DELETE without query; 200 gives the body, 404 nil |
| RssConnector.Connector.GetRule | lib/rss/connector.rb:95-104 | GET on the rule path; 200 gives the body, 404 nil |
| RssConnector.Connector.GetRules | lib/rss/connector.rb:107-118 | GET with sanitized filters; 200 gives the body's `rules`, 404 nil; a non-Hash filter raises before sending |
| RssConnector.Connector.CreateRule | lib/rss/connector.rb:121-131 | POST of the prepared rule; only 201 gives the body |
| RssConnector.Connector.CreateOrUpdateRule | lib/rss/connector.rb:134-144 | PUT of the prepared rule; 200 or 201 gives the body |
| RssConnector.Connector.UpdateRule | lib/rss/connector.rb:147-158 | PATCH of the prepared rule; 200 gives the body, 404 nil |
| RssConnector.Connector.DeleteRule | lib/rss/connector.rb:161-170 | DELETE without query; 200 gives the body, 404 nil |
| RssConnector.Connector.GetOccurrences | lib/rss/connector.rb:173-186 | GET with sanitized filters; 200 gives the built occurrence list; no 404 branch |
| RssConnector.Connector.GetOccurrence | lib/rss/connector.rb:190-201 | GET on the occurrence path; 200 gives the payload built from `occurrence`, 404 nil |
| RssConnector.Connector.UpdateOccurrence | lib/rss/connector.rb:206-219 | PATCH of the prepared occurrence; 200 gives the built payload, 404 nil |
| RssConnector.Connector.DeleteOccurrence | lib/rss/connector.rb:223-232 | DELETE without query; 200 gives the body, 404 nil |
| RssConnectorInPlace.PrepareSeriesAttributes | lib/rss/connector.rb:251-259 | rewriting the caller's Hash in place leaves it, and the exception, exactly as `PrepareSeriesPairs` says |
| RssConnectorInPlace.MapRulesInPlace | lib/rss/connector.rb:255-257 | `map!` rewrites the rules Array inside the series Hash one rule at a time, each prepared against the Hash as it stands; the Hash ends holding the rules and the exception `MapRules` gives |
| RssConnectorInPlace.SanitizeFiltersInPlace | lib/rss/connector.rb:291-301 | the filters Hash ends as `SanitizedPairs` of what it held |
| RssConnectorInPlace.BuildOccurrencePayloadInPlace | lib/rss/connector.rb:308-313 | the occurrence Hash ends as `PayloadPairs` says, keeping `starts_at` parsed when `ends_at` raises |
| RssConnectorInPlace.ConvertTimeFieldInPlace | lib/rss/connector.rb:310-311 | one field is parsed in place when truthy; a failed parse leaves the Hash unchanged |
| RssConnectorProperties.PathsDistinguishIds | lib/rss/connector.rb:245-247 | two member paths of one collection are equal iff the ids are |
| RssConnectorProperties.CollectionsDistinct | lib/rss/connector.rb:245-247 | the series, rules and occurrences collections have pairwise different paths |
| RssConnectorProperties.StatusTableByVerb | lib/rss/connector.rb:31-232 | POST accepts only 201, PUT 200 or 201, GET/PATCH/DELETE only 200; 404 means nil exactly for GET/PATCH/DELETE other than `get_occurrences` |
| RssConnectorProperties.CreateSeriesFailsOnOkAndNotFound | lib/rss/connector.rb:43-53 | `create_series` fails on 200 and on 404 |
| RssConnectorProperties.GetOccurrencesNotFoundFails | lib/rss/connector.rb:173-186 | `get_occurrences` fails on 404 |
| RssConnectorProperties.GetOccurrencesWithoutList | lib/rss/connector.rb:181 | a body without `occurrences` gives an empty list |
| RssConnectorProperties.GetOccurrencesBuildsEach | lib/rss/connector.rb:180-183 | each returned occurrence is the payload built from the body's occurrence at its position |
| RssConnectorProperties.PrepareSeriesShape | lib/rss/connector.rb:251-259 | only `:rules` changes, added when missing; on success it holds each given rule's prepared form, position by position |
| RssConnectorProperties.PrepareSeriesOfNil | lib/rss/connector.rb:251-253 | nil becomes `{rules: []}` |
| RssConnectorProperties.PreparedRuleValid | lib/rss/connector.rb:263-268 | every prepared rule sends a valid recurrence: the five fields only, dates as UTC wire timestamps |
| RssConnectorProperties.SeriesRuleStartsAtInUtc | lib/rss/connector.rb:251-275 | a series rule given a start time sends it as its UTC rendering |
| RssConnectorProperties.SanitizeShape | lib/rss/connector.rb:291-301 | sanitizing keeps every key and changes only a present interval bound, to its `iso8601_param` |
| RssConnectorProperties.SanitizeIdempotent | lib/rss/connector.rb:291-305 | sanitizing twice is sanitizing once |
| RssConnectorProperties.PayloadShape | lib/rss/connector.rb:308-313 | the payload keeps every key and changes only `starts_at`/`ends_at`, each to its parsed time when truthy |
| RssConnectorProperties.ConvertTimeFieldShape | lib/rss/connector.rb:310-311 | parsing one field keeps every key and changes only that field |
| RssConnectorProperties.PayloadOfNil | lib/rss/connector.rb:312 | the payload of nil is nil |
| RssConnectorProperties.SeriesRuleDuration | lib/rss/connector.rb:270-271 | a series rule sends the series' truthy duration, else the `to_i` of the last `duration` in its own Hash |
| RssConnectorProperties.SeriesRuleWithoutDuration | lib/rss/connector.rb:270-271 | a series rule whose Hash names no duration sends nil unless the series has a truthy duration |
| RssConnectorProperties.FailureMessageNamesCode | lib/rss/connector.rb:38 | for one verb and path, two status codes give the same RuntimeError message only when they are equal |
| RubyRuntime.DecimalStringRoundTrip | lib/rss/rule.rb:63-65 | `n.to_s.to_i == n` for every Integer, which `interval=` and `duration=` rely on |
| RubyRuntime.DecimalPrefixRoundTrip | lib/rss/rule.rb:75-77 | `to_i` reads past a `0d`/`0D` prefix after the sign |
| RubyValues.TimeEqIgnoresOffset | lib/rss/rule.rb:120-122 | `Time#==` compares instants to the nanosecond and ignores the display offset |

## Left out

- HTTP transport, `base_uri`, basic-auth credentials and the generated `authenticated_*` methods (lib/rss/connector.rb:7-18, 238-243) are network I/O. Each operation takes the status code and the parsed body as inputs and yields the request it would send.
- JSON parsing and printing are library code. `Rule.load` takes the parsed value and `Rule.dump` yields the value before printing. A response body that is not JSON is not modelled. `load`/`dump` round-trips on parsed values, not on text.
- Time parsing, zone conversion and ISO 8601 rendering are the `Runtime` parameter. The only law assumed is that the UTC rendering of a second parses back to that second.
- `Time#utc` switches a plain `::Time` to UTC in place, so `starts_at=`, `ends_at=` and `Rule.new(starts_at: t)` also change the caller's `t`. The model treats times as immutable values and does not capture that change to the caller's object.
- Rendering keeps whole seconds, so two times within the same second are the same to the model.
- `SecureRandom.uuid` is randomness. The generated id is a parameter, or a function from position to id for series and `load`.
- lib/rss/config.rb and lib/rss.rb (global configuration, `load!`) are not part of this model.
- Floats and Ruby objects other than nil, booleans, Integers, Strings, Symbols, times, Arrays and Hashes are not modelled.
- The setters `Rule` inherits from Object (`==`, `!=`, `===` would match keys `=`, `!`, `==`) are treated as unknown keys.
- Ids, `oid` and `scope` are taken as Strings. Interpolating other objects into a path is not modelled.
- Error classes are approximated. Indexing an Array or Integer with a String raises TypeError in Ruby; the model records it as `NoMethod`.
- `map!` works on the rules Array of the series Hash. Another holder of that same Array would see it change; the model only tracks the Hash entry.
- RssRuleObjects.Rule getters, `as_json` and `==` are read through `State()` and the functions of `rss_rule.dfy`, not as methods.
- RssConnectorInPlace.PrepareSeriesAttributes: only a Hash argument is rewritten in place. The nil case, which builds a fresh Hash, is covered by `PrepareSeries` on values.
- RssRule.Dump: an argument that is not an Array is represented as `None`.
- RssConnector.BuildOccurrencePayload: its contract pins only the nil/false case. The Hash case is stated by `PayloadShape`. For a String or Symbol, `[]` finds a substring and `[]=` then raises; this is modelled but not stated as a lemma.
