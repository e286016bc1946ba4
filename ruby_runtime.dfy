/** The library behaviour the core relies on without owning it: time parsing and
    rendering (ActiveSupport's `Time.zone`, `Time#iso8601`), the generic
    conversions `to_s` and `to_i`, and the exceptions they raise. */
module RubyRuntime {
  import opened Results
  import opened RubyValues

  /** What `Time.zone.parse(s)` makes of a String: a time in the configured zone,
      nil when the string holds no date, or an ArgumentError for an impossible
      date such as one in month 13. */
  datatype Parse = Parsed(t: Instant) | NoTime | OutOfRange

  /** Calendar and formatting code of Ruby and ActiveSupport that this model does
      not reproduce, given as functions:
      - zoneParse: `Time.zone.parse(s)` in the process-wide configured zone;
      - utcIso8601: `t.utc.iso8601`, the RFC 3339 `date-time` rendering in UTC
        with whole seconds and a `Z` offset, as a function of the whole seconds
        since the epoch (the rendering drops the fraction);
      - iso8601: `t.iso8601`, the same rendering in the time's own offset;
      - timeToS: `Time#to_s`;
      - inspect: `Array#to_s` and `Hash#to_s`. */
  datatype Runtime = Runtime(
    zoneParse: string -> Parse,
    utcIso8601: int -> string,
    iso8601: Instant -> string,
    timeToS: Instant -> string,
    inspect: Value -> string)

  /** The one law the model assumes of the time library: parsing the UTC wire
      rendering of a second gives back a time at that same second. */
  ghost predicate Lawful(rt: Runtime) {
    forall n: int {:trigger rt.utcIso8601(n)} ::
      rt.zoneParse(rt.utcIso8601(n)).Parsed? &&
      rt.zoneParse(rt.utcIso8601(n)).t.epochSeconds == n
  }

  /** `s` is already a UTC wire timestamp: it parses, and rendering the parsed
      second in UTC gives `s` back character for character. */
  predicate IsWire(rt: Runtime, s: string) {
    rt.zoneParse(s).Parsed? && rt.utcIso8601(rt.zoneParse(s).t.epochSeconds) == s
  }

  /** Exceptions raised inside the core.
      - NoMethod(op, receiver): the receiver, named by its class, cannot perform
        `op`; Ruby raises NoMethodError or TypeError;
      - ArgumentError(input): `Time.zone.parse` was given an impossible date;
      - RuntimeError(message): a `fail` with this message. */
  datatype Error =
    | NoMethod(op: string, receiver: string)
    | ArgumentError(input: string)
    | RuntimeError(message: string)

  function DigitChar(d: nat): char
    requires d < 10
  {
    ('0' as int + d) as char
  }

  predicate IsDigit(c: char) {
    '0' <= c <= '9'
  }

  /** The decimal digits of `n`, most significant first, without leading zeros. */
  function Digits(n: nat): string
    decreases n
  {
    if n < 10 then [DigitChar(n)] else Digits(n / 10) + [DigitChar(n % 10)]
  }

  /** `Integer#to_s`. */
  function DecimalString(n: int): string {
    if n < 0 then "-" + Digits(-n) else Digits(n)
  }

  /** The whitespace `String#to_i` skips before the number. */
  predicate IsLeadingSpace(c: char) {
    c == ' ' || (9 <= c as int <= 13)
  }

  function SkipLeadingSpace(s: string): string {
    if |s| > 0 && IsLeadingSpace(s[0]) then SkipLeadingSpace(s[1..]) else s
  }

  /** The digits at the front of `s`; one underscore between two digits is
      skipped, anything else ends the run. */
  function DigitRun(s: string): seq<nat> {
    if |s| == 0 || !IsDigit(s[0]) then []
    else
      [DigitValue(s[0])] +
      (if |s| >= 3 && s[1] == '_' && IsDigit(s[2]) then DigitRun(s[2..]) else DigitRun(s[1..]))
  }

  function DigitsValue(ds: seq<nat>): nat {
    if |ds| == 0 then 0 else DigitsValue(ds[..|ds| - 1]) * 10 + ds[|ds| - 1]
  }

  /** The optional base-10 prefix `0d` or `0D`, skipped after the sign. */
  function SkipDecimalPrefix(s: string): string {
    if |s| >= 2 && s[0] == '0' && (s[1] == 'd' || s[1] == 'D') then s[2..] else s
  }

  /** `String#to_i`: the leading base-10 integer with an optional sign and an
      optional `0d` prefix, and 0 when the string does not start with one. */
  function StringToI(s: string): int {
    var t := SkipLeadingSpace(s);
    if |t| > 0 && t[0] == '-' then 0 - DigitsValue(DigitRun(SkipDecimalPrefix(t[1..])))
    else if |t| > 0 && t[0] == '+' then DigitsValue(DigitRun(SkipDecimalPrefix(t[1..])))
    else DigitsValue(DigitRun(SkipDecimalPrefix(t)))
  }

  /** `v.to_s`. */
  function ToS(rt: Runtime, v: Value): string {
    match v
    case Nil => ""
    case Bool(b) => if b then "true" else "false"
    case Int(n) => DecimalString(n)
    case Str(s) => s
    case Symbol(n) => n
    case Time(t) => rt.timeToS(t)
    case Array(_) => rt.inspect(v)
    case Hash(_) => rt.inspect(v)
  }

  /** `v.to_i`: nil gives 0, a time its whole epoch seconds; true, false,
      Symbols, Arrays and Hashes have no `to_i`. */
  function ToI(v: Value): Result<int, Error> {
    match v
    case Nil => Ok(0)
    case Int(n) => Ok(n)
    case Str(s) => Ok(StringToI(s))
    case Time(t) => Ok(t.epochSeconds)
    case _ => Err(NoMethod("to_i", ClassName(v)))
  }

  // ----- to_s and to_i are inverse on integers -----

  lemma {:induction false} DigitsAreDigits(n: nat)
    ensures |Digits(n)| > 0
    ensures forall i | 0 <= i < |Digits(n)| :: IsDigit(Digits(n)[i])
    decreases n
  {
    if n >= 10 {
      DigitsAreDigits(n / 10);
    }
  }

  /** The value of a digit character. */
  function DigitValue(c: char): nat {
    if IsDigit(c) then (c as int - '0' as int) as nat else 0
  }

  /** The values of the characters of a digit string. */
  function DigitValues(w: string): seq<nat> {
    if |w| == 0 then [] else [DigitValue(w[0])] + DigitValues(w[1..])
  }

  lemma {:induction false} DigitValuesAppend(a: string, b: string)
    ensures DigitValues(a + b) == DigitValues(a) + DigitValues(b)
    decreases |a|
  {
    if |a| == 0 {
      assert a + b == b;
    } else {
      assert (a + b)[1..] == a[1..] + b;
      DigitValuesAppend(a[1..], b);
    }
  }

  lemma {:induction false} DigitRunOfDigits(w: string)
    requires forall i | 0 <= i < |w| :: IsDigit(w[i])
    ensures DigitRun(w) == DigitValues(w)
    decreases |w|
  {
    if |w| > 0 {
      DigitRunOfDigits(w[1..]);
    }
  }

  lemma {:induction false} DigitsValueOfDigits(n: nat)
    ensures forall i | 0 <= i < |Digits(n)| :: IsDigit(Digits(n)[i])
    ensures DigitsValue(DigitValues(Digits(n))) == n
    decreases n
  {
    DigitsAreDigits(n);
    var w := Digits(n);
    if n >= 10 {
      DigitsValueOfDigits(n / 10);
      DigitValuesAppend(Digits(n / 10), [DigitChar(n % 10)]);
      var vs := DigitValues(w);
      assert vs == DigitValues(Digits(n / 10)) + [n % 10];
      assert vs[..|vs| - 1] == DigitValues(Digits(n / 10));
    }
  }

  /** `n.to_s.to_i == n` for every Integer. */
  lemma {:induction false} DecimalStringRoundTrip(n: int)
    ensures StringToI(DecimalString(n)) == n
  {
    var m: nat := if n < 0 then -n else n;
    DigitsValueOfDigits(m);
    DigitRunOfDigits(Digits(m));
    var w := DecimalString(n);
    assert |Digits(m)| > 0 && IsDigit(Digits(m)[0]);
    assert SkipLeadingSpace(w) == w;
    assert SkipDecimalPrefix(Digits(m)) == Digits(m);
    if n < 0 {
      assert w[1..] == Digits(m);
    }
  }

  /** `"0d12".to_i == 12` and `"-0d5".to_i == -5`: the decimal prefix is
      read past, after the sign. */
  lemma {:induction false} DecimalPrefixRoundTrip(n: int)
    ensures n >= 0 ==> StringToI("0d" + DecimalString(n)) == n
    ensures n < 0 ==> StringToI("-0D" + DecimalString(-n)) == n
  {
    var m: nat := if n < 0 then -n else n;
    DigitsValueOfDigits(m);
    DigitRunOfDigits(Digits(m));
    assert DecimalString(m) == Digits(m);
    if n >= 0 {
      var w := "0d" + Digits(m);
      assert SkipLeadingSpace(w) == w;
      assert SkipDecimalPrefix(w) == Digits(m);
    } else {
      var w := "-0D" + Digits(m);
      assert SkipLeadingSpace(w) == w;
      assert w[1..] == "0D" + Digits(m);
      assert SkipDecimalPrefix(w[1..]) == Digits(m);
    }
  }
}
