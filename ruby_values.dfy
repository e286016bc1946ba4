/** The Ruby objects the rule model and the connector pass around, Hash
    operations as Ruby performs them, and Ruby's notions of truthiness,
    `blank?`/`present?` (ActiveSupport) and `==`. */
module RubyValues {
  import opened Results

  /** A point in time as a Ruby Time holds it: whole seconds since the Unix
      epoch (rounded down), the nanoseconds below those, and the UTC offset, in
      seconds, the value is displayed in. */
  datatype Instant = Instant(epochSeconds: int, nanos: nat, utcOffset: int)

  /** A Hash key: a Symbol (`:starts_at`) or a String (`'starts_at'`). Ruby keeps
      the two apart; parsed JSON has String keys, Ruby literals Symbol keys. */
  datatype Key = SymKey(name: string) | StrKey(name: string)

  /** The Ruby objects that reach the core. Floats and other classes are not
      modelled. */
  datatype Value =
    | Nil
    | Bool(b: bool)
    | Int(i: int)
    | Str(s: string)
    | Symbol(name: string)
    | Time(t: Instant)
    | Array(items: seq<Value>)
    | Hash(pairs: seq<Entry>)

  /** One pair of a Hash. A Hash keeps its pairs in insertion order, which is
      the order `each_pair` visits them in. */
  datatype Entry = Entry(key: Key, val: Value)

  /** Everything except nil and false counts as true in a Ruby condition. */
  predicate Truthy(v: Value) {
    !(v.Nil? || v == Bool(false))
  }

  function KeysOf(ps: seq<Entry>): set<Key> {
    set e | e in ps :: e.key
  }

  /** Ruby never lets a Hash hold the same key twice. */
  predicate DistinctKeys(ps: seq<Entry>) {
    forall i, j | 0 <= i < j < |ps| :: ps[i].key != ps[j].key
  }

  /** The value stored under `k`, if any. */
  function Lookup(ps: seq<Entry>, k: Key): Option<Value> {
    if |ps| == 0 then None
    else if ps[0].key == k then Some(ps[0].val)
    else Lookup(ps[1..], k)
  }

  /** `h[k]`: the stored value, or nil when `k` is absent. */
  function Fetch(ps: seq<Entry>, k: Key): Value {
    Lookup(ps, k).GetOr(Nil)
  }

  /** `h[k] = v`: an existing key keeps its place and takes the new value, a new
      key is appended. */
  function Put(ps: seq<Entry>, k: Key, v: Value): seq<Entry> {
    if |ps| == 0 then [Entry(k, v)]
    else if ps[0].key == k then [Entry(k, v)] + ps[1..]
    else [ps[0]] + Put(ps[1..], k, v)
  }

  /** Every Hash inside `v` has distinct keys, as every Ruby Hash does. */
  predicate WellFormed(v: Value)
    decreases v
  {
    match v
    case Array(xs) => forall i | 0 <= i < |xs| :: WellFormed(xs[i])
    case Hash(ps) => DistinctKeys(ps) && forall i | 0 <= i < |ps| :: WellFormed(ps[i].val)
    case _ => true
  }

  /** Ruby's `==` on these objects. Two Hashes are equal when they have the
      same size and every key of the first is in the second with an equal
      value, whatever the insertion order; Arrays compare element by element;
      two times are equal when they are the same instant, whatever offset
      each is displayed in; everything else compares by value. */
  predicate RubyEq(a: Value, b: Value)
    decreases a
  {
    match a
    case Array(xs) =>
      b.Array? && |xs| == |b.items| &&
      forall i | 0 <= i < |xs| :: RubyEq(xs[i], b.items[i])
    case Hash(ps) =>
      b.Hash? && |ps| == |b.pairs| &&
      forall i | 0 <= i < |ps| ::
        ps[i].key in KeysOf(b.pairs) && RubyEq(ps[i].val, Fetch(b.pairs, ps[i].key))
    case Time(t) => b.Time? && b.t.epochSeconds == t.epochSeconds && b.t.nanos == t.nanos
    case _ => a == b
  }

  /** The name `v.class` reports, as it appears in Ruby's error messages. */
  function ClassName(v: Value): string {
    match v
    case Nil => "NilClass"
    case Bool(b) => if b then "TrueClass" else "FalseClass"
    case Int(_) => "Integer"
    case Str(_) => "String"
    case Symbol(_) => "Symbol"
    case Time(_) => "Time"
    case Array(_) => "Array"
    case Hash(_) => "Hash"
  }

  /** The characters of the POSIX class [[:space:]] as Ruby matches it on
      Unicode strings. */
  predicate IsBlankChar(c: char) {
    c == ' ' || (9 <= c as int <= 13) || c as int == 0x85 || c as int == 0xA0 ||
    c as int == 0x1680 || (0x2000 <= c as int <= 0x200A) || c as int == 0x2028 ||
    c as int == 0x2029 || c as int == 0x202F || c as int == 0x205F || c as int == 0x3000
  }

  /** ActiveSupport's `blank?`: nil and false; a String of whitespace only; an
      empty Symbol, Array or Hash. Numbers and times are never blank. */
  predicate Blank(v: Value) {
    match v
    case Nil => true
    case Bool(b) => !b
    case Int(_) => false
    case Str(s) => forall i | 0 <= i < |s| :: IsBlankChar(s[i])
    case Symbol(n) => |n| == 0
    case Time(_) => false
    case Array(xs) => |xs| == 0
    case Hash(ps) => |ps| == 0
  }

  /** ActiveSupport's `present?`. */
  predicate Present(v: Value) {
    !Blank(v)
  }

  // ----- Hash laws -----

  lemma {:induction false} LookupKeys(ps: seq<Entry>, k: Key)
    ensures Lookup(ps, k).Some? <==> k in KeysOf(ps)
  {
    if |ps| > 0 {
      LookupKeys(ps[1..], k);
      assert KeysOf(ps) == {ps[0].key} + KeysOf(ps[1..]) by {
        assert ps == [ps[0]] + ps[1..];
      }
    }
  }

  /** With distinct keys the value found for the key of pair `i` is that pair's. */
  lemma {:induction false} LookupAt(ps: seq<Entry>, i: nat)
    requires DistinctKeys(ps) && i < |ps|
    ensures Lookup(ps, ps[i].key) == Some(ps[i].val)
  {
    if i > 0 {
      assert ps[0].key != ps[i].key;
      assert ps[1..][i - 1] == ps[i];
      LookupAt(ps[1..], i - 1);
    }
  }

  /** With distinct keys every pair is found under its own key. */
  lemma {:induction false} LookupEvery(ps: seq<Entry>)
    requires DistinctKeys(ps)
    ensures forall i | 0 <= i < |ps| :: Lookup(ps, ps[i].key) == Some(ps[i].val)
  {
    forall i | 0 <= i < |ps| ensures Lookup(ps, ps[i].key) == Some(ps[i].val) {
      LookupAt(ps, i);
    }
  }

  lemma {:induction false} LookupPut(ps: seq<Entry>, k: Key, v: Value, k': Key)
    ensures Lookup(Put(ps, k, v), k') == if k' == k then Some(v) else Lookup(ps, k')
  {
    if |ps| > 0 && ps[0].key != k {
      LookupPut(ps[1..], k, v, k');
    }
  }

  lemma {:induction false} KeysOfPut(ps: seq<Entry>, k: Key, v: Value)
    ensures KeysOf(Put(ps, k, v)) == KeysOf(ps) + {k}
  {
    var r := Put(ps, k, v);
    forall k' ensures k' in KeysOf(r) <==> k' in KeysOf(ps) + {k} {
      LookupKeys(r, k');
      LookupKeys(ps, k');
      LookupPut(ps, k, v, k');
    }
  }

  /** A key not yet present is appended at the end. */
  lemma {:induction false} PutAppends(ps: seq<Entry>, k: Key, v: Value)
    requires k !in KeysOf(ps)
    ensures Put(ps, k, v) == ps + [Entry(k, v)]
  {
    if |ps| > 0 {
      assert ps[0] in ps;
      assert k !in KeysOf(ps[1..]) by {
        forall e | e in ps[1..] ensures e.key != k {
          assert e in ps;
        }
      }
      PutAppends(ps[1..], k, v);
      assert ps == [ps[0]] + ps[1..];
    }
  }

  lemma {:induction false} PutKeepsDistinct(ps: seq<Entry>, k: Key, v: Value)
    requires DistinctKeys(ps)
    ensures DistinctKeys(Put(ps, k, v))
    ensures |Put(ps, k, v)| == if k in KeysOf(ps) then |ps| else |ps| + 1
  {
    if |ps| > 0 {
      assert ps == [ps[0]] + ps[1..];
      assert KeysOf(ps) == {ps[0].key} + KeysOf(ps[1..]);
      if ps[0].key != k {
        PutKeepsDistinct(ps[1..], k, v);
        var r := Put(ps[1..], k, v);
        KeysOfPut(ps[1..], k, v);
        assert ps[0].key !in KeysOf(ps[1..]) by {
          forall e | e in ps[1..] ensures e.key != ps[0].key {
            var j :| 1 <= j < |ps| && ps[j] == e;
          }
        }
        forall j | 0 <= j < |r| ensures r[j].key != ps[0].key {
          assert r[j] in r;
        }
      } else {
        assert k !in KeysOf(ps[1..]) by {
          forall e | e in ps[1..] ensures e.key != k {
            var j :| 1 <= j < |ps| && ps[j] == e;
          }
        }
      }
    }
  }

  /** A second `h[k] = ...` overwrites the first. */
  lemma {:induction false} PutOverwrite(ps: seq<Entry>, k: Key, v: Value, w: Value)
    ensures Put(Put(ps, k, v), k, w) == Put(ps, k, w)
  {
    if |ps| > 0 && ps[0].key != k {
      PutOverwrite(ps[1..], k, v, w);
    }
  }

  /** Storing the value a key already has changes nothing. */
  lemma {:induction false} PutSame(ps: seq<Entry>, k: Key, v: Value)
    requires Lookup(ps, k) == Some(v)
    ensures Put(ps, k, v) == ps
  {
    if ps[0].key != k {
      PutSame(ps[1..], k, v);
    }
  }

  /** Every pair after `h[k] = v` was there before or is the new pair. */
  lemma {:induction false} PutEntries(ps: seq<Entry>, k: Key, v: Value)
    ensures forall j | 0 <= j < |Put(ps, k, v)| :: Put(ps, k, v)[j] in ps || Put(ps, k, v)[j] == Entry(k, v)
  {
    if |ps| > 0 && ps[0].key != k {
      PutEntries(ps[1..], k, v);
      var r := Put(ps, k, v);
      forall j | 0 <= j < |r| ensures r[j] in ps || r[j] == Entry(k, v) {
        if j > 0 {
          assert r[j] == Put(ps[1..], k, v)[j - 1];
          if r[j] in ps[1..] {
            var m :| 0 <= m < |ps[1..]| && ps[1..][m] == r[j];
            assert ps[m + 1] == r[j];
          }
        }
      }
    }
  }

  // ----- Ruby equality -----

  /** `==` is reflexive on every object Ruby can build. */
  lemma {:induction false} RubyEqReflexive(v: Value)
    requires WellFormed(v)
    ensures RubyEq(v, v)
    decreases v
  {
    match v
    case Array(xs) =>
      forall i | 0 <= i < |xs| ensures RubyEq(xs[i], xs[i]) {
        RubyEqReflexive(xs[i]);
      }
    case Hash(ps) =>
      forall i | 0 <= i < |ps|
        ensures ps[i].key in KeysOf(ps) && RubyEq(ps[i].val, Fetch(ps, ps[i].key))
      {
        assert ps[i] in ps;
        LookupAt(ps, i);
        RubyEqReflexive(ps[i].val);
      }
    case _ =>
  }

  /** `Time#==` ignores the offset: the same instant shown in two zones is
      equal, and two instants a nanosecond apart are not. */
  lemma {:induction false} TimeEqIgnoresOffset(t: Instant, u: Instant)
    ensures RubyEq(Time(t), Time(u)) <==> t.epochSeconds == u.epochSeconds && t.nanos == u.nanos
    ensures RubyEq(Time(t), Time(t.(utcOffset := u.utcOffset)))
  {
  }
}
