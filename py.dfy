/**
 * The Python values the sync and render code handles: the JSON documents the
 * remote document service returns, the values property conversion produces and the
 * model instances the relational store hands out, together with the few builtins that
 * code relies on (subscription, `.get`, iteration, truthiness, string methods).
 *
 * Dictionaries keep their insertion order (as Python's do) and are therefore
 * association lists; a lookup takes the first entry with the key.
 */
module Py {

  datatype Option<+T> = None | Some(value: T)

  /** The exceptions the sync and render code raises or lets through. */
  datatype Error =
    | KeyError(key: string)
    | TypeError
    | AttributeError
    | IndexError
    | NotADict                              // DateProperty: "'date' should be a dict"
    | UnsupportedProperty(propertyType: PyVal)
    | UnsupportedBlock(blockType: PyVal)
    | UnhandledIcon(icon: PyVal)
    | NotImplemented
    | UnexpectedRelationItem(item: PyVal)
    | UserNotFound(remoteUser: string)
    | ValidationFailed
    | IntegrityError
    | HttpError                             // `response.raise_for_status()`
    | BlockDefinition(cause: Error)          // "Confused by block definition", raised from cause

  datatype Result<+T> = Ok(value: T) | Err(error: Error) {
    predicate IsFailure() { Err? }
    function PropagateFailure<U>(): Result<U> requires Err? { Err(error) }
    function Extract(): T requires Ok? { value }
  }

  /** How a model instance answers `notion_id`: no such field, the field is empty, or a UUID. */
  datatype NotionIdField = NoField | Unset | Id(uuid: string)

  /** A model instance: its model, its primary key and its `notion_id` attribute. */
  datatype RecordRef = RecordRef(model: string, pk: nat, notionId: NotionIdField)

  datatype PyVal =
    | PNone
    | PBool(b: bool)
    | PInt(i: int)
    | PStr(s: string)
    | PList(items: seq<PyVal>)
    | PDict(entries: seq<(string, PyVal)>)
    | PDate(iso: string)                    // a date parsed from an ISO text; the parser is not modelled
    | PModel(ref: RecordRef)
    | PSet(members: seq<RecordRef>)         // a set of model instances, in iteration order

  /** Python truthiness. */
  predicate Truthy(v: PyVal) {
    match v
    case PNone => false
    case PBool(b) => b
    case PInt(i) => i != 0
    case PStr(s) => s != ""
    case PList(items) => items != []
    case PDict(entries) => entries != []
    case PSet(members) => members != []
    case PDate(_) => true
    case PModel(_) => true
  }

  /** Whether Python can hash the value, as a dictionary lookup needs. */
  predicate Hashable(v: PyVal) {
    !(v.PList? || v.PDict? || v.PSet?)
  }

  /** The value of the first entry with `key`. */
  function Lookup(entries: seq<(string, PyVal)>, key: string): (r: Option<PyVal>)
  {
    if entries == [] then None
    else if entries[0].0 == key then Some(entries[0].1)
    else Lookup(entries[1..], key)
  }

  /** A key has an entry exactly when the lookup finds one, and the lookup answers with an entry's value. */
  lemma {:induction false} LookupFound(entries: seq<(string, PyVal)>, key: string)
    ensures Lookup(entries, key).Some? <==> exists i :: 0 <= i < |entries| && entries[i].0 == key
    ensures Lookup(entries, key).Some? ==> exists i :: 0 <= i < |entries| && entries[i] == (key, Lookup(entries, key).value)
  {
    if entries != [] && entries[0].0 != key {
      LookupFound(entries[1..], key);
      assert forall i :: 1 <= i < |entries| ==> entries[i] == entries[1..][i - 1];
    }
  }

  /** Lookups in a one-entry dictionary display. */
  lemma LookupSingle(k: string, v: PyVal, key: string)
    ensures Lookup([(k, v)], key) == if k == key then Some(v) else None
  {
    assert [(k, v)][1..] == [];
  }

  /** Lookups in a two-entry dictionary display. */
  lemma LookupPair(k1: string, v1: PyVal, k2: string, v2: PyVal, key: string)
    ensures Lookup([(k1, v1), (k2, v2)], key) == if k1 == key then Some(v1) else if k2 == key then Some(v2) else None
  {
    assert [(k1, v1), (k2, v2)][1..] == [(k2, v2)];
    LookupSingle(k2, v2, key);
  }

  /** `{**d, key: value}`: an existing entry keeps its place and takes the new value. */
  function Put(entries: seq<(string, PyVal)>, key: string, value: PyVal): (r: seq<(string, PyVal)>)
    ensures Lookup(r, key) == Some(value)
    ensures forall k :: k != key ==> Lookup(r, k) == Lookup(entries, k)
    ensures |r| == if Lookup(entries, key).Some? then |entries| else |entries| + 1
  {
    if entries == [] then [(key, value)]
    else if entries[0].0 == key then
      var rest := Replaced(entries[1..], key, value);
      assert ([(key, value)] + rest)[1..] == rest;
      [(key, value)] + rest
    else
      var rest := Put(entries[1..], key, value);
      assert ([entries[0]] + rest)[1..] == rest;
      [entries[0]] + rest
  }

  /** Every later entry with `key` takes the new value as well; the first one already answers lookups. */
  function Replaced(entries: seq<(string, PyVal)>, key: string, value: PyVal): (r: seq<(string, PyVal)>)
    ensures |r| == |entries|
    ensures forall k :: k != key ==> Lookup(r, k) == Lookup(entries, k)
  {
    if entries == [] then []
    else [if entries[0].0 == key then (key, value) else entries[0]] + Replaced(entries[1..], key, value)
  }

  /** `v[key]` for a text key. */
  function Index(v: PyVal, key: string): (r: Result<PyVal>)
    ensures r.Ok? <==> v.PDict? && Lookup(v.entries, key).Some?
    ensures r.Ok? ==> Some(r.value) == Lookup(v.entries, key)
    ensures v.PDict? && r.Err? ==> r.error == KeyError(key)
  {
    match v
    case PDict(entries) =>
      (match Lookup(entries, key)
       case Some(x) => Ok(x)
       case None => Err(KeyError(key)))
    case _ => Err(TypeError)
  }

  /** `v.get(key)`: None for a missing key; only dictionaries have the method. */
  function Get(v: PyVal, key: string): (r: Result<PyVal>)
    ensures r.Ok? <==> v.PDict?
    ensures r.Ok? ==> r.value == (match Lookup(v.entries, key) case Some(x) => x case None => PNone)
  {
    if v.PDict? then
      Ok(match Lookup(v.entries, key) case Some(x) => x case None => PNone)
    else Err(AttributeError)
  }

  /** The keys of a dictionary, in order. */
  function Keys(entries: seq<(string, PyVal)>): (r: seq<string>)
    ensures |r| == |entries| && forall i :: 0 <= i < |entries| ==> r[i] == entries[i].0
  {
    seq(|entries|, i requires 0 <= i < |entries| => entries[i].0)
  }

  /** What `for x in v` visits: list items, one-character strings, dictionary keys, set members. */
  function Iterate(v: PyVal): (r: Result<seq<PyVal>>)
    ensures r.Ok? <==> v.PList? || v.PStr? || v.PDict? || v.PSet?
    ensures v.PList? ==> r == Ok(v.items)
  {
    match v
    case PList(items) => Ok(items)
    case PStr(s) => Ok(seq(|s|, i requires 0 <= i < |s| => PStr([s[i]])))
    case PDict(entries) => Ok(seq(|entries|, i requires 0 <= i < |entries| => PStr(entries[i].0)))
    case PSet(members) => Ok(seq(|members|, i requires 0 <= i < |members| => PModel(members[i])))
    case _ => Err(TypeError)
  }

  /** `lambda x: x[key]`. */
  function Field(key: string): PyVal -> Result<PyVal> {
    x => Index(x, key)
  }

  /** `[step(x) for x in items]`; the first item that fails decides the error. */
  function MapEach(items: seq<PyVal>, step: PyVal -> Result<PyVal>): (r: Result<seq<PyVal>>)
    ensures r.Ok? ==> |r.value| == |items| && forall i :: 0 <= i < |items| ==> step(items[i]) == Ok(r.value[i])
  {
    if items == [] then Ok([])
    else
      var init :- MapEach(items[..|items| - 1], step);
      var last :- step(items[|items| - 1]);
      Ok(init + [last])
  }

  lemma {:induction false} MapEachFailEarly(items: seq<PyVal>, step: PyVal -> Result<PyVal>, k: nat)
    requires k <= |items| && MapEach(items[..k], step).Err?
    ensures MapEach(items, step) == MapEach(items[..k], step)
    decreases |items|
  {
    if k < |items| {
      assert items[..|items| - 1][..k] == items[..k];
      MapEachFailEarly(items[..|items| - 1], step, k);
    } else {
      assert items[..k] == items;
    }
  }

  /** One more item of `[step(x) for x in items]`: its value extends the list, its error is the whole list's. */
  lemma MapEachNext(items: seq<PyVal>, step: PyVal -> Result<PyVal>, i: nat, done: seq<PyVal>)
    requires i < |items| && MapEach(items[..i], step) == Ok(done)
    ensures var next := step(items[i]);
      && (next.Ok? ==> MapEach(items[..i + 1], step) == Ok(done + [next.value]))
      && (next.Err? ==> MapEach(items, step) == Err(next.error))
  {
    assert items[..i + 1][..i] == items[..i];
    if step(items[i]).Err? {
      MapEachFailEarly(items, step, i + 1);
    }
  }

  /** Looking up `key` in documents `{key: x}` gives back the `x`s. */
  lemma {:induction false} MapEachLookup(docs: seq<PyVal>, key: string, values: seq<PyVal>)
    requires |docs| == |values|
    requires forall i :: 0 <= i < |docs| ==> docs[i] == PDict([(key, values[i])])
    ensures MapEach(docs, Field(key)) == Ok(values)
    decreases |docs|
  {
    if docs != [] {
      var n := |docs| - 1;
      MapEachLookup(docs[..n], key, values[..n]);
      assert values[..n] + [values[n]] == values;
    }
  }

  /** `returned += step(x)` over the items; the first item that fails decides the error. */
  function JoinEach(items: seq<PyVal>, step: PyVal -> Result<string>): Result<string> {
    if items == [] then Ok("")
    else
      var init :- JoinEach(items[..|items| - 1], step);
      var last :- step(items[|items| - 1]);
      Ok(init + last)
  }

  lemma {:induction false} JoinEachFailEarly(items: seq<PyVal>, step: PyVal -> Result<string>, k: nat)
    requires k <= |items| && JoinEach(items[..k], step).Err?
    ensures JoinEach(items, step) == JoinEach(items[..k], step)
    decreases |items|
  {
    if k < |items| {
      assert items[..|items| - 1][..k] == items[..k];
      JoinEachFailEarly(items[..|items| - 1], step, k);
    } else {
      assert items[..k] == items;
    }
  }

  /** One more item of `returned += step(x)`: its text extends the result, its error is the whole loop's. */
  lemma JoinEachNext(items: seq<PyVal>, step: PyVal -> Result<string>, i: nat, done: string)
    requires i < |items| && JoinEach(items[..i], step) == Ok(done)
    ensures var next := step(items[i]);
      && (next.Ok? ==> JoinEach(items[..i + 1], step) == Ok(done + next.value))
      && (next.Err? ==> JoinEach(items, step) == Err(next.error))
  {
    assert items[..i + 1][..i] == items[..i];
    if step(items[i]).Err? {
      JoinEachFailEarly(items, step, i + 1);
    }
  }

  /** The text of several items is the text of the first ones followed by that of the rest. */
  lemma {:induction false} JoinEachAppend(a: seq<PyVal>, b: seq<PyVal>, step: PyVal -> Result<string>)
    requires JoinEach(a, step).Ok? && JoinEach(b, step).Ok?
    ensures JoinEach(a + b, step) == Ok(JoinEach(a, step).value + JoinEach(b, step).value)
    decreases |b|
  {
    if b == [] {
      assert a + b == a;
      assert JoinEach(b, step) == Ok("");
      assert JoinEach(a, step).value + "" == JoinEach(a, step).value;
    } else {
      var front := b[..|b| - 1];
      JoinEachSnoc(front, b[|b| - 1], step);
      assert front + [b[|b| - 1]] == b;
      JoinEachAppend(a, front, step);
      JoinEachAppendLast(a, front, b[|b| - 1], step);
    }
  }

  lemma JoinEachAppendLast(a: seq<PyVal>, front: seq<PyVal>, last: PyVal, step: PyVal -> Result<string>)
    requires JoinEach(a, step).Ok? && JoinEach(front + [last], step).Ok?
    requires JoinEach(a + front, step) == Ok(JoinEach(a, step).value + JoinEach(front, step).value)
    ensures JoinEach(a + (front + [last]), step) == Ok(JoinEach(a, step).value + JoinEach(front + [last], step).value)
  {
    JoinEachSnoc(front, last, step);
    AppendAssoc(a, front, [last]);
    JoinEachSnoc(a + front, last, step);
    AppendAssoc(JoinEach(a, step).value, JoinEach(front, step).value, step(last).value);
  }

  lemma AppendAssoc<T>(x: seq<T>, y: seq<T>, z: seq<T>)
    ensures (x + y) + z == x + (y + z)
  {
  }

  /** One more item at the end: its text follows, or its error is the result. */
  lemma JoinEachSnoc(items: seq<PyVal>, x: PyVal, step: PyVal -> Result<string>)
    ensures JoinEach(items + [x], step) ==
      if JoinEach(items, step).Err? then JoinEach(items, step)
      else if step(x).Err? then Err(step(x).error)
      else Ok(JoinEach(items, step).value + step(x).value)
  {
    var all := items + [x];
    assert all[..|all| - 1] == items && all[|all| - 1] == x;
  }

  // ----- strings -----

  /** `s.replace(a, b)` for one-character `a` and `b`. */
  function ReplaceChar(s: string, a: char, b: char): (r: string)
    ensures |r| == |s|
    ensures forall i :: 0 <= i < |s| ==> r[i] == (if s[i] == a then b else s[i])
  {
    seq(|s|, i requires 0 <= i < |s| => if s[i] == a then b else s[i])
  }

  /** Case mapping covers the ASCII letters only; every other character maps to itself. */
  function Lower(c: char): char {
    if 'A' <= c <= 'Z' then (c - 'A' + 'a') as char else c
  }

  function Upper(c: char): char {
    if 'a' <= c <= 'z' then (c - 'a' + 'A') as char else c
  }

  /** `s.lower()` (ASCII letters). */
  function LowerStr(s: string): (r: string)
    ensures |r| == |s|
    ensures forall i :: 0 <= i < |s| ==> r[i] == Lower(s[i])
  {
    seq(|s|, i requires 0 <= i < |s| => Lower(s[i]))
  }

  /** `s.capitalize()` (ASCII letters): first character upper-case, the rest lower-case. */
  function Capitalize(s: string): (r: string)
    ensures |r| == |s|
    ensures forall i :: 0 <= i < |s| ==> r[i] == (if i == 0 then Upper(s[i]) else Lower(s[i]))
  {
    seq(|s|, i requires 0 <= i < |s| => if i == 0 then Upper(s[i]) else Lower(s[i]))
  }

  /** The characters `str.split()` and `str.strip()` treat as white space: Python's `str.isspace()`. */
  predicate IsSpace(c: char) {
    || c == ' ' || '\t' <= c <= '\r' || '\U{1C}' <= c <= '\U{1F}'
    || c == '\U{85}' || c == '\U{A0}' || c == '\U{1680}' || '\U{2000}' <= c <= '\U{200A}'
    || c == '\U{2028}' || c == '\U{2029}' || c == '\U{202F}' || c == '\U{205F}' || c == '\U{3000}'
  }

  predicate AllSpace(s: string) {
    forall i :: 0 <= i < |s| ==> IsSpace(s[i])
  }

  /** The longest prefix of `s` without white space. */
  function Word(s: string): (r: string)
    ensures r <= s
    ensures forall i :: 0 <= i < |r| ==> !IsSpace(r[i])
    ensures |r| == |s| || IsSpace(s[|r|])
  {
    if s == [] || IsSpace(s[0]) then [] else [s[0]] + Word(s[1..])
  }

  /** `s.split()[0]`, or None where `s.split()` is empty. */
  function FirstWord(s: string): (r: Option<string>)
    ensures r.None? <==> AllSpace(s)
    ensures r.Some? ==> r.value != [] && forall i :: 0 <= i < |r.value| ==> !IsSpace(r.value[i])
  {
    if s == [] then None
    else if IsSpace(s[0]) then
      var r := FirstWord(s[1..]);
      assert AllSpace(s) <==> AllSpace(s[1..]) by {
        assert forall i :: 1 <= i < |s| ==> s[i] == s[1..][i - 1];
      }
      r
    else Some(Word(s))
  }

  /** How many white-space characters `s` starts with. */
  function LeadingSpaces(s: string): (k: nat)
    ensures k <= |s| && AllSpace(s[..k])
    ensures k == |s| || !IsSpace(s[k])
  {
    if s == [] || !IsSpace(s[0]) then 0
    else
      var k := LeadingSpaces(s[1..]);
      assert s[..k + 1] == [s[0]] + s[1..][..k];
      k + 1
  }

  /** How many white-space characters `s` ends with. */
  function TrailingSpaces(s: string): (k: nat)
    ensures k <= |s| && AllSpace(s[|s| - k..])
    ensures k == |s| || !IsSpace(s[|s| - k - 1])
  {
    if s == [] || !IsSpace(s[|s| - 1]) then 0
    else
      var front := s[..|s| - 1];
      var k := TrailingSpaces(front);
      assert s[|front| - k..] == front[|front| - k..] + [s[|s| - 1]];
      assert k < |front| ==> s[|front| - k - 1] == front[|front| - k - 1];
      k + 1
  }

  /** `s.lstrip()` */
  function TrimStart(s: string): string {
    s[LeadingSpaces(s)..]
  }

  /** `s.rstrip()` */
  function TrimEnd(s: string): string {
    s[..|s| - TrailingSpaces(s)]
  }

  /** `s.strip()`. */
  function Strip(s: string): string {
    TrimEnd(TrimStart(s))
  }

  /** `s.split('/')[-1]`: what follows the last slash, or all of `s` when it has none. */
  function LastSegment(s: string): (r: string)
    ensures '/' !in r
    ensures |r| <= |s| && r == s[|s| - |r|..]
    ensures |r| < |s| ==> s[|s| - |r| - 1] == '/'
  {
    if s == [] then []
    else if s[|s| - 1] == '/' then []
    else
      var front := s[..|s| - 1];
      var r := LastSegment(front);
      assert front[|front| - |r|..] + [s[|s| - 1]] == s[|front| - |r|..];
      assert |r| < |front| ==> s[|front| - |r| - 1] == front[|front| - |r| - 1];
      r + [s[|s| - 1]]
  }

  function Digit(d: nat): char
    requires d < 10
  {
    "0123456789"[d]
  }

  /** `'%s' % n` for a natural number. */
  function Decimal(n: nat): (r: string)
    ensures r != []
    ensures forall i :: 0 <= i < |r| ==> '0' <= r[i] <= '9'
  {
    if n < 10 then [Digit(n)] else Decimal(n / 10) + [Digit(n % 10)]
  }

  /** `''.join(parts)`. */
  function Concat(parts: seq<string>): (r: string)
    ensures parts == [] ==> r == ""
  {
    if parts == [] then "" else parts[0] + Concat(parts[1..])
  }

  lemma {:induction false} ConcatAppend(a: seq<string>, b: seq<string>)
    ensures Concat(a + b) == Concat(a) + Concat(b)
  {
    if a == [] {
      assert a + b == b;
    } else {
      assert (a + b)[1..] == a[1..] + b;
      ConcatAppend(a[1..], b);
    }
  }
}
