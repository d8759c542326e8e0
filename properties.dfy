/**
 * Property conversion (sidekick/contrib/notion/properties.py): the `Property` factory
 * dispatches on a property's type tag to one of eleven converters, each a pair of
 * `to_python` (remote typed document to plain local value) and `from_python` (local
 * value to the document the remote service accepts).
 */
module Properties {
  import opened Py
  import Sorting

  datatype Kind = Date | Url | Title | RichText | Select | MultiSelect | Status | Text | Email | Checkbox | Relation

  function Tag(k: Kind): string {
    match k
    case Date => "date"
    case Url => "url"
    case Title => "title"
    case RichText => "rich_text"
    case Select => "select"
    case MultiSelect => "multi_select"
    case Status => "status"
    case Text => "text"
    case Email => "email"
    case Checkbox => "checkbox"
    case Relation => "relation"
  }

  const Supported: set<string> :=
    {"date", "url", "title", "rich_text", "select", "multi_select", "status", "text", "email", "checkbox", "relation"}

  /** The converter class the factory's table holds for a type tag, if any. */
  function KindOf(tag: string): (r: Option<Kind>)
    ensures r.Some? <==> tag in Supported
    ensures r.Some? ==> Tag(r.value) == tag
  {
    if tag == "date" then Some(Date)
    else if tag == "url" then Some(Url)
    else if tag == "title" then Some(Title)
    else if tag == "rich_text" then Some(RichText)
    else if tag == "select" then Some(Select)
    else if tag == "multi_select" then Some(MultiSelect)
    else if tag == "status" then Some(Status)
    else if tag == "text" then Some(Text)
    else if tag == "email" then Some(Email)
    else if tag == "checkbox" then Some(Checkbox)
    else if tag == "relation" then Some(Relation)
    else None
  }

  /** The table is exactly the eleven tags of the kinds, each leading back to its own kind. */
  lemma KindOfTag(k: Kind)
    ensures KindOf(Tag(k)) == Some(k)
    ensures Tag(k) in Supported
  {
    match k
    case Date =>
    case Url =>
    case Title =>
    case RichText =>
    case Select =>
    case MultiSelect =>
    case Status =>
    case Text =>
    case Email =>
    case Checkbox =>
    case Relation =>
  }

  /** A converter instance: the property's name, its kind and its payload `definition[type]`. */
  datatype Property = Property(name: string, kind: Kind, value: PyVal)

  /**
   * `Property(name, definition)`. A tag missing from the table is 'Unsupported property
   * type'; so is a payload missing under the tag, because the constructor that reads it
   * runs inside the same `try`. A definition without a type fails before the `try`, and
   * an unhashable tag fails the table lookup with a TypeError the `try` does not catch.
   */
  function MakeProperty(name: string, definition: PyVal): (r: Result<Property>)
    ensures var t := Index(definition, "type");
      r.Ok? <==> t.Ok? && t.value.PStr? && t.value.s in Supported && Index(definition, t.value.s).Ok?
    ensures var t := Index(definition, "type");
      t.Err? ==> r == Err(t.error)
    ensures var t := Index(definition, "type");
      t.Ok? && !Hashable(t.value) ==> r == Err(TypeError)
    ensures var t := Index(definition, "type");
      t.Ok? && Hashable(t.value) && r.Err? ==> r.error == UnsupportedProperty(t.value)
    ensures r.Ok? ==> (r.value.name == name && Index(definition, "type") == Ok(PStr(Tag(r.value.kind)))
      && Index(definition, Tag(r.value.kind)) == Ok(r.value.value))
  {
    var t :- Index(definition, "type");
    if !Hashable(t) then Err(TypeError)
    else if !t.PStr? then Err(UnsupportedProperty(t))
    else match KindOf(t.s)
      case None => Err(UnsupportedProperty(t))
      case Some(kind) =>
        match Index(definition, t.s)
        case Ok(v) => Ok(Property(name, kind, v))
        case Err(_) => Err(UnsupportedProperty(t))
  }

  // ----- to_python -----

  /** DateProperty.to_python: None stays None, only `start` is parsed, `end` is never read. */
  function DateValue(v: PyVal): Result<PyVal> {
    if v.PNone? then Ok(PNone)
    else if !v.PDict? then Err(NotADict)
    else
      var start :- Index(v, "start");
      if start.PStr? then Ok(PDate(start.s)) else Err(TypeError)
  }

  /** SelectProperty.to_python (also StatusProperty). */
  function SelectValue(v: PyVal): Result<PyVal> {
    if v.PNone? then Ok(PNone) else Index(v, "name")
  }

  predicate AllTexts(vs: seq<PyVal>) {
    forall i :: 0 <= i < |vs| ==> vs[i].PStr?
  }

  function Texts(vs: seq<PyVal>): (r: seq<string>)
    requires AllTexts(vs)
    ensures |r| == |vs| && forall i :: 0 <= i < |vs| ==> r[i] == vs[i].s
  {
    seq(|vs|, i requires 0 <= i < |vs| => vs[i].s)
  }

  function Strs(ss: seq<string>): (r: seq<PyVal>)
    ensures |r| == |ss| && forall i :: 0 <= i < |ss| ==> r[i] == PStr(ss[i])
  {
    seq(|ss|, i requires 0 <= i < |ss| => PStr(ss[i]))
  }

  /**
   * MultiSelectProperty.to_python: the names, sorted. Sorting never compares a single
   * name; it compares texts among themselves and fails on anything else.
   */
  function MultiSelectValue(v: PyVal): Result<PyVal> {
    var items :- Iterate(v);
    var names :- MapEach(items, Field("name"));
    if AllTexts(names) then Ok(PList(Strs(Sorting.Sort(Texts(names), Sorting.TextLe))))
    else if |names| <= 1 then Ok(PList(names))
    else Err(TypeError)
  }

  /** `part['plain_text']`, which `returned += ...` needs to be text. */
  function PlainText(part: PyVal): Result<string> {
    var text :- Index(part, "plain_text");
    if text.PStr? then Ok(text.s) else Err(TypeError)
  }

  /** TextProperty.to_python (also TitleProperty and RichTextProperty). */
  function TextValue(v: PyVal): Result<PyVal> {
    var items :- Iterate(v);
    var text :- JoinEach(items, PlainText);
    Ok(PStr(text))
  }

  predicate Referenced(r: RecordRef, ids: seq<PyVal>) {
    r.notionId.Id? && PStr(r.notionId.uuid) in ids
  }

  /** `Model.objects.filter(notion_id__in=ids)` over one table, in the table's order. */
  function Filter(rows: seq<RecordRef>, ids: seq<PyVal>): (r: seq<RecordRef>)
    ensures forall x :: x in r <==> x in rows && Referenced(x, ids)
  {
    if rows == [] then []
    else
      var rest := Filter(rows[1..], ids);
      assert forall x :: x in rows <==> x == rows[0] || x in rows[1..];
      if Referenced(rows[0], ids) then [rows[0]] + rest else rest
  }

  /** The matches of every configured database, one table after the other. */
  function Matches(catalog: seq<seq<RecordRef>>, ids: seq<PyVal>): seq<RecordRef> {
    if catalog == [] then []
    else Matches(catalog[..|catalog| - 1], ids) + Filter(catalog[|catalog| - 1], ids)
  }

  /** One more database: its matching rows follow those of the databases before it. */
  lemma MatchesNext(catalog: seq<seq<RecordRef>>, d: nat, ids: seq<PyVal>)
    requires d < |catalog|
    ensures Matches(catalog[..d + 1], ids) == Matches(catalog[..d], ids) + Filter(catalog[d], ids)
  {
    assert catalog[..d + 1][..d] == catalog[..d];
  }

  predicate Distinct<T(==)>(s: seq<T>) {
    forall i, j :: 0 <= i < j < |s| ==> s[i] != s[j]
  }

  /** `set(items)`, iterated in first-occurrence order. */
  function Dedup<T(==,!new)>(s: seq<T>): (r: seq<T>)
    ensures forall x :: x in r <==> x in s
    ensures Distinct(r)
  {
    if s == [] then []
    else
      var init := Dedup(s[..|s| - 1]);
      assert forall x :: x in s <==> x in s[..|s| - 1] || x == s[|s| - 1];
      if s[|s| - 1] in init then init else init + [s[|s| - 1]]
  }

  /**
   * RelationProperty.to_python: the records of every configured database whose remote
   * id is referenced, as a set. With no database configured the payload is never read.
   */
  function RelationValue(v: PyVal, catalog: seq<seq<RecordRef>>): Result<PyVal> {
    if catalog == [] then Ok(PSet([]))
    else
      var items :- Iterate(v);
      var ids :- MapEach(items, Field("id"));
      Ok(PSet(Dedup(Matches(catalog, ids))))
  }

  /** `prop.to_python()` for every kind; `catalog` lists the rows of each configured database. */
  function Value(p: Property, catalog: seq<seq<RecordRef>>): Result<PyVal> {
    match p.kind
    case Date => DateValue(p.value)
    case Url | Email | Checkbox => Ok(p.value)
    case Select | Status => SelectValue(p.value)
    case MultiSelect => MultiSelectValue(p.value)
    case Title | RichText | Text => TextValue(p.value)
    case Relation => RelationValue(p.value, catalog)
  }

  // ----- to_python, as the source runs it -----

  /** MultiSelectProperty.to_python: appends each name, then sorts. */
  method MultiSelectToPython(v: PyVal) returns (r: Result<PyVal>)
    ensures r == MultiSelectValue(v)
  {
    var items :- Iterate(v);
    var names: seq<PyVal> := [];
    for i := 0 to |items|
      invariant MapEach(items[..i], Field("name")) == Ok(names)
    {
      var name := Index(items[i], "name");
      MapEachNext(items, Field("name"), i, names);
      if name.Err? {
        return Err(name.error);
      }
      names := names + [name.value];
    }
    assert items[..|items|] == items;
    if AllTexts(names) {
      r := Ok(PList(Strs(Sorting.Sort(Texts(names), Sorting.TextLe))));
    } else if |names| <= 1 {
      r := Ok(PList(names));
    } else {
      r := Err(TypeError);
    }
  }

  /** TextProperty.to_python: `returned += part['plain_text']`. */
  method TextToPython(v: PyVal) returns (r: Result<PyVal>)
    ensures r == TextValue(v)
  {
    var items :- Iterate(v);
    var returned := "";
    for i := 0 to |items|
      invariant JoinEach(items[..i], PlainText) == Ok(returned)
    {
      var text := PlainText(items[i]);
      JoinEachNext(items, PlainText, i, returned);
      if text.Err? {
        return Err(text.error);
      }
      returned := returned + text.value;
    }
    assert items[..|items|] == items;
    r := Ok(PStr(returned));
  }

  /** RelationProperty.to_python: `items.extend(...)` per configured database, then `set(items)`. */
  method RelationToPython(v: PyVal, catalog: seq<seq<RecordRef>>) returns (r: Result<PyVal>)
    ensures r == RelationValue(v, catalog)
  {
    var items: seq<RecordRef> := [];
    for d := 0 to |catalog|
      invariant d > 0 ==> Iterate(v).Ok? && MapEach(Iterate(v).value, Field("id")).Ok?
      invariant d > 0 ==> items == Matches(catalog[..d], MapEach(Iterate(v).value, Field("id")).value)
      invariant d == 0 ==> items == []
    {
      var values :- Iterate(v);
      var ids :- MapEach(values, Field("id"));
      MatchesNext(catalog, d, ids);
      items := items + Filter(catalog[d], ids);
    }
    assert catalog[..|catalog|] == catalog;
    r := Ok(PSet(Dedup(items)));
  }

  /** `prop.to_python()`. */
  method ToPython(p: Property, catalog: seq<seq<RecordRef>>) returns (r: Result<PyVal>)
    ensures r == Value(p, catalog)
  {
    match p.kind {
      case Date => r := DateValue(p.value);
      case Url => r := Ok(p.value);
      case Email => r := Ok(p.value);
      case Checkbox => r := Ok(p.value);
      case Select => r := SelectValue(p.value);
      case Status => r := SelectValue(p.value);
      case MultiSelect => r := MultiSelectToPython(p.value);
      case Title => r := TextToPython(p.value);
      case RichText => r := TextToPython(p.value);
      case Text => r := TextToPython(p.value);
      case Relation => r := RelationToPython(p.value, catalog);
    }
  }

  // ----- from_python -----

  function NameDoc(name: string): PyVal {
    PDict([("name", PStr(name))])
  }

  /** The single run TextProperty.from_python sends. */
  function TextRun(value: PyVal): PyVal {
    PDict([("type", PStr("text")), ("text", PDict([("content", value)]))])
  }

  function IdText(id: NotionIdField): string {
    match id
    case Id(uuid) => uuid
    case _ => "None"      // str(None)
  }

  /** One element of RelationProperty.from_python: by id when the value has `notion_id`, else by name. */
  function Reference(v: PyVal, str: PyVal -> string): PyVal {
    if v.PModel? && !v.ref.notionId.NoField? then PDict([("id", PStr(IdText(v.ref.notionId)))])
    else NameDoc(str(v))
  }

  /**
   * The date document to_python can read back: `{'date': {'start': <ISO text>}}`. This is
   * the evidently intended payload; `FromPython` sends the date as written.
   */
  function DateFromPython(iso: string): PyVal {
    PDict([("date", PDict([("start", PStr(iso))]))])
  }

  /**
   * `prop.from_python(value)`; `str` is Python's `str`. A date, like a url, an email or a
   * checkbox, goes out through PropertyBase.from_python: the value under the tag, untouched.
   */
  function FromPython(kind: Kind, value: PyVal, str: PyVal -> string): Result<PyVal> {
    var tag := Tag(kind);
    match kind
    case Date | Url | Email | Checkbox => Ok(PDict([(tag, value)]))
    case Select | Status => Ok(PDict([(tag, NameDoc(str(value)))]))
    case MultiSelect =>
      var items :- Iterate(value);
      Ok(PDict([(tag, PList(seq(|items|, i requires 0 <= i < |items| => NameDoc(str(items[i])))))]))
    case Title | RichText | Text => Ok(PDict([(tag, PList([TextRun(value)]))]))
    case Relation =>
      var items :- Iterate(value);
      Ok(PDict([(tag, PList(seq(|items|, i requires 0 <= i < |items| => Reference(items[i], str))))]))
  }

  /** The property document the service gives back for a sent `{tag: payload}`: the payload under its tag. */
  function Echo(kind: Kind, sent: PyVal): PyVal
    requires sent.PDict?
  {
    PDict([("type", PStr(Tag(kind)))] + sent.entries)
  }

  // ----- properties of the conversions -----

  /** No kind is tagged "type", so a document's own type entry never hides its payload. */
  lemma TagIsNotType(k: Kind)
    ensures Tag(k) != "type"
  {
    assert Tag(k)[0] != 't' || Tag(k)[1] != 'y';
  }

  /** The service's reply to a sent `{tag: payload}` makes a property of that kind and payload. */
  lemma MakeEchoed(k: Kind, payload: PyVal, name: string)
    ensures MakeProperty(name, Echo(k, PDict([(Tag(k), payload)]))) == Ok(Property(name, k, payload))
  {
    var d := Echo(k, PDict([(Tag(k), payload)]));
    assert d.entries == [("type", PStr(Tag(k))), (Tag(k), payload)];
    TagIsNotType(k);
    KindOfTag(k);
    assert d.entries[1..] == [(Tag(k), payload)];
    assert Lookup(d.entries, "type") == Some(PStr(Tag(k)));
    assert Lookup(d.entries, Tag(k)) == Some(payload);
  }

  /** A date's end is never read. */
  lemma DateIgnoresEnd(start: PyVal, end1: PyVal, end2: PyVal)
    ensures DateValue(PDict([("start", start), ("end", end1)])) == DateValue(PDict([("start", start), ("end", end2)]))
  {
  }

  lemma TextsOfStrs(ss: seq<string>)
    ensures AllTexts(Strs(ss)) && Texts(Strs(ss)) == ss
  {
  }

  /**
   * A multi-select reads back as its names, sorted in text order and otherwise unchanged;
   * a lone name that is not text passes through unsorted.
   */
  lemma MultiSelectSortedNames(v: PyVal)
    requires MultiSelectValue(v).Ok?
    ensures Iterate(v).Ok? && MapEach(Iterate(v).value, Field("name")).Ok?
    ensures var names := MapEach(Iterate(v).value, Field("name")).value;
      var out := MultiSelectValue(v).value;
      out.PList? && |out.items| == |names|
      && (AllTexts(names) ==> AllTexts(out.items) && Sorting.Sorted(Texts(out.items), Sorting.TextLe)
                              && multiset(Texts(out.items)) == multiset(Texts(names)))
      && (!AllTexts(names) ==> |names| <= 1 && out.items == names)
  {
    var names := MapEach(Iterate(v).value, Field("name")).value;
    if AllTexts(names) {
      var sorted := Sorting.Sort(Texts(names), Sorting.TextLe);
      Sorting.TextLeIsTotalPreorder();
      Sorting.SortSorted(Texts(names), Sorting.TextLe);
      TextsOfStrs(sorted);
      assert |sorted| == |names| by {
        assert |multiset(sorted)| == |multiset(Texts(names))|;
      }
    }
  }

  /** The records a relation resolves to: every configured database's records it references, once each. */
  lemma {:induction false} MatchesMembers(catalog: seq<seq<RecordRef>>, ids: seq<PyVal>)
    ensures forall x :: x in Matches(catalog, ids) <==> Referenced(x, ids) && Stored(x, catalog)
  {
    if catalog != [] {
      var n := |catalog| - 1;
      MatchesMembers(catalog[..n], ids);
      forall x ensures x in Matches(catalog, ids) <==> Referenced(x, ids) && Stored(x, catalog) {
        if x in Matches(catalog, ids) {
          if x in Filter(catalog[n], ids) {
            assert x in catalog[n];
          } else {
            var d :| 0 <= d < n && x in catalog[..n][d];
            assert x in catalog[d];
          }
        }
        if Referenced(x, ids) && Stored(x, catalog) {
          var d :| 0 <= d < |catalog| && x in catalog[d];
          if d < n {
            assert x in catalog[..n][d];
          }
        }
      }
    }
  }

  lemma RelationResolves(v: PyVal, catalog: seq<seq<RecordRef>>)
    requires catalog != [] && RelationValue(v, catalog).Ok?
    ensures Iterate(v).Ok? && MapEach(Iterate(v).value, Field("id")).Ok?
    ensures var ids := MapEach(Iterate(v).value, Field("id")).value;
      var out := RelationValue(v, catalog).value;
      out.PSet? && Distinct(out.members)
      && forall x :: x in out.members <==> Referenced(x, ids) && Stored(x, catalog)
  {
    MatchesMembers(catalog, MapEach(Iterate(v).value, Field("id")).value);
  }

  /**
   * What a sent property document reads back as: the service's reply to it made into a
   * property and converted with to_python.
   */
  function ReadBack(k: Kind, sent: PyVal, name: string, catalog: seq<seq<RecordRef>>): Result<PyVal>
    requires sent.PDict?
  {
    var p :- MakeProperty(name, Echo(k, sent));
    Value(p, catalog)
  }

  /** The reply to `{tag: payload}` reads back as the payload converted by the tag's kind. */
  lemma ReadBackOf(k: Kind, payload: PyVal, name: string, catalog: seq<seq<RecordRef>>)
    ensures ReadBack(k, PDict([(Tag(k), payload)]), name, catalog) == Value(Property(name, k, payload), catalog)
  {
    MakeEchoed(k, payload, name);
  }

  /** Url, email and checkbox values come back exactly as sent. */
  lemma PassthroughRoundTrip(k: Kind, v: PyVal, str: PyVal -> string, name: string, catalog: seq<seq<RecordRef>>)
    requires k == Url || k == Email || k == Checkbox
    ensures FromPython(k, v, str) == Ok(PDict([(Tag(k), v)]))
    ensures ReadBack(k, FromPython(k, v, str).value, name, catalog) == Ok(v)
  {
    MakeEchoed(k, v, name);
  }

  /** A select or status value comes back as its text. */
  lemma SelectRoundTrip(k: Kind, v: PyVal, str: PyVal -> string, name: string, catalog: seq<seq<RecordRef>>)
    requires k == Select || k == Status
    ensures FromPython(k, v, str) == Ok(PDict([(Tag(k), NameDoc(str(v)))]))
    ensures ReadBack(k, FromPython(k, v, str).value, name, catalog) == Ok(PStr(str(v)))
  {
    MakeEchoed(k, NameDoc(str(v)), name);
  }

  /** `str(v)` of each value. */
  function StrEach(items: seq<PyVal>, str: PyVal -> string): (r: seq<string>)
    ensures |r| == |items| && forall i :: 0 <= i < |items| ==> r[i] == str(items[i])
  {
    seq(|items|, i requires 0 <= i < |items| => str(items[i]))
  }

  /** The documents `{'name': t}` for the texts `t`. */
  function NameDocs(texts: seq<string>): (r: seq<PyVal>)
    ensures |r| == |texts| && forall i :: 0 <= i < |texts| ==> r[i] == NameDoc(texts[i])
  {
    seq(|texts|, i requires 0 <= i < |texts| => NameDoc(texts[i]))
  }

  /** A multi-select goes out as one name document per value. */
  lemma SentNames(v: PyVal, str: PyVal -> string)
    requires Iterate(v).Ok?
    ensures FromPython(MultiSelect, v, str) == Ok(PDict([(Tag(MultiSelect), PList(NameDocs(StrEach(Iterate(v).value, str))))]))
  {
    var items := Iterate(v).value;
    assert seq(|items|, i requires 0 <= i < |items| => NameDoc(str(items[i]))) == NameDocs(StrEach(items, str));
  }

  /** Name documents read back as their texts, sorted. */
  lemma NamesOfDocs(texts: seq<string>, name: string, catalog: seq<seq<RecordRef>>)
    ensures Value(Property(name, MultiSelect, PList(NameDocs(texts))), catalog)
      == Ok(PList(Strs(Sorting.Sort(texts, Sorting.TextLe))))
  {
    MapEachLookup(NameDocs(texts), "name", Strs(texts));
    TextsOfStrs(texts);
  }

  /** A multi-select comes back as the texts of its values, sorted. */
  lemma MultiSelectRoundTrip(v: PyVal, str: PyVal -> string, name: string, catalog: seq<seq<RecordRef>>)
    requires Iterate(v).Ok?
    ensures FromPython(MultiSelect, v, str).Ok?
    ensures ReadBack(MultiSelect, FromPython(MultiSelect, v, str).value, name, catalog)
      == Ok(PList(Strs(Sorting.Sort(StrEach(Iterate(v).value, str), Sorting.TextLe))))
  {
    var texts := StrEach(Iterate(v).value, str);
    SentNames(v, str);
    ReadBackOf(MultiSelect, PList(NameDocs(texts)), name, catalog);
    NamesOfDocs(texts, name, catalog);
  }

  /** What the service gives back for a sent run: the run with its `plain_text` filled in. */
  function Rendered(content: string): PyVal {
    PDict(Put(TextRun(PStr(content)).entries, "plain_text", PStr(content)))
  }

  /** Text goes out as one run and, once the service has rendered it, reads back unchanged. */
  lemma TextRoundTrip(k: Kind, content: string, str: PyVal -> string, name: string, catalog: seq<seq<RecordRef>>)
    requires k == Title || k == RichText || k == Text
    ensures FromPython(k, PStr(content), str) == Ok(PDict([(Tag(k), PList([TextRun(PStr(content))]))]))
    ensures ReadBack(k, PDict([(Tag(k), PList([Rendered(content)]))]), name, catalog) == Ok(PStr(content))
  {
    var run := Rendered(content);
    MakeEchoed(k, PList([run]), name);
    assert Index(run, "plain_text") == Ok(PStr(content));
    var runs := [run];
    assert runs[..0] == [] && runs[0] == run;
    assert JoinEach(runs[..0], PlainText) == Ok("");
    assert JoinEach(runs, PlainText) == Ok("" + content);
    assert "" + content == content;
  }

  /** The remote ids RelationProperty.from_python sends for records that have one. */
  function RemoteIds(members: seq<RecordRef>): (r: seq<PyVal>)
    ensures |r| == |members| && forall i :: 0 <= i < |members| ==> r[i] == PStr(IdText(members[i].notionId))
  {
    seq(|members|, i requires 0 <= i < |members| => PStr(IdText(members[i].notionId)))
  }

  /** The documents `{'id': x}` for the ids `x`. */
  function IdDocs(ids: seq<PyVal>): (r: seq<PyVal>)
    ensures |r| == |ids| && forall i :: 0 <= i < |ids| ==> r[i] == PDict([("id", ids[i])])
  {
    seq(|ids|, i requires 0 <= i < |ids| => PDict([("id", ids[i])]))
  }

  /** What from_python sends for a set of records that all have a remote id. */
  lemma SentReferences(members: seq<RecordRef>, str: PyVal -> string)
    requires forall m :: m in members ==> m.notionId.Id?
    ensures FromPython(Relation, PSet(members), str) == Ok(PDict([("relation", PList(IdDocs(RemoteIds(members))))]))
  {
    var docs := IdDocs(RemoteIds(members));
    var items := Iterate(PSet(members)).value;
    var sent := seq(|items|, i requires 0 <= i < |items| => Reference(items[i], str));
    forall i | 0 <= i < |items| ensures sent[i] == docs[i] {
      assert items[i] == PModel(members[i]);
      assert members[i] in members;
      assert sent[i] == Reference(PModel(members[i]), str);
    }
    assert sent == docs;
  }

  /** Reading the ids back out of the sent documents gives the ids. */
  lemma IdDocsRead(ids: seq<PyVal>)
    ensures MapEach(IdDocs(ids), Field("id")) == Ok(ids)
  {
    MapEachLookup(IdDocs(ids), "id", ids);
  }

  /** A record is in some configured database. */
  predicate Stored(x: RecordRef, catalog: seq<seq<RecordRef>>) {
    exists d :: 0 <= d < |catalog| && x in catalog[d]
  }

  /** No two configured records share a remote id (the column is unique and ids are UUIDs). */
  ghost predicate UniqueRemoteIds(catalog: seq<seq<RecordRef>>) {
    forall x, y :: Stored(x, catalog) && Stored(y, catalog) && x.notionId.Id? && x.notionId == y.notionId ==> x == y
  }

  /** The stored records referenced by the sent ids are exactly the records sent. */
  lemma ResolvedAreSent(members: seq<RecordRef>, catalog: seq<seq<RecordRef>>)
    requires forall m :: m in members ==> m.notionId.Id? && Stored(m, catalog)
    requires UniqueRemoteIds(catalog)
    ensures forall x :: Referenced(x, RemoteIds(members)) && Stored(x, catalog) <==> x in members
  {
    var ids := RemoteIds(members);
    forall x ensures Referenced(x, ids) && Stored(x, catalog) <==> x in members {
      if x in members {
        var i :| 0 <= i < |members| && members[i] == x;
        assert ids[i] == PStr(x.notionId.uuid);
      }
      if Referenced(x, ids) && Stored(x, catalog) {
        var i :| 0 <= i < |ids| && ids[i] == PStr(x.notionId.uuid);
        assert members[i] in members;
      }
    }
  }

  lemma RelationKindValue(p: Property, catalog: seq<seq<RecordRef>>)
    requires p.kind == Relation
    ensures Value(p, catalog) == RelationValue(p.value, catalog)
  {
  }

  /** Records sent by remote id read back as the configured records those ids reference. */
  lemma RelationReadBack(members: seq<RecordRef>, str: PyVal -> string, name: string, catalog: seq<seq<RecordRef>>)
    requires catalog != []
    requires forall m :: m in members ==> m.notionId.Id?
    ensures FromPython(Relation, PSet(members), str).Ok?
    ensures ReadBack(Relation, FromPython(Relation, PSet(members), str).value, name, catalog)
      == Ok(PSet(Dedup(Matches(catalog, RemoteIds(members)))))
  {
    var ids := RemoteIds(members);
    SentReferences(members, str);
    ReadBackOf(Relation, PList(IdDocs(ids)), name, catalog);
    RelationOfIds(ids, name, catalog);
  }

  /** A relation payload of id documents reads back as the configured records with those ids. */
  lemma RelationOfIds(ids: seq<PyVal>, name: string, catalog: seq<seq<RecordRef>>)
    requires catalog != []
    ensures Value(Property(name, Relation, PList(IdDocs(ids))), catalog) == Ok(PSet(Dedup(Matches(catalog, ids))))
  {
    IdDocsRead(ids);
    RelationKindValue(Property(name, Relation, PList(IdDocs(ids))), catalog);
  }

  /** Records sent by their remote ids read back as the same records. */
  lemma RelationRoundTrip(members: seq<RecordRef>, str: PyVal -> string, name: string, catalog: seq<seq<RecordRef>>)
    requires catalog != []
    requires forall m :: m in members ==> m.notionId.Id? && Stored(m, catalog)
    requires UniqueRemoteIds(catalog)
    ensures FromPython(Relation, PSet(members), str).Ok?
    ensures var r := ReadBack(Relation, FromPython(Relation, PSet(members), str).value, name, catalog);
      r.Ok? && r.value.PSet? && forall x :: x in r.value.members <==> x in members
  {
    RelationReadBack(members, str, name, catalog);
    MatchesMembers(catalog, RemoteIds(members));
    ResolvedAreSent(members, catalog);
  }

  /**
   * As written, a date goes out as the parsed date itself under the tag, with no `start`:
   * the service's own reply in that shape is read back as a failure.
   */
  lemma DateAsWrittenUnreadable(iso: string, str: PyVal -> string, name: string, catalog: seq<seq<RecordRef>>)
    ensures FromPython(Date, PDate(iso), str) == Ok(PDict([("date", PDate(iso))]))
    ensures ReadBack(Date, FromPython(Date, PDate(iso), str).value, name, catalog) == Err(NotADict)
  {
    MakeEchoed(Date, PDate(iso), name);
  }

  /** Sent as `{'date': {'start': <ISO text>}}`, a date reads back as the same date. */
  lemma DateRoundTrip(iso: string, name: string, catalog: seq<seq<RecordRef>>)
    ensures ReadBack(Date, DateFromPython(iso), name, catalog) == Ok(PDate(iso))
  {
    MakeEchoed(Date, PDict([("start", PStr(iso))]), name);
  }
}
