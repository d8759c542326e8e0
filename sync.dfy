/**
 * The rules of `to_model` and `from_model` in sidekick/contrib/notion/sync.py, stated on
 * values: how a remote document becomes a record, its links and its content blocks, and
 * which local values `from_model` sends back. The tables the pass changes are a `Tables`
 * value here; the `Database` class in module Store runs the pass on its own fields and is
 * proved to do what these functions say.
 */
module Sync {
  import opened Py
  import Properties
  import Blocks
  import opened Content

  // ----- loops -----

  /**
   * The state after a loop has run `step` on the first `n` elements of `xs`; the first
   * failing step ends the loop with its error.
   */
  function Fold<S, X>(xs: seq<X>, n: nat, init: S, step: (S, X) -> Result<S>): Result<S>
    requires n <= |xs|
  {
    if n == 0 then Ok(init)
    else
      var s :- Fold(xs, n - 1, init, step);
      step(s, xs[n - 1])
  }

  lemma {:induction false} FoldFailEarly<S, X>(xs: seq<X>, k: nat, n: nat, init: S, step: (S, X) -> Result<S>)
    requires k <= n <= |xs| && Fold(xs, k, init, step).Err?
    ensures Fold(xs, n, init, step) == Fold(xs, k, init, step)
    decreases n
  {
    if k < n {
      FoldFailEarly(xs, k, n - 1, init, step);
    }
  }

  lemma FoldStep<S, X>(xs: seq<X>, n: nat, init: S, step: (S, X) -> Result<S>)
    requires 0 < n <= |xs| && Fold(xs, n - 1, init, step).Ok?
    ensures Fold(xs, n, init, step) == step(Fold(xs, n - 1, init, step).value, xs[n - 1])
  {
  }

  /** A property of the state that every successful step carries forward holds of the fold. */
  lemma {:induction false} FoldInduct<S, X>(xs: seq<X>, n: nat, init: S, step: (S, X) -> Result<S>, inv: (nat, S) -> bool)
    requires n <= |xs| && inv(0, init)
    requires forall i: nat, s: S :: i < |xs| && inv(i, s) && step(s, xs[i]).Ok? ==> inv(i + 1, step(s, xs[i]).value)
    ensures Fold(xs, n, init, step).Ok? ==> inv(n, Fold(xs, n, init, step).value)
  {
    if n > 0 {
      FoldInduct(xs, n - 1, init, step, inv);
      if Fold(xs, n - 1, init, step).Ok? {
        FoldStep(xs, n, init, step);
      }
    }
  }

  /** One more turn of the loop: a step that succeeds is the fold so far, one that fails is the fold's result. */
  lemma FoldNext<S, X>(xs: seq<X>, i: nat, init: S, step: (S, X) -> Result<S>, s: S)
    requires i < |xs| && Fold(xs, i, init, step) == Ok(s)
    ensures step(s, xs[i]).Ok? ==> Fold(xs, i + 1, init, step) == step(s, xs[i])
    ensures step(s, xs[i]).Err? ==> Fold(xs, |xs|, init, step) == step(s, xs[i])
  {
    if step(s, xs[i]).Err? {
      FoldFailEarly(xs, i + 1, |xs|, init, step);
    }
  }

  /**
   * The state after a loop has run `step` on the first `n` elements of `xs`, and the error
   * that stopped it, if any: unlike `Fold`, a failing step keeps the state reached before it.
   */
  function Run<S, X>(xs: seq<X>, n: nat, init: S, step: (S, X) -> Result<S>): (S, Option<Error>)
    requires n <= |xs|
  {
    if n == 0 then (init, None)
    else
      var (s, e) := Run(xs, n - 1, init, step);
      if e.Some? then (s, e)
      else match step(s, xs[n - 1])
        case Ok(s') => (s', None)
        case Err(err) => (s, Some(err))
  }

  lemma {:induction false} RunStops<S, X>(xs: seq<X>, k: nat, n: nat, init: S, step: (S, X) -> Result<S>)
    requires k <= n <= |xs| && Run(xs, k, init, step).1.Some?
    ensures Run(xs, n, init, step) == Run(xs, k, init, step)
    decreases n
  {
    if k < n {
      RunStops(xs, k, n - 1, init, step);
    }
  }

  /** One more turn of the loop: the step's state, or the state so far and the step's error. */
  lemma RunNext<S, X>(xs: seq<X>, i: nat, init: S, step: (S, X) -> Result<S>, s: S)
    requires i < |xs| && Run(xs, i, init, step) == (s, None)
    ensures step(s, xs[i]).Ok? ==> Run(xs, i + 1, init, step) == (step(s, xs[i]).value, None)
    ensures step(s, xs[i]).Err? ==> Run(xs, i + 1, init, step) == (s, Some(step(s, xs[i]).error))
  {
  }

  // ----- field mapping -----

  /** `name.replace(' ', '_').lower()` */
  function FieldName(name: string): (r: string)
    ensures |r| == |name|
    ensures forall i :: 0 <= i < |r| ==> r[i] != ' ' && !('A' <= r[i] <= 'Z')
  {
    var r := LowerStr(ReplaceChar(name, ' ', '_'));
    assert forall i :: 0 <= i < |r| ==> r[i] == Lower(if name[i] == ' ' then '_' else name[i]);
    r
  }

  /** A field name maps to itself: snake-casing twice changes nothing more. */
  lemma FieldNameIdempotent(name: string)
    ensures FieldName(FieldName(name)) == FieldName(name)
  {
    var f := FieldName(name);
    var g := FieldName(f);
    forall i | 0 <= i < |f|
      ensures g[i] == f[i]
    {
      assert g[i] == Lower(if f[i] == ' ' then '_' else f[i]);
    }
  }

  /** The kind of a model field: plain, many-to-many or a foreign key, with the related model. */
  datatype FieldKind = Plain | ManyToMany(related: string) | ForeignKey(related: string)

  /**
   * What `to_model` needs to know of the model: its name, its fields and whether it has
   * the relation the blocks live in (`blocks_field`).
   */
  datatype Schema = Schema(model: string, fields: map<string, FieldKind>, hasBlocks: bool)

  /** Where a property's value goes: nowhere, into a field now, or into a relation after saving. */
  datatype Target = Skip | SetField(field: string) | Defer(field: string)

  function TargetOf(schema: Schema, p: Properties.Property): (t: Target)
    ensures p.kind == Properties.Title && "title" in schema.fields ==> t == SetField("title")
    ensures !(p.kind == Properties.Title && "title" in schema.fields) ==>
      && (t.Skip? <==> FieldName(p.name) !in schema.fields)
      && (t.SetField? <==> FieldName(p.name) in schema.fields && schema.fields[FieldName(p.name)].Plain?)
      && (!t.Skip? ==> t.field == FieldName(p.name))
  {
    if p.kind == Properties.Title && "title" in schema.fields then SetField("title")
    else
      var f := FieldName(p.name);
      if f !in schema.fields then Skip
      else if schema.fields[f].Plain? then SetField(f)
      else Defer(f)
  }

  // ----- one document: fields -----

  /** A record: its primary key, its `notion_id` and the values of its fields, by name. */
  datatype Record = Record(pk: nat, notionId: string, fields: seq<(string, PyVal)>)

  /** The object being filled: its field values and the relation values deferred until it is saved. */
  datatype Pending = Pending(fields: seq<(string, PyVal)>, after: seq<(string, PyVal)>)

  /** One turn of the loop over the properties: convert, then set, defer or skip. */
  function Assign(schema: Schema, catalog: seq<seq<RecordRef>>, s: Pending, p: Properties.Property): Result<Pending> {
    var v :- Properties.Value(p, catalog);
    match TargetOf(schema, p)
    case Skip => Ok(s)
    case SetField(f) => Ok(s.(fields := Put(s.fields, f, v)))
    case Defer(f) => Ok(s.(after := Put(s.after, f, v)))
  }

  function AssignStep(schema: Schema, catalog: seq<seq<RecordRef>>): (Pending, Properties.Property) -> Result<Pending> {
    (s, p) => Assign(schema, catalog, s, p)
  }

  /** One more property: one that assigns is the loop so far, one that fails is the loop's error. */
  lemma AssignNext(schema: Schema, catalog: seq<seq<RecordRef>>, props: seq<Properties.Property>, i: nat, init: Pending, p: Pending)
    requires i < |props| && Fold(props, i, init, AssignStep(schema, catalog)) == Ok(p)
    ensures var next := Assign(schema, catalog, p, props[i]);
      && (next.Ok? ==> Fold(props, i + 1, init, AssignStep(schema, catalog)) == next)
      && (next.Err? ==> Fold(props, |props|, init, AssignStep(schema, catalog)) == next)
  {
    FoldNext(props, i, init, AssignStep(schema, catalog), p);
  }

  /**
   * `get_properties(result)`: every property is built before any is converted, so the
   * first bad definition fails the document before any value is read.
   */
  function MakeAll(entries: seq<(string, PyVal)>): (r: Result<seq<Properties.Property>>)
    ensures r.Ok? ==> |r.value| == |entries| && forall i :: 0 <= i < |entries| ==> r.value[i].name == entries[i].0
  {
    if entries == [] then Ok([])
    else
      var p :- Properties.MakeProperty(entries[0].0, entries[0].1);
      var rest :- MakeAll(entries[1..]);
      Ok([p] + rest)
  }

  function DocProperties(doc: PyVal): Result<seq<Properties.Property>> {
    var props :- Index(doc, "properties");
    if !props.PDict? then Err(AttributeError) else MakeAll(props.entries)
  }

  // ----- one document: the author -----

  /** The per-pass cache of users by remote user id. */
  type Users = map<PyVal, nat>

  /** What `get_user` answers: the user's primary key, the cache after, and the ids it fetched. */
  datatype Found = Found(user: nat, cache: Users, fetched: seq<PyVal>)

  /**
   * `get_user(definition)`: a cached id answers without a request; otherwise the remote
   * user is fetched and the local user with that e-mail address is cached.
   * `accounts` holds the local users by e-mail address.
   */
  function GetUser(cache: Users, definition: PyVal, retrieve: PyVal -> Result<PyVal>, accounts: map<string, nat>): (r: Result<Found>)
    ensures r.Ok? ==> cache.Keys <= r.value.cache.Keys && (forall k :: k in cache ==> r.value.cache[k] == cache[k])
    ensures r.Ok? ==> Index(definition, "id").Ok?
    ensures r.Ok? ==> var id := Index(definition, "id").value;
      && r.value.cache.Keys == cache.Keys + {id}
      && r.value.user == r.value.cache[id]
      && r.value.fetched == (if id in cache then [] else [id])
  {
    var id :- Index(definition, "id");
    if !Hashable(id) then Err(TypeError)
    else if id in cache then Ok(Found(cache[id], cache, []))
    else
      var response :- retrieve(id);
      var person :- Index(response, "person");
      var email :- Index(person, "email");
      if email.PStr? && email.s in accounts then
        Ok(Found(accounts[email.s], cache[id := accounts[email.s]], [id]))
      else Err(UserNotFound(if email.PStr? then email.s else ""))
  }

  /** The users table's model, for the author field. */
  const UserModel := "auth.User"

  function UserRef(pk: nat): PyVal {
    PModel(RecordRef(UserModel, pk, NoField))
  }

  // ----- one document: saving -----

  /** `Model.objects.filter(notion_id=id).first()`, as an index into the table. */
  function Find(records: seq<Record>, id: string, from: nat): (r: Option<nat>)
    ensures r.Some? ==> (from <= r.value < |records| && records[r.value].notionId == id
                         && forall j :: from <= j < r.value ==> records[j].notionId != id)
    ensures r.None? ==> forall j :: from <= j < |records| ==> records[j].notionId != id
    decreases |records| - from
  {
    if from >= |records| then None
    else if records[from].notionId == id then Some(from)
    else Find(records, id, from + 1)
  }

  /** The record `obj` starts from: the stored one, or a new one with no field set. */
  function Base(records: seq<Record>, id: string): seq<(string, PyVal)> {
    match Find(records, id, 0)
    case Some(k) => records[k].fields
    case None => []
  }

  /** The tables `to_model` writes to. `named` holds the rows related by name, by related model. */
  datatype Tables = Tables(
    records: seq<Record>,
    links: map<(nat, string), seq<Linked>>,
    named: set<(string, string)>,
    blocks: seq<Stored>,
    nextPk: nat)

  /** A related object: one fetched or created by name, or a record given directly. */
  datatype Linked = ByName(model: string, name: string) | ByRecord(ref: RecordRef)

  /** A stored block row and the primary key of the record it belongs to. */
  datatype Stored = Stored(owner: nat, row: BlockRow)

  /** `Block.notion_id` is unique across the table. */
  predicate UniqueBlockIds(blocks: seq<Stored>) {
    forall i, j :: 0 <= i < j < |blocks| ==> blocks[i].row.notionId != blocks[j].row.notionId
  }

  /** `notion_id` is unique in each table and primary keys are unique and below the next one. */
  ghost predicate WellFormed(t: Tables) {
    && UniqueRecords(t.records)
    && (forall i :: 0 <= i < |t.records| ==> t.records[i].pk < t.nextPk)
    && UniqueBlockIds(t.blocks)
  }

  /** No two records share a `notion_id` or a primary key. */
  ghost predicate UniqueRecords(records: seq<Record>) {
    && (forall i, j :: 0 <= i < j < |records| ==> records[i].notionId != records[j].notionId)
    && (forall i, j :: 0 <= i < j < |records| ==> records[i].pk != records[j].pk)
  }

  /** `obj.save()`: an update in place, or an insert under the next primary key. */
  function SaveRecord(t: Tables, id: string, fields: seq<(string, PyVal)>): (Tables, nat) {
    match Find(t.records, id, 0)
    case Some(k) => (t.(records := t.records[k := t.records[k].(fields := fields)]), t.records[k].pk)
    case None => (t.(records := t.records + [Record(t.nextPk, id, fields)], nextPk := t.nextPk + 1), t.nextPk)
  }

  /**
   * A record is matched by its remote id: when one has the id it is updated and nothing is
   * inserted, otherwise exactly one record is added with a fresh key. Either way the
   * record with the id then holds the new fields, and nothing else changes.
   */
  lemma SaveRecordUpserts(t: Tables, id: string, fields: seq<(string, PyVal)>)
    requires WellFormed(t)
    ensures var (t', pk) := SaveRecord(t, id, fields);
      && WellFormed(t')
      && t'.links == t.links && t'.named == t.named && t'.blocks == t.blocks
      && (exists i :: 0 <= i < |t'.records| && t'.records[i] == Record(pk, id, fields))
      && (Find(t.records, id, 0).Some? ==>
            && |t'.records| == |t.records| && t'.nextPk == t.nextPk
            && forall i :: 0 <= i < |t.records| && t.records[i].notionId != id ==> t'.records[i] == t.records[i])
      && (Find(t.records, id, 0).None? ==>
            && t'.records == t.records + [Record(t.nextPk, id, fields)]
            && forall i :: 0 <= i < |t.records| ==> t.records[i].pk != pk)
  {
    var (t', pk) := SaveRecord(t, id, fields);
    match Find(t.records, id, 0)
    case Some(k) =>
      assert t'.records[k] == Record(pk, id, fields);
    case None =>
      assert t'.records[|t.records|] == Record(pk, id, fields);
  }

  /** Syncing the same document again matches the record the first sync saved: no duplicate. */
  lemma ResyncFindsRecord(t: Tables, id: string, fields: seq<(string, PyVal)>, fields': seq<(string, PyVal)>)
    requires WellFormed(t)
    ensures var (t1, pk) := SaveRecord(t, id, fields);
      var (t2, pk') := SaveRecord(t1, id, fields');
      pk' == pk && |t2.records| == |t1.records| && t2.nextPk == t1.nextPk
  {
    SaveRecordUpserts(t, id, fields);
    var (t1, pk) := SaveRecord(t, id, fields);
    var k := Find(t1.records, id, 0);
    var i :| 0 <= i < |t1.records| && t1.records[i] == Record(pk, id, fields);
    assert k.Some?;
    assert k.value == i;
  }

  // ----- one document: relations -----

  /** The object an item resolves to, when it resolves. */
  function Related(model: string, item: PyVal): Linked {
    if item.PStr? then ByName(model, item.s) else if item.PModel? then ByRecord(item.ref) else ByName(model, "")
  }

  /** The related objects gathered for one relation, and the rows named so far. */
  datatype Resolving = Resolving(rels: seq<Linked>, named: set<(string, string)>)

  /**
   * One item of a relation value: a text is fetched or created by name, a record is used
   * as it is, and anything else raises.
   */
  function Resolve(model: string, s: Resolving, item: PyVal): Result<Resolving> {
    match item
    case PStr(name) => Ok(Resolving(s.rels + [ByName(model, name)], s.named + {(model, name)}))
    case PModel(ref) => Ok(s.(rels := s.rels + [ByRecord(ref)]))
    case _ => Err(UnexpectedRelationItem(item))
  }

  function ResolveStep(model: string): (Resolving, PyVal) -> Result<Resolving> {
    (s, item) => Resolve(model, s, item)
  }

  /** One more relation item: one that resolves is the loop so far, one that fails is the loop's error. */
  lemma ResolveNext(model: string, items: seq<PyVal>, i: nat, init: Resolving, s: Resolving)
    requires i < |items| && Fold(items, i, init, ResolveStep(model)) == Ok(s)
    ensures var next := Resolve(model, s, items[i]);
      && (next.Ok? ==> Fold(items, i + 1, init, ResolveStep(model)) == next)
      && (next.Err? ==> Fold(items, |items|, init, ResolveStep(model)) == next)
  {
    FoldNext(items, i, init, ResolveStep(model), s);
  }

  /**
   * The related objects resolve one for one from the items, and exist afterwards; the
   * items resolve exactly when each is a text or a record.
   */
  lemma {:induction false} ResolveItems(model: string, items: seq<PyVal>, n: nat, init: Resolving)
    requires n <= |items|
    ensures var r := Fold(items, n, init, ResolveStep(model));
      && (r.Ok? <==> forall i :: 0 <= i < n ==> items[i].PStr? || items[i].PModel?)
      && (r.Ok? ==>
            && |r.value.rels| == |init.rels| + n && r.value.rels[..|init.rels|] == init.rels
            && init.named <= r.value.named
            && (forall i :: 0 <= i < n ==> r.value.rels[|init.rels| + i] == Related(model, items[i]))
            && forall i :: 0 <= i < n && items[i].PStr? ==> (model, items[i].s) in r.value.named)
  {
    if n > 0 {
      ResolveItems(model, items, n - 1, init);
      var r := Fold(items, n - 1, init, ResolveStep(model));
      if r.Err? {
        FoldFailEarly(items, n - 1, n, init, ResolveStep(model));
      } else {
        var s := r.value;
        assert Fold(items, n, init, ResolveStep(model)) == Resolve(model, s, items[n - 1]);
        if Resolve(model, s, items[n - 1]).Ok? {
          var s' := Resolve(model, s, items[n - 1]).value;
          assert s'.rels == s.rels + [s'.rels[|s.rels|]];
          assert forall i :: 0 <= i < |s.rels| ==> s'.rels[i] == s.rels[i];
        }
      }
    }
  }

  /** The elements of `s` that occur in `among`, in order. */
  function Within<T(==,!new)>(s: seq<T>, among: seq<T>): (r: seq<T>)
    ensures forall x :: x in r <==> x in s && x in among
    ensures Properties.Distinct(s) ==> Properties.Distinct(r)
  {
    if s == [] then []
    else
      var rest := Within(s[1..], among);
      assert forall x :: x in s <==> x == s[0] || x in s[1..];
      if s[0] in among then
        assert Properties.Distinct(s) ==> s[0] !in s[1..];
        [s[0]] + rest
      else rest
  }

  /** The elements of `s` that do not occur in `among`, in order. */
  function Outside<T(==,!new)>(s: seq<T>, among: seq<T>): (r: seq<T>)
    ensures forall x :: x in r <==> x in s && x !in among
    ensures Properties.Distinct(s) ==> Properties.Distinct(r)
  {
    if s == [] then []
    else
      var rest := Outside(s[1..], among);
      assert forall x :: x in s <==> x == s[0] || x in s[1..];
      if s[0] !in among then
        assert Properties.Distinct(s) ==> s[0] !in s[1..];
        [s[0]] + rest
      else rest
  }

  /**
   * `related_manager.add(*added)` then `.remove(*manager.exclude(pk__in=added))`: the links
   * already there and still wanted keep their place, the new ones follow in order.
   */
  function Relinked(current: seq<Linked>, resolved: seq<Linked>): seq<Linked> {
    Within(current, resolved) + Outside(Properties.Dedup(resolved), current)
  }

  /** After the add and the remove, the links are exactly the resolved objects, each once. */
  lemma RelinkedExactly(current: seq<Linked>, resolved: seq<Linked>)
    requires Properties.Distinct(current)
    ensures forall x :: x in Relinked(current, resolved) <==> x in resolved
    ensures Properties.Distinct(Relinked(current, resolved))
  {
    var a := Within(current, resolved);
    var b := Outside(Properties.Dedup(resolved), current);
    var r := a + b;
    forall i, j | 0 <= i < j < |r|
      ensures r[i] != r[j]
    {
      if j < |a| {
      } else if i >= |a| {
        assert r[i] == b[i - |a|] && r[j] == b[j - |a|];
      } else {
        assert r[i] in a && r[j] == b[j - |a|] && r[j] in b;
      }
    }
  }

  /** One entry of `after`: resolve the items, then replace the links of the relation. */
  function Relate(schema: Schema, pk: nat, t: Tables, entry: (string, PyVal)): Result<Tables> {
    var (field, value) := entry;
    var kind := if field in schema.fields then schema.fields[field] else Plain;
    match kind
    case Plain => Ok(t)
    case ManyToMany(model) =>
      var items :- Iterate(value);
      var r :- Fold(items, |items|, Resolving([], t.named), ResolveStep(model));
      var current := if (pk, field) in t.links then t.links[(pk, field)] else [];
      Ok(t.(named := r.named, links := t.links[(pk, field) := Relinked(current, r.rels)]))
    case ForeignKey(model) =>
      var items :- Iterate(value);
      var r :- Fold(items, |items|, Resolving([], t.named), ResolveStep(model));
      Err(AttributeError)
  }

  function RelateStep(schema: Schema, pk: nat): (Tables, (string, PyVal)) -> Result<Tables> {
    (t, entry) => Relate(schema, pk, t, entry)
  }

  /** One more entry of `after`: one that relates is the loop so far, one that fails is the loop's error. */
  lemma RelateNext(schema: Schema, pk: nat, after: seq<(string, PyVal)>, i: nat, init: Tables, t: Tables)
    requires i < |after| && Fold(after, i, init, RelateStep(schema, pk)) == Ok(t)
    ensures var next := Relate(schema, pk, t, after[i]);
      && (next.Ok? ==> Fold(after, i + 1, init, RelateStep(schema, pk)) == next)
      && (next.Err? ==> Fold(after, |after|, init, RelateStep(schema, pk)) == next)
  {
    FoldNext(after, i, init, RelateStep(schema, pk), t);
  }

  /**
   * A many-to-many relation ends up linked to exactly the objects its items resolve to,
   * whatever it was linked to before; a foreign key cannot be added to and fails.
   */
  lemma RelateReplaces(schema: Schema, pk: nat, t: Tables, field: string, value: PyVal, items: seq<PyVal>, t': Tables)
    requires field in schema.fields && schema.fields[field].ManyToMany?
    requires (pk, field) in t.links ==> Properties.Distinct(t.links[(pk, field)])
    requires Iterate(value) == Ok(items) && Relate(schema, pk, t, (field, value)) == Ok(t')
    ensures (pk, field) in t'.links && Properties.Distinct(t'.links[(pk, field)])
    ensures forall x :: x in t'.links[(pk, field)] <==>
      exists i :: 0 <= i < |items| && x == Related(schema.fields[field].related, items[i])
    ensures forall k :: k in t.links && k != (pk, field) ==> k in t'.links && t'.links[k] == t.links[k]
    ensures t'.records == t.records && t'.blocks == t.blocks && t.named <= t'.named
  {
    var model := schema.fields[field].related;
    var r := RelatedThrough(schema, pk, t, field, value, items, t');
    ResolvedOneForOne(model, items, t.named, r);
    var current := if (pk, field) in t.links then t.links[(pk, field)] else [];
    LinksReplaced(model, items, t, (pk, field), current, r, t');
  }

  /** Resolving from nothing gives one related object per item, in order, and only adds names. */
  lemma ResolvedOneForOne(model: string, items: seq<PyVal>, named: set<(string, string)>, r: Resolving)
    requires Fold(items, |items|, Resolving([], named), ResolveStep(model)) == Ok(r)
    ensures named <= r.named
    ensures |r.rels| == |items| && forall i :: 0 <= i < |items| ==> r.rels[i] == Related(model, items[i])
  {
    ResolveItems(model, items, |items|, Resolving([], named));
    forall i | 0 <= i < |items| ensures r.rels[i] == Related(model, items[i]) {
      assert r.rels[0 + i] == Related(model, items[i]);
    }
  }

  /** A many-to-many entry that relates has resolved its items to `r` and rebuilt its links from them. */
  lemma RelatedThrough(schema: Schema, pk: nat, t: Tables, field: string, value: PyVal, items: seq<PyVal>, t': Tables)
    returns (r: Resolving)
    requires field in schema.fields && schema.fields[field].ManyToMany?
    requires Iterate(value) == Ok(items) && Relate(schema, pk, t, (field, value)) == Ok(t')
    ensures Fold(items, |items|, Resolving([], t.named), ResolveStep(schema.fields[field].related)) == Ok(r)
    ensures var current := if (pk, field) in t.links then t.links[(pk, field)] else [];
      t' == t.(named := r.named, links := t.links[(pk, field) := Relinked(current, r.rels)])
  {
    r := Fold(items, |items|, Resolving([], t.named), ResolveStep(schema.fields[field].related)).value;
  }

  /** The relation under `key` is rebuilt from the resolved objects; nothing else moves. */
  lemma LinksReplaced(model: string, items: seq<PyVal>, t: Tables, key: (nat, string), current: seq<Linked>, r: Resolving, t': Tables)
    requires Properties.Distinct(current) && t.named <= r.named
    requires |r.rels| == |items| && forall i :: 0 <= i < |items| ==> r.rels[i] == Related(model, items[i])
    requires t' == t.(named := r.named, links := t.links[key := Relinked(current, r.rels)])
    ensures key in t'.links && Properties.Distinct(t'.links[key])
    ensures forall x :: x in t'.links[key] <==> exists i :: 0 <= i < |items| && x == Related(model, items[i])
    ensures forall k :: k in t.links && k != key ==> k in t'.links && t'.links[k] == t.links[k]
    ensures t'.records == t.records && t'.blocks == t.blocks && t.named <= t'.named
  {
    RelinkedExactly(current, r.rels);
    ResolvedAre(model, items, r.rels);
  }

  /** Objects resolved one for one from the items are exactly the items' related objects. */
  lemma ResolvedAre(model: string, items: seq<PyVal>, rels: seq<Linked>)
    requires |rels| == |items| && forall i :: 0 <= i < |items| ==> rels[i] == Related(model, items[i])
    ensures forall x :: x in rels <==> exists i :: 0 <= i < |items| && x == Related(model, items[i])
  {
    forall x | x in rels
      ensures exists i :: 0 <= i < |items| && x == Related(model, items[i])
    {
      var i :| 0 <= i < |rels| && rels[i] == x;
      assert x == Related(model, items[i]);
    }
    forall i | 0 <= i < |items|
      ensures Related(model, items[i]) in rels
    {
      assert rels[i] in rels;
    }
  }

  // ----- one document: blocks -----

  /** `returned[result['id']] = Block(result, ...)`: the block is made before the id is read. */
  function ListBlock(media: Blocks.Handler, listed: seq<(PyVal, Blocks.Block)>, b: Blocks.RemoteBlock): Result<seq<(PyVal, Blocks.Block)>> {
    var block :- Blocks.MakeBlock(b, media);
    var id :- Index(b.definition, "id");
    if !Hashable(id) then Err(TypeError) else Ok(Assoc(listed, id, block))
  }

  function ListStep(media: Blocks.Handler): (seq<(PyVal, Blocks.Block)>, Blocks.RemoteBlock) -> Result<seq<(PyVal, Blocks.Block)>> {
    (listed, b) => ListBlock(media, listed, b)
  }

  /** `d[key] = value` on an insertion-ordered dictionary: an existing key keeps its place. */
  function Assoc<K(==), V>(entries: seq<(K, V)>, key: K, value: V): (r: seq<(K, V)>)
    ensures |r| == |entries| || |r| == |entries| + 1
    ensures forall i :: 0 <= i < |entries| ==> r[i].0 == entries[i].0
    ensures |r| == |entries| + 1 <==> forall i :: 0 <= i < |entries| ==> entries[i].0 != key
    ensures |r| == |entries| + 1 ==> r[|entries|] == (key, value)
  {
    if entries == [] then [(key, value)]
    else if entries[0].0 == key then [(key, value)] + entries[1..]
    else [entries[0]] + Assoc(entries[1..], key, value)
  }

  /** The keys of an association list are distinct. */
  predicate DistinctKeys<K(==), V>(entries: seq<(K, V)>) {
    forall i, j :: 0 <= i < j < |entries| ==> entries[i].0 != entries[j].0
  }

  /** Only the entry under `key` changes, and with distinct keys it then holds `value`. */
  lemma {:induction false} AssocValues<K, V>(entries: seq<(K, V)>, key: K, value: V)
    ensures var r := Assoc(entries, key, value);
      forall i :: 0 <= i < |entries| && entries[i].0 != key ==> r[i] == entries[i]
    ensures var r := Assoc(entries, key, value);
      DistinctKeys(entries) ==> forall i :: 0 <= i < |r| && r[i].0 == key ==> r[i].1 == value
  {
    if entries != [] && entries[0].0 != key {
      AssocValues(entries[1..], key, value);
      var r := Assoc(entries, key, value);
      var rest := Assoc(entries[1..], key, value);
      assert r == [entries[0]] + rest;
      forall i | 0 <= i < |entries| && entries[i].0 != key
        ensures r[i] == entries[i]
      {
        if i > 0 {
          assert r[i] == rest[i - 1] && entries[1..][i - 1] == entries[i];
        }
      }
      if DistinctKeys(entries) {
        assert DistinctKeys(entries[1..]) by {
          forall i, j | 0 <= i < j < |entries[1..]|
            ensures entries[1..][i].0 != entries[1..][j].0
          {
            assert entries[1..][i] == entries[i + 1] && entries[1..][j] == entries[j + 1];
          }
        }
        forall i | 0 <= i < |r| && r[i].0 == key
          ensures r[i].1 == value
        {
          assert i > 0 && r[i] == rest[i - 1];
        }
      }
    }
  }

  lemma AssocKeepsKeysDistinct<K, V>(entries: seq<(K, V)>, key: K, value: V)
    requires DistinctKeys(entries)
    ensures DistinctKeys(Assoc(entries, key, value))
  {
  }

  /** `get_blocks(result, obj)`: the listed blocks by id, each id once, in first-listed order. */
  function Listing(media: Blocks.Handler, results: seq<Blocks.RemoteBlock>): Result<seq<(PyVal, Blocks.Block)>> {
    Fold(results, |results|, [], ListStep(media))
  }

  /** One more listed block: one that lists is the listing so far, one that fails is the listing's error. */
  lemma ListingNext(media: Blocks.Handler, results: seq<Blocks.RemoteBlock>, i: nat, listed: seq<(PyVal, Blocks.Block)>)
    requires i < |results| && Fold(results, i, [], ListStep(media)) == Ok(listed)
    ensures var next := ListBlock(media, listed, results[i]);
      && (next.Ok? ==> Fold(results, i + 1, [], ListStep(media)) == next)
      && (next.Err? ==> Listing(media, results) == next)
  {
    FoldNext(results, i, [], ListStep(media), listed);
  }

  /** Each id is listed once. */
  lemma ListingDistinct(media: Blocks.Handler, results: seq<Blocks.RemoteBlock>)
    ensures Listing(media, results).Ok? ==> DistinctKeys(Listing(media, results).value)
  {
    var step := ListStep(media);
    var inv := (i: nat, listed: seq<(PyVal, Blocks.Block)>) => DistinctKeys(listed);
    forall i: nat, listed: seq<(PyVal, Blocks.Block)> | i < |results| && inv(i, listed) && step(listed, results[i]).Ok?
      ensures inv(i + 1, step(listed, results[i]).value)
    {
      ListBlockKeepsKeysDistinct(media, listed, results[i]);
    }
    FoldInduct(results, |results|, [], step, inv);
  }

  lemma ListBlockKeepsKeysDistinct(media: Blocks.Handler, listed: seq<(PyVal, Blocks.Block)>, b: Blocks.RemoteBlock)
    requires DistinctKeys(listed)
    ensures ListBlock(media, listed, b).Ok? ==> DistinctKeys(ListBlock(media, listed, b).value)
  {
    if ListBlock(media, listed, b).Ok? {
      AssocKeepsKeysDistinct(listed, Index(b.definition, "id").value, Blocks.MakeBlock(b, media).value);
    }
  }

  /** The blocks table during the loop, and the ids of the blocks processed so far. */
  datatype Placing = Placing(blocks: seq<Stored>, done: seq<string>)

  /** `obj_blocks.filter(notion_id=id).first()`, as an index into the table. */
  function FindBlock(blocks: seq<Stored>, owner: nat, id: string, from: nat): (r: Option<nat>)
    ensures r.Some? ==> from <= r.value < |blocks| && blocks[r.value].owner == owner && blocks[r.value].row.notionId == id
    ensures r.None? ==> forall j :: from <= j < |blocks| ==> !(blocks[j].owner == owner && blocks[j].row.notionId == id)
    decreases |blocks| - from
  {
    if from >= |blocks| then None
    else if blocks[from].owner == owner && blocks[from].row.notionId == id then Some(from)
    else FindBlock(blocks, owner, id, from + 1)
  }

  /** Whether another row already holds a `notion_id`: `full_clean` checks uniqueness before an insert. */
  predicate Taken(blocks: seq<Stored>, id: string) {
    exists k :: 0 <= k < |blocks| && blocks[k].row.notionId == id
  }

  /**
   * One turn of the loop over the listed blocks: the `i`th gets ordering `i`, its type and
   * its converted properties; a conversion error is re-raised as 'Confused by block
   * definition'. `valid` stands for the block's `full_clean`.
   */
  function Place(owner: nat, valid: BlockRow -> bool, s: Placing, entry: (PyVal, Blocks.Block)): Result<Placing> {
    var (id, block) := entry;
    if !id.PStr? then Err(ValidationFailed)
    else
      var converted := Blocks.Convert(block);
      if converted.Err? then Err(BlockDefinition(converted.error))
      else
        var props := if converted.value.PDict? then converted.value.entries else [];
        var row := BlockRow(id.s, |s.done|, Blocks.BlockTag(block.kind), props);
        if !valid(row) then Err(ValidationFailed)
        else match FindBlock(s.blocks, owner, id.s, 0)
          case Some(k) => Ok(Placing(s.blocks[k := Stored(owner, row)], s.done + [id.s]))
          case None =>
            if Taken(s.blocks, id.s) then Err(ValidationFailed)
            else Ok(Placing(s.blocks + [Stored(owner, row)], s.done + [id.s]))
  }

  function PlaceStep(owner: nat, valid: BlockRow -> bool): (Placing, (PyVal, Blocks.Block)) -> Result<Placing> {
    (s, entry) => Place(owner, valid, s, entry)
  }

  /** One more listed block: one that is placed is the loop so far, one that fails is the loop's error. */
  lemma PlaceNext(owner: nat, valid: BlockRow -> bool, listing: seq<(PyVal, Blocks.Block)>, i: nat, init: Placing, s: Placing)
    requires i < |listing| && Fold(listing, i, init, PlaceStep(owner, valid)) == Ok(s)
    ensures var next := Place(owner, valid, s, listing[i]);
      && (next.Ok? ==> Fold(listing, i + 1, init, PlaceStep(owner, valid)) == next)
      && (next.Err? ==> Fold(listing, |listing|, init, PlaceStep(owner, valid)) == next)
  {
    FoldNext(listing, i, init, PlaceStep(owner, valid), s);
  }

  /** `obj_blocks.exclude(pk__in=block_ids).delete()` */
  function Unlisted(blocks: seq<Stored>, owner: nat, done: seq<string>): (r: seq<Stored>)
    ensures forall b :: b in r <==> b in blocks && (b.owner != owner || b.row.notionId in done)
  {
    if blocks == [] then []
    else
      var rest := Unlisted(blocks[1..], owner, done);
      assert forall b :: b in blocks <==> b == blocks[0] || b in blocks[1..];
      if blocks[0].owner != owner || blocks[0].row.notionId in done then [blocks[0]] + rest else rest
  }

  /** The owner has a row with this id and this ordering. */
  ghost predicate HasRow(blocks: seq<Stored>, owner: nat, id: string, ordering: nat) {
    exists k :: 0 <= k < |blocks| && blocks[k].owner == owner && blocks[k].row.notionId == id && blocks[k].row.ordering == ordering
  }

  /**
   * While the loop runs, the owner's processed blocks sit in the table with their ordering
   * and the ids processed are those of the listing so far; other owners' rows are untouched.
   */
  ghost predicate Placed(owner: nat, listing: seq<(PyVal, Blocks.Block)>, n: nat, before: seq<Stored>, s: Placing)
    requires n <= |listing|
  {
    && |s.done| == n
    && (forall i :: 0 <= i < n ==> listing[i].0 == PStr(s.done[i]))
    && (forall i :: 0 <= i < n ==> HasRow(s.blocks, owner, s.done[i], i))
    && (forall b :: b in before && b.owner != owner ==> b in s.blocks)
    && (forall b :: b in s.blocks ==> b in before || b.owner == owner)
    && UniqueBlockIds(s.blocks)
  }

  lemma PlacingFacts(owner: nat, valid: BlockRow -> bool, listing: seq<(PyVal, Blocks.Block)>, before: seq<Stored>)
    requires DistinctKeys(listing)
    requires UniqueBlockIds(before)
    requires Fold(listing, |listing|, Placing(before, []), PlaceStep(owner, valid)).Ok?
    ensures Placed(owner, listing, |listing|, before, Fold(listing, |listing|, Placing(before, []), PlaceStep(owner, valid)).value)
  {
    PlaceKeeps(owner, valid, listing, before);
    FoldInduct(listing, |listing|, Placing(before, []), PlaceStep(owner, valid), PlacedInv(owner, listing, before));
  }

  /** `Placed` as the loop invariant `FoldInduct` carries. */
  ghost function PlacedInv(owner: nat, listing: seq<(PyVal, Blocks.Block)>, before: seq<Stored>): (nat, Placing) -> bool {
    (i: nat, s: Placing) => i <= |listing| && Placed(owner, listing, i, before, s)
  }

  /** Every turn of the loop that succeeds carries `Placed` over one more listed block. */
  lemma PlaceKeeps(owner: nat, valid: BlockRow -> bool, listing: seq<(PyVal, Blocks.Block)>, before: seq<Stored>)
    requires DistinctKeys(listing)
    ensures forall i: nat, s: Placing ::
      i < |listing| && PlacedInv(owner, listing, before)(i, s) && PlaceStep(owner, valid)(s, listing[i]).Ok? ==>
        PlacedInv(owner, listing, before)(i + 1, PlaceStep(owner, valid)(s, listing[i]).value)
  {
    forall i: nat, s: Placing | i < |listing| && PlacedInv(owner, listing, before)(i, s) && PlaceStep(owner, valid)(s, listing[i]).Ok?
      ensures PlacedInv(owner, listing, before)(i + 1, PlaceStep(owner, valid)(s, listing[i]).value)
    {
      PlacedAfter(owner, valid, listing, before, i, s);
    }
  }

  lemma PlacedAfter(owner: nat, valid: BlockRow -> bool, listing: seq<(PyVal, Blocks.Block)>, before: seq<Stored>, n: nat, s: Placing)
    requires n < |listing| && DistinctKeys(listing) && PlacedInv(owner, listing, before)(n, s)
    requires PlaceStep(owner, valid)(s, listing[n]).Ok?
    ensures PlacedInv(owner, listing, before)(n + 1, PlaceStep(owner, valid)(s, listing[n]).value)
  {
    var s' := Place(owner, valid, s, listing[n]).value;
    assert PlaceStep(owner, valid)(s, listing[n]) == Ok(s');
    var row := PlaceShape(owner, valid, s, listing[n], s');
    PlaceStepFacts(owner, listing, n, before, s, s', row);
  }

  /** A turn that succeeds records the id as done and writes its row, in place or appended. */
  lemma PlaceShape(owner: nat, valid: BlockRow -> bool, s: Placing, entry: (PyVal, Blocks.Block), s': Placing) returns (row: BlockRow)
    requires Place(owner, valid, s, entry) == Ok(s')
    ensures entry.0.PStr? && row.notionId == entry.0.s && row.ordering == |s.done|
    ensures s'.done == s.done + [entry.0.s]
    ensures var k := FindBlock(s.blocks, owner, entry.0.s, 0);
      && (k.Some? ==> s'.blocks == s.blocks[k.value := Stored(owner, row)])
      && (k.None? ==> !Taken(s.blocks, entry.0.s) && s'.blocks == s.blocks + [Stored(owner, row)])
  {
    var converted := Blocks.Convert(entry.1);
    var props := if converted.value.PDict? then converted.value.entries else [];
    row := BlockRow(entry.0.s, |s.done|, Blocks.BlockTag(entry.1.kind), props);
  }

  lemma PlaceStepFacts(owner: nat, listing: seq<(PyVal, Blocks.Block)>, n: nat, before: seq<Stored>, s: Placing, s': Placing, row: BlockRow)
    requires n < |listing| && DistinctKeys(listing)
    requires Placed(owner, listing, n, before, s)
    requires listing[n].0.PStr? && row.notionId == listing[n].0.s && row.ordering == |s.done|
    requires s'.done == s.done + [listing[n].0.s]
    requires var k := FindBlock(s.blocks, owner, listing[n].0.s, 0);
      && (k.Some? ==> s'.blocks == s.blocks[k.value := Stored(owner, row)])
      && (k.None? ==> !Taken(s.blocks, listing[n].0.s) && s'.blocks == s.blocks + [Stored(owner, row)])
    ensures Placed(owner, listing, n + 1, before, s')
  {
    var id := listing[n].0.s;
    forall i | 0 <= i < n
      ensures s.done[i] != id
    {
      assert listing[i].0 != listing[n].0;
    }
    match FindBlock(s.blocks, owner, id, 0)
    case Some(k) => PlaceReplaced(owner, listing, n, before, s, s', row, k);
    case None => PlaceAppended(owner, listing, n, before, s, s', row);
  }

  /** A listed block whose row the owner already has: that row is overwritten in place. */
  lemma PlaceReplaced(owner: nat, listing: seq<(PyVal, Blocks.Block)>, n: nat, before: seq<Stored>, s: Placing, s': Placing, row: BlockRow, k: nat)
    requires n < |listing| && Placed(owner, listing, n, before, s)
    requires listing[n].0 == PStr(row.notionId) && row.ordering == n
    requires s'.done == s.done + [row.notionId]
    requires forall i :: 0 <= i < n ==> s.done[i] != row.notionId
    requires k < |s.blocks| && s.blocks[k].owner == owner && s.blocks[k].row.notionId == row.notionId
    requires s'.blocks == s.blocks[k := Stored(owner, row)]
    ensures Placed(owner, listing, n + 1, before, s')
  {
    forall i | 0 <= i < n
      ensures HasRow(s'.blocks, owner, s'.done[i], i)
    {
      assert HasRow(s.blocks, owner, s.done[i], i);
      var k' :| 0 <= k' < |s.blocks| && s.blocks[k'].owner == owner
        && s.blocks[k'].row.notionId == s.done[i] && s.blocks[k'].row.ordering == i;
      assert s'.blocks[k'] == s.blocks[k'];
    }
    assert s'.blocks[k].row.notionId == s'.done[n] && s'.blocks[k].row.ordering == n;
    forall b | b in before && b.owner != owner
      ensures b in s'.blocks
    {
      var j :| 0 <= j < |s.blocks| && s.blocks[j] == b;
      assert s'.blocks[j] == b;
    }
  }

  /** A listed block the owner has no row for: a new row is added, its id being free. */
  lemma PlaceAppended(owner: nat, listing: seq<(PyVal, Blocks.Block)>, n: nat, before: seq<Stored>, s: Placing, s': Placing, row: BlockRow)
    requires n < |listing| && Placed(owner, listing, n, before, s)
    requires listing[n].0 == PStr(row.notionId) && row.ordering == n
    requires s'.done == s.done + [row.notionId]
    requires !Taken(s.blocks, row.notionId) && s'.blocks == s.blocks + [Stored(owner, row)]
    ensures Placed(owner, listing, n + 1, before, s')
  {
    forall i | 0 <= i < n
      ensures HasRow(s'.blocks, owner, s'.done[i], i)
    {
      assert HasRow(s.blocks, owner, s.done[i], i);
      var k' :| 0 <= k' < |s.blocks| && s.blocks[k'].owner == owner
        && s.blocks[k'].row.notionId == s.done[i] && s.blocks[k'].row.ordering == i;
      assert s'.blocks[k'] == s.blocks[k'];
    }
    assert s'.blocks[|s.blocks|].row.notionId == s'.done[n];
  }

  /** The blocks step of one document: list, place each in order, then delete the rest. */
  function PlaceBlocks(owner: nat, valid: BlockRow -> bool, media: Blocks.Handler, results: seq<Blocks.RemoteBlock>, blocks: seq<Stored>): Result<seq<Stored>> {
    var listing :- Listing(media, results);
    var s :- Fold(listing, |listing|, Placing(blocks, []), PlaceStep(owner, valid));
    Ok(Unlisted(s.blocks, owner, s.done))
  }

  /**
   * The owner's rows in `blocks'` are exactly the listed blocks, the `i`th with ordering `i`;
   * other owners' rows are those of `before`; and no two rows share a `notion_id`.
   */
  ghost predicate Relisted(owner: nat, listing: seq<(PyVal, Blocks.Block)>, before: seq<Stored>, blocks': seq<Stored>) {
      && (forall i :: 0 <= i < |listing| ==>
            listing[i].0.PStr? && HasRow(blocks', owner, listing[i].0.s, i))
      && (forall b :: b in blocks' && b.owner == owner ==> exists i :: 0 <= i < |listing| && listing[i].0 == PStr(b.row.notionId))
      && (forall b :: b in before && b.owner != owner <==> b in blocks' && b.owner != owner)
      && UniqueBlockIds(blocks')
  }

  /**
   * After the blocks step the record's blocks are exactly the listed ones, one row per
   * distinct id with `ordering` its position (0, 1, ...); other records' blocks are kept.
   */
  lemma BlocksDenselyOrdered(owner: nat, valid: BlockRow -> bool, media: Blocks.Handler, results: seq<Blocks.RemoteBlock>, blocks: seq<Stored>)
    requires UniqueBlockIds(blocks)
    requires PlaceBlocks(owner, valid, media, results, blocks).Ok?
    ensures Relisted(owner, Listing(media, results).value, blocks, PlaceBlocks(owner, valid, media, results, blocks).value)
  {
    var listing := Listing(media, results).value;
    ListingDistinct(media, results);
    PlacingFacts(owner, valid, listing, blocks);
    var s := Fold(listing, |listing|, Placing(blocks, []), PlaceStep(owner, valid)).value;
    assert PlaceBlocks(owner, valid, media, results, blocks).value == Unlisted(s.blocks, owner, s.done);
    PlacedThenUnlisted(owner, listing, blocks, s);
  }

  /** Deleting the unlisted rows once every listed block is placed leaves exactly the listed ones. */
  lemma PlacedThenUnlisted(owner: nat, listing: seq<(PyVal, Blocks.Block)>, before: seq<Stored>, s: Placing)
    requires Placed(owner, listing, |listing|, before, s)
    ensures Relisted(owner, listing, before, Unlisted(s.blocks, owner, s.done))
  {
    var blocks' := Unlisted(s.blocks, owner, s.done);
    PlacedKept(owner, listing, before, s, blocks');
    KeptPlaced(owner, listing, before, s, blocks');
    UnlistedDistinct(s.blocks, owner, s.done);
  }

  /** Every placed row survives the deletion. */
  lemma PlacedKept(owner: nat, listing: seq<(PyVal, Blocks.Block)>, before: seq<Stored>, s: Placing, blocks': seq<Stored>)
    requires Placed(owner, listing, |listing|, before, s) && blocks' == Unlisted(s.blocks, owner, s.done)
    ensures forall i :: 0 <= i < |listing| ==> listing[i].0.PStr? && HasRow(blocks', owner, listing[i].0.s, i)
  {
    forall i | 0 <= i < |listing|
      ensures HasRow(blocks', owner, listing[i].0.s, i)
    {
      assert HasRow(s.blocks, owner, s.done[i], i);
      var k :| 0 <= k < |s.blocks| && s.blocks[k].owner == owner && s.blocks[k].row.notionId == s.done[i] && s.blocks[k].row.ordering == i;
      assert s.blocks[k] in blocks';
      var j :| 0 <= j < |blocks'| && blocks'[j] == s.blocks[k];
    }
  }

  /** Every surviving row of the owner is a listed block; other owners' rows are those of `before`. */
  lemma KeptPlaced(owner: nat, listing: seq<(PyVal, Blocks.Block)>, before: seq<Stored>, s: Placing, blocks': seq<Stored>)
    requires Placed(owner, listing, |listing|, before, s) && blocks' == Unlisted(s.blocks, owner, s.done)
    ensures (forall b :: b in blocks' && b.owner == owner ==> exists i :: 0 <= i < |listing| && listing[i].0 == PStr(b.row.notionId))
      && (forall b :: b in before && b.owner != owner <==> b in blocks' && b.owner != owner)
  {
    forall b | b in blocks' && b.owner == owner
      ensures exists i :: 0 <= i < |listing| && listing[i].0 == PStr(b.row.notionId)
    {
      var i :| 0 <= i < |s.done| && s.done[i] == b.row.notionId;
      assert listing[i].0 == PStr(s.done[i]);
    }
  }

  lemma {:induction false} UnlistedDistinct(blocks: seq<Stored>, owner: nat, done: seq<string>)
    requires UniqueBlockIds(blocks)
    ensures var r := Unlisted(blocks, owner, done);
      UniqueBlockIds(r)
  {
    if blocks != [] {
      var tail := blocks[1..];
      assert UniqueBlockIds(tail) by {
        forall i, j | 0 <= i < j < |tail|
          ensures tail[i].row.notionId != tail[j].row.notionId
        {
          assert tail[i] == blocks[i + 1] && tail[j] == blocks[j + 1];
        }
      }
      UnlistedDistinct(tail, owner, done);
      var rest := Unlisted(tail, owner, done);
      forall b | b in rest
        ensures b.row.notionId != blocks[0].row.notionId
      {
        var j :| 0 <= j < |tail| && tail[j] == b;
        assert blocks[j + 1] == b;
      }
      if blocks[0].owner != owner || blocks[0].row.notionId in done {
        ConsDistinct(blocks[0], rest);
      }
    }
  }

  lemma ConsDistinct(first: Stored, rest: seq<Stored>)
    requires UniqueBlockIds(rest)
    requires forall b :: b in rest ==> b.row.notionId != first.row.notionId
    ensures var r := [first] + rest;
      UniqueBlockIds(r)
  {
    var r := [first] + rest;
    forall i, j | 0 <= i < j < |r|
      ensures r[i].row.notionId != r[j].row.notionId
    {
      assert r[j] == rest[j - 1] && r[j] in rest;
      if i > 0 {
        assert r[i] == rest[i - 1];
      }
    }
  }

  // ----- one document -----

  /**
   * What `to_model` is given besides the tables: the model's schema, the relation catalog
   * the properties resolve against, the `before_clean` hook, the verdicts of `full_clean`
   * on a record and on a block row, the media handler each record hands its blocks, and
   * what the remote side answers (a page's block children, a user by id, and the local
   * users by e-mail address).
   */
  datatype Env = Env(
    schema: Schema,
    catalog: seq<seq<RecordRef>>,
    clean: Option<(seq<(string, PyVal)>, PyVal) -> Result<seq<(string, PyVal)>>>,
    valid: seq<(string, PyVal)> -> bool,
    validBlock: BlockRow -> bool,
    media: nat -> Blocks.Handler,
    children: string -> seq<Blocks.RemoteBlock>,
    retrieve: PyVal -> Result<PyVal>,
    accounts: map<string, nat>)

  /** The object after its properties and its author are set, and the user cache after. */
  datatype Filled = Filled(pending: Pending, cache: Users, fetched: seq<PyVal>)

  /** `obj.author = get_user(result['created_by'])` when the model has an author. */
  function FillAuthor(env: Env, doc: PyVal, cache: Users, p: Pending): (r: Result<Filled>)
    ensures r.Ok? ==> cache.Keys <= r.value.cache.Keys && (forall k :: k in cache ==> r.value.cache[k] == cache[k])
    ensures r.Ok? ==> r.value.pending.after == p.after
    ensures r.Ok? && "author" !in env.schema.fields ==> r.value == Filled(p, cache, [])
    ensures r.Ok? && r.value.fetched != [] ==>
      |r.value.fetched| == 1 && r.value.fetched[0] !in cache && r.value.fetched[0] in r.value.cache
  {
    if "author" !in env.schema.fields then Ok(Filled(p, cache, []))
    else
      var created :- Index(doc, "created_by");
      var found :- GetUser(cache, created, env.retrieve, env.accounts);
      Ok(Filled(p.(fields := Put(p.fields, "author", UserRef(found.user))), found.cache, found.fetched))
  }

  /** `before_clean(obj, result)`, when a hook is given. */
  function Clean(env: Env, doc: PyVal, fields: seq<(string, PyVal)>): Result<seq<(string, PyVal)>> {
    match env.clean
    case None => Ok(fields)
    case Some(hook) => hook(fields, doc)
  }

  /** What syncing one document leaves: the tables, the record's key, and the user cache. */
  datatype DocOutcome = DocOutcome(tables: Tables, pk: nat, cache: Users, fetched: seq<PyVal>)

  /**
   * The body of the loop over a database's documents, inside one transaction: match or
   * create the record by remote id, set its fields from the properties, its author, run
   * the hook and `full_clean`, save, replace its relations, then sync its blocks. Any
   * error ends the document; the caller keeps the tables as they were before it.
   */
  function SyncDocument(env: Env, t: Tables, cache: Users, doc: PyVal): Result<DocOutcome> {
    var idv :- Index(doc, "id");
    if !idv.PStr? then Err(ValidationFailed)
    else
      var id := idv.s;
      var props :- DocProperties(doc);
      var p :- Fold(props, |props|, Pending(Base(t.records, id), []), AssignStep(env.schema, env.catalog));
      var f :- FillAuthor(env, doc, cache, p);
      var fields :- Clean(env, doc, f.pending.fields);
      if !env.valid(fields) then Err(ValidationFailed)
      else
        var (t1, pk) := SaveRecord(t, id, fields);
        var t2 :- Fold(f.pending.after, |f.pending.after|, t1, RelateStep(env.schema, pk));
        if !env.schema.hasBlocks then Ok(DocOutcome(t2, pk, f.cache, f.fetched))
        else
          var blocks :- PlaceBlocks(pk, env.validBlock, env.media(pk), env.children(id), t2.blocks);
          Ok(DocOutcome(t2.(blocks := blocks), pk, f.cache, f.fetched))
  }

  /** Relating changes only links and named rows. */
  lemma {:induction false} RelateAllKeeps(schema: Schema, pk: nat, after: seq<(string, PyVal)>, n: nat, t: Tables)
    requires n <= |after|
    ensures var r := Fold(after, n, t, RelateStep(schema, pk));
      r.Ok? ==> r.value.records == t.records && r.value.blocks == t.blocks && r.value.nextPk == t.nextPk
  {
    if n > 0 {
      RelateAllKeeps(schema, pk, after, n - 1, t);
      if Fold(after, n - 1, t, RelateStep(schema, pk)).Ok? {
        FoldStep(after, n, t, RelateStep(schema, pk));
      }
    }
  }

  /**
   * A synced document leaves well-formed tables holding its record under its remote id,
   * and the user cache only grows: a user is fetched only when not cached, and is cached after.
   */
  lemma SyncDocumentFacts(env: Env, t: Tables, cache: Users, doc: PyVal, o: DocOutcome)
    requires WellFormed(t)
    requires SyncDocument(env, t, cache, doc) == Ok(o)
    ensures WellFormed(o.tables)
    ensures Index(doc, "id").Ok? && Index(doc, "id").value.PStr?
    ensures exists i :: 0 <= i < |o.tables.records| && o.tables.records[i].pk == o.pk
                        && o.tables.records[i].notionId == Index(doc, "id").value.s
    ensures forall r :: r in t.records ==> exists r' :: r' in o.tables.records && r'.pk == r.pk
    ensures t.nextPk <= o.tables.nextPk
    ensures cache.Keys <= o.cache.Keys && (forall k :: k in cache ==> o.cache[k] == cache[k])
    ensures o.fetched != [] ==> |o.fetched| == 1 && o.fetched[0] !in cache && o.fetched[0] in o.cache
  {
    var id, p, f, fields, t1, t2 := DocSteps(env, t, cache, doc, o);
    DocTables(env, t, id, fields, f.pending.after, o.pk, t1, t2, o.tables);
  }

  /** The intermediate results of a document that syncs. */
  lemma DocSteps(env: Env, t: Tables, cache: Users, doc: PyVal, o: DocOutcome)
    returns (id: string, p: Pending, f: Filled, fields: seq<(string, PyVal)>, t1: Tables, t2: Tables)
    requires SyncDocument(env, t, cache, doc) == Ok(o)
    ensures Index(doc, "id") == Ok(PStr(id))
    ensures FillAuthor(env, doc, cache, p) == Ok(f) && o.cache == f.cache && o.fetched == f.fetched
    ensures (t1, o.pk) == SaveRecord(t, id, fields)
    ensures Fold(f.pending.after, |f.pending.after|, t1, RelateStep(env.schema, o.pk)) == Ok(t2)
    ensures !env.schema.hasBlocks ==> o.tables == t2
    ensures env.schema.hasBlocks ==>
      && PlaceBlocks(o.pk, env.validBlock, env.media(o.pk), env.children(id), t2.blocks) == Ok(o.tables.blocks)
      && o.tables == t2.(blocks := o.tables.blocks)
  {
    id := Index(doc, "id").value.s;
    var props := DocProperties(doc).value;
    p := Fold(props, |props|, Pending(Base(t.records, id), []), AssignStep(env.schema, env.catalog)).value;
    f := FillAuthor(env, doc, cache, p).value;
    fields := Clean(env, doc, f.pending.fields).value;
    t1 := SaveRecord(t, id, fields).0;
    t2 := Fold(f.pending.after, |f.pending.after|, t1, RelateStep(env.schema, o.pk)).value;
  }

  /** The tables after saving the record, relating it and placing its blocks. */
  lemma DocTables(env: Env, t: Tables, id: string, fields: seq<(string, PyVal)>, after: seq<(string, PyVal)>,
                  pk: nat, t1: Tables, t2: Tables, t': Tables)
    requires WellFormed(t)
    requires (t1, pk) == SaveRecord(t, id, fields)
    requires Fold(after, |after|, t1, RelateStep(env.schema, pk)) == Ok(t2)
    requires !env.schema.hasBlocks ==> t' == t2
    requires env.schema.hasBlocks ==>
      && PlaceBlocks(pk, env.validBlock, env.media(pk), env.children(id), t2.blocks) == Ok(t'.blocks)
      && t' == t2.(blocks := t'.blocks)
    ensures WellFormed(t')
    ensures exists i :: 0 <= i < |t'.records| && t'.records[i].pk == pk && t'.records[i].notionId == id
    ensures forall r :: r in t.records ==> exists r' :: r' in t'.records && r'.pk == r.pk
    ensures t.nextPk <= t'.nextPk
  {
    DocSaved(env.schema, t, id, fields, after, pk, t1, t2);
    if env.schema.hasBlocks {
      BlocksDenselyOrdered(pk, env.validBlock, env.media(pk), env.children(id), t2.blocks);
    }
  }

  /** The tables after saving the record and relating it. */
  lemma DocSaved(schema: Schema, t: Tables, id: string, fields: seq<(string, PyVal)>, after: seq<(string, PyVal)>,
                 pk: nat, t1: Tables, t2: Tables)
    requires WellFormed(t)
    requires (t1, pk) == SaveRecord(t, id, fields)
    requires Fold(after, |after|, t1, RelateStep(schema, pk)) == Ok(t2)
    ensures WellFormed(t2)
    ensures exists i :: 0 <= i < |t2.records| && t2.records[i].pk == pk && t2.records[i].notionId == id
    ensures forall r :: r in t.records ==> exists r' :: r' in t2.records && r'.pk == r.pk
    ensures t.nextPk <= t2.nextPk
  {
    SaveRecordUpserts(t, id, fields);
    RelateAllKeeps(schema, pk, after, |after|, t1);
    forall r | r in t.records
      ensures exists r' :: r' in t1.records && r'.pk == r.pk
    {
      var i :| 0 <= i < |t.records| && t.records[i] == r;
      assert t1.records[i].pk == r.pk;
    }
  }

  // ----- a pass over a database -----

  /** `settings.DATABASES`: a model name and the remote database it syncs with. */
  datatype Collection = Collection(model: string, database: string)

  /** The first configured database whose model is `model`: only that one is processed. */
  function FirstMatch(dbs: seq<Collection>, model: string, from: nat): (r: Option<nat>)
    ensures r.Some? ==> from <= r.value < |dbs| && dbs[r.value].model == model
                        && forall j :: from <= j < r.value ==> dbs[j].model != model
    ensures r.None? ==> forall j :: from <= j < |dbs| ==> dbs[j].model != model
    decreases |dbs| - from
  {
    if from >= |dbs| then None
    else if dbs[from].model == model then Some(from)
    else FirstMatch(dbs, model, from + 1)
  }

  /** The state of a pass: the tables, the keys touched (`pks`), the user cache and the users fetched. */
  datatype Pass = Pass(tables: Tables, pks: seq<nat>, cache: Users, fetched: seq<PyVal>)

  /** One more document: its outcome joins the pass, or its error stops it. */
  function Advance(env: Env, s: Pass, doc: PyVal): Result<Pass> {
    var o :- SyncDocument(env, s.tables, s.cache, doc);
    Ok(Pass(o.tables, s.pks + [o.pk], o.cache, s.fetched + o.fetched))
  }

  function AdvanceStep(env: Env): (Pass, PyVal) -> Result<Pass> {
    (s, doc) => Advance(env, s, doc)
  }

  /**
   * The pass after the first `n` documents, and the error that stopped it, if any. Each
   * document is its own transaction: the one that fails leaves the tables as the earlier
   * ones left them, and the error ends the pass.
   */
  function RunDocs(env: Env, docs: seq<PyVal>, n: nat, init: Pass): (Pass, Option<Error>)
    requires n <= |docs|
  {
    Run(docs, n, init, AdvanceStep(env))
  }

  /** The pass past one more document: it moves on when the document syncs and stops there when it fails. */
  lemma RunDocsNext(env: Env, docs: seq<PyVal>, k: nat, init: Pass, s: Pass)
    requires k < |docs| && RunDocs(env, docs, k, init) == (s, None)
    ensures var o := SyncDocument(env, s.tables, s.cache, docs[k]);
      && (o.Ok? ==> RunDocs(env, docs, k + 1, init) == (Pass(o.value.tables, s.pks + [o.value.pk], o.value.cache, s.fetched + o.value.fetched), None))
      && (o.Err? ==> RunDocs(env, docs, |docs|, init) == (s, Some(o.error)))
  {
    var step := AdvanceStep(env);
    var o := SyncDocument(env, s.tables, s.cache, docs[k]);
    RunNext(docs, k, init, step, s);
    assert step(s, docs[k]) == Advance(env, s, docs[k]);
    if o.Err? {
      assert Run(docs, k + 1, init, step) == (s, Some(o.error));
      RunStops(docs, k + 1, |docs|, init, step);
    } else {
      assert step(s, docs[k]) == Ok(Pass(o.value.tables, s.pks + [o.value.pk], o.value.cache, s.fetched + o.value.fetched));
    }
  }

  /** What the pass keeps track of: well-formed tables, touched keys that are records, and each user fetched once. */
  ghost predicate Tracked(s: Pass) {
    && WellFormed(s.tables)
    && (forall k :: k in s.pks ==> exists r :: r in s.tables.records && r.pk == k)
    && Properties.Distinct(s.fetched)
    && (forall x :: x in s.fetched ==> x in s.cache)
  }

  /** What a pass keeps from its start `init` to `s`: tracking, a growing cache, and fetches only of uncached users. */
  ghost predicate Grown(init: Pass, s: Pass) {
    && Tracked(s)
    && init.cache.Keys <= s.cache.Keys
    && forall x :: x in s.fetched && x !in init.fetched ==> x !in init.cache
  }

  lemma {:induction false} RunTracked(env: Env, docs: seq<PyVal>, n: nat, init: Pass)
    requires n <= |docs| && Tracked(init)
    ensures Grown(init, RunDocs(env, docs, n, init).0)
  {
    if n > 0 {
      RunTracked(env, docs, n - 1, init);
      var (s, e) := RunDocs(env, docs, n - 1, init);
      if e.None? {
        RunNext(docs, n - 1, init, AdvanceStep(env), s);
        var r := SyncDocument(env, s.tables, s.cache, docs[n - 1]);
        if r.Ok? {
          var s' := Pass(r.value.tables, s.pks + [r.value.pk], r.value.cache, s.fetched + r.value.fetched);
          SyncDocumentFacts(env, s.tables, s.cache, docs[n - 1], r.value);
          PassStep(s, r.value, Index(docs[n - 1], "id").value.s);
          GrownStep(init, s, s', r.value.fetched);
        }
      }
    }
  }

  lemma GrownStep(init: Pass, s: Pass, s': Pass, more: seq<PyVal>)
    requires Grown(init, s) && Tracked(s')
    requires s.cache.Keys <= s'.cache.Keys && s'.fetched == s.fetched + more
    requires forall x :: x in more ==> x !in s.cache
    ensures Grown(init, s')
  {
    forall x | x in s'.fetched && x !in init.fetched
      ensures x !in init.cache
    {
      if x !in s.fetched {
        assert x in more;
      }
    }
  }

  /** One more document keeps what the pass tracks. */
  lemma PassStep(s: Pass, o: DocOutcome, id: string)
    requires Tracked(s) && WellFormed(o.tables)
    requires exists i :: 0 <= i < |o.tables.records| && o.tables.records[i].pk == o.pk && o.tables.records[i].notionId == id
    requires forall r :: r in s.tables.records ==> exists r' :: r' in o.tables.records && r'.pk == r.pk
    requires s.cache.Keys <= o.cache.Keys
    requires o.fetched != [] ==> |o.fetched| == 1 && o.fetched[0] !in s.cache && o.fetched[0] in o.cache
    ensures Tracked(Pass(o.tables, s.pks + [o.pk], o.cache, s.fetched + o.fetched))
    ensures forall x :: x in o.fetched ==> x !in s.cache
  {
    var s' := Pass(o.tables, s.pks + [o.pk], o.cache, s.fetched + o.fetched);
    forall k | k in s'.pks
      ensures exists r :: r in s'.tables.records && r.pk == k
    {
      if k in s.pks {
        var r :| r in s.tables.records && r.pk == k;
        var r' :| r' in o.tables.records && r'.pk == r.pk;
      } else {
        var i :| 0 <= i < |o.tables.records| && o.tables.records[i].pk == o.pk && o.tables.records[i].notionId == id;
        assert o.tables.records[i] in s'.tables.records;
      }
    }
    FetchedStaysDistinct(s.fetched, o.fetched, s.cache, o.cache);
  }

  lemma FetchedStaysDistinct(fetched: seq<PyVal>, more: seq<PyVal>, cache: Users, cache': Users)
    requires Properties.Distinct(fetched) && forall x :: x in fetched ==> x in cache
    requires cache.Keys <= cache'.Keys
    requires more != [] ==> |more| == 1 && more[0] !in cache && more[0] in cache'
    ensures Properties.Distinct(fetched + more)
    ensures forall x :: x in fetched + more ==> x in cache'
  {
    if more != [] {
      var r := fetched + more;
      forall i, j | 0 <= i < j < |r|
        ensures r[i] != r[j]
      {
        if j == |fetched| {
          assert r[i] in fetched;
        } else {
          assert r[i] == fetched[i] && r[j] == fetched[j];
        }
      }
    }
  }

  /**
   * `Model.objects.exclude(pk__in=pks).delete()`: the records not touched go, and with
   * them their blocks (the foreign key cascades) and their links.
   */
  function Prune(t: Tables, pks: seq<nat>): (r: Tables)
    ensures forall x :: x in r.records <==> x in t.records && x.pk in pks
    ensures forall b :: b in r.blocks <==> b in t.blocks && b.owner in pks
    ensures forall k :: k in r.links <==> k in t.links && k.0 in pks
    ensures forall k :: k in r.links ==> r.links[k] == t.links[k]
    ensures r.named == t.named && r.nextPk == t.nextPk
  {
    Tables(Kept(t.records, pks), map k | k in t.links && k.0 in pks :: t.links[k], t.named, KeptBlocks(t.blocks, pks), t.nextPk)
  }

  function Kept(records: seq<Record>, pks: seq<nat>): (r: seq<Record>)
    ensures forall x :: x in r <==> x in records && x.pk in pks
    ensures |r| <= |records|
  {
    if records == [] then []
    else
      assert forall x :: x in records <==> x == records[0] || x in records[1..];
      (if records[0].pk in pks then [records[0]] else []) + Kept(records[1..], pks)
  }

  function KeptBlocks(blocks: seq<Stored>, pks: seq<nat>): (r: seq<Stored>)
    ensures forall b :: b in r <==> b in blocks && b.owner in pks
  {
    if blocks == [] then []
    else
      assert forall b :: b in blocks <==> b == blocks[0] || b in blocks[1..];
      (if blocks[0].owner in pks then [blocks[0]] else []) + KeptBlocks(blocks[1..], pks)
  }

  /**
   * `to_model(Model, ...)` on the databases `dbs`, where `query` answers a database's
   * documents: the tables after, the user ids fetched, and what it returns: None when no
   * database has the model, the touched records after the prune, or the error that
   * stopped the pass (the earlier documents stay saved and nothing is pruned).
   */
  datatype Synced = Synced(tables: Tables, result: Result<Option<seq<Record>>>, fetched: seq<PyVal>)

  function ToModel(env: Env, dbs: seq<Collection>, query: string -> seq<PyVal>, t: Tables): Synced {
    match FirstMatch(dbs, env.schema.model, 0)
    case None => Synced(t, Ok(None), [])
    case Some(i) =>
      var docs := query(dbs[i].database);
      var (s, e) := RunDocs(env, docs, |docs|, Pass(t, [], map[], []));
      if e.Some? then Synced(s.tables, Err(e.value), s.fetched)
      else
        var pruned := Prune(s.tables, s.pks);
        Synced(pruned, Ok(Some(pruned.records)), s.fetched)
  }

  /**
   * After a pass that succeeds, the records are exactly the ones it touched, they are what
   * it returns, each remote user was fetched at most once, and blocks and links of pruned
   * records are gone.
   */
  lemma ToModelPrunes(env: Env, dbs: seq<Collection>, query: string -> seq<PyVal>, t: Tables)
    requires WellFormed(t)
    requires ToModel(env, dbs, query, t).result.Ok? && ToModel(env, dbs, query, t).result.value.Some?
    ensures var i := FirstMatch(dbs, env.schema.model, 0).value;
      var docs := query(dbs[i].database);
      var s := RunDocs(env, docs, |docs|, Pass(t, [], map[], [])).0;
      var out := ToModel(env, dbs, query, t);
      && out.result.value.value == out.tables.records
      && WellFormed(out.tables)
      && (forall k :: k in s.pks <==> exists r :: r in out.tables.records && r.pk == k)
      && (forall b :: b in out.tables.blocks ==> b.owner in s.pks)
      && (forall k :: k in out.tables.links ==> k.0 in s.pks)
      && Properties.Distinct(out.fetched)
  {
    var i := FirstMatch(dbs, env.schema.model, 0).value;
    var docs := query(dbs[i].database);
    RunTracked(env, docs, |docs|, Pass(t, [], map[], []));
    var s := RunDocs(env, docs, |docs|, Pass(t, [], map[], [])).0;
    var out := ToModel(env, dbs, query, t);
    forall k | k in s.pks
      ensures exists r :: r in out.tables.records && r.pk == k
    {
      var r :| r in s.tables.records && r.pk == k;
      assert r in out.tables.records;
    }
    PruneWellFormed(s.tables, s.pks);
  }

  lemma PruneWellFormed(t: Tables, pks: seq<nat>)
    requires WellFormed(t)
    ensures WellFormed(Prune(t, pks))
  {
    var r := Prune(t, pks);
    assert r.records == Kept(t.records, pks) && r.blocks == KeptBlocks(t.blocks, pks);
    KeptUnique(t.records, pks);
    KeptBlocksUnique(t.blocks, pks);
    forall i | 0 <= i < |r.records|
      ensures r.records[i].pk < r.nextPk
    {
      assert r.records[i] in t.records;
    }
  }

  lemma {:induction false} KeptUnique(records: seq<Record>, pks: seq<nat>)
    requires UniqueRecords(records)
    ensures UniqueRecords(Kept(records, pks))
  {
    if records != [] {
      var tail := records[1..];
      assert UniqueRecords(tail) by {
        forall i, j | 0 <= i < j < |tail|
          ensures tail[i].notionId != tail[j].notionId && tail[i].pk != tail[j].pk
        {
          assert tail[i] == records[i + 1] && tail[j] == records[j + 1];
        }
      }
      KeptUnique(tail, pks);
      var rest := Kept(tail, pks);
      forall x | x in rest
        ensures x.notionId != records[0].notionId && x.pk != records[0].pk
      {
        var j :| 0 <= j < |tail| && tail[j] == x;
        assert records[j + 1] == x;
      }
      if records[0].pk in pks {
        ConsUnique(records[0], rest);
      }
    }
  }

  lemma ConsUnique(first: Record, rest: seq<Record>)
    requires UniqueRecords(rest)
    requires forall x :: x in rest ==> x.notionId != first.notionId && x.pk != first.pk
    ensures UniqueRecords([first] + rest)
  {
    var r := [first] + rest;
    forall i, j | 0 <= i < j < |r|
      ensures r[i].notionId != r[j].notionId && r[i].pk != r[j].pk
    {
      assert r[j] == rest[j - 1] && r[j] in rest;
      if i > 0 {
        assert r[i] == rest[i - 1];
      }
    }
  }

  lemma {:induction false} KeptBlocksUnique(blocks: seq<Stored>, pks: seq<nat>)
    requires UniqueBlockIds(blocks)
    ensures UniqueBlockIds(KeptBlocks(blocks, pks))
  {
    if blocks != [] {
      var tail := blocks[1..];
      assert UniqueBlockIds(tail) by {
        forall i, j | 0 <= i < j < |tail|
          ensures tail[i].row.notionId != tail[j].row.notionId
        {
          assert tail[i] == blocks[i + 1] && tail[j] == blocks[j + 1];
        }
      }
      KeptBlocksUnique(tail, pks);
      var rest := KeptBlocks(tail, pks);
      forall b | b in rest
        ensures b.row.notionId != blocks[0].row.notionId
      {
        var j :| 0 <= j < |tail| && tail[j] == b;
        assert blocks[j + 1] == b;
      }
      if blocks[0].owner in pks {
        ConsDistinct(blocks[0], rest);
      }
    }
  }

  // ----- from_model -----

  /** What `from_model` asks of the remote side: an update of the record's page, or a new page in the database. */
  datatype Request =
    | Update(page: string, properties: seq<(PyVal, PyVal)>)
    | Create(database: string, properties: seq<(PyVal, PyVal)>)

  /** The request sent and the remote id `from_model` returns. */
  datatype Sent = Sent(request: Request, id: PyVal)

  /**
   * `getattr(obj, dbfield.name)`, where `related` holds what each many-to-many manager's
   * `.all()` gives; a foreign key's value has no `.all()`.
   */
  function Attr(schema: Schema, obj: Record, related: map<string, seq<RecordRef>>, field: string): Result<PyVal>
    requires field in schema.fields
  {
    match schema.fields[field]
    case Plain => Ok(match Lookup(obj.fields, field) case Some(v) => v case None => PNone)
    case ManyToMany(_) => Ok(PSet(if field in related then related[field] else []))
    case ForeignKey(_) => Err(AttributeError)
  }

  /**
   * One turn of the loop over the database's properties: every definition is made into a
   * property, names without a field are skipped, a None value is not sent, and the
   * converted value goes under the property's id.
   */
  function AttrEntry(schema: Schema, obj: Record, related: map<string, seq<RecordRef>>, str: PyVal -> string,
                     attrs: seq<(PyVal, PyVal)>, entry: (string, PyVal)): Result<seq<(PyVal, PyVal)>>
  {
    var (name, definition) := entry;
    var prop :- Properties.MakeProperty(name, definition);
    var field := FieldName(name);
    if field !in schema.fields then Ok(attrs)
    else
      var value :- Attr(schema, obj, related, field);
      if value.PNone? then Ok(attrs)
      else
        var sent :- Properties.FromPython(prop.kind, value, str);
        var key :- Index(definition, "id");
        if !Hashable(key) then Err(TypeError) else Ok(Assoc(attrs, key, sent))
  }

  function AttrStep(schema: Schema, obj: Record, related: map<string, seq<RecordRef>>, str: PyVal -> string)
    : (seq<(PyVal, PyVal)>, (string, PyVal)) -> Result<seq<(PyVal, PyVal)>>
  {
    (attrs, entry) => AttrEntry(schema, obj, related, str, attrs, entry)
  }

  /** One more definition: one that is collected is the loop so far, one that fails is the loop's error. */
  lemma AttrNext(schema: Schema, obj: Record, related: map<string, seq<RecordRef>>, str: PyVal -> string,
                 entries: seq<(string, PyVal)>, i: nat, attrs: seq<(PyVal, PyVal)>)
    requires i < |entries| && Fold(entries, i, [], AttrStep(schema, obj, related, str)) == Ok(attrs)
    ensures var next := AttrEntry(schema, obj, related, str, attrs, entries[i]);
      && Fold(entries, i + 1, [], AttrStep(schema, obj, related, str)) == next
      && (next.Err? ==> Fold(entries, |entries|, [], AttrStep(schema, obj, related, str)) == next)
  {
    FoldNext(entries, i, [], AttrStep(schema, obj, related, str), attrs);
  }

  /** Whether a property of the database is sent: it names a field and the field's value is not None. */
  predicate Sends(schema: Schema, obj: Record, related: map<string, seq<RecordRef>>, entry: (string, PyVal)) {
    && FieldName(entry.0) in schema.fields
    && Attr(schema, obj, related, FieldName(entry.0)).Ok?
    && !Attr(schema, obj, related, FieldName(entry.0)).value.PNone?
  }

  /** The property id a definition is sent under. */
  function Key(entry: (string, PyVal)): PyVal {
    match Index(entry.1, "id")
    case Ok(k) => k
    case Err(_) => PNone
  }

  /** The payload a sent property carries: the field's value converted by the property's `from_python`. */
  function Payload(schema: Schema, obj: Record, related: map<string, seq<RecordRef>>, str: PyVal -> string, entry: (string, PyVal)): PyVal {
    match Properties.MakeProperty(entry.0, entry.1)
    case Err(_) => PNone
    case Ok(prop) =>
      if FieldName(entry.0) !in schema.fields then PNone
      else match Attr(schema, obj, related, FieldName(entry.0))
        case Err(_) => PNone
        case Ok(value) =>
          match Properties.FromPython(prop.kind, value, str)
          case Ok(sent) => sent
          case Err(_) => PNone
  }

  /** `from_model(obj)` against the databases `dbs`; `remote` answers a database's schema and `created` the page made. */
  function FromModel(schema: Schema, dbs: seq<Collection>, remote: string -> PyVal, obj: Record,
                     related: map<string, seq<RecordRef>>, str: PyVal -> string, created: PyVal): Result<Option<Sent>>
  {
    match FirstMatch(dbs, schema.model, 0)
    case None => Ok(None)
    case Some(i) =>
      var props :- Index(remote(dbs[i].database), "properties");
      if !props.PDict? then Err(AttributeError)
      else
        var attrs :- Fold(props.entries, |props.entries|, [], AttrStep(schema, obj, related, str));
        if obj.notionId != "" then Ok(Some(Sent(Update(obj.notionId, attrs), PStr(obj.notionId))))
        else
          var id :- Index(created, "id");
          Ok(Some(Sent(Create(dbs[i].database, attrs), id)))
  }

  /**
   * The properties sent after the first `n` definitions, where `sends` says which are sent
   * and `pay` with what: keyed by id, each id once, every one sent present, and nothing
   * that was not sent.
   */
  ghost predicate SentFrom(entries: seq<(string, PyVal)>, n: nat, attrs: seq<(PyVal, PyVal)>,
                           sends: ((string, PyVal)) -> bool, pay: ((string, PyVal)) -> PyVal)
    requires n <= |entries|
  {
    && DistinctKeys(attrs)
    && (forall i :: 0 <= i < n && sends(entries[i]) ==> exists j :: 0 <= j < |attrs| && attrs[j].0 == Key(entries[i]))
    && (forall j :: 0 <= j < |attrs| ==> SentBy(entries, n, attrs[j], sends, pay))
  }

  /** One of the first `n` definitions is sent, as this key and payload. */
  ghost predicate SentBy(entries: seq<(string, PyVal)>, n: nat, pair: (PyVal, PyVal),
                         sends: ((string, PyVal)) -> bool, pay: ((string, PyVal)) -> PyVal)
    requires n <= |entries|
  {
    exists i :: 0 <= i < n && sends(entries[i]) && pair == (Key(entries[i]), pay(entries[i]))
  }

  /**
   * How one definition changes the properties sent from `attrs` to `r`: keys stay
   * distinct; one not sent changes nothing; one sent holds its key, with its payload, and
   * every other key keeps its entry.
   */
  ghost predicate Stepped(attrs: seq<(PyVal, PyVal)>, r: seq<(PyVal, PyVal)>, sent: bool, key: PyVal, payload: PyVal) {
    && DistinctKeys(r)
    && (!sent ==> r == attrs)
    && (sent ==>
          && (exists j :: 0 <= j < |r| && r[j].0 == key)
          && |attrs| <= |r|
          && forall j :: 0 <= j < |r| ==>
               (if j < |attrs| && attrs[j].0 != key then r[j] == attrs[j] else r[j] == (key, payload)))
  }

  function SendsFn(schema: Schema, obj: Record, related: map<string, seq<RecordRef>>): ((string, PyVal)) -> bool {
    e => Sends(schema, obj, related, e)
  }

  function PayloadFn(schema: Schema, obj: Record, related: map<string, seq<RecordRef>>, str: PyVal -> string): ((string, PyVal)) -> PyVal {
    e => Payload(schema, obj, related, str, e)
  }

  /**
   * The properties sent are keyed by property id, each id once: every property that names
   * a field with a value is sent, with its converted value, and nothing else is.
   */
  lemma AttrsSent(schema: Schema, obj: Record, related: map<string, seq<RecordRef>>, str: PyVal -> string,
                   entries: seq<(string, PyVal)>, n: nat)
    requires n <= |entries|
    ensures var r := Fold(entries, n, [], AttrStep(schema, obj, related, str));
      r.Ok? ==> SentFrom(entries, n, r.value, SendsFn(schema, obj, related), PayloadFn(schema, obj, related, str))
  {
    AttrKeeps(schema, obj, related, str, entries);
    FoldInduct(entries, n, [], AttrStep(schema, obj, related, str), SentInv(schema, obj, related, str, entries));
  }

  /** `SentFrom` as the loop invariant `FoldInduct` carries. */
  ghost function SentInv(schema: Schema, obj: Record, related: map<string, seq<RecordRef>>, str: PyVal -> string,
                         entries: seq<(string, PyVal)>): (nat, seq<(PyVal, PyVal)>) -> bool
  {
    (i: nat, attrs: seq<(PyVal, PyVal)>) =>
      i <= |entries| && SentFrom(entries, i, attrs, SendsFn(schema, obj, related), PayloadFn(schema, obj, related, str))
  }

  /** Every turn of the loop that succeeds carries `SentFrom` over one more definition. */
  lemma AttrKeeps(schema: Schema, obj: Record, related: map<string, seq<RecordRef>>, str: PyVal -> string,
                  entries: seq<(string, PyVal)>)
    ensures var step, inv := AttrStep(schema, obj, related, str), SentInv(schema, obj, related, str, entries);
      forall i: nat, attrs: seq<(PyVal, PyVal)> ::
        i < |entries| && inv(i, attrs) && step(attrs, entries[i]).Ok? ==> inv(i + 1, step(attrs, entries[i]).value)
  {
    var step, inv := AttrStep(schema, obj, related, str), SentInv(schema, obj, related, str, entries);
    forall i: nat, attrs: seq<(PyVal, PyVal)> | i < |entries| && inv(i, attrs) && step(attrs, entries[i]).Ok?
      ensures inv(i + 1, step(attrs, entries[i]).value)
    {
      AttrStepSent(schema, obj, related, str, entries, i, attrs);
    }
  }

  lemma AttrStepSent(schema: Schema, obj: Record, related: map<string, seq<RecordRef>>, str: PyVal -> string,
                     entries: seq<(string, PyVal)>, n: nat, attrs: seq<(PyVal, PyVal)>)
    requires n < |entries| && SentInv(schema, obj, related, str, entries)(n, attrs)
    requires AttrStep(schema, obj, related, str)(attrs, entries[n]).Ok?
    ensures SentInv(schema, obj, related, str, entries)(n + 1, AttrStep(schema, obj, related, str)(attrs, entries[n]).value)
  {
    var r := AttrEntry(schema, obj, related, str, attrs, entries[n]);
    assert AttrStep(schema, obj, related, str)(attrs, entries[n]) == r;
    AttrEntryFacts(schema, obj, related, str, attrs, entries[n]);
    SentFromStep(entries, n, attrs, r.value, SendsFn(schema, obj, related), PayloadFn(schema, obj, related, str));
  }

  lemma SentFromStep(entries: seq<(string, PyVal)>, n: nat, attrs: seq<(PyVal, PyVal)>, r': seq<(PyVal, PyVal)>,
                     sends: ((string, PyVal)) -> bool, pay: ((string, PyVal)) -> PyVal)
    requires n < |entries| && SentFrom(entries, n, attrs, sends, pay)
    requires Stepped(attrs, r', sends(entries[n]), Key(entries[n]), pay(entries[n]))
    ensures SentFrom(entries, n + 1, r', sends, pay)
  {
    StepCovers(entries, n, attrs, r', sends, pay);
    StepSentBy(entries, n, attrs, r', sends, pay);
  }

  lemma StepCovers(entries: seq<(string, PyVal)>, n: nat, attrs: seq<(PyVal, PyVal)>, r': seq<(PyVal, PyVal)>,
                   sends: ((string, PyVal)) -> bool, pay: ((string, PyVal)) -> PyVal)
    requires n < |entries|
    requires forall i :: 0 <= i < n && sends(entries[i]) ==> exists j :: 0 <= j < |attrs| && attrs[j].0 == Key(entries[i])
    requires Stepped(attrs, r', sends(entries[n]), Key(entries[n]), pay(entries[n]))
    ensures forall i :: 0 <= i < n + 1 && sends(entries[i]) ==> exists j :: 0 <= j < |r'| && r'[j].0 == Key(entries[i])
  {
    forall i | 0 <= i < n && sends(entries[i])
      ensures exists j :: 0 <= j < |r'| && r'[j].0 == Key(entries[i])
    {
      var j :| 0 <= j < |attrs| && attrs[j].0 == Key(entries[i]);
      assert r'[j].0 == Key(entries[i]);
    }
  }

  lemma StepSentBy(entries: seq<(string, PyVal)>, n: nat, attrs: seq<(PyVal, PyVal)>, r': seq<(PyVal, PyVal)>,
                   sends: ((string, PyVal)) -> bool, pay: ((string, PyVal)) -> PyVal)
    requires n < |entries|
    requires forall j :: 0 <= j < |attrs| ==> SentBy(entries, n, attrs[j], sends, pay)
    requires Stepped(attrs, r', sends(entries[n]), Key(entries[n]), pay(entries[n]))
    ensures forall j :: 0 <= j < |r'| ==> SentBy(entries, n + 1, r'[j], sends, pay)
  {
    var e := entries[n];
    forall j | 0 <= j < |r'|
      ensures SentBy(entries, n + 1, r'[j], sends, pay)
    {
      if sends(e) && r'[j] == (Key(e), pay(e)) {
        assert 0 <= n < n + 1 && sends(entries[n]);
      } else {
        assert j < |attrs| && r'[j] == attrs[j];
        assert SentBy(entries, n, attrs[j], sends, pay);
        var i :| 0 <= i < n && sends(entries[i]) && attrs[j] == (Key(entries[i]), pay(entries[i]));
        assert 0 <= i < n + 1;
      }
    }
  }

  /** One property either leaves the properties sent as they were or sets its own key to its payload. */
  lemma AttrEntryFacts(schema: Schema, obj: Record, related: map<string, seq<RecordRef>>, str: PyVal -> string,
                       attrs: seq<(PyVal, PyVal)>, entry: (string, PyVal))
    requires DistinctKeys(attrs)
    requires AttrEntry(schema, obj, related, str, attrs, entry).Ok?
    ensures Stepped(attrs, AttrEntry(schema, obj, related, str, attrs, entry).value,
                    Sends(schema, obj, related, entry), Key(entry), Payload(schema, obj, related, str, entry))
  {
    AttrEntryShape(schema, obj, related, str, attrs, entry);
    if Sends(schema, obj, related, entry) {
      AssocStepped(attrs, Key(entry), Payload(schema, obj, related, str, entry));
    }
  }

  /** Setting a key in an association list with distinct keys is a step that sends it. */
  lemma AssocStepped(attrs: seq<(PyVal, PyVal)>, key: PyVal, payload: PyVal)
    requires DistinctKeys(attrs)
    ensures Stepped(attrs, Assoc(attrs, key, payload), true, key, payload)
  {
    var r := Assoc(attrs, key, payload);
    AssocKeepsKeysDistinct(attrs, key, payload);
    AssocValues(attrs, key, payload);
    if |r| == |attrs| {
      var j :| 0 <= j < |attrs| && attrs[j].0 == key;
      assert r[j].0 == key;
    } else {
      assert r[|attrs|].0 == key;
    }
  }

  /** A property that is not sent leaves the properties as they were; one that is sent sets its key to its payload. */
  lemma AttrEntryShape(schema: Schema, obj: Record, related: map<string, seq<RecordRef>>, str: PyVal -> string,
                       attrs: seq<(PyVal, PyVal)>, entry: (string, PyVal))
    requires AttrEntry(schema, obj, related, str, attrs, entry).Ok?
    ensures !Sends(schema, obj, related, entry) ==> AttrEntry(schema, obj, related, str, attrs, entry).value == attrs
    ensures Sends(schema, obj, related, entry) ==>
      AttrEntry(schema, obj, related, str, attrs, entry).value == Assoc(attrs, Key(entry), Payload(schema, obj, related, str, entry))
  {
  }

  /**
   * `from_model` writes to the first database with the record's model: an update of the
   * record's page returning its id when it has one, otherwise a new page in that database
   * returning the new page's id; with no such database nothing is sent.
   */
  lemma FromModelSends(schema: Schema, dbs: seq<Collection>, remote: string -> PyVal, obj: Record,
                       related: map<string, seq<RecordRef>>, str: PyVal -> string, created: PyVal)
    requires FromModel(schema, dbs, remote, obj, related, str, created).Ok?
    ensures var r := FromModel(schema, dbs, remote, obj, related, str, created).value;
      && (r.None? <==> forall j :: 0 <= j < |dbs| ==> dbs[j].model != schema.model)
      && (r.Some? ==>
            var i := FirstMatch(dbs, schema.model, 0).value;
            var entries := Index(remote(dbs[i].database), "properties").value.entries;
            var attrs := Fold(entries, |entries|, [], AttrStep(schema, obj, related, str)).value;
            && (obj.notionId != "" ==> r.value == Sent(Update(obj.notionId, attrs), PStr(obj.notionId)))
            && (obj.notionId == "" ==> r.value == Sent(Create(dbs[i].database, attrs), Index(created, "id").value))
            && SentFrom(entries, |entries|, attrs, SendsFn(schema, obj, related), PayloadFn(schema, obj, related, str)))
  {
    match FirstMatch(dbs, schema.model, 0)
    case None =>
    case Some(i) =>
      var entries := Index(remote(dbs[i].database), "properties").value.entries;
      AttrsSent(schema, obj, related, str, entries, |entries|);
  }
}
