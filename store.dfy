/**
 * `to_model` and `from_model` in sidekick/contrib/notion/sync.py as the code runs them:
 * a `Database` object whose tables the sync pass updates row by row, the per-pass
 * `users` cache, and the loops that fill a record, its relations, its blocks and the
 * properties sent back. Each method is proved to leave exactly the state, or return
 * exactly the value, that module Sync specifies.
 */
module Store {
  import opened Py
  import Properties
  import Blocks
  import opened Content
  import Sync

  /** The `users` dictionary of one `to_model` call, and the remote user ids it fetched. */
  class UserCache {
    var users: Sync.Users
    var fetched: seq<PyVal>

    constructor ()
      ensures users == map[] && fetched == []
    {
      users := map[];
      fetched := [];
    }

    /** `get_user(definition)`: answers from the cache, or fetches the user and caches them. */
    method Get(definition: PyVal, retrieve: PyVal -> Result<PyVal>, accounts: map<string, nat>) returns (r: Result<nat>)
      modifies this
      ensures var g := Sync.GetUser(old(users), definition, retrieve, accounts);
        && (g.Ok? ==> r == Ok(g.value.user) && users == g.value.cache && fetched == old(fetched) + g.value.fetched)
        && (g.Err? ==> r == Err(g.error) && users == old(users) && fetched == old(fetched))
    {
      var id := Index(definition, "id");
      if id.Err? {
        return Err(id.error);
      }
      if !Hashable(id.value) {
        return Err(TypeError);
      }
      if id.value in users {
        return Ok(users[id.value]);
      }
      var response := retrieve(id.value);
      if response.Err? {
        return Err(response.error);
      }
      var person := Index(response.value, "person");
      if person.Err? {
        return Err(person.error);
      }
      var email := Index(person.value, "email");
      if email.Err? {
        return Err(email.error);
      }
      if !(email.value.PStr? && email.value.s in accounts) {
        return Err(UserNotFound(if email.value.PStr? then email.value.s else ""));
      }
      var user := accounts[email.value.s];
      users := users[id.value := user];
      fetched := fetched + [id.value];
      r := Ok(user);
    }
  }

  /** The local tables one model's sync writes to. */
  class Database {
    var records: seq<Sync.Record>
    var links: map<(nat, string), seq<Sync.Linked>>
    var named: set<(string, string)>
    var blocks: seq<Sync.Stored>
    var nextPk: nat

    function Tables(): Sync.Tables
      reads this
    {
      Sync.Tables(records, links, named, blocks, nextPk)
    }

    ghost predicate Valid()
      reads this
    {
      Sync.WellFormed(Tables())
    }

    constructor ()
      ensures Tables() == Sync.Tables([], map[], {}, [], 0)
      ensures Valid()
    {
      records := [];
      links := map[];
      named := {};
      blocks := [];
      nextPk := 0;
    }

    /** The end of a failed `transaction.atomic()` block: the tables go back to what they were. */
    method Restore(t: Sync.Tables)
      modifies this
      ensures Tables() == t
    {
      records := t.records;
      links := t.links;
      named := t.named;
      blocks := t.blocks;
      nextPk := t.nextPk;
    }

    /** `Model.objects.filter(notion_id=id).first()` */
    method FindRecord(id: string) returns (r: Option<nat>)
      ensures r == Sync.Find(records, id, 0)
    {
      var i := 0;
      while i < |records|
        invariant 0 <= i <= |records|
        invariant Sync.Find(records, id, i) == Sync.Find(records, id, 0)
      {
        if records[i].notionId == id {
          return Some(i);
        }
        i := i + 1;
      }
      return None;
    }

    /** `obj.save()` on the record matched by `id`, or on a new one. */
    method Save(id: string, fields: seq<(string, PyVal)>) returns (pk: nat)
      modifies this
      ensures (Tables(), pk) == Sync.SaveRecord(old(Tables()), id, fields)
    {
      var k := FindRecord(id);
      match k
      case Some(i) =>
        pk := records[i].pk;
        records := records[i := records[i].(fields := fields)];
      case None =>
        pk := nextPk;
        records := records + [Sync.Record(nextPk, id, fields)];
        nextPk := nextPk + 1;
    }

    /**
     * One entry of `after`: each item is fetched or created by name, or used as it is,
     * then the relation is set to exactly the objects gathered.
     */
    method Link(schema: Sync.Schema, pk: nat, entry: (string, PyVal)) returns (r: Result<()>)
      modifies this
      ensures records == old(records) && blocks == old(blocks) && nextPk == old(nextPk)
      ensures var R := Sync.Relate(schema, pk, old(Tables()), entry);
        && (R.Ok? ==> r.Ok? && Tables() == R.value)
        && (R.Err? ==> r == Err(R.error))
    {
      var (field, value) := entry;
      var kind := if field in schema.fields then schema.fields[field] else Sync.Plain;
      if kind.Plain? {
        return Ok(());
      }
      var items := Iterate(value);
      if items.Err? {
        return Err(items.error);
      }
      var model := kind.related;
      ghost var init := Sync.Resolving([], named);
      var added: seq<Sync.Linked> := [];
      for i := 0 to |items.value|
        invariant records == old(records) && blocks == old(blocks) && nextPk == old(nextPk) && links == old(links)
        invariant Sync.Fold(items.value, i, init, Sync.ResolveStep(model)) == Ok(Sync.Resolving(added, named))
      {
        Sync.ResolveNext(model, items.value, i, init, Sync.Resolving(added, named));
        match items.value[i] {
          case PStr(name) =>
            named := named + {(model, name)};
            added := added + [Sync.ByName(model, name)];
          case PModel(ref) =>
            added := added + [Sync.ByRecord(ref)];
          case _ =>
            return Err(UnexpectedRelationItem(items.value[i]));
        }
      }
      if kind.ForeignKey? {
        return Err(AttributeError);
      }
      var current := if (pk, field) in links then links[(pk, field)] else [];
      links := links[(pk, field) := Sync.Relinked(current, added)];
      r := Ok(());
    }

    /** The loop over `after.items()`. */
    method RelateAll(schema: Sync.Schema, pk: nat, after: seq<(string, PyVal)>) returns (r: Result<()>)
      modifies this
      ensures records == old(records) && blocks == old(blocks) && nextPk == old(nextPk)
      ensures var R := Sync.Fold(after, |after|, old(Tables()), Sync.RelateStep(schema, pk));
        && (R.Ok? ==> r.Ok? && Tables() == R.value)
        && (R.Err? ==> r == Err(R.error))
    {
      for i := 0 to |after|
        invariant records == old(records) && blocks == old(blocks) && nextPk == old(nextPk)
        invariant Sync.Fold(after, i, old(Tables()), Sync.RelateStep(schema, pk)) == Ok(Tables())
      {
        Sync.RelateNext(schema, pk, after, i, old(Tables()), Tables());
        var e := Link(schema, pk, after[i]);
        if e.Err? {
          return e;
        }
      }
      r := Ok(());
    }

    /** `obj_blocks.filter(notion_id=id).first()` */
    method FindBlockRow(owner: nat, id: string) returns (r: Option<nat>)
      ensures r == Sync.FindBlock(blocks, owner, id, 0)
    {
      var i := 0;
      while i < |blocks|
        invariant 0 <= i <= |blocks|
        invariant Sync.FindBlock(blocks, owner, id, i) == Sync.FindBlock(blocks, owner, id, 0)
      {
        if blocks[i].owner == owner && blocks[i].row.notionId == id {
          return Some(i);
        }
        i := i + 1;
      }
      return None;
    }

    /**
     * The loop over the listed blocks: each is matched by id among the record's blocks or
     * added, gets its type, its position as `ordering` and its converted properties, and
     * is cleaned and saved. Returns the ids processed.
     */
    method PlaceAll(owner: nat, valid: BlockRow -> bool, listing: seq<(PyVal, Blocks.Block)>) returns (r: Result<seq<string>>)
      modifies this
      ensures records == old(records) && links == old(links) && named == old(named) && nextPk == old(nextPk)
      ensures var P := Sync.Fold(listing, |listing|, Sync.Placing(old(blocks), []), Sync.PlaceStep(owner, valid));
        && (P.Ok? ==> r == Ok(P.value.done) && blocks == P.value.blocks)
        && (P.Err? ==> r == Err(P.error))
    {
      ghost var init := Sync.Placing(blocks, []);
      var done: seq<string> := [];
      for i := 0 to |listing|
        invariant records == old(records) && links == old(links) && named == old(named) && nextPk == old(nextPk)
        invariant Sync.Fold(listing, i, init, Sync.PlaceStep(owner, valid)) == Ok(Sync.Placing(blocks, done))
      {
        Sync.PlaceNext(owner, valid, listing, i, init, Sync.Placing(blocks, done));
        var next := PlaceOne(owner, valid, done, listing[i]);
        if next.Err? {
          return Err(next.error);
        }
        done := next.value.done;
      }
      r := Ok(done);
    }

    /** One turn of the loop over the listed blocks. */
    method PlaceOne(owner: nat, valid: BlockRow -> bool, done: seq<string>, entry: (PyVal, Blocks.Block)) returns (r: Result<Sync.Placing>)
      modifies this
      ensures records == old(records) && links == old(links) && named == old(named) && nextPk == old(nextPk)
      ensures r == Sync.Place(owner, valid, Sync.Placing(old(blocks), done), entry)
      ensures r.Ok? ==> blocks == r.value.blocks
    {
      var (id, block) := entry;
      if !id.PStr? {
        return Err(ValidationFailed);
      }
      var converted := Blocks.ToPython(block);
      if converted.Err? {
        return Err(BlockDefinition(converted.error));
      }
      var props := if converted.value.PDict? then converted.value.entries else [];
      var row := BlockRow(id.s, |done|, Blocks.BlockTag(block.kind), props);
      if !valid(row) {
        return Err(ValidationFailed);
      }
      var k := FindBlockRow(owner, id.s);
      if k.Some? {
        blocks := blocks[k.value := Sync.Stored(owner, row)];
      } else if Sync.Taken(blocks, id.s) {
        return Err(ValidationFailed);
      } else {
        blocks := blocks + [Sync.Stored(owner, row)];
      }
      r := Ok(Sync.Placing(blocks, done + [id.s]));
    }

    /** `obj_blocks.exclude(pk__in=block_ids).delete()` */
    method DeleteUnlisted(owner: nat, done: seq<string>)
      modifies this
      ensures blocks == Sync.Unlisted(old(blocks), owner, done)
      ensures records == old(records) && links == old(links) && named == old(named) && nextPk == old(nextPk)
    {
      var kept: seq<Sync.Stored> := [];
      var i := |blocks|;
      while i > 0
        invariant 0 <= i <= |blocks|
        invariant kept == Sync.Unlisted(blocks[i..], owner, done)
      {
        i := i - 1;
        assert blocks[i..][1..] == blocks[i + 1..];
        if blocks[i].owner != owner || blocks[i].row.notionId in done {
          kept := [blocks[i]] + kept;
        }
      }
      assert blocks[0..] == blocks;
      blocks := kept;
    }

    /**
     * The body of the loop over a database's documents, in its own transaction: on any
     * error the tables are rolled back and the error is returned; otherwise the record's
     * primary key is.
     */
    method SyncDocument(env: Sync.Env, cache: UserCache, doc: PyVal) returns (r: Result<nat>)
      requires Valid()
      modifies this, cache
      ensures var R := Sync.SyncDocument(env, old(Tables()), old(cache.users), doc);
        && (R.Ok? ==> r == Ok(R.value.pk) && Tables() == R.value.tables && cache.users == R.value.cache
                      && cache.fetched == old(cache.fetched) + R.value.fetched)
        && (R.Err? ==> r == Err(R.error) && Tables() == old(Tables()))
      ensures Valid()
    {
      var idv := Index(doc, "id");
      if idv.Err? {
        return Err(idv.error);
      }
      if !idv.value.PStr? {
        return Err(ValidationFailed);
      }
      var id := idv.value.s;
      var props := Sync.DocProperties(doc);
      if props.Err? {
        return Err(props.error);
      }
      var p := AssignAll(env.schema, env.catalog, props.value, Sync.Base(records, id));
      if p.Err? {
        return Err(p.error);
      }
      var filled := FillAuthor(env, cache, doc, p.value);
      if filled.Err? {
        return Err(filled.error);
      }
      var fields := Sync.Clean(env, doc, filled.value.fields);
      if fields.Err? {
        return Err(fields.error);
      }
      if !env.valid(fields.value) {
        return Err(ValidationFailed);
      }
      var saved := Tables();
      var pk := Save(id, fields.value);
      var related := RelateAll(env.schema, pk, filled.value.after);
      if related.Err? {
        Restore(saved);
        return Err(related.error);
      }
      if env.schema.hasBlocks {
        var listing := ListBlocks(env.media(pk), env.children(id));
        if listing.Err? {
          Restore(saved);
          return Err(listing.error);
        }
        var placed := PlaceAll(pk, env.validBlock, listing.value);
        if placed.Err? {
          Restore(saved);
          return Err(placed.error);
        }
        DeleteUnlisted(pk, placed.value);
      }
      r := Ok(pk);
      Sync.SyncDocumentFacts(env, old(Tables()), old(cache.users), doc, Sync.SyncDocument(env, old(Tables()), old(cache.users), doc).value);
    }

    /**
     * `to_model(Model, ...)`: the first database configured for the model is queried, every
     * document synced in turn, and the records not touched are deleted.
     */
    method ToModel(env: Sync.Env, dbs: seq<Sync.Collection>, query: string -> seq<PyVal>)
      returns (result: Result<Option<seq<Sync.Record>>>, fetched: seq<PyVal>)
      requires Valid()
      modifies this
      ensures var S := Sync.ToModel(env, dbs, query, old(Tables()));
        Tables() == S.tables && result == S.result && fetched == S.fetched
      ensures Valid()
    {
      var i := FirstDatabase(dbs, env.schema.model);
      if i.None? {
        return Ok(None), [];
      }
      var docs := query(dbs[i.value].database);
      var pks, error;
      pks, error, fetched := SyncAll(env, docs);
      if error.Some? {
        return Err(error.value), fetched;
      }
      Sync.PruneWellFormed(Tables(), pks);
      PruneUntouched(pks);
      result := Ok(Some(records));
    }

    /**
     * The loop over a database's documents, with a user cache of its own: returns the keys
     * of the records synced, the error that stopped the loop, if any, and the users fetched
     * before it.
     */
    method SyncAll(env: Sync.Env, docs: seq<PyVal>) returns (pks: seq<nat>, error: Option<Error>, fetched: seq<PyVal>)
      requires Valid()
      modifies this
      ensures var R := Sync.RunDocs(env, docs, |docs|, Sync.Pass(old(Tables()), [], map[], []));
        (Tables(), pks, fetched, error) == (R.0.tables, R.0.pks, R.0.fetched, R.1)
      ensures Valid()
    {
      ghost var init := Sync.Pass(Tables(), [], map[], []);
      var cache := new UserCache();
      pks := [];
      for k := 0 to |docs|
        invariant Valid()
        invariant Sync.RunDocs(env, docs, k, init) == (Sync.Pass(Tables(), pks, cache.users, cache.fetched), None)
      {
        var before := cache.fetched;
        var r := SyncNext(env, docs, k, init, cache, pks);
        if r.Err? {
          return pks, Some(r.error), before;
        }
        pks := pks + [r.value];
      }
      return pks, None, cache.fetched;
    }

    /** One turn of the loop over the documents, as far as the pass is concerned. */
    method SyncNext(env: Sync.Env, docs: seq<PyVal>, k: nat, ghost init: Sync.Pass, cache: UserCache, pks: seq<nat>)
      returns (r: Result<nat>)
      requires k < |docs| && Valid()
      requires Sync.RunDocs(env, docs, k, init) == (Sync.Pass(Tables(), pks, cache.users, cache.fetched), None)
      modifies this, cache
      ensures Valid()
      ensures r.Ok? ==> Sync.RunDocs(env, docs, k + 1, init) == (Sync.Pass(Tables(), pks + [r.value], cache.users, cache.fetched), None)
      ensures r.Err? ==> Sync.RunDocs(env, docs, |docs|, init) == (Sync.Pass(Tables(), pks, old(cache.users), old(cache.fetched)), Some(r.error))
    {
      Sync.RunDocsNext(env, docs, k, init, Sync.Pass(Tables(), pks, cache.users, cache.fetched));
      r := SyncDocument(env, cache, docs[k]);
    }

    /** `Model.objects.exclude(pk__in=pks).delete()`, cascading to blocks and links. */
    method PruneUntouched(pks: seq<nat>)
      modifies this
      ensures Tables() == Sync.Prune(old(Tables()), pks)
    {
      var keptRecords: seq<Sync.Record> := [];
      var i := |records|;
      while i > 0
        invariant 0 <= i <= |records|
        invariant keptRecords == Sync.Kept(records[i..], pks)
      {
        i := i - 1;
        assert records[i..][1..] == records[i + 1..];
        if records[i].pk in pks {
          keptRecords := [records[i]] + keptRecords;
        }
      }
      assert records[0..] == records;
      var keptBlocks: seq<Sync.Stored> := [];
      i := |blocks|;
      while i > 0
        invariant 0 <= i <= |blocks|
        invariant keptBlocks == Sync.KeptBlocks(blocks[i..], pks)
      {
        i := i - 1;
        assert blocks[i..][1..] == blocks[i + 1..];
        if blocks[i].owner in pks {
          keptBlocks := [blocks[i]] + keptBlocks;
        }
      }
      assert blocks[0..] == blocks;
      records := keptRecords;
      blocks := keptBlocks;
      links := map k | k in links && k.0 in pks :: links[k];
    }
  }

  /** The loop over `settings.DATABASES` that looks for the model's database. */
  method FirstDatabase(dbs: seq<Sync.Collection>, model: string) returns (r: Option<nat>)
    ensures r == Sync.FirstMatch(dbs, model, 0)
  {
    var i := 0;
    while i < |dbs|
      invariant 0 <= i <= |dbs|
      invariant Sync.FirstMatch(dbs, model, i) == Sync.FirstMatch(dbs, model, 0)
    {
      if dbs[i].model == model {
        return Some(i);
      }
      i := i + 1;
    }
    return None;
  }

  /** The loop over `get_properties(result).items()`: each value is converted, then set, deferred or skipped. */
  method AssignAll(schema: Sync.Schema, catalog: seq<seq<RecordRef>>, props: seq<Properties.Property>, base: seq<(string, PyVal)>)
    returns (r: Result<Sync.Pending>)
    ensures r == Sync.Fold(props, |props|, Sync.Pending(base, []), Sync.AssignStep(schema, catalog))
  {
    ghost var init := Sync.Pending(base, []);
    var p := Sync.Pending(base, []);
    for i := 0 to |props|
      invariant Sync.Fold(props, i, init, Sync.AssignStep(schema, catalog)) == Ok(p)
    {
      var next := AssignOne(schema, catalog, p, props[i]);
      Sync.AssignNext(schema, catalog, props, i, init, p);
      if next.Err? {
        return next;
      }
      p := next.value;
    }
    r := Ok(p);
  }

  /** One property: its value converted, then set on the object, deferred to `after`, or dropped. */
  method AssignOne(schema: Sync.Schema, catalog: seq<seq<RecordRef>>, p: Sync.Pending, prop: Properties.Property) returns (r: Result<Sync.Pending>)
    ensures r == Sync.Assign(schema, catalog, p, prop)
  {
    var v := Properties.ToPython(prop, catalog);
    if v.Err? {
      return Err(v.error);
    }
    match Sync.TargetOf(schema, prop) {
      case Skip => r := Ok(p);
      case SetField(f) => r := Ok(p.(fields := Put(p.fields, f, v.value)));
      case Defer(f) => r := Ok(p.(after := Put(p.after, f, v.value)));
    }
  }

  /** `obj.author = get_user(result['created_by'])` when the model has an author. */
  method FillAuthor(env: Sync.Env, cache: UserCache, doc: PyVal, p: Sync.Pending) returns (r: Result<Sync.Pending>)
    modifies cache
    ensures var F := Sync.FillAuthor(env, doc, old(cache.users), p);
      && (F.Ok? ==> r == Ok(F.value.pending) && cache.users == F.value.cache && cache.fetched == old(cache.fetched) + F.value.fetched)
      && (F.Err? ==> r == Err(F.error))
  {
    if "author" !in env.schema.fields {
      return Ok(p);
    }
    var created := Index(doc, "created_by");
    if created.Err? {
      return Err(created.error);
    }
    var user := cache.Get(created.value, env.retrieve, env.accounts);
    if user.Err? {
      return Err(user.error);
    }
    r := Ok(p.(fields := Put(p.fields, "author", Sync.UserRef(user.value))));
  }

  /** `get_blocks(result, obj)`: the listed blocks by id, in first-listed order. */
  method ListBlocks(media: Blocks.Handler, results: seq<Blocks.RemoteBlock>) returns (r: Result<seq<(PyVal, Blocks.Block)>>)
    ensures r == Sync.Listing(media, results)
  {
    var listed: seq<(PyVal, Blocks.Block)> := [];
    for i := 0 to |results|
      invariant Sync.Fold(results, i, [], Sync.ListStep(media)) == Ok(listed)
    {
      var next := ListOne(media, listed, results[i]);
      Sync.ListingNext(media, results, i, listed);
      if next.Err? {
        return next;
      }
      listed := next.value;
    }
    r := Ok(listed);
  }

  /** One listed block: converted, then stored under its id, keeping the place of an id listed before. */
  method ListOne(media: Blocks.Handler, listed: seq<(PyVal, Blocks.Block)>, b: Blocks.RemoteBlock) returns (r: Result<seq<(PyVal, Blocks.Block)>>)
    ensures r == Sync.ListBlock(media, listed, b)
  {
    var block := Blocks.MakeBlock(b, media);
    if block.Err? {
      return Err(block.error);
    }
    var id := Index(b.definition, "id");
    if id.Err? {
      return Err(id.error);
    }
    if !Hashable(id.value) {
      return Err(TypeError);
    }
    r := Ok(Sync.Assoc(listed, id.value, block.value));
  }

  /** The loop over the database's properties in `from_model`, filling `attrs`. */
  method CollectAttrs(schema: Sync.Schema, obj: Sync.Record, related: map<string, seq<RecordRef>>, str: PyVal -> string,
                      entries: seq<(string, PyVal)>) returns (r: Result<seq<(PyVal, PyVal)>>)
    ensures r == Sync.Fold(entries, |entries|, [], Sync.AttrStep(schema, obj, related, str))
  {
    var attrs: seq<(PyVal, PyVal)> := [];
    for i := 0 to |entries|
      invariant Sync.Fold(entries, i, [], Sync.AttrStep(schema, obj, related, str)) == Ok(attrs)
    {
      var e := AttrOne(schema, obj, related, str, attrs, entries[i]);
      Sync.AttrNext(schema, obj, related, str, entries, i, attrs);
      if e.Err? {
        return e;
      }
      attrs := e.value;
    }
    r := Ok(attrs);
  }

  /** One definition of the database: its value read from the object, converted and stored under the property's id. */
  method AttrOne(schema: Sync.Schema, obj: Sync.Record, related: map<string, seq<RecordRef>>, str: PyVal -> string,
                 attrs: seq<(PyVal, PyVal)>, entry: (string, PyVal)) returns (r: Result<seq<(PyVal, PyVal)>>)
    ensures r == Sync.AttrEntry(schema, obj, related, str, attrs, entry)
  {
    var (name, definition) := entry;
    var prop := Properties.MakeProperty(name, definition);
    if prop.Err? {
      return Err(prop.error);
    }
    var field := Sync.FieldName(name);
    if field !in schema.fields {
      return Ok(attrs);
    }
    var value := Sync.Attr(schema, obj, related, field);
    if value.Err? {
      return Err(value.error);
    }
    if value.value.PNone? {
      return Ok(attrs);
    }
    var sent := Properties.FromPython(prop.value.kind, value.value, str);
    if sent.Err? {
      return Err(sent.error);
    }
    var key := Index(definition, "id");
    if key.Err? {
      return Err(key.error);
    }
    if !Hashable(key.value) {
      return Err(TypeError);
    }
    r := Ok(Sync.Assoc(attrs, key.value, sent.value));
  }

  /** `from_model(obj)`: the request sent for the record and the remote id returned, if a database has its model. */
  method FromModel(schema: Sync.Schema, dbs: seq<Sync.Collection>, remote: string -> PyVal, obj: Sync.Record,
                   related: map<string, seq<RecordRef>>, str: PyVal -> string, created: PyVal) returns (r: Result<Option<Sync.Sent>>)
    ensures r == Sync.FromModel(schema, dbs, remote, obj, related, str, created)
  {
    var i := FirstDatabase(dbs, schema.model);
    if i.None? {
      return Ok(None);
    }
    var database := dbs[i.value].database;
    var props := Index(remote(database), "properties");
    if props.Err? {
      return Err(props.error);
    }
    if !props.value.PDict? {
      return Err(AttributeError);
    }
    var attrs := CollectAttrs(schema, obj, related, str, props.value.entries);
    if attrs.Err? {
      return Err(attrs.error);
    }
    if obj.notionId != "" {
      return Ok(Some(Sync.Sent(Sync.Update(obj.notionId, attrs.value), PStr(obj.notionId))));
    }
    var id := Index(created, "id");
    if id.Err? {
      return Err(id.error);
    }
    r := Ok(Some(Sync.Sent(Sync.Create(database, attrs.value), id.value)));
  }
}
