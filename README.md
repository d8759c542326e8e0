# Notion sync and render core of blockholm.co, in Dafny

This project models the part of the blockholm.co site ("Notion Sidekick") that mirrors
Notion databases into Django models and turns the stored Notion blocks back into HTML.

- **Sync.** A database's pages are read from Notion. Each page is upserted as a record keyed by
  its Notion id. Its properties are converted into field values and its relations relinked.
  Its blocks are converted and stored in order. Records that are no longer in the database are
  pruned. The reverse path, `from_model`, sends a record's fields back as Notion properties.
- **Render.** The stored block rows are rendered to HTML, with runs of bulleted list items
  grouped into one list.

The Python source is modelled file by file, in the form it takes there:

- `Py` (`py.dfy`): Python values as the sync and render code sees them (`PyVal`, dictionaries as insertion-ordered entry lists), the exceptions raised (`Error`), `Result`/`Option`, and the few builtins the core relies on: `v[k]`, `v.get(k)`, iteration, `str.replace`, `lower`, `capitalize`, `split`, `strip`, `'%s' % n`, `''.join`.
- `Sorting` (`sorting.dfy`): Python's stable `sorted` as an insertion sort, and Python's order on texts.
- `Properties` (`properties.dfy`): The property converters: the `Property` factory over the eleven type tags, every `to_python` (the loops as methods proved against their specification functions) and `from_python`, and round trips through the service's reply.
- `Blocks` (`blocks.dfy`): The block converters: the `Block` factory over the ten type tags, rich text to Markdown, callouts, images, videos, dividers, and the recursion into child blocks.
- `Content` (`content.dfy`): The stored block row shared by both apps: `__str__`, the template name, the render context, and the default ordering.
- `Render` (`render.dfy`): `BlockQuerySet.render` of the notion app. The loop is a method proved equal to the unique grouping of the rows into maximal list runs and single blocks.
- `LegacyRender` (`legacy.dfy`): The newsletter app's older `render`, modelled as written, quirks included.
- `Pages` (`pages.dfy`): `attach` (as a `Library` class over storage and the attachment table), `get_excerpt`, and the heading-as-title rule of `Page.__str__` / `body_content`.
- `Newsletter` (`newsletter.dfy`): Digest selection, the greeting, and `Subscriber.send_digest` as a class whose `sent_posts` field it updates.
- `Sync` (`sync.dfy`): `to_model` and `from_model` as functions over in-memory tables, with the lemmas about upserts, relations, block ordering, pruning and the user cache.
- `Store` (`store.dfy`): The same two operations as imperative code: a `Database` class whose fields are the tables and a `UserCache` class for the per-call `users` dictionary. Every method is proved to leave exactly the state the `Sync` functions describe.

Remote answers are parameters of the model:

- the documents of a database query;
- a page's children;
- a user by id;
- the database schema;
- the id of a created page.

So are the outcomes of library calls:

- `full_clean`;
- the `before_clean` hook;
- template rendering;
- `str()` of a value;
- storage names;
- whether a download succeeds.

Where the code and its description disagree, the model follows the code:

- **Bold and italic together.** The code applies italic first and bold outermost. A run that is
  both renders as `***x***`.
- **Missing payload in `Property`.** The constructor that reads the payload runs inside the
  factory's `try`. A missing payload is therefore reported as 'Unsupported property type'.
- **Missing payload in `Block`.** Only the table lookup sits inside the `try`. A missing payload
  is therefore a plain KeyError.
- **Stale blocks.** The code deletes them by primary key. The model deletes by `notion_id`, which
  is unique and identifies the same rows.

## Model

| member | source | states |
|---|---|---|
| Py.Index | sidekick/contrib/notion/sync.py:83 | `v[key]` succeeds exactly on a dictionary holding the key and answers its first entry's value; otherwise it is a KeyError on that key (or the error of a non-dictionary). |
| Py.Get | sidekick/contrib/notion/blocks.py:47 | `v.get(key)` succeeds exactly on dictionaries and answers the entry's value or None. |
| Py.Put | sidekick/contrib/notion/models.py:26-29 | `{**d, key: value}` answers `value` for `key` and leaves every other key's lookup unchanged; it grows by one entry exactly when the key was absent. |
| Py.ReplaceChar | sidekick/contrib/notion/query.py:54 | `s.replace(a, b)` keeps the length and replaces exactly the characters equal to `a`. |
| Py.Capitalize | sidekick/contrib/notion/models.py:21 | `s.capitalize()` keeps the length, upper-cases the first character and lower-cases every other one (ASCII letters; see Left out). |
| Py.FirstWord | sidekick/newsletter/models.py:231 | `s.split()[0]`: absent exactly when `s` is empty or all Python white space (the characters `str.isspace()` accepts); otherwise a non-empty word without white space. |
| Py.LastSegment | sidekick/front/models.py:87 | `s.split('/')[-1]` is the suffix of `s` after its last slash, contains no slash, and is all of `s` when `s` has none. |
| Py.MapEach | sidekick/contrib/notion/properties.py:124-126 | A list comprehension that succeeds has one value per item, each the step's value on that item. |
| Py.JoinEachAppend | sidekick/contrib/notion/blocks.py:42-62 | `returned += step(x)` over two lists is the text of the first followed by that of the second. |
| Sorting.Sort | sidekick/contrib/notion/properties.py:62 | `sorted(...)` returns a permutation of its input. |
| Sorting.SortSorted | sidekick/contrib/notion/properties.py:62 | For a total preorder the result of `sorted(...)` is in order. |
| Sorting.TextLeIsTotalPreorder | sidekick/contrib/notion/properties.py:62 | Python's comparison of texts is total and transitive, so sorting names is well defined. |
| Properties.KindOf | sidekick/contrib/notion/properties.py:145-165 | The factory's table holds a converter exactly for the eleven supported tags, each of its own tag. |
| Properties.KindOfTag | sidekick/contrib/notion/properties.py:149-161 | Every kind is found under its own tag and no other kind under it. |
| Properties.MakeProperty | sidekick/contrib/notion/properties.py:145-165 | `Property(name, definition)` succeeds exactly when the type is a supported text tag whose payload is present. A missing type is the KeyError, an unhashable one a TypeError, and any other failure 'Unsupported property type' with the tag. A property made carries the name, the tag's kind and the payload. |
| Properties.MultiSelectToPython | sidekick/contrib/notion/properties.py:57-62 | The loop appending each item's `name` and sorting returns exactly the multi-select value of the specification, errors included. |
| Properties.TextToPython | sidekick/contrib/notion/properties.py:79-85 | The loop `returned += part['plain_text']` returns exactly the in-order concatenation of the runs' plain texts, or the first run's error. |
| Properties.RelationToPython | sidekick/contrib/notion/properties.py:117-130 | The loop extending `items` with each configured database's matches, then `set(items)`, returns exactly the relation value of the specification. |
| Properties.ToPython | sidekick/contrib/notion/properties.py:13-130 | `prop.to_python()` for each of the eleven kinds is the value the specification gives. |
| Properties.DateIgnoresEnd | sidekick/contrib/notion/properties.py:23-34 | A date's `end` is never read: two dates with the same `start` convert alike. |
| Properties.MultiSelectSortedNames | sidekick/contrib/notion/properties.py:56-62 | A multi-select converts to exactly one entry per item. Text names come out sorted and as a permutation of the names. |
| Properties.RelationResolves | sidekick/contrib/notion/properties.py:116-130 | A relation converts to a set without duplicates whose members are exactly the configured records whose `notion_id` is one of the referenced ids. |
| Properties.PassthroughRoundTrip | sidekick/contrib/notion/properties.py:13-19 | Url, email and checkbox values go out as `{type: value}` and read back unchanged. |
| Properties.SelectRoundTrip | sidekick/contrib/notion/properties.py:41-53 | A select or status value goes out as `{'name': str(v)}` and reads back as `str(v)`. |
| Properties.SentNames | sidekick/contrib/notion/properties.py:64-71 | A multi-select goes out as one `{'name': str(v)}` per value, in input order. |
| Properties.NamesOfDocs | sidekick/contrib/notion/properties.py:57-62 | Name documents read back as their texts, sorted. |
| Properties.MultiSelectRoundTrip | sidekick/contrib/notion/properties.py:57-71 | A multi-select sent and read back gives the stringified values, sorted. |
| Properties.TextRoundTrip | sidekick/contrib/notion/properties.py:78-105 | Text goes out as exactly one run of type 'text' holding the value and, once rendered by the service, reads back as the same text. |
| Properties.SentReferences | sidekick/contrib/notion/properties.py:132-142 | Records that have a `notion_id` go out as one `{'id': ...}` document each, in order. |
| Properties.IdDocsRead | sidekick/contrib/notion/properties.py:125 | Reading `item['id']` from the sent documents gives back the ids. |
| Properties.RelationOfIds | sidekick/contrib/notion/properties.py:117-130 | A relation of id documents reads back as the configured records with those ids, each once. |
| Properties.RelationReadBack | sidekick/contrib/notion/properties.py:116-142 | Records sent by id read back as the configured records their ids reference, each once. |
| Properties.ResolvedAreSent | sidekick/contrib/notion/properties.py:120-130 | With remote ids unique across the configured tables, the configured records the sent ids reference are exactly the records sent. |
| Properties.RelationRoundTrip | sidekick/contrib/notion/properties.py:116-142 | Configured records sent as a relation read back as a set with exactly the same members (duplicates collapse). |
| Properties.DateAsWrittenUnreadable | sidekick/contrib/notion/properties.py:16-34 | As written, a date goes out as `{'date': <date>}`. The reply in that shape fails `to_python` with "'date' should be a dict" (see Findings). |
| Properties.DateRoundTrip | sidekick/contrib/notion/properties.py:22-34 | Sent as `{'date': {'start': <ISO text>}}`, a date reads back as the same date. |
| Blocks.BlockKindOfTags | sidekick/contrib/notion/blocks.py:165-176 | The factory's table holds a converter exactly for the ten block tags, each of its own tag. |
| Blocks.BlockKindOfTag | sidekick/contrib/notion/blocks.py:165-176 | Every converter is found under its own tag. |
| Blocks.TagsDistinct | sidekick/contrib/notion/blocks.py:165-176 | No two converters share a tag. |
| Blocks.MakeBlock | sidekick/contrib/notion/blocks.py:161-187 | A block made keeps its document and the handler it was given. |
| Blocks.MakeBlockFacts | sidekick/contrib/notion/blocks.py:161-187 | `Block(definition)` succeeds exactly on a known tag whose payload is present. An unknown hashable tag is 'Unsupported block type' with the tag. A missing payload is the payload's KeyError. A block made has its tag's kind and that tag's payload. |
| Blocks.PlainRun | sidekick/contrib/notion/blocks.py:42-62 | A run with no annotations and no link is its text, unchanged. |
| Blocks.CodeIgnoresEmphasis | sidekick/contrib/notion/blocks.py:47-48 | A code run renders as `` `content` ``; its italic and bold flags change nothing. |
| Blocks.EmphasisInsideLink | sidekick/contrib/notion/blocks.py:49-60 | Outside code, italic wraps first and bold outermost (both give `***x***`). A link wraps the emphasised text as `[...](url)`. |
| Blocks.CalloutKind | sidekick/contrib/notion/blocks.py:121-132 | The kind of a colour is always one of info, warning, light, success, danger or None. |
| Blocks.CalloutHead | sidekick/contrib/notion/blocks.py:113-137 | A callout's leading entries are kind, icon and emoji, in that order, and the icon is always None. A falsy colour gives 'info', any other colour its style. A falsy icon gives no emoji. An icon whose type is not 'emoji' is raised as an error. |
| Blocks.CalloutEntries | sidekick/contrib/notion/blocks.py:113-139 | A converted callout is a dictionary whose `icon` is None and whose `kind` is 'info' when the colour is falsy and the colour's style (one of the five or None) otherwise. |
| Blocks.CalloutIconRaised | sidekick/contrib/notion/blocks.py:115-119 | A callout whose icon is set and is not of type 'emoji' fails with that icon as the error, whatever else it holds. |
| Blocks.ImageUsesHandler | sidekick/contrib/notion/blocks.py:93-100 | An image's `alt` is its caption and its `src` is what the media handler makes of the file URL. Without a handler it raises NotImplementedError. |
| Blocks.ExternalVideoIgnoresHandler | sidekick/contrib/notion/blocks.py:142-153 | An external video's `src` is its own URL, whatever handler is given. |
| Blocks.ConvertShape | sidekick/contrib/notion/blocks.py:64-158 | Every converter produces a dictionary with its own fixed keys, in order. A divider gives `{}`. |
| Blocks.ConvertChildren | sidekick/contrib/notion/blocks.py:14-26 | Converting the listed children gives one document per child. |
| Blocks.RichTextToPython | sidekick/contrib/notion/blocks.py:37-62 | The loop over the runs returns exactly their formatted texts concatenated in order ("" for no runs), or the first run's error. |
| Blocks.ToPython | sidekick/contrib/notion/blocks.py:31-158 | `block.to_python()`, recursing through the children, returns exactly the converted document of the specification. |
| Blocks.ChildrenToPython | sidekick/contrib/notion/blocks.py:14-26 | The children are converted in remote order with the parent's handler, and only when the document says it has children; a document with children but no `id` fails with that KeyError before any child is read. |
| Content.Describe | sidekick/contrib/notion/models.py:20-21 | `__str__` keeps the length, contains no underscore, upper-cases the first character, lower-cases the rest and shows every underscore as a space. |
| Content.TemplateNameInjective | sidekick/contrib/notion/models.py:23-26 | Two block types never share a template name. |
| Content.OrderedRows | sidekick/contrib/notion/models.py:32-33 | The default ordering lists a record's blocks sorted by `ordering`, and no block is lost or added. |
| Render.SegmentsIsGrouping | sidekick/contrib/notion/query.py:12-57 | The grouping built from the left covers the blocks in order. Every group is a non-empty run of list items, every single is another block, and no two groups are adjacent. |
| Render.GroupingIsSegments | sidekick/contrib/notion/query.py:12-57 | That grouping is unique: any grouping of the blocks is the one built from the left. |
| Render.GroupHtml | sidekick/contrib/notion/query.py:20-42 | A flushed list is the list template over the items' properties, in a `bulleted-list-block` div unless `simple`. |
| Render.BlockHtml | sidekick/contrib/notion/query.py:47-57 | Any other block is its own template, in a `T-block` div with the type's underscores as dashes unless `simple`. |
| Render.Flush | sidekick/contrib/notion/query.py:59-82 | A flush appends the open list's fragment, if one is open, and leaves no open list. |
| Render.Emit | sidekick/contrib/notion/query.py:47-57 | Emitting a block appends exactly its fragment. |
| Render.Step | sidekick/contrib/notion/query.py:12-57 | One turn of the loop: a list item joins the open list, and any other block closes the list and follows it. The flag stays raised exactly while items are pending. |
| Render.RenderBlocks | sidekick/contrib/notion/query.py:6-84 | `render(simple)` is the in-order join of the fragments of the unique grouping: each maximal list run is one group, every other block appears once in order, and trailing items are flushed. |
| Render.SeparateRunsSeparateGroups | sidekick/contrib/notion/query.py:44-45 | Two runs of list items separated by another block stay two groups, each with only its own items. |
| Render.TrailingItemsFlushed | sidekick/contrib/notion/query.py:59-82 | Trailing list items are flushed as a last group, and no empty group is emitted. |
| LegacyRender.FlagMeansItemSinceLastBlock | sidekick/newsletter/query.py:9-32 | The group flag is raised at a block exactly when every earlier non-list block has a list item after it. So the first non-list block always gets a group, and a later one only if an item came since the previous one. |
| LegacyRender.Step | sidekick/newsletter/query.py:12-39 | One turn of the loop: a list item appends to the never-cleared items and raises the flag. Any other block emits the accumulated group if flagged, then its own div, and lowers the flag. |
| LegacyRender.Advance | sidekick/newsletter/query.py:12-39 | The loop's state after each block is the state its block-by-block description gives. |
| LegacyRender.RenderBlocks | sidekick/newsletter/query.py:6-41 | `render()` is the in-order join of the legacy pieces' fragments. |
| LegacyRender.FirstBlockFollowsGroup | sidekick/newsletter/query.py:9-30 | The first non-list block always follows a list group of the items before it, even an empty one. |
| LegacyRender.GroupsAccumulate | sidekick/newsletter/query.py:10-32 | The accumulator only grows: a later group holds every item of an earlier one, in the same order. |
| LegacyRender.ListItemsMembers | sidekick/newsletter/query.py:13-17 | The accumulated items are exactly the list items seen so far. |
| LegacyRender.TrailingItemsDropped | sidekick/newsletter/query.py:12-41 | With no flush after the loop, list items after the last other block change nothing. |
| LegacyRender.EveryOtherBlockOnce | sidekick/newsletter/query.py:34-39 | Every non-list block is emitted exactly once, in order. |
| LegacyRender.LegacyRepeatsItems | sidekick/newsletter/query.py:10-32 | For items a, b and blocks p, q the groups are [a] then [a, b]: the second group repeats the first's items (see Findings). |
| LegacyRender.LegacyDropsTrailingItem | sidekick/newsletter/query.py:9-41 | Blocks [p, a] give an empty group, then p, and lose a (see Findings). |
| Pages.MediaPath | sidekick/front/models.py:85-88 | The storage path is the prefix, the owner's key, a slash and the base URL's last segment, which holds no slash. |
| Pages.ScanFacts | sidekick/front/models.py:93-99 | The loop answers with an existing file of one of the owner's attachments with the base URL. It deletes only such attachments whose file is missing. With no answer, none of them is left. |
| Pages.ScanKeepsUnique | sidekick/front/models.py:93-99 | Deleting attachments keeps `notion_url` unique. |
| Pages.AttachKeepsUnique | sidekick/front/models.py:101-115 | `attach` keeps `notion_url` unique. |
| Pages.AttachOutcome | sidekick/front/models.py:82-115 | A successful `attach` returns a file that exists afterwards. Unless the media path was already stored, an attachment of the owner with the base URL records it. Only attachments with the base URL and a missing file disappear, and at most one new attachment appears. |
| Pages.AttachIdempotent | sidekick/front/models.py:82-115 | After a success, attaching any URL with the same address less query and fragment returns the same name and changes nothing: no second download and no second attachment. |
| Pages.Library.Attach | sidekick/front/models.py:82-115 | `Page.attach` (prefix 'pages/') and `Post.attach` (prefix 'newsletter/') change storage and the attachment table exactly as the specification of `attach` says, and keep them valid. |
| Pages.Library.Prune | sidekick/newsletter/models.py:89-95 | The loop deletes in place the owner's attachments with the base URL whose file is missing, until one whose file exists answers, as the scan specification says. |
| Pages.ParagraphText | sidekick/front/models.py:122-124 | A block adds text only when it is a paragraph, and then a leading space first. |
| Pages.GatheredIsPrefix | sidekick/front/models.py:121-126 | The excerpt's text is a prefix of the whole text of the paragraphs, and fails only where the whole text does. |
| Pages.GatheredShortIsWhole | sidekick/front/models.py:121-126 | While the text stays within 200 characters, every paragraph is in it. |
| Pages.GatheredStopsPast200 | sidekick/front/models.py:125-126 | A text longer than 200 characters is the whole text up to the paragraph that first took it past 200. |
| Pages.GetExcerpt | sidekick/newsletter/models.py:113-124 | The loop with its `break` returns exactly the excerpt of the specification: the subtitle when non-empty, otherwise the stripped text accumulated until it passes 200 characters. |
| Pages.PageTitle | sidekick/front/models.py:60-67 | The title is the first block's `text` when that block (by `ordering`) is a `heading_1` of a saved page, and the page title otherwise. |
| Pages.TitleNotRepeated | sidekick/front/models.py:60-77 | When the first ordered block is a heading, the page title is that heading's text and `body_content` is the ordered blocks less exactly that heading; otherwise all of them. The body is always in order. |
| Newsletter.Candidates | sidekick/newsletter/models.py:213-224 | The candidates are exactly the given posts not already sent, published within the last 90 days and not later than now, and sharing no excluded tag. |
| Newsletter.SortedCandidates | sidekick/newsletter/models.py:233 | Ordering the candidates by publication keeps exactly the candidates, sorted oldest first. |
| Newsletter.SelectionSize | sidekick/newsletter/models.py:233 | The digest carries as many candidates as there are, up to five. |
| Newsletter.SelectionCandidates | sidekick/newsletter/models.py:214-233 | The digest carries only candidates, oldest published first. |
| Newsletter.SelectionOldest | sidekick/newsletter/models.py:233 | A candidate left out was published no earlier than every post carried. |
| Newsletter.GreetingBlankNameFails | sidekick/newsletter/models.py:229-231 | As written, a name of one space raises IndexError (see Findings). |
| Newsletter.GreetingAgrees | sidekick/newsletter/models.py:229-231 | The corrected greeting agrees with the code wherever the code succeeds. The code fails exactly on a non-empty, all-white-space name. |
| Newsletter.GreetingIsOneWord | sidekick/newsletter/models.py:229-231 | The greeting is one word without white space: the name's first word capitalised, or 'there'. |
| Newsletter.NeverDigestedTwice | sidekick/newsletter/models.py:214-245 | After a digest, no later digest carries any post just sent or sent before. |
| Newsletter.DigestNonEmpty | sidekick/newsletter/models.py:214-233 | Nothing is sent exactly when no post is a candidate. With candidates, the call raises IndexError exactly when the name is non-empty and all white space; otherwise between one and five posts are sent with the corrected greeting. |
| Newsletter.Subscriber.SendDigest | sidekick/newsletter/models.py:212-245 | `send_digest` returns the digest, or the IndexError of a blank name, that the specification selects. It adds exactly the posts sent to `sent_posts` and leaves `sent_posts` unchanged when nothing is sent or the greeting fails. |
| Sync.FoldFailEarly | sidekick/contrib/notion/sync.py:81-82 | Once a loop's step has failed, later steps do not change its result. |
| Sync.FieldName | sidekick/contrib/notion/sync.py:101 | The snake-cased name keeps the length and has no space and no upper-case ASCII letter. |
| Sync.FieldNameIdempotent | sidekick/contrib/notion/sync.py:101 | Snake-casing a field name again changes nothing. |
| Sync.TargetOf | sidekick/contrib/notion/sync.py:98-111 | A title property goes to `title` when that field exists. Any other property is skipped exactly when no field has its snake-cased name, set directly on a plain field, and deferred on a related one. |
| Sync.MakeAll | sidekick/contrib/notion/sync.py:18-23 | `get_properties` makes one property per entry, under the entry's name. |
| Sync.GetUser | sidekick/contrib/notion/sync.py:25-38 | `get_user` needs the definition's `id`. It answers the cached user for a cached id and fetches only an uncached id, which it then caches. Existing entries are kept. |
| Sync.Find | sidekick/contrib/notion/sync.py:84-86 | The record found is the first with that `notion_id`; none is found only when no record has it. |
| Sync.SaveRecordUpserts | sidekick/contrib/notion/sync.py:84-120 | Saving keeps the tables well formed and leaves the record with the id holding the new fields. A matched record is updated in place with nothing inserted; otherwise exactly one record is added under a fresh key. |
| Sync.ResyncFindsRecord | sidekick/contrib/notion/sync.py:84-88 | Syncing the same document again reuses the record the first sync saved: same key, no new row. |
| Sync.ResolveItems | sidekick/contrib/notion/sync.py:128-138 | Relation items resolve exactly when each is a text or a record. Then one object is gathered per item, in order, and every text's row exists by name afterwards. |
| Sync.Within | sidekick/contrib/notion/sync.py:141-145 | The links kept are those present in both lists, in order, each once. |
| Sync.Outside | sidekick/contrib/notion/sync.py:140 | The links added are the gathered ones not already linked, in order, each once. |
| Sync.RelinkedExactly | sidekick/contrib/notion/sync.py:140-145 | After the add and the remove, the links are exactly the gathered objects, each once. |
| Sync.RelateReplaces | sidekick/contrib/notion/sync.py:123-145 | A many-to-many relation ends up linked to exactly the objects its items resolve to, each once, whatever it was linked to before. Every other relation, all records and all blocks are unchanged. |
| Sync.Assoc | sidekick/contrib/notion/sync.py:49 | `d[key] = value` on an insertion-ordered dictionary keeps every key's place, and adds the key at the end exactly when it was absent. |
| Sync.AssocValues | sidekick/contrib/notion/sync.py:49 | Only the entry under `key` changes, and then it holds the new value. |
| Sync.ListingDistinct | sidekick/contrib/notion/sync.py:40-51 | `get_blocks` lists each block id once. |
| Sync.FindBlock | sidekick/contrib/notion/sync.py:156-158 | The block row found belongs to the record and has the id; none is found only when the record has no such row. |
| Sync.Unlisted | sidekick/contrib/notion/sync.py:178 | After the delete, exactly the rows of other records and the processed rows of this record remain. |
| Sync.BlocksDenselyOrdered | sidekick/contrib/notion/sync.py:147-178 | After the blocks step, the record's rows are exactly the listed blocks, the `i`th with `ordering` i. Other records' rows are kept, and `notion_id` stays unique. |
| Sync.PlacedThenUnlisted | sidekick/contrib/notion/sync.py:153-178 | Deleting the unprocessed rows once every listed block is placed leaves exactly the listed ones. |
| Sync.FillAuthor | sidekick/contrib/notion/sync.py:113-114 | Setting the author only adds to the user cache and fetches at most one, uncached, user. Without an `author` field nothing changes. |
| Sync.SyncDocumentFacts | sidekick/contrib/notion/sync.py:81-178 | A synced document leaves well-formed tables that hold its record under its remote id, and loses no record. The user cache only grows; a user is fetched only when uncached, and is cached after. |
| Sync.FirstMatch | sidekick/contrib/notion/sync.py:61-63 | The database found is the first configured for the model; none only when no database is. |
| Sync.RunDocsNext | sidekick/contrib/notion/sync.py:81-82 | A document that syncs extends the pass by its record's key. A document that fails ends the pass with the tables as the earlier documents left them. |
| Sync.RunTracked | sidekick/contrib/notion/sync.py:16-121 | Throughout a pass the tables stay well formed and every touched key is a record. Each remote user is fetched at most once per pass. |
| Sync.Prune | sidekick/contrib/notion/sync.py:180 | Only the touched records remain, and with them only their blocks and links. Nothing else changes. |
| Sync.KeptUnique | sidekick/contrib/notion/sync.py:180 | Pruning keeps `notion_id` and primary keys unique. |
| Sync.ToModelPrunes | sidekick/contrib/notion/sync.py:61-181 | After a pass that succeeds, the records are exactly the ones touched, and they are what `to_model` returns. Blocks and links of pruned records are gone, and each remote user was fetched at most once. |
| Sync.AttrsSent | sidekick/contrib/notion/sync.py:195-209 | The properties sent are keyed by property id, each id once. Every property whose snake-cased name is a field with a non-None value is sent with its converted value, and nothing else is. |
| Sync.FromModelSends | sidekick/contrib/notion/sync.py:184-226 | `from_model` writes to the first database with the record's model. It updates the record's page and returns its id when it has one; otherwise it creates a page there and returns the new id. With no such database nothing is sent. |
| Store.UserCache.constructor | sidekick/contrib/notion/sync.py:16 | A pass starts with an empty user cache. |
| Store.UserCache.Get | sidekick/contrib/notion/sync.py:25-38 | `get_user` updates the cache, and records what it fetched, exactly as the specification says; on error the cache is unchanged. |
| Store.Database.constructor | sidekick/contrib/notion/models.py:8-18 | Has no counterpart in the code. It makes an empty database: no records, links or block rows (the Block table these lines declare), with every table invariant holding. |
| Store.Database.FindRecord | sidekick/contrib/notion/sync.py:84-86 | The lookup loop finds the first record with the id. |
| Store.Database.Save | sidekick/contrib/notion/sync.py:84-120 | `obj.save()` changes the tables exactly as the upsert specification says. |
| Store.Database.Link | sidekick/contrib/notion/sync.py:124-145 | One relation is relinked exactly as the specification says, leaving records and blocks alone. |
| Store.Database.RelateAll | sidekick/contrib/notion/sync.py:123-145 | The loop over the deferred relations relinks each in turn, or stops at the first error. |
| Store.Database.FindBlockRow | sidekick/contrib/notion/sync.py:156-158 | The lookup loop finds the record's row with the block id. |
| Store.Database.PlaceOne | sidekick/contrib/notion/sync.py:156-176 | One listed block is written in place or appended, with its position as `ordering`. |
| Store.Database.PlaceAll | sidekick/contrib/notion/sync.py:153-176 | The loop over the listed blocks changes only the block table, as the specification says, and returns the ids processed. |
| Store.Database.DeleteUnlisted | sidekick/contrib/notion/sync.py:178 | The record's unprocessed rows are deleted and nothing else changes. |
| Store.Database.SyncDocument | sidekick/contrib/notion/sync.py:81-178 | One document in its own transaction: on success the tables and the cache are those of the specification. On error the tables roll back. |
| Store.Database.SyncNext | sidekick/contrib/notion/sync.py:81-121 | One turn of the documents loop advances the pass exactly as the specification does. |
| Store.Database.SyncAll | sidekick/contrib/notion/sync.py:75-178 | The loop over a database's documents leaves the tables, the touched keys and the users fetched of the specified pass. |
| Store.Database.PruneUntouched | sidekick/contrib/notion/sync.py:180 | The delete of untouched records, cascading to their blocks and links, leaves exactly the pruned tables. |
| Store.Database.ToModel | sidekick/contrib/notion/sync.py:15-181 | `to_model` leaves the tables and returns the result the specification gives, so everything proved of it holds. |
| Store.FirstDatabase | sidekick/contrib/notion/sync.py:61-63 | The loop over the configured databases finds the first one with the model. |
| Store.AssignAll | sidekick/contrib/notion/sync.py:90-111 | The loop over the properties sets, defers or skips each as the specification says. |
| Store.AssignOne | sidekick/contrib/notion/sync.py:93-111 | One property is converted, then set, deferred or skipped as its target says. |
| Store.FillAuthor | sidekick/contrib/notion/sync.py:113-114 | The author is looked up through the cache as the specification says. |
| Store.ListBlocks | sidekick/contrib/notion/sync.py:40-51 | The loop of `get_blocks` builds exactly the specified listing. |
| Store.ListOne | sidekick/contrib/notion/sync.py:48-49 | One listed block is converted, then stored under its id. |
| Store.CollectAttrs | sidekick/contrib/notion/sync.py:193-209 | The loop filling `attrs` gives exactly the specified properties. |
| Store.AttrOne | sidekick/contrib/notion/sync.py:196-209 | One definition is read from the record, converted and stored under the property's id, or skipped. |
| Store.FromModel | sidekick/contrib/notion/sync.py:184-226 | `from_model` sends the request and returns the id the specification gives. |

## Left out

- The Notion client, pagination and `requests.get` are network I/O. A database query, a page's
  children, a user and a database schema are given as values. Child blocks are one listing, as
  the code requests a single page of them (sidekick/contrib/notion/sync.py:42,
  sidekick/contrib/notion/blocks.py:17).
- The Django ORM is modelled as in-memory tables. `transaction.atomic` is modelled as restoring
  the tables on error. `select_for_update` row locking is concurrency and is not modelled.
- `render_to_string` and `mark_safe` are an uninterpreted `Templates` parameter. `markdown` and
  `strip_tags` in the excerpt are the parameter `plain`.
- `dateutil` parsing is not modelled: a parsed date is the value `PDate(iso)`.
- `urlsplit` is not modelled: `attach` takes the split URL.
- `slugify` is not used by the core and is not part of this model.
- The iteration order of `set(items)` is taken as first occurrence. Python's hash order is not
  modelled.
- `str()` of a value is a parameter of `from_python`.
- `%s` and `str` applied to a value that is not text (a content, a URL, a name) are modelled as
  a TypeError rather than Python's formatting of that value.
- Properties.MultiSelectSortedNames: sorting two or more names that are not all texts is
  modelled as a TypeError. Python would sort some mixes of numbers and would fail on others.
- The `print` of the block definition before 'Confused by block definition' is output only and
  is not modelled.
- `before_clean`, `full_clean` on a record and on a block row, and the media handler are
  parameters. Their bodies live in the apps' managers and models and are not part of this model.
- The call `sync.from_model(self)` at the end of `send_digest` is not part of
  Newsletter.Subscriber.SendDigest. `from_model` itself is modelled in Sync and Store.
- The e-mail delivery (`render_to_inbox`) is modelled only as the digest value it is asked to
  send.
- Post signals, Open Graph images, views, feeds, forms and templates are outside the core.
- Blocks.ConvertChildren: its own contract gives only the number of children. The order and
  the handler are stated by Blocks.ChildrenToPython against the specification function.
- Blocks.CalloutEntries: states the kind and icon entries. The emoji entry is stated by
  Blocks.CalloutHead (None for a falsy icon) and otherwise only by the converter's definition.
- Py.Capitalize: case mapping covers the ASCII letters only. Other letters are left unchanged
  and the length never changes, whereas Python maps 'é' to 'É' and 'ß'.capitalize() to 'Ss'.
- Py.LowerStr: lower-cases the ASCII letters only, for the same reason as Py.Capitalize.
- Sync.FieldName: inherits the ASCII-only case mapping of Py.LowerStr. A property name with a
  non-ASCII capital keeps it, where Python would lower-case it.
- Content.Describe: inherits the ASCII-only case mapping of Py.Capitalize.
- Newsletter.Subscriber.SendDigest: the greeting inherits the ASCII-only case mapping of
  Py.Capitalize; a first name starting with a non-ASCII letter is not upper-cased.
- Sync.FirstMatch: a database is chosen when its configured model is the synced model itself.
  The code also accepts a subclass (`issubclass`, sync.py:62) or an instance of one
  (`isinstance`, sync.py:188); model inheritance is not modelled.
- Store.FirstDatabase: inherits the model-identity rule of Sync.FirstMatch.
- Sync.Find: compares `notion_id` as text. The column is a `UUIDField`, so the code parses the
  id: two spellings of one UUID (case, hyphens) match there but not here, and an id that is
  not a UUID raises ValidationError there but finds nothing here.
- Sync.FindBlock: compares the block's `notion_id` as text, for the same reason as Sync.Find.
- Properties.RelationValue: compares the referenced ids as text. The code's
  `notion_id__in` lookup parses them, so a relation item such as `{'id': 'x'}` with a
  configured database raises ValidationError there, where the model resolves no record.
- Properties.RelationRoundTrip: assumes remote ids are unique across the configured tables.
  Each table's `notion_id` column is unique and ids are UUIDs, but the code does not check
  uniqueness across tables.

## Findings

| source | as written | input that shows it | evidently intended | confidence | as-written member | corrected member |
|---|---|---|---|---|---|---|
| sidekick/newsletter/models.py:229-231 | `if self.name: name = self.name.split()[0].capitalize()` | a subscriber whose name is `" "`: the name is truthy, `split()` is empty and `[0]` raises IndexError, so no digest is sent | greet with 'there' when the name has no word | high, not executed | Newsletter.GreetingBlankNameFails | Newsletter.GreetingAgrees |
| sidekick/contrib/notion/properties.py:16-19, 22-34 | `DateProperty` inherits `from_python`, which sends `{'date': value}` with the date itself | a record whose date field is set: `from_model` sends `{'date': <date>}`. Notion expects `{'start': ...}`, and the same shape read back makes `to_python` raise "'date' should be a dict" | send `{'date': {'start': <ISO text>}}`, which `to_python` reads back as the same date | medium, not executed | Properties.DateAsWrittenUnreadable | Properties.DateRoundTrip |
| sidekick/newsletter/query.py:9-41 | `in_list` starts as 'bulleted', `list_items` is never cleared, and there is no flush after the loop | blocks [item a, paragraph p, item b, paragraph q] render groups [a] and [a, b]. Blocks [paragraph p, item a] render an empty list before p and drop a | each maximal run of list items rendered once, as the notion app's renderer does | high, not executed | LegacyRender.LegacyRepeatsItems | Render.SeparateRunsSeparateGroups |
| sidekick/newsletter/query.py:9-41 | no flush after the loop, and an initial empty group | blocks [paragraph p, item a] render an empty list group before p and lose a | trailing list items flushed, no empty group | high, not executed | LegacyRender.LegacyDropsTrailingItem | Render.TrailingItemsFlushed |
