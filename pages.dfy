/**
 * The model helpers shared by `Page` in sidekick/front/models.py and `Post` in
 * sidekick/newsletter/models.py: `attach` (download a Notion-hosted file once, keyed by its
 * URL without query and fragment), `get_excerpt` (the subtitle, or the first paragraphs
 * until the text passes 200 characters), and the page's heading-as-title rule with the
 * `body_content` that goes with it.
 */
module Pages {
  import opened Py
  import opened Content
  import Sorting

  // ----- attach -----

  /** `urlsplit(url)`: the five parts of a URL. The splitting itself is not modelled. */
  datatype SplitUrl = SplitUrl(scheme: string, netloc: string, path: string, query: string, fragment: string)

  /** `'%s://%s%s' % (scheme, domain, path)`: the URL without its query and fragment. */
  function BaseUrl(u: SplitUrl): string {
    u.scheme + "://" + u.netloc + u.path
  }

  /** Where each app stores its attachments. */
  const PagePrefix := "pages/"
  const PostPrefix := "newsletter/"

  /** `'<prefix>%s/%s' % (self.pk, baseurl.split('/')[-1])` */
  function MediaPath(prefix: string, pk: nat, base: string): (r: string)
    ensures r == prefix + Decimal(pk) + "/" + LastSegment(base)
    ensures '/' !in r[|prefix| + |Decimal(pk)| + 1..]
  {
    var name := LastSegment(base);
    var r := prefix + Decimal(pk) + "/" + name;
    assert r[|prefix| + |Decimal(pk)| + 1..] == name;
    r
  }

  /** An attachment row: its owner's primary key, `notion_url` and the stored `media` name. */
  datatype Attachment = Attachment(owner: nat, notionUrl: string, media: string)

  /** `notion_url` is declared unique. */
  ghost predicate UniqueUrls(atts: seq<Attachment>) {
    forall i, j :: 0 <= i < j < |atts| ==> atts[i].notionUrl != atts[j].notionUrl
  }

  /** `self.attachments.filter(notion_url=baseurl)` */
  predicate Matches(a: Attachment, owner: nat, base: string) {
    a.owner == owner && a.notionUrl == base
  }

  /**
   * The loop over the owner's attachments with the base URL: the first whose file exists
   * answers; every one before it whose file is missing has been deleted. Returns the
   * answer, if any, and the attachment rows left.
   */
  function Scan(files: set<string>, atts: seq<Attachment>, owner: nat, base: string): (Option<string>, seq<Attachment>) {
    if atts == [] then (None, [])
    else if Matches(atts[0], owner, base) && atts[0].media in files then (Some(atts[0].media), atts)
    else
      var rest := Scan(files, atts[1..], owner, base);
      (rest.0, (if Matches(atts[0], owner, base) then [] else [atts[0]]) + rest.1)
  }

  /** What `attach` returns and leaves behind: the result, the stored files and the attachment rows. */
  datatype Outcome = Outcome(result: Result<string>, files: set<string>, attachments: seq<Attachment>)

  /**
   * `attach(url)` for the owner `pk` of an app storing under `prefix`. `downloaded` says
   * whether the download succeeded; `store` is the name storage gives a file saved under
   * the requested name. A failing insert comes after the file has been saved, and the
   * deletions made before a failure are kept: `attach` runs outside a transaction.
   */
  function AttachSpec(files: set<string>, atts: seq<Attachment>, prefix: string, pk: nat, u: SplitUrl,
                      downloaded: bool, store: string -> string): Outcome
  {
    var base := BaseUrl(u);
    var media := MediaPath(prefix, pk, base);
    if media in files then Outcome(Ok(media), files, atts)
    else
      var scanned := Scan(files, atts, pk, base);
      if scanned.0.Some? then Outcome(Ok(scanned.0.value), files, scanned.1)
      else if !downloaded then Outcome(Err(HttpError), files, scanned.1)
      else
        var name := store(media);
        if exists i :: 0 <= i < |scanned.1| && scanned.1[i].notionUrl == base then
          Outcome(Err(IntegrityError), files + {name}, scanned.1)
        else
          Outcome(Ok(name), files + {name}, scanned.1 + [Attachment(pk, base, name)])
  }

  lemma {:induction false} ScanKeptFrom(files: set<string>, atts: seq<Attachment>, owner: nat, base: string)
    ensures forall x :: x in Scan(files, atts, owner, base).1 ==> x in atts
  {
    if atts != [] && !(Matches(atts[0], owner, base) && atts[0].media in files) {
      ScanKeptFrom(files, atts[1..], owner, base);
    }
  }

  /**
   * The loop's answer is an attachment of the owner with the base URL whose file exists;
   * the rows left are the old ones less the owner's rows with that URL whose file was
   * missing; and with no answer, none of the owner's rows with that URL is left.
   */
  lemma {:induction false} ScanFacts(files: set<string>, atts: seq<Attachment>, owner: nat, base: string)
    ensures var r := Scan(files, atts, owner, base);
      && (r.0.Some? ==> r.0.value in files && exists a :: a in r.1 && Matches(a, owner, base) && a.media == r.0.value)
      && (forall x :: x in atts ==> x in r.1 || (Matches(x, owner, base) && x.media !in files))
      && (r.0.None? ==> forall x :: x in r.1 ==> !Matches(x, owner, base))
  {
    if atts != [] && !(Matches(atts[0], owner, base) && atts[0].media in files) {
      ScanFacts(files, atts[1..], owner, base);
      assert forall x :: x in atts ==> x == atts[0] || x in atts[1..];
    }
  }

  lemma {:induction false} ScanKeepsUnique(files: set<string>, atts: seq<Attachment>, owner: nat, base: string)
    requires UniqueUrls(atts)
    ensures UniqueUrls(Scan(files, atts, owner, base).1)
  {
    if atts != [] && !(Matches(atts[0], owner, base) && atts[0].media in files) {
      var tail := atts[1..];
      assert UniqueUrls(tail) by {
        forall i, j | 0 <= i < j < |tail|
          ensures tail[i].notionUrl != tail[j].notionUrl
        {
          assert tail[i] == atts[i + 1] && tail[j] == atts[j + 1];
        }
      }
      ScanKeepsUnique(files, tail, owner, base);
      ScanKeptFrom(files, tail, owner, base);
      var kept := Scan(files, tail, owner, base).1;
      forall x | x in kept
        ensures x.notionUrl != atts[0].notionUrl
      {
        var k :| 0 <= k < |tail| && tail[k] == x;
        assert atts[k + 1] == x;
      }
    }
  }

  /** Scanning rows none of which is the owner's with the base URL finds nothing and deletes nothing. */
  lemma {:induction false} ScanNoMatch(files: set<string>, atts: seq<Attachment>, owner: nat, base: string)
    requires forall x :: x in atts ==> !Matches(x, owner, base)
    ensures Scan(files, atts, owner, base) == (None, atts)
  {
    if atts != [] {
      assert atts[0] in atts;
      ScanNoMatch(files, atts[1..], owner, base);
      assert [atts[0]] + atts[1..] == atts;
    }
  }

  /** Scanning a second time, over what the first scan left, gives the same answer and deletes nothing. */
  lemma {:induction false} ScanAgain(files: set<string>, atts: seq<Attachment>, owner: nat, base: string)
    ensures var r := Scan(files, atts, owner, base); Scan(files, r.1, owner, base) == r
  {
    if atts != [] && !(Matches(atts[0], owner, base) && atts[0].media in files) {
      ScanAgain(files, atts[1..], owner, base);
      var rest := Scan(files, atts[1..], owner, base);
      if !Matches(atts[0], owner, base) {
        var kept := [atts[0]] + rest.1;
        assert kept != [] && kept[0] == atts[0] && kept[1..] == rest.1;
        assert Scan(files, kept, owner, base) == (rest.0, [atts[0]] + rest.1);
      } else {
        assert [] + rest.1 == rest.1;
      }
    }
  }

  /** A scan that ends on a row of the owner with the base URL and an existing file finds that file. */
  lemma {:induction false} ScanFindsLast(files: set<string>, atts: seq<Attachment>, a: Attachment, owner: nat, base: string)
    requires forall x :: x in atts ==> !Matches(x, owner, base)
    requires Matches(a, owner, base) && a.media in files
    ensures Scan(files, atts + [a], owner, base) == (Some(a.media), atts + [a])
  {
    if atts != [] {
      assert (atts + [a])[1..] == atts[1..] + [a];
      ScanFindsLast(files, atts[1..], a, owner, base);
      assert [atts[0]] + (atts[1..] + [a]) == atts + [a];
    }
  }

  /** `notion_url` stays unique. */
  lemma AttachKeepsUnique(files: set<string>, atts: seq<Attachment>, prefix: string, pk: nat, u: SplitUrl,
                          downloaded: bool, store: string -> string)
    requires UniqueUrls(atts)
    ensures UniqueUrls(AttachSpec(files, atts, prefix, pk, u, downloaded, store).attachments)
  {
    var base := BaseUrl(u);
    ScanKeepsUnique(files, atts, pk, base);
  }

  /**
   * What a successful `attach` promises: the returned file exists afterwards; unless it
   * was already stored under the media path, an attachment of the owner with the base URL
   * records it; and the only rows that disappear are the owner's rows with that URL whose
   * file was missing, while at most one row appears.
   */
  lemma AttachOutcome(files: set<string>, atts: seq<Attachment>, prefix: string, pk: nat, u: SplitUrl,
                      downloaded: bool, store: string -> string)
    ensures var o := AttachSpec(files, atts, prefix, pk, u, downloaded, store);
      var base := BaseUrl(u);
      && (o.result.Ok? ==> o.result.value in o.files)
      && (o.result.Ok? && MediaPath(prefix, pk, base) !in files ==>
            exists a :: a in o.attachments && Matches(a, pk, base) && a.media == o.result.value)
      && (forall x :: x in atts ==> x in o.attachments || (Matches(x, pk, base) && x.media !in files))
      && (forall x :: x in o.attachments ==> x in atts || x == Attachment(pk, base, store(MediaPath(prefix, pk, base))))
      && files <= o.files
  {
    var base := BaseUrl(u);
    ScanFacts(files, atts, pk, base);
    ScanKeptFrom(files, atts, pk, base);
    var o := AttachSpec(files, atts, prefix, pk, u, downloaded, store);
    var media := MediaPath(prefix, pk, base);
    if media !in files && o.result.Ok? && Scan(files, atts, pk, base).0.None? {
      assert o.attachments[|o.attachments| - 1] == Attachment(pk, base, store(media));
    }
  }

  /**
   * Attaching a URL with the same base again after a success (a signed URL whose query
   * string has changed, say) returns the same name and changes nothing: no second
   * download and no second row.
   */
  lemma AttachIdempotent(files: set<string>, atts: seq<Attachment>, prefix: string, pk: nat, u: SplitUrl, u': SplitUrl,
                         downloaded: bool, downloaded': bool, store: string -> string)
    requires AttachSpec(files, atts, prefix, pk, u, downloaded, store).result.Ok?
    requires BaseUrl(u') == BaseUrl(u)
    ensures var o := AttachSpec(files, atts, prefix, pk, u, downloaded, store);
      AttachSpec(o.files, o.attachments, prefix, pk, u', downloaded', store) == o
  {
    var base := BaseUrl(u);
    var media := MediaPath(prefix, pk, base);
    var o := AttachSpec(files, atts, prefix, pk, u, downloaded, store);
    if media !in files {
      var scanned := Scan(files, atts, pk, base);
      if scanned.0.Some? {
        ScanAgain(files, atts, pk, base);
      } else {
        var name := store(media);
        ScanFacts(files, atts, pk, base);
        if media !in o.files {
          ScanFindsLast(o.files, scanned.1, Attachment(pk, base, name), pk, base);
        }
      }
    }
  }

  /** Storage and the attachment table, as `attach` uses them. */
  class Library {
    var files: set<string>
    var attachments: seq<Attachment>

    ghost predicate Valid()
      reads this
    {
      UniqueUrls(attachments)
    }

    constructor ()
      ensures Valid() && files == {} && attachments == []
    {
      files := {};
      attachments := [];
    }

    /** `Page.attach(url)` with `prefix` "pages/", `Post.attach(url)` with "newsletter/". */
    method Attach(prefix: string, pk: nat, u: SplitUrl, downloaded: bool, store: string -> string)
      returns (r: Result<string>)
      requires Valid()
      modifies this
      ensures Outcome(r, files, attachments) == AttachSpec(old(files), old(attachments), prefix, pk, u, downloaded, store)
      ensures Valid()
    {
      AttachKeepsUnique(files, attachments, prefix, pk, u, downloaded, store);
      var base := BaseUrl(u);
      var media := MediaPath(prefix, pk, base);
      if media in files {
        return Ok(media);
      }
      var found := Prune(pk, base);
      if found.Some? {
        return Ok(found.value);
      }
      if !downloaded {
        return Err(HttpError);
      }
      var name := store(media);
      files := files + {name};
      if exists i :: 0 <= i < |attachments| && attachments[i].notionUrl == base {
        return Err(IntegrityError);
      }
      attachments := attachments + [Attachment(pk, base, name)];
      return Ok(name);
    }

    /**
     * The loop of `attach` over `self.attachments.filter(notion_url=baseurl)`: deletes, in
     * place, the owner's rows with the base URL whose file is missing, until one whose file
     * exists answers.
     */
    method Prune(pk: nat, base: string) returns (found: Option<string>)
      modifies this
      ensures files == old(files)
      ensures (found, attachments) == Scan(files, old(attachments), pk, base)
    {
      var i := 0;
      assert attachments[i..] == attachments && attachments[..i] == [];
      assert [] + Scan(files, attachments, pk, base).1 == Scan(files, attachments, pk, base).1;
      while i < |attachments|
        invariant 0 <= i <= |attachments| && files == old(files)
        invariant Resumed(files, attachments, i, pk, base) == Scan(files, old(attachments), pk, base)
        decreases |attachments| - i
      {
        var a := attachments[i];
        if a.owner == pk && a.notionUrl == base {
          if a.media in files {
            assert attachments[i..] == [a] + attachments[i + 1..];
            assert attachments[..i] + attachments[i..] == attachments;
            return Some(a.media);
          }
          ResumeDeleted(files, attachments, i, pk, base);
          attachments := attachments[..i] + attachments[i + 1..];
        } else {
          ResumeKept(files, attachments, i, pk, base);
          i := i + 1;
        }
      }
      assert attachments[i..] == [];
      assert attachments[..i] + [] == attachments;
      return None;
    }
  }

  /** The loop's progress: rows before `i` are kept, and the rest are still to be scanned. */
  function Resumed(files: set<string>, atts: seq<Attachment>, i: nat, owner: nat, base: string): (Option<string>, seq<Attachment>)
    requires i <= |atts|
  {
    var rest := Scan(files, atts[i..], owner, base);
    (rest.0, atts[..i] + rest.1)
  }

  lemma ResumeDeleted(files: set<string>, atts: seq<Attachment>, i: nat, owner: nat, base: string)
    requires i < |atts| && Matches(atts[i], owner, base) && atts[i].media !in files
    ensures Resumed(files, atts[..i] + atts[i + 1..], i, owner, base) == Resumed(files, atts, i, owner, base)
  {
    var atts' := atts[..i] + atts[i + 1..];
    assert atts'[i..] == atts[i..][1..];
    assert atts'[..i] == atts[..i];
    assert atts[i..] != [] && atts[i..][0] == atts[i];
    var rest := Scan(files, atts[i..][1..], owner, base);
    assert Scan(files, atts[i..], owner, base) == (rest.0, [] + rest.1);
    assert [] + rest.1 == rest.1;
  }

  lemma ResumeKept(files: set<string>, atts: seq<Attachment>, i: nat, owner: nat, base: string)
    requires i < |atts| && !Matches(atts[i], owner, base)
    ensures Resumed(files, atts, i + 1, owner, base) == Resumed(files, atts, i, owner, base)
  {
    assert atts[i + 1..] == atts[i..][1..];
    assert atts[..i + 1] == atts[..i] + [atts[i]];
    assert atts[i..] != [] && atts[i..][0] == atts[i];
    var rest := Scan(files, atts[i + 1..], owner, base);
    assert Scan(files, atts[i..], owner, base) == (rest.0, [atts[i]] + rest.1);
    assert atts[..i] + ([atts[i]] + rest.1) == atts[..i + 1] + rest.1;
  }

  // ----- get_excerpt -----

  /**
   * What one block adds to the excerpt: for a paragraph with a truthy `text`, a space and
   * the text; `' ' + text` raises TypeError when the text is not a string.
   */
  function ParagraphText(b: BlockRow): (r: Result<string>)
    ensures r.Ok? && r.value != "" ==> b.blockType == "paragraph" && r.value[0] == ' '
  {
    if b.blockType != "paragraph" then Ok("")
    else
      var t := match Lookup(b.properties, "text") case Some(x) => x case None => PNone;
      if !Truthy(t) then Ok("")
      else if t.PStr? then Ok(" " + t.s)
      else Err(TypeError)
  }

  /** The text of the first `n` blocks with nothing left out. */
  function Joined(rows: seq<BlockRow>, n: nat): Result<string>
    requires n <= |rows|
  {
    if n == 0 then Ok("")
    else
      var t :- Joined(rows, n - 1);
      var p :- ParagraphText(rows[n - 1]);
      Ok(t + p)
  }

  /** `text` after the loop has seen the first `n` blocks: nothing more is added once it passes 200 characters. */
  function Gathered(rows: seq<BlockRow>, n: nat): Result<string>
    requires n <= |rows|
  {
    if n == 0 then Ok("")
    else
      var t :- Gathered(rows, n - 1);
      if |t| > 200 then Ok(t)
      else
        var p :- ParagraphText(rows[n - 1]);
        Ok(t + p)
  }

  /** `get_excerpt()`: `plain` stands for `strip_tags(markdown(...))`, which is not interpreted. */
  function Excerpt(subtitle: Option<string>, rows: seq<BlockRow>, plain: string -> string): Result<string> {
    if subtitle.Some? && subtitle.value != "" then Ok(subtitle.value)
    else
      var ordered := Ordered(rows);
      var t :- Gathered(ordered, |ordered|);
      Ok(plain(Strip(t)))
  }

  /** The excerpt's text is the start of the whole text, and it fails only where the whole text does. */
  lemma {:induction false} GatheredIsPrefix(rows: seq<BlockRow>, n: nat)
    requires n <= |rows|
    ensures Joined(rows, n).Ok? ==> Gathered(rows, n).Ok? && Gathered(rows, n).value <= Joined(rows, n).value
  {
    if n > 0 && Joined(rows, n).Ok? {
      GatheredIsPrefix(rows, n - 1);
      var g := Gathered(rows, n - 1).value;
      var j := Joined(rows, n - 1).value;
      var p := ParagraphText(rows[n - 1]).value;
      assert Joined(rows, n).value == j + p;
      if |g| > 200 {
        assert g <= j + p by { assert (j + p)[..|g|] == j[..|g|]; }
      } else {
        GatheredShortIsWhole(rows, n - 1);
      }
    }
  }

  /** While the text stays within 200 characters, every paragraph is in it. */
  lemma {:induction false} GatheredShortIsWhole(rows: seq<BlockRow>, n: nat)
    requires n <= |rows|
    requires Gathered(rows, n).Ok? && |Gathered(rows, n).value| <= 200
    ensures Joined(rows, n) == Gathered(rows, n)
  {
    if n > 0 {
      var t := Gathered(rows, n - 1);
      assert t.Ok? && |t.value| <= 200;
      GatheredShortIsWhole(rows, n - 1);
    }
  }

  /**
   * A text longer than 200 characters is the whole text up to the paragraph that first took
   * it past 200: the text before that paragraph was at most 200 characters long.
   */
  lemma {:induction false} GatheredStopsPast200(rows: seq<BlockRow>, n: nat)
    requires n <= |rows|
    requires Gathered(rows, n).Ok? && |Gathered(rows, n).value| > 200
    ensures exists k :: 0 < k <= n && Joined(rows, k) == Gathered(rows, n)
                     && Joined(rows, k - 1).Ok? && |Joined(rows, k - 1).value| <= 200
  {
    var t := Gathered(rows, n - 1);
    if t.Ok? && |t.value| > 200 {
      GatheredStopsPast200(rows, n - 1);
    } else {
      GatheredShortIsWhole(rows, n - 1);
      assert Joined(rows, n) == Gathered(rows, n);
    }
  }

  /** `get_excerpt()` as the loop runs it: `break` once the text passes 200 characters. */
  method GetExcerpt(subtitle: Option<string>, rows: seq<BlockRow>, plain: string -> string) returns (r: Result<string>)
    ensures r == Excerpt(subtitle, rows, plain)
  {
    if subtitle.Some? && subtitle.value != "" {
      return Ok(subtitle.value);
    }
    var ordered := Ordered(rows);
    ExcerptGathered(subtitle, rows, plain);
    var text := "";
    var i := 0;
    while i < |ordered|
      invariant 0 <= i <= |ordered|
      invariant Gathered(ordered, i) == Ok(text) && |text| <= 200
    {
      var p := ParagraphText(ordered[i]);
      GatheredNext(ordered, i, text);
      if p.Err? {
        return Err(p.error);
      }
      text := text + p.value;
      i := i + 1;
      if |text| > 200 {
        StaysPast200(ordered, i, |ordered|);
        return Ok(plain(Strip(text)));
      }
    }
    r := Ok(plain(Strip(text)));
  }

  /** Without a subtitle the excerpt is the gathered text of the ordered blocks, or its error. */
  lemma ExcerptGathered(subtitle: Option<string>, rows: seq<BlockRow>, plain: string -> string)
    requires !(subtitle.Some? && subtitle.value != "")
    ensures var g := Gathered(Ordered(rows), |Ordered(rows)|);
      Excerpt(subtitle, rows, plain) == if g.Ok? then Ok(plain(Strip(g.value))) else Err(g.error)
  {
  }

  /** One more block while the text is within 200 characters: its paragraph text is added, or its error ends the loop. */
  lemma GatheredNext(rows: seq<BlockRow>, i: nat, text: string)
    requires i < |rows| && Gathered(rows, i) == Ok(text) && |text| <= 200
    ensures var p := ParagraphText(rows[i]);
      && (p.Ok? ==> Gathered(rows, i + 1) == Ok(text + p.value))
      && (p.Err? ==> Gathered(rows, |rows|) == Err(p.error))
  {
    if ParagraphText(rows[i]).Err? {
      StopsOnError(rows, i + 1);
    }
  }

  lemma {:induction false} StopsOnError(rows: seq<BlockRow>, n: nat)
    requires 0 < n <= |rows| && Gathered(rows, n).Err?
    ensures Gathered(rows, |rows|) == Gathered(rows, n)
    decreases |rows| - n
  {
    if n < |rows| {
      StopsOnError(rows, n + 1);
    }
  }

  lemma {:induction false} StaysPast200(rows: seq<BlockRow>, n: nat, m: nat)
    requires n <= m <= |rows| && Gathered(rows, n).Ok? && |Gathered(rows, n).value| > 200
    ensures Gathered(rows, m) == Gathered(rows, n)
    decreases m - n
  {
    if n < m {
      StaysPast200(rows, n, m - 1);
    }
  }

  // ----- Page.__str__ and Page.body_content -----

  /** Whether the page's first block, by `ordering`, is a `heading_1`; an unsaved page has none. */
  predicate LeadsWithHeading(pk: Option<nat>, rows: seq<BlockRow>) {
    pk.Some? && pk.value != 0 && rows != [] && Ordered(rows)[0].blockType == "heading_1"
  }

  /** `Page.__str__()`: the first block's `text` when it is a `heading_1`, otherwise the title. */
  function PageTitle(pk: Option<nat>, title: string, rows: seq<BlockRow>): (r: Result<string>)
    ensures !LeadsWithHeading(pk, rows) ==> r == Ok(title)
    ensures LeadsWithHeading(pk, rows) ==>
      match Lookup(Ordered(rows)[0].properties, "text")
      case None => r == Err(KeyError("text"))
      case Some(v) => r == if v.PStr? then Ok(v.s) else Err(TypeError)
  {
    if LeadsWithHeading(pk, rows) then
      match Lookup(Ordered(rows)[0].properties, "text")
      case None => Err(KeyError("text"))
      case Some(v) => if v.PStr? then Ok(v.s) else Err(TypeError)
    else Ok(title)
  }

  /** `Page.body_content`: the blocks in order, less the heading that serves as the title. */
  function BodyContent(pk: Option<nat>, rows: seq<BlockRow>): seq<BlockRow> {
    if LeadsWithHeading(pk, rows) then Ordered(rows)[1..] else Ordered(rows)
  }

  /**
   * The heading shown as the title is exactly the block the body leaves out: the body is
   * the ordered blocks less the first one when it is a heading, whose text is the title,
   * and all of them otherwise.
   */
  lemma TitleNotRepeated(pk: Option<nat>, title: string, rows: seq<BlockRow>)
    ensures LeadsWithHeading(pk, rows) ==> Ordered(rows) == [Ordered(rows)[0]] + BodyContent(pk, rows)
    ensures LeadsWithHeading(pk, rows) && PageTitle(pk, title, rows).Ok? ==>
      Lookup(Ordered(rows)[0].properties, "text") == Some(PStr(PageTitle(pk, title, rows).value))
    ensures LeadsWithHeading(pk, rows) ==> multiset(BodyContent(pk, rows)) + multiset{Ordered(rows)[0]} == multiset(rows)
    ensures !LeadsWithHeading(pk, rows) ==> multiset(BodyContent(pk, rows)) == multiset(rows)
    ensures Sorting.Sorted(BodyContent(pk, rows), ByOrdering)
  {
    OrderedRows(rows);
    var o := Ordered(rows);
    if LeadsWithHeading(pk, rows) {
      assert o == [o[0]] + o[1..];
    }
  }
}
