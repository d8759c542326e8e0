/**
 * Block conversion (sidekick/contrib/notion/blocks.py): the `Block` factory dispatches on a
 * content block's type tag to one of ten converters, whose `to_python` turns the service's
 * block document into the properties stored with the block. Rich-text blocks convert their
 * child blocks as well; images and uploaded videos hand their file address to a media
 * handler that returns the local address.
 */
module Blocks {
  import opened Py

  datatype BlockKind = Paragraph | Image | Heading1 | Heading2 | Heading3 | BulletedListItem | Quote | Video | Divider | Callout

  function BlockTag(k: BlockKind): string {
    match k
    case Paragraph => "paragraph"
    case Image => "image"
    case Heading1 => "heading_1"
    case Heading2 => "heading_2"
    case Heading3 => "heading_3"
    case BulletedListItem => "bulleted_list_item"
    case Quote => "quote"
    case Video => "video"
    case Divider => "divider"
    case Callout => "callout"
  }

  /** The factory's table of converters, in the order of its entries. */
  const Kinds: seq<BlockKind> := [Paragraph, Image, Heading1, Heading2, Heading3, BulletedListItem, Quote, Video, Divider, Callout]

  /** The type tags the factory knows. */
  const BlockTags: set<string> := set k | k in Kinds :: BlockTag(k)

  /** The table looked up from entry `i` on. */
  function KindFrom(tag: string, i: nat): Option<BlockKind>
    decreases |Kinds| - i
  {
    if i >= |Kinds| then None
    else if BlockTag(Kinds[i]) == tag then Some(Kinds[i])
    else KindFrom(tag, i + 1)
  }

  /** The converter class the factory's table holds for a type tag, if any. */
  function BlockKindOf(tag: string): Option<BlockKind> {
    KindFrom(tag, 0)
  }

  lemma {:induction false} KindFromFacts(tag: string, i: nat)
    ensures KindFrom(tag, i).Some? <==> exists j :: i <= j < |Kinds| && BlockTag(Kinds[j]) == tag
    ensures KindFrom(tag, i).Some? ==> BlockTag(KindFrom(tag, i).value) == tag
    decreases |Kinds| - i
  {
    if i < |Kinds| {
      KindFromFacts(tag, i + 1);
      if BlockTag(Kinds[i]) != tag {
        assert KindFrom(tag, i) == KindFrom(tag, i + 1);
        assert forall j :: i <= j < |Kinds| && BlockTag(Kinds[j]) == tag ==> i + 1 <= j;
      }
    }
  }

  /** No two converters share a tag. */
  lemma TagsDistinct(k: BlockKind, k': BlockKind)
    ensures BlockTag(k) == BlockTag(k') ==> k == k'
  {
  }

  /** The table holds exactly the known tags, each for the converter with that tag. */
  lemma BlockKindOfTags(tag: string)
    ensures BlockKindOf(tag).Some? <==> tag in BlockTags
    ensures BlockKindOf(tag).Some? ==> BlockTag(BlockKindOf(tag).value) == tag
  {
    KindFromFacts(tag, 0);
    if tag in BlockTags {
      var k :| k in Kinds && BlockTag(k) == tag;
      var j :| 0 <= j < |Kinds| && Kinds[j] == k;
    }
  }

  /** Every converter is found under its own tag. */
  lemma BlockKindOfTag(k: BlockKind)
    ensures BlockKindOf(BlockTag(k)) == Some(k)
  {
    assert BlockTag(k) in BlockTags by {
      assert k in Kinds;
    }
    BlockKindOfTags(BlockTag(k));
    TagsDistinct(k, BlockKindOf(BlockTag(k)).value);
  }

  /** The converters built on RichTextBlock. */
  predicate IsRichText(k: BlockKind) {
    k in {Paragraph, Heading1, Heading2, Heading3, BulletedListItem, Quote, Callout}
  }

  /**
   * A block document together with the child documents the service lists for it; the
   * listing is only requested when the document says it has children.
   */
  datatype RemoteBlock = RemoteBlock(definition: PyVal, children: seq<RemoteBlock>)

  /** The media handler given to the factory; without one, `handle_media` raises NotImplementedError. */
  type Handler = Option<PyVal -> Result<PyVal>>

  function HandleMedia(media: Handler, url: PyVal): Result<PyVal> {
    match media
    case None => Err(NotImplemented)
    case Some(f) => f(url)
  }

  /** A converter instance: its kind, its payload `definition[type]`, its document and handler. */
  datatype Block = Block(kind: BlockKind, value: PyVal, source: RemoteBlock, media: Handler)

  /**
   * `Block(definition, handle_media)`. Only the table lookup sits inside the `try`: an
   * unknown tag is 'Unsupported block type', while a missing type or payload is a plain
   * KeyError.
   */
  function MakeBlock(b: RemoteBlock, media: Handler): (r: Result<Block>)
    ensures r.Ok? ==> r.value.source == b && r.value.media == media
  {
    var t :- Index(b.definition, "type");
    if !Hashable(t) then Err(TypeError)
    else if !t.PStr? then Err(UnsupportedBlock(t))
    else match BlockKindOf(t.s)
      case None => Err(UnsupportedBlock(t))
      case Some(kind) =>
        var v :- Index(b.definition, t.s);
        Ok(Block(kind, v, b, media))
  }

  /**
   * The factory succeeds exactly on a known type tag whose payload is present; an unknown
   * tag is 'Unsupported block type', a missing payload the KeyError of the lookup; and a
   * block made has the tag of its kind and that tag's payload.
   */
  lemma MakeBlockFacts(b: RemoteBlock, media: Handler)
    ensures var t := Index(b.definition, "type");
      MakeBlock(b, media).Ok? <==> t.Ok? && t.value.PStr? && t.value.s in BlockTags && Index(b.definition, t.value.s).Ok?
    ensures var t := Index(b.definition, "type");
      t.Ok? && Hashable(t.value) && !(t.value.PStr? && t.value.s in BlockTags) ==> MakeBlock(b, media) == Err(UnsupportedBlock(t.value))
    ensures var t := Index(b.definition, "type");
      t.Ok? && t.value.PStr? && t.value.s in BlockTags && Index(b.definition, t.value.s).Err? ==>
        MakeBlock(b, media) == Err(Index(b.definition, t.value.s).error)
    ensures var r := MakeBlock(b, media);
      r.Ok? ==> (Index(b.definition, "type") == Ok(PStr(BlockTag(r.value.kind)))
                 && Index(b.definition, BlockTag(r.value.kind)) == Ok(r.value.value))
  {
    var t := Index(b.definition, "type");
    if t.Ok? && t.value.PStr? {
      BlockKindOfTags(t.value.s);
    }
  }

  // ----- rich text -----

  /**
   * One run of rich text in the Markdown the templates expect. Every lookup happens in the
   * source's order, so the first missing key decides the error.
   */
  function FormatRun(part: PyVal): Result<string> {
    var text :- Index(part, "text");
    var annotations :- Index(part, "annotations");
    var content :- Index(text, "content");
    var code :- Get(annotations, "code");
    var italic :- if Truthy(code) then Ok(PNone) else Get(annotations, "italic");
    var bold :- if Truthy(code) then Ok(PNone) else Get(annotations, "bold");
    var link :- Get(text, "link");
    var url :- if Truthy(link) then Index(link, "url") else Ok(PNone);
    if !content.PStr? || (Truthy(link) && !url.PStr?) then Err(TypeError)
    else Ok(Styled(content.s, Truthy(code), Truthy(italic), Truthy(bold), if Truthy(link) then Some(url.s) else None))
  }

  /** Code spans take no other emphasis; italic goes inside bold; a link wraps the result. */
  function Styled(content: string, code: bool, italic: bool, bold: bool, link: Option<string>): string {
    var c := if code then "`" + content + "`"
      else
        var c1 := if italic then "*" + content + "*" else content;
        if bold then "**" + c1 + "**" else c1;
    match link
    case Some(url) => "[" + c + "](" + url + ")"
    case None => c
  }

  // ----- to_python -----

  /** The Bootstrap-style kind of a callout background colour; other colours map to None. */
  function CalloutKind(color: PyVal): (r: PyVal)
    ensures r in {PNone, PStr("info"), PStr("warning"), PStr("light"), PStr("success"), PStr("danger")}
  {
    if !color.PStr? then PNone
    else
      var c := color.s;
      if c == "blue_background" || c == "pink_background" then PStr("info")
      else if c == "brown_background" || c == "orange_background" || c == "purple_background" || c == "yellow_background" then PStr("warning")
      else if c == "gray_background" then PStr("light")
      else if c == "green_background" then PStr("success")
      else if c == "red_background" then PStr("danger")
      else PNone
  }

  /**
   * The entries CalloutBlock puts before the rich text: kind, icon (always None) and emoji.
   * The kind defaults to 'info' when the colour is falsy, and any icon other than an emoji
   * is raised.
   */
  function CalloutHead(value: PyVal): (r: Result<seq<(string, PyVal)>>)
    ensures r.Ok? ==> Keys(r.value) == ["kind", "icon", "emoji"] && r.value[1].1 == PNone
    ensures r.Ok? ==> r.value[0].1 in {PNone, PStr("info"), PStr("warning"), PStr("light"), PStr("success"), PStr("danger")}
    ensures r.Ok? ==> value.PDict?
    ensures value.PDict? && r.Ok? && !Truthy(Get(value, "color").value) ==> r.value[0].1 == PStr("info")
    ensures value.PDict? && r.Ok? && Truthy(Get(value, "color").value) ==> r.value[0].1 == CalloutKind(Get(value, "color").value)
    ensures value.PDict? && r.Ok? && !Truthy(Get(value, "icon").value) ==> r.value[2].1 == PNone
    ensures value.PDict? && Truthy(Get(value, "icon").value) && Index(Get(value, "icon").value, "type").Ok?
            && Index(Get(value, "icon").value, "type").value != PStr("emoji")
            ==> r == Err(UnhandledIcon(Get(value, "icon").value))
    ensures value.PDict? && !Truthy(Get(value, "icon").value) && !Truthy(Get(value, "color").value)
            ==> r == Ok([("kind", PStr("info")), ("icon", PNone), ("emoji", PNone)])
  {
    var icon :- Get(value, "icon");
    var emoji :- if Truthy(icon) then
        var t :- Index(icon, "type");
        if t == PStr("emoji") then Index(icon, "emoji") else Err(UnhandledIcon(icon))
      else Ok(PNone);
    var color := Get(value, "color").value;     // `value` is a dictionary: the icon lookup succeeded
    var kind :- if !Truthy(color) then Ok(PStr("info"))
      else if Hashable(color) then Ok(CalloutKind(color))
      else Err(TypeError);
    Ok([("kind", kind), ("icon", PNone), ("emoji", emoji)])
  }

  function ImageDoc(b: Block): Result<PyVal> {
    var caption :- Index(b.value, "caption");
    var file :- Index(b.value, "file");
    var url :- Index(file, "url");
    var src :- HandleMedia(b.media, url);
    Ok(PDict([("alt", caption), ("src", src)]))
  }

  function VideoDoc(b: Block): Result<PyVal> {
    var t :- Index(b.value, "type");
    var path :- if t == PStr("external") then
        var external :- Index(b.value, "external");
        Index(external, "url")
      else
        var file :- Index(b.value, "file");
        var url :- Index(file, "url");
        HandleMedia(b.media, url);
    Ok(PDict([("src", path)]))
  }

  /** The keys of the properties each converter produces, in order. */
  function DocKeys(k: BlockKind): seq<string> {
    match k
    case Image => ["alt", "src"]
    case Video => ["src"]
    case Divider => []
    case Callout => ["kind", "icon", "emoji", "text", "children"]
    case _ => ["text", "children"]
  }

  /** `block.to_python()`: the stored properties of a block and, for rich text, of its children. */
  function Convert(b: Block): (r: Result<PyVal>)
    decreases b.source, |b.source.children| + 2
  {
    if b.kind == Image then ImageDoc(b)
    else if b.kind == Video then VideoDoc(b)
    else if b.kind == Divider then Ok(PDict([]))
    else
      var head :- Head(b);
      var text :- RichTextOf(b.value);
      var children :- ChildDocs(b);
      Ok(RichDoc(head, text, children))
  }

  /** What a rich-text converter puts before `text` and `children`: only callouts add entries. */
  function Head(b: Block): Result<seq<(string, PyVal)>> {
    if b.kind == Callout then CalloutHead(b.value) else Ok([])
  }

  /** The Markdown of `value['rich_text']`. */
  function RichTextOf(value: PyVal): Result<string> {
    var rich :- Index(value, "rich_text");
    var parts :- Iterate(rich);
    JoinEach(parts, FormatRun)
  }

  /**
   * The converted children; they are only listed when the document says it has some, and
   * listing them reads the block's `id` (the listing itself is `children`).
   */
  function ChildDocs(b: Block): Result<seq<PyVal>>
    decreases b.source, |b.source.children| + 1
  {
    var has :- Index(b.source.definition, "has_children");
    if Truthy(has) then
      var _ :- Index(b.source.definition, "id");
      ConvertChildren(b.source, b.media, |b.source.children|)
    else Ok([])
  }

  function RichDoc(head: seq<(string, PyVal)>, text: string, children: seq<PyVal>): PyVal {
    PDict(head + [("text", PStr(text)), ("children", PList(children))])
  }

  /**
   * `[child.to_python() for child in self.get_children()]` over the first `n` listed
   * children: each is made by the factory with the parent's handler, then converted.
   */
  function ConvertChildren(parent: RemoteBlock, media: Handler, n: nat): (r: Result<seq<PyVal>>)
    requires n <= |parent.children|
    ensures r.Ok? ==> |r.value| == n
    decreases parent, n
  {
    if n == 0 then Ok([])
    else
      var init :- ConvertChildren(parent, media, n - 1);
      var doc :- ConvertChild(parent, media, n - 1);
      Ok(init + [doc])
  }

  /** `Block(result, handle_media=...)` for the `i`th listed child, then its `to_python()`. */
  function ConvertChild(parent: RemoteBlock, media: Handler, i: nat): Result<PyVal>
    requires i < |parent.children|
    decreases parent, 0
  {
    var child :- MakeBlock(parent.children[i], media);
    Convert(child)
  }

  /** A run without annotations or link is its text, unchanged. */
  lemma PlainRun(content: string)
    ensures FormatRun(PDict([("text", PDict([("content", PStr(content))])), ("annotations", PDict([]))])) == Ok(content)
  {
    LookupPair("text", PDict([("content", PStr(content))]), "annotations", PDict([]), "annotations");
    LookupSingle("content", PStr(content), "link");
  }

  /** A code span ignores the italic and bold annotations. */
  lemma CodeIgnoresEmphasis(content: string, italic: bool, bold: bool)
    ensures var annotations := PDict([("code", PBool(true)), ("italic", PBool(italic)), ("bold", PBool(bold))]);
      FormatRun(PDict([("text", PDict([("content", PStr(content))])), ("annotations", annotations)]))
        == Ok("`" + content + "`")
  {
    var annotations := PDict([("code", PBool(true)), ("italic", PBool(italic)), ("bold", PBool(bold))]);
    var text := PDict([("content", PStr(content))]);
    LookupPair("text", text, "annotations", annotations, "annotations");
    assert Get(annotations, "code") == Ok(PBool(true));
    LookupSingle("content", PStr(content), "link");
  }

  /** Outside code, italic goes inside bold, so both give `***x***`, and a link wraps the emphasised text. */
  lemma EmphasisInsideLink(content: string, url: string, italic: bool, bold: bool)
    ensures var annotations := PDict([("code", PBool(false)), ("italic", PBool(italic)), ("bold", PBool(bold))]);
      var text := PDict([("content", PStr(content)), ("link", PDict([("url", PStr(url))]))]);
      var marks := (if bold then "**" else "") + (if italic then "*" else "");
      var closing := (if italic then "*" else "") + (if bold then "**" else "");
      FormatRun(PDict([("text", text), ("annotations", annotations)])) == Ok("[" + (marks + content + closing) + "](" + url + ")")
  {
    var entries := [("code", PBool(false)), ("italic", PBool(italic)), ("bold", PBool(bold))];
    var annotations := PDict(entries);
    var link := PDict([("url", PStr(url))]);
    var text := PDict([("content", PStr(content)), ("link", link)]);
    LookupPair("text", text, "annotations", annotations, "annotations");
    LookupPair("content", PStr(content), "link", link, "content");
    LookupPair("content", PStr(content), "link", link, "link");
    LookupSingle("url", PStr(url), "url");
    assert entries[1..] == [("italic", PBool(italic)), ("bold", PBool(bold))];
    LookupPair("italic", PBool(italic), "bold", PBool(bold), "italic");
    LookupPair("italic", PBool(italic), "bold", PBool(bold), "bold");
    assert Get(annotations, "code") == Ok(PBool(false));
    assert Get(annotations, "italic") == Ok(PBool(italic));
    assert Get(annotations, "bold") == Ok(PBool(bold));
    assert Get(text, "link") == Ok(link) && Truthy(link);
    assert Index(link, "url") == Ok(PStr(url));
    assert FormatRun(PDict([("text", text), ("annotations", annotations)])) == Ok(Styled(content, false, italic, bold, Some(url)));
    EmphasisMarks(content, url, italic, bold);
  }

  /** Outside code, the emphasis marks open bold-then-italic and close italic-then-bold. */
  lemma EmphasisMarks(content: string, url: string, italic: bool, bold: bool)
    ensures var marks := (if bold then "**" else "") + (if italic then "*" else "");
      var closing := (if italic then "*" else "") + (if bold then "**" else "");
      Styled(content, false, italic, bold, Some(url)) == "[" + (marks + content + closing) + "](" + url + ")"
  {
    var c1 := if italic then "*" + content + "*" else content;
    var c := if bold then "**" + c1 + "**" else c1;
    var marks := (if bold then "**" else "") + (if italic then "*" else "");
    var closing := (if italic then "*" else "") + (if bold then "**" else "");
    assert c == marks + content + closing;
  }

  /**
   * A callout's icon entry is always None and its kind is one of the five styles or None:
   * 'info' when the colour is falsy, otherwise the colour's style.
   */
  lemma CalloutEntries(b: Block)
    requires b.kind == Callout && Convert(b).Ok?
    ensures Convert(b).value.PDict?
    ensures var entries := Convert(b).value.entries;
      Lookup(entries, "icon") == Some(PNone)
      && Lookup(entries, "kind").Some?
      && Lookup(entries, "kind").value in {PNone, PStr("info"), PStr("warning"), PStr("light"), PStr("success"), PStr("danger")}
    ensures b.value.PDict?
    ensures !Truthy(Get(b.value, "color").value) ==> Lookup(Convert(b).value.entries, "kind") == Some(PStr("info"))
    ensures Truthy(Get(b.value, "color").value) ==> Lookup(Convert(b).value.entries, "kind") == Some(CalloutKind(Get(b.value, "color").value))
  {
    var head := CalloutHead(b.value).value;
    var rest := [("text", PStr(RichTextOf(b.value).value)), ("children", PList(ChildDocs(b).value))];
    assert Convert(b).value == PDict(head + rest);
    assert Keys(head)[0] == "kind" && Keys(head)[1] == "icon";
    LeadingEntries(head, rest);
  }

  /** A callout whose icon is anything but an emoji is raised, whatever else it holds. */
  lemma CalloutIconRaised(b: Block)
    requires b.kind == Callout && b.value.PDict?
    requires var icon := Get(b.value, "icon").value;
      Truthy(icon) && Index(icon, "type").Ok? && Index(icon, "type").value != PStr("emoji")
    ensures Convert(b) == Err(UnhandledIcon(Get(b.value, "icon").value))
  {
    assert Head(b) == Err(UnhandledIcon(Get(b.value, "icon").value));
  }

  /** Looking up the first two keys of `head + rest` finds `head`'s first two entries. */
  lemma LeadingEntries(head: seq<(string, PyVal)>, rest: seq<(string, PyVal)>)
    requires |head| >= 2 && head[0].0 == "kind" && head[1].0 == "icon"
    ensures Lookup(head + rest, "kind") == Some(head[0].1)
    ensures Lookup(head + rest, "icon") == Some(head[1].1)
  {
    var entries := head + rest;
    assert entries[0] == head[0] && entries[1..][0] == head[1];
  }

  /** An image's source is whatever the handler makes of the file address; without a handler it fails. */
  lemma ImageUsesHandler(b: Block, caption: PyVal, url: PyVal)
    requires b.kind == Image && b.value == PDict([("caption", caption), ("file", PDict([("url", url)]))])
    ensures b.media.None? ==> Convert(b) == Err(NotImplemented)
    ensures b.media.Some? && b.media.value(url).Ok? ==>
      Convert(b) == Ok(PDict([("alt", caption), ("src", b.media.value(url).value)]))
  {
    assert Index(b.value, "caption") == Ok(caption);
    LookupPair("caption", caption, "file", PDict([("url", url)]), "file");
  }

  /** An external video keeps its own address and never needs the handler. */
  lemma ExternalVideoIgnoresHandler(b: Block, media: Handler)
    requires b.kind == Video && Index(b.value, "type") == Ok(PStr("external"))
    ensures Convert(b) == Convert(b.(media := media))
    ensures Convert(b).Ok? ==> Convert(b).value == PDict([("src", Index(Index(b.value, "external").value, "url").value)])
  {
  }

  /** Every converter produces a dictionary with its own fixed keys, in order. */
  lemma ConvertShape(b: Block)
    requires Convert(b).Ok?
    ensures Convert(b).value.PDict? && Keys(Convert(b).value.entries) == DocKeys(b.kind)
  {
    if IsRichText(b.kind) {
      var head := Head(b).value;
      var rest := [("text", PStr(RichTextOf(b.value).value)), ("children", PList(ChildDocs(b).value))];
      assert Convert(b) == Ok(PDict(head + rest));
      assert Keys(head + rest) == Keys(head) + Keys(rest);
    }
  }

  // ----- to_python, as the source runs it -----

  /** RichTextBlock.to_python's loop over the runs. */
  method RichTextToPython(parts: seq<PyVal>) returns (r: Result<string>)
    ensures r == JoinEach(parts, FormatRun)
  {
    var returned := "";
    for i := 0 to |parts|
      invariant JoinEach(parts[..i], FormatRun) == Ok(returned)
    {
      var content := FormatRun(parts[i]);
      JoinEachNext(parts, FormatRun, i, returned);
      if content.Err? {
        return Err(content.error);
      }
      returned := returned + content.value;
    }
    assert parts[..|parts|] == parts;
    r := Ok(returned);
  }

  lemma {:induction false} ChildrenFailEarly(parent: RemoteBlock, media: Handler, k: nat, n: nat)
    requires k <= n <= |parent.children| && ConvertChildren(parent, media, k).Err?
    ensures ConvertChildren(parent, media, n) == ConvertChildren(parent, media, k)
    decreases n
  {
    if k < n {
      ChildrenFailEarly(parent, media, k, n - 1);
      ChildrenErrStep(parent, media, n);
    }
  }

  lemma ChildrenErrStep(parent: RemoteBlock, media: Handler, n: nat)
    requires 0 < n <= |parent.children| && ConvertChildren(parent, media, n - 1).Err?
    ensures ConvertChildren(parent, media, n) == ConvertChildren(parent, media, n - 1)
  {
  }

  /** One more child: a converted child joins the list, a failing one is the error of the whole. */
  lemma ChildrenNext(parent: RemoteBlock, media: Handler, i: nat, children: seq<PyVal>)
    requires i < |parent.children| && ConvertChildren(parent, media, i) == Ok(children)
    ensures var c := ConvertChild(parent, media, i);
      && (c.Ok? ==> ConvertChildren(parent, media, i + 1) == Ok(children + [c.value]))
      && (c.Err? ==> ConvertChildren(parent, media, |parent.children|) == Err(c.error))
  {
    if ConvertChild(parent, media, i).Err? {
      ChildrenFailEarly(parent, media, i + 1, |parent.children|);
    }
  }

  /** `block.to_python()`, converting the children one after the other. */
  method ToPython(b: Block) returns (r: Result<PyVal>)
    ensures r == Convert(b)
    decreases b.source, 1
  {
    if b.kind == Image {
      return ImageDoc(b);
    } else if b.kind == Video {
      return VideoDoc(b);
    } else if b.kind == Divider {
      return Ok(PDict([]));
    }
    var head :- Head(b);
    var rich :- Index(b.value, "rich_text");
    var parts :- Iterate(rich);
    var text :- RichTextToPython(parts);
    var children :- ChildrenToPython(b);
    r := Ok(RichDoc(head, text, children));
  }

  /** `[child.to_python() for child in self.get_children()]`, one child after the other. */
  method ChildrenToPython(b: Block) returns (r: Result<seq<PyVal>>)
    ensures r == ChildDocs(b)
    decreases b.source, 0
  {
    var has :- Index(b.source.definition, "has_children");
    var children: seq<PyVal> := [];
    if Truthy(has) {
      var _ :- Index(b.source.definition, "id");
      var listed := b.source.children;
      var i := 0;
      while i < |listed|
        invariant 0 <= i <= |listed|
        invariant ConvertChildren(b.source, b.media, i) == Ok(children)
      {
        ChildrenNext(b.source, b.media, i, children);
        var child := MakeBlock(listed[i], b.media);
        if child.Err? {
          return Err(child.error);
        }
        var doc := ToPython(child.value);
        if doc.Err? {
          return Err(doc.error);
        }
        children := children + [doc.value];
        i := i + 1;
      }
    }
    r := Ok(children);
  }
}
