/**
 * A stored content block: `Block` in sidekick/contrib/notion/models.py and its twin in
 * sidekick/newsletter/models.py. Both label a block by its type, render it through a
 * template named after its type with the stored properties plus `simple` as context,
 * and list a record's blocks by ascending `ordering`.
 */
module Content {
  import opened Py
  import Sorting

  /** A stored block row: `notion_id`, `ordering`, `type` and the converted `properties`. */
  datatype BlockRow = BlockRow(notionId: string, ordering: nat, blockType: string, properties: seq<(string, PyVal)>)

  /**
   * `render_to_string`: a template name and a context give HTML. The template engine is
   * not interpreted, so renderers take it as a parameter.
   */
  type Templates = (string, seq<(string, PyVal)>) -> string

  /** Where each app keeps its block templates. */
  const NotionContent := "notion/content/"
  const NewsletterContent := "newsletter/content/"

  /** `Block.__str__`: the type capitalised, then every underscore shown as a space. */
  function Describe(blockType: string): (r: string)
    ensures |r| == |blockType| && '_' !in r
    ensures forall i :: 0 <= i < |r| ==>
      r[i] == (if blockType[i] == '_' then ' ' else if i == 0 then Upper(blockType[i]) else Lower(blockType[i]))
  {
    ReplaceChar(Capitalize(blockType), '_', ' ')
  }

  /** `'<prefix>%s_block.html' % self.type` */
  function TemplateName(prefix: string, blockType: string): string {
    prefix + blockType + "_block.html"
  }

  /** Two block types never share a template. */
  lemma TemplateNameInjective(prefix: string, t1: string, t2: string)
    requires TemplateName(prefix, t1) == TemplateName(prefix, t2)
    ensures t1 == t2
  {
    var n := TemplateName(prefix, t1);
    assert |t1| == |t2|;
    assert t1 == n[|prefix|..|prefix| + |t1|];
    assert t2 == TemplateName(prefix, t2)[|prefix|..|prefix| + |t2|];
  }

  /** `{**self.properties, 'simple': simple}`: `simple` wins over a stored property of that name (see `Put`). */
  function Context(properties: seq<(string, PyVal)>, simple: bool): seq<(string, PyVal)> {
    Put(properties, "simple", PBool(simple))
  }

  /** `Block.render(simple)` for the app whose templates live under `prefix`. */
  function Render(prefix: string, templates: Templates, b: BlockRow, simple: bool): string {
    templates(TemplateName(prefix, b.blockType), Context(b.properties, simple))
  }

  /** A fragment wrapped in a div of the given class. */
  function Div(cls: string, inner: string): string {
    "<div class=\"" + cls + "\">" + inner + "</div>"
  }

  /** The div class of a block outside a list group: its type with dashes, then `-block`. */
  function BlockClass(blockType: string): string {
    ReplaceChar(blockType, '_', '-') + "-block"
  }

  const ListClass := "bulleted-list-block"

  predicate ByOrdering(a: BlockRow, b: BlockRow) {
    a.ordering <= b.ordering
  }

  /**
   * `Meta.ordering = ('ordering',)`: a record's blocks as its queries list them. Rows with
   * equal `ordering` keep the order they are given in.
   */
  function Ordered(rows: seq<BlockRow>): seq<BlockRow> {
    Sorting.Sort(rows, ByOrdering)
  }

  lemma OrderedRows(rows: seq<BlockRow>)
    ensures Sorting.Sorted(Ordered(rows), ByOrdering)
    ensures multiset(Ordered(rows)) == multiset(rows)
  {
    assert Sorting.TotalPreorder(ByOrdering);
    Sorting.SortSorted(rows, ByOrdering);
  }
}
