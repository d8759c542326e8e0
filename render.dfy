/**
 * `BlockQuerySet.render` of sidekick/contrib/notion/query.py: one pass over a record's
 * blocks that gathers each run of consecutive bulleted list items into one list group and
 * renders every other block on its own, in order.
 */
module Render {
  import opened Py
  import opened Content

  /** One output fragment's source: a run of list items, or a single other block. */
  datatype Piece = Group(items: seq<BlockRow>) | Single(row: BlockRow)

  predicate IsListItem(b: BlockRow) {
    b.blockType == "bulleted_list_item"
  }

  function Rows(p: Piece): seq<BlockRow> {
    match p
    case Group(items) => items
    case Single(b) => [b]
  }

  /** The blocks the pieces stand for, in order. */
  function Flatten(ps: seq<Piece>): seq<BlockRow> {
    if ps == [] then [] else Flatten(ps[..|ps| - 1]) + Rows(ps[|ps| - 1])
  }

  predicate AllListItems(items: seq<BlockRow>) {
    forall j :: 0 <= j < |items| ==> IsListItem(items[j])
  }

  /**
   * What the renderer is meant to produce, stated without the loop: the pieces cover the
   * blocks in order, a group is a non-empty run of list items, a single block is not a
   * list item, and no two groups are adjacent (so every run of list items is maximal).
   */
  ghost predicate IsGrouping(rows: seq<BlockRow>, ps: seq<Piece>) {
    && Flatten(ps) == rows
    && (forall i :: 0 <= i < |ps| && ps[i].Group? ==> ps[i].items != [] && AllListItems(ps[i].items))
    && (forall i :: 0 <= i < |ps| && ps[i].Single? ==> !IsListItem(ps[i].row))
    && (forall i :: 0 < i < |ps| ==> !(ps[i - 1].Group? && ps[i].Group?))
  }

  /** The grouping, built one block at a time from the left. */
  function Segments(rows: seq<BlockRow>): seq<Piece> {
    if rows == [] then []
    else
      var init := Segments(rows[..|rows| - 1]);
      var b := rows[|rows| - 1];
      if !IsListItem(b) then init + [Single(b)]
      else if init != [] && init[|init| - 1].Group? then init[..|init| - 1] + [Group(init[|init| - 1].items + [b])]
      else init + [Group([b])]
  }

  lemma FlattenSnoc(ps: seq<Piece>, p: Piece)
    ensures Flatten(ps + [p]) == Flatten(ps) + Rows(p)
  {
    assert (ps + [p])[..|ps|] == ps;
  }

  lemma SnocSingle(front: seq<BlockRow>, ps: seq<Piece>, b: BlockRow)
    requires IsGrouping(front, ps) && !IsListItem(b)
    ensures IsGrouping(front + [b], ps + [Single(b)])
  {
    FlattenSnoc(ps, Single(b));
  }

  lemma SnocNewGroup(front: seq<BlockRow>, ps: seq<Piece>, b: BlockRow)
    requires IsGrouping(front, ps) && IsListItem(b)
    requires ps == [] || !ps[|ps| - 1].Group?
    ensures IsGrouping(front + [b], ps + [Group([b])])
  {
    var qs := ps + [Group([b])];
    FlattenSnoc(ps, Group([b]));
    forall i | 0 <= i < |qs| && qs[i].Group?
      ensures qs[i].items != [] && AllListItems(qs[i].items)
    {
      if i < |ps| {
        assert qs[i] == ps[i];
      }
    }
    forall i | 0 <= i < |qs| && qs[i].Single?
      ensures !IsListItem(qs[i].row)
    {
      assert qs[i] == ps[i];
    }
    forall i | 0 < i < |qs|
      ensures !(qs[i - 1].Group? && qs[i].Group?)
    {
      assert qs[i - 1] == ps[i - 1];
    }
  }

  /** Segments after one more block, by the three cases of its definition. */
  lemma SegmentsSnoc(front: seq<BlockRow>, b: BlockRow)
    ensures var init := Segments(front);
      Segments(front + [b]) ==
        if !IsListItem(b) then init + [Single(b)]
        else if init != [] && init[|init| - 1].Group? then init[..|init| - 1] + [Group(init[|init| - 1].items + [b])]
        else init + [Group([b])]
  {
    assert (front + [b])[..|front|] == front;
  }

  lemma SnocExtend(front: seq<BlockRow>, ps: seq<Piece>, b: BlockRow)
    requires IsGrouping(front, ps) && IsListItem(b)
    requires ps != [] && ps[|ps| - 1].Group?
    ensures var head, last := ps[..|ps| - 1], ps[|ps| - 1];
      IsGrouping(front + [b], head + [Group(last.items + [b])])
  {
    var head, last := ps[..|ps| - 1], ps[|ps| - 1];
    var qs := ps[|ps| - 1 := Group(last.items + [b])];
    assert qs == head + [Group(last.items + [b])];
    assert ps == head + [last];
    FlattenSnoc(head, last);
    FlattenSnoc(head, Group(last.items + [b]));
    forall i | 0 <= i < |qs| && qs[i].Group?
      ensures qs[i].items != [] && AllListItems(qs[i].items)
    {
      if i < |head| {
        assert qs[i] == ps[i];
      }
    }
    forall i | 0 < i < |qs|
      ensures !(qs[i - 1].Group? && qs[i].Group?)
    {
      assert qs[i - 1] == ps[i - 1];
    }
  }

  /** Segments is a grouping of its input. */
  lemma {:induction false} SegmentsIsGrouping(rows: seq<BlockRow>)
    ensures IsGrouping(rows, Segments(rows))
  {
    if rows != [] {
      var front := rows[..|rows| - 1];
      var b := rows[|rows| - 1];
      var init := Segments(front);
      SegmentsIsGrouping(front);
      assert rows == front + [b];
      if !IsListItem(b) {
        assert Segments(rows) == init + [Single(b)];
        SnocSingle(front, init, b);
      } else if init != [] && init[|init| - 1].Group? {
        assert Segments(rows) == init[..|init| - 1] + [Group(init[|init| - 1].items + [b])];
        SnocExtend(front, init, b);
      } else {
        assert Segments(rows) == init + [Group([b])];
        SnocNewGroup(front, init, b);
      }
    }
  }

  /** A grouping with its last piece taken off groups the blocks that piece does not cover. */
  lemma GroupingInit(rows: seq<BlockRow>, ps: seq<Piece>)
    requires IsGrouping(rows, ps) && ps != []
    ensures IsGrouping(Flatten(ps[..|ps| - 1]), ps[..|ps| - 1])
    ensures rows == Flatten(ps[..|ps| - 1]) + Rows(ps[|ps| - 1])
  {
  }

  /** A grouping whose last group loses its last item still groups the shorter input. */
  lemma GroupingShrink(rows: seq<BlockRow>, ps: seq<Piece>)
    requires IsGrouping(rows, ps) && ps != []
    requires ps[|ps| - 1].Group? && |ps[|ps| - 1].items| > 1
    ensures var g := ps[|ps| - 1].items;
      IsGrouping(rows[..|rows| - 1], ps[..|ps| - 1] + [Group(g[..|g| - 1])])
  {
    var head := ps[..|ps| - 1];
    var g := ps[|ps| - 1].items;
    var qs := ps[|ps| - 1 := Group(g[..|g| - 1])];
    assert qs == head + [Group(g[..|g| - 1])];
    FlattenSnoc(head, Group(g[..|g| - 1]));
    assert g == g[..|g| - 1] + [g[|g| - 1]];
    assert rows == Flatten(head) + g;
    assert Flatten(qs) == rows[..|rows| - 1];
    forall i | 0 <= i < |qs| && qs[i].Group?
      ensures qs[i].items != [] && AllListItems(qs[i].items)
    {
      if i < |head| {
        assert qs[i] == ps[i];
      }
    }
    forall i | 0 < i < |qs|
      ensures !(qs[i - 1].Group? && qs[i].Group?)
    {
      assert qs[i - 1] == ps[i - 1];
    }
  }

  /** The last block of a grouping belongs to its last piece. */
  lemma GroupingLast(rows: seq<BlockRow>, ps: seq<Piece>)
    requires IsGrouping(rows, ps) && rows != []
    ensures ps != []
    ensures var p := ps[|ps| - 1];
      Rows(p) != [] && Rows(p)[|Rows(p)| - 1] == rows[|rows| - 1]
  {
    var p := ps[|ps| - 1];
    assert Rows(p) != [];
  }

  /** Every piece covers at least one block, so there are no more pieces than blocks. */
  lemma {:induction false} FlattenLength(ps: seq<Piece>)
    requires forall i :: 0 <= i < |ps| ==> Rows(ps[i]) != []
    ensures |Flatten(ps)| >= |ps|
  {
    if ps != [] {
      FlattenLength(ps[..|ps| - 1]);
      assert Rows(ps[|ps| - 1]) != [];
    }
  }

  lemma GroupingOfNothing(ps: seq<Piece>)
    requires IsGrouping([], ps)
    ensures ps == []
  {
    forall i | 0 <= i < |ps| ensures Rows(ps[i]) != [] {
      if ps[i].Group? {
        assert ps[i].items != [];
      }
    }
    FlattenLength(ps);
  }

  /** The inductive step when the last piece is a single block or a one-item group. */
  lemma LastPieceWhole(front: seq<BlockRow>, b: BlockRow, head: seq<Piece>, p: Piece)
    requires head == Segments(front)
    requires p == Single(b) || p == Group([b])
    requires p.Single? <==> !IsListItem(b)
    requires p.Group? ==> head == [] || !head[|head| - 1].Group?
    ensures head + [p] == Segments(front + [b])
  {
    SegmentsSnoc(front, b);
  }

  /** The inductive step when the last piece is a group of more than one item. */
  lemma LastGroupGrown(front: seq<BlockRow>, b: BlockRow, head: seq<Piece>, g: seq<BlockRow>)
    requires head + [Group(g)] == Segments(front)
    requires IsListItem(b)
    ensures head + [Group(g + [b])] == Segments(front + [b])
  {
    SegmentsSnoc(front, b);
    var init := head + [Group(g)];
    assert init[..|init| - 1] == head;
  }

  /** What a grouping says about its last piece when that piece covers only the last block. */
  lemma WholeLastFacts(rows: seq<BlockRow>, ps: seq<Piece>)
    requires IsGrouping(rows, ps) && rows != []
    requires ps != [] && !(ps[|ps| - 1].Group? && |ps[|ps| - 1].items| > 1)
    ensures var b, p, head := rows[|rows| - 1], ps[|ps| - 1], ps[..|ps| - 1];
      && IsGrouping(rows[..|rows| - 1], head)
      && (p == Single(b) || p == Group([b]))
      && (p.Single? <==> !IsListItem(b))
      && (p.Group? ==> head == [] || !head[|head| - 1].Group?)
  {
    GroupingLast(rows, ps);
    GroupingInit(rows, ps);
    var p, head := ps[|ps| - 1], ps[..|ps| - 1];
    assert Rows(p) == [rows[|rows| - 1]];
    if p.Group? {
      assert IsListItem(p.items[0]);
      if head != [] {
        assert ps[|ps| - 2] == head[|head| - 1];
      }
    }
  }

  /** What a grouping says about its last piece when that piece is a group of several blocks. */
  lemma GrownLastFacts(rows: seq<BlockRow>, ps: seq<Piece>)
    requires IsGrouping(rows, ps) && rows != []
    requires ps != [] && ps[|ps| - 1].Group? && |ps[|ps| - 1].items| > 1
    ensures var b, g := rows[|rows| - 1], ps[|ps| - 1].items;
      && IsGrouping(rows[..|rows| - 1], ps[..|ps| - 1] + [Group(g[..|g| - 1])])
      && g == g[..|g| - 1] + [b]
      && IsListItem(b)
  {
    GroupingLast(rows, ps);
    GroupingShrink(rows, ps);
    var g := ps[|ps| - 1].items;
    assert g == g[..|g| - 1] + [g[|g| - 1]];
    assert IsListItem(g[|g| - 1]);
  }

  /** Every grouping of the blocks is the one Segments builds: the grouping is unique. */
  lemma {:induction false} GroupingIsSegments(rows: seq<BlockRow>, ps: seq<Piece>)
    requires IsGrouping(rows, ps)
    ensures ps == Segments(rows)
    decreases |rows|
  {
    if rows == [] {
      GroupingOfNothing(ps);
    } else {
      GroupingLast(rows, ps);
      var front, b := rows[..|rows| - 1], rows[|rows| - 1];
      var p, head := ps[|ps| - 1], ps[..|ps| - 1];
      assert rows == front + [b];
      assert ps == head + [p];
      if p.Group? && |p.items| > 1 {
        var g := p.items[..|p.items| - 1];
        GrownLastFacts(rows, ps);
        GroupingIsSegments(front, head + [Group(g)]);
        LastGroupGrown(front, b, head, g);
      } else {
        WholeLastFacts(rows, ps);
        GroupingIsSegments(front, head);
        LastPieceWhole(front, b, head, p);
      }
    }
  }

  const ListTemplate := "notion/content/bulleted_list_block.html"

  /** The `items` of a list group's context: each list item's stored properties. */
  function Items(rows: seq<BlockRow>): (r: seq<PyVal>)
    ensures |r| == |rows| && forall i :: 0 <= i < |rows| ==> r[i] == PDict(rows[i].properties)
  {
    seq(|rows|, i requires 0 <= i < |rows| => PDict(rows[i].properties))
  }

  /** The HTML one piece contributes; outside simple mode every piece sits in its own div. */
  function Fragment(p: Piece, simple: bool, templates: Templates): string {
    match p
    case Group(items) =>
      var inner := templates(ListTemplate, [("items", PList(Items(items))), ("simple", PBool(simple))]);
      if simple then inner else Div(ListClass, inner)
    case Single(b) =>
      var inner := Content.Render(NotionContent, templates, b, simple);
      if simple then inner else Div(BlockClass(b.blockType), inner)
  }

  function Fragments(ps: seq<Piece>, simple: bool, templates: Templates): (r: seq<string>)
    ensures |r| == |ps|
  {
    if ps == [] then [] else Fragments(ps[..|ps| - 1], simple, templates) + [Fragment(ps[|ps| - 1], simple, templates)]
  }

  lemma FragmentsSnoc(ps: seq<Piece>, p: Piece, simple: bool, templates: Templates)
    ensures Fragments(ps + [p], simple, templates) == Fragments(ps, simple, templates) + [Fragment(p, simple, templates)]
  {
    assert (ps + [p])[..|ps|] == ps;
  }

  /** The renderer's state after some blocks: closed pieces, then the open run of list items. */
  function Open(closed: seq<Piece>, items: seq<BlockRow>): seq<Piece> {
    closed + (if items == [] then [] else [Group(items)])
  }

  /** One more block keeps the loop's state equal to the grouping of the blocks seen so far. */
  lemma RenderStep(rows: seq<BlockRow>, i: nat, closed: seq<Piece>, items: seq<BlockRow>,
                   closed': seq<Piece>, items': seq<BlockRow>)
    requires i < |rows|
    requires Segments(rows[..i]) == Open(closed, items)
    requires closed == [] || closed[|closed| - 1].Single?
    requires IsListItem(rows[i]) ==> Open(closed', items') == Open(closed, items + [rows[i]])
    requires !IsListItem(rows[i]) ==> Open(closed', items') == Open(closed, items) + [Single(rows[i])]
    ensures Segments(rows[..i + 1]) == Open(closed', items')
  {
    var b := rows[i];
    assert rows[..i + 1] == rows[..i] + [b];
    SegmentsSnoc(rows[..i], b);
    var init := Open(closed, items);
    if items == [] {
      assert init == closed;
      assert items + [b] == [b];
    } else {
      assert init[..|init| - 1] == closed;
    }
  }

  /** Flushing the open list: the list template, wrapped unless `simple`. */
  method GroupHtml(items: seq<BlockRow>, simple: bool, templates: Templates) returns (s: string)
    ensures s == Fragment(Group(items), simple, templates)
  {
    var inner := templates(ListTemplate, [("items", PList(Items(items))), ("simple", PBool(simple))]);
    if simple {
      s := inner;
    } else {
      s := Div(ListClass, inner);
    }
  }

  /** Any other block: its own template, wrapped in a div named after its type unless `simple`. */
  method BlockHtml(block: BlockRow, simple: bool, templates: Templates) returns (s: string)
    ensures s == Fragment(Single(block), simple, templates)
  {
    var inner := Content.Render(NotionContent, templates, block, simple);
    if simple {
      s := inner;
    } else {
      s := Div(BlockClass(block.blockType), inner);
    }
  }

  /** Appends the open list's fragment, if a list is open: the flush before a block and after the loop. */
  method Flush(blocks: seq<string>, inList: bool, listItems: seq<BlockRow>, simple: bool, templates: Templates,
               ghost closed: seq<Piece>)
    returns (blocks': seq<string>, ghost closed': seq<Piece>)
    requires inList <==> listItems != []
    requires blocks == Fragments(closed, simple, templates)
    ensures closed' == Open(closed, listItems)
    ensures blocks' == Fragments(closed', simple, templates)
  {
    blocks', closed' := blocks, closed;
    if inList {
      var group := GroupHtml(listItems, simple, templates);
      FragmentsSnoc(closed, Group(listItems), simple, templates);
      blocks' := blocks + [group];
      closed' := closed + [Group(listItems)];
    } else {
      assert Open(closed, listItems) == closed;
    }
  }

  /** Appends the fragment of a block that is not a list item. */
  method Emit(blocks: seq<string>, block: BlockRow, simple: bool, templates: Templates, ghost closed: seq<Piece>)
    returns (blocks': seq<string>, ghost closed': seq<Piece>)
    requires blocks == Fragments(closed, simple, templates)
    ensures closed' == closed + [Single(block)]
    ensures blocks' == Fragments(closed', simple, templates)
  {
    var single := BlockHtml(block, simple, templates);
    FragmentsSnoc(closed, Single(block), simple, templates);
    blocks' := blocks + [single];
    closed' := closed + [Single(block)];
  }

  /** The loop body for one block: a list item joins the open list; any other block closes it. */
  method Step(block: BlockRow, blocks: seq<string>, inList: bool, listItems: seq<BlockRow>,
              simple: bool, templates: Templates, ghost closed: seq<Piece>)
    returns (blocks': seq<string>, inList': bool, listItems': seq<BlockRow>, ghost closed': seq<Piece>)
    requires inList <==> listItems != []
    requires blocks == Fragments(closed, simple, templates)
    requires closed == [] || closed[|closed| - 1].Single?
    ensures inList' <==> listItems' != []
    ensures blocks' == Fragments(closed', simple, templates)
    ensures closed' == [] || closed'[|closed'| - 1].Single?
    ensures IsListItem(block) ==> Open(closed', listItems') == Open(closed, listItems + [block])
    ensures !IsListItem(block) ==> Open(closed', listItems') == Open(closed, listItems) + [Single(block)]
  {
    if block.blockType == "bulleted_list_item" {
      blocks', closed' := blocks, closed;
      inList' := true;
      listItems' := listItems + [block];
    } else {
      blocks', closed' := Flush(blocks, inList, listItems, simple, templates, closed);
      inList' := false;
      listItems' := [];
      blocks', closed' := Emit(blocks', block, simple, templates, closed');
    }
  }

  /**
   * `BlockQuerySet.render(simple)`: the fragments of the one grouping of the blocks,
   * joined in order.
   */
  method RenderBlocks(rows: seq<BlockRow>, simple: bool, templates: Templates) returns (html: string)
    ensures html == Concat(Fragments(Segments(rows), simple, templates))
  {
    var blocks: seq<string> := [];
    var inList := false;
    var listItems: seq<BlockRow> := [];
    ghost var closed: seq<Piece> := [];
    var i := 0;
    while i < |rows|
      invariant 0 <= i <= |rows|
      invariant inList <==> listItems != []
      invariant Segments(rows[..i]) == Open(closed, listItems)
      invariant closed == [] || closed[|closed| - 1].Single?
      invariant blocks == Fragments(closed, simple, templates)
    {
      ghost var closed0, listItems0 := closed, listItems;
      blocks, inList, listItems, closed := Step(rows[i], blocks, inList, listItems, simple, templates, closed);
      RenderStep(rows, i, closed0, listItems0, closed, listItems);
      i := i + 1;
    }
    assert rows[..i] == rows;
    blocks, closed := Flush(blocks, inList, listItems, simple, templates, closed);
    html := Concat(blocks);
  }

  /** Two runs of list items separated by another block stay two groups, each with its own items. */
  lemma SeparateRunsSeparateGroups(a: BlockRow, p: BlockRow, b: BlockRow, q: BlockRow)
    requires IsListItem(a) && IsListItem(b) && !IsListItem(p) && !IsListItem(q)
    ensures Segments([a, p, b, q]) == [Group([a]), Single(p), Group([b]), Single(q)]
  {
    SegmentsSnoc([], a);
    assert [] + [a] == [a];
    SegmentsSnoc([a], p);
    assert [a] + [p] == [a, p];
    SegmentsSnoc([a, p], b);
    assert [a, p] + [b] == [a, p, b];
    SegmentsSnoc([a, p, b], q);
    assert [a, p, b] + [q] == [a, p, b, q];
  }

  /** Trailing list items are flushed as a last group, and no empty group is emitted. */
  lemma TrailingItemsFlushed(p: BlockRow, a: BlockRow)
    requires !IsListItem(p) && IsListItem(a)
    ensures Segments([p, a]) == [Single(p), Group([a])]
  {
    SegmentsSnoc([], p);
    assert [] + [p] == [p];
    SegmentsSnoc([p], a);
    assert [p] + [a] == [p, a];
  }
}
