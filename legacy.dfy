/**
 * The older `BlockQuerySet.render` of sidekick/newsletter/query.py. It walks the blocks
 * like the renderer in Render, with three differences: the group flag starts raised, the
 * list-item accumulator is never cleared, and nothing is flushed after the loop. So the
 * first non-list block is always preceded by a list group, every group repeats all list
 * items seen so far, and trailing list items produce no output.
 */
module LegacyRender {
  import opened Py
  import opened Content
  import Render

  const LegacyListTemplate := "newsletter/content/bulleted_list_block.html"

  /** The list items among the first `n` blocks, in order: the accumulator, which is never cleared. */
  function ListItems(rows: seq<BlockRow>, n: nat): seq<BlockRow>
    requires n <= |rows|
  {
    if n == 0 then [] else ListItems(rows, n - 1) + (if Render.IsListItem(rows[n - 1]) then [rows[n - 1]] else [])
  }

  /** The blocks among the first `n` that are not list items, in order. */
  function Others(rows: seq<BlockRow>, n: nat): seq<BlockRow>
    requires n <= |rows|
  {
    if n == 0 then [] else Others(rows, n - 1) + (if Render.IsListItem(rows[n - 1]) then [] else [rows[n - 1]])
  }

  /**
   * Whether the group flag is raised when block `j` is reached: it starts raised, a list
   * item raises it and any other block lowers it.
   */
  predicate Flagged(rows: seq<BlockRow>, j: nat)
    requires j <= |rows|
  {
    j == 0 || Render.IsListItem(rows[j - 1])
  }

  /** What block `j` contributes: nothing for a list item; otherwise the pending group, if flagged, then the block. */
  function PiecesAt(rows: seq<BlockRow>, j: nat): seq<Render.Piece>
    requires j < |rows|
  {
    if Render.IsListItem(rows[j]) then []
    else (if Flagged(rows, j) then [Render.Group(ListItems(rows, j))] else []) + [Render.Single(rows[j])]
  }

  /** The pieces the first `n` blocks contribute. */
  function LegacyPieces(rows: seq<BlockRow>, n: nat): seq<Render.Piece>
    requires n <= |rows|
  {
    if n == 0 then [] else LegacyPieces(rows, n - 1) + PiecesAt(rows, n - 1)
  }

  /** Every piece in its div; a list group's context holds only `items`, a block renders with `simple` false. */
  function Fragment(p: Render.Piece, templates: Templates): string {
    match p
    case Group(items) =>
      Div(ListClass, templates(LegacyListTemplate, [("items", PList(Render.Items(items)))]))
    case Single(b) =>
      Div(BlockClass(b.blockType), Content.Render(NewsletterContent, templates, b, false))
  }

  function Fragments(ps: seq<Render.Piece>, templates: Templates): seq<string> {
    seq(|ps|, k requires 0 <= k < |ps| => Fragment(ps[k], templates))
  }

  lemma FragmentsSnoc(ps: seq<Render.Piece>, p: Render.Piece, templates: Templates)
    ensures Fragments(ps + [p], templates) == Fragments(ps, templates) + [Fragment(p, templates)]
  {
    assert forall k :: 0 <= k < |ps| ==> (ps + [p])[k] == ps[k];
  }

  /**
   * The flag is raised at block `j` exactly when every non-list block before `j` has a list
   * item after it: a group is emitted before the first non-list block, and after that only
   * if a list item came since the previous non-list block.
   */
  lemma FlagMeansItemSinceLastBlock(rows: seq<BlockRow>, j: nat)
    requires j <= |rows|
    ensures Flagged(rows, j) <==>
      forall k :: 0 <= k < j && !Render.IsListItem(rows[k]) ==> exists m :: k < m < j && Render.IsListItem(rows[m])
  {
    if Flagged(rows, j) {
      forall k | 0 <= k < j && !Render.IsListItem(rows[k])
        ensures exists m :: k < m < j && Render.IsListItem(rows[m])
      {
        assert k < j - 1 && Render.IsListItem(rows[j - 1]);
      }
    } else {
      var k := j - 1;
      assert 0 <= k < j && !Render.IsListItem(rows[k]);
    }
  }

  /** The loop body for one block. */
  method Step(block: BlockRow, blocks: seq<string>, inList: bool, listItems: seq<BlockRow>, templates: Templates,
              ghost before: seq<Render.Piece>)
    returns (blocks': seq<string>, inList': bool, listItems': seq<BlockRow>, ghost added: seq<Render.Piece>)
    requires blocks == Fragments(before, templates)
    ensures blocks' == Fragments(before + added, templates)
    ensures Render.IsListItem(block) ==> added == [] && inList' && listItems' == listItems + [block]
    ensures !Render.IsListItem(block) ==>
      && added == (if inList then [Render.Group(listItems)] else []) + [Render.Single(block)]
      && !inList' && listItems' == listItems
  {
    blocks', inList', listItems' := blocks, inList, listItems;
    if block.blockType == "bulleted_list_item" {
      if !inList {
        inList' := true;
      }
      listItems' := listItems + [block];
      added := [];
      assert before + added == before;
    } else {
      added := [];
      if inList {
        var group := Div(ListClass, templates(LegacyListTemplate, [("items", PList(Render.Items(listItems)))]));
        FragmentsSnoc(before, Render.Group(listItems), templates);
        blocks' := blocks' + [group];
        added := [Render.Group(listItems)];
        inList' := false;
      }
      var single := Div(BlockClass(block.blockType), Content.Render(NewsletterContent, templates, block, false));
      FragmentsSnoc(before + added, Render.Single(block), templates);
      blocks' := blocks' + [single];
      assert before + added + [Render.Single(block)] == before + (added + [Render.Single(block)]);
      added := added + [Render.Single(block)];
    }
  }

  /** What one step of the loop does to the loop's state, in terms of the block list. */
  lemma LegacyStep(rows: seq<BlockRow>, i: nat, inList: bool, listItems: seq<BlockRow>,
                   added: seq<Render.Piece>, inList': bool, listItems': seq<BlockRow>)
    requires i < |rows| && listItems == ListItems(rows, i) && (inList <==> Flagged(rows, i))
    requires Render.IsListItem(rows[i]) ==> added == [] && inList' && listItems' == listItems + [rows[i]]
    requires !Render.IsListItem(rows[i]) ==>
      && added == (if inList then [Render.Group(listItems)] else []) + [Render.Single(rows[i])]
      && !inList' && listItems' == listItems
    ensures LegacyPieces(rows, i + 1) == LegacyPieces(rows, i) + added
    ensures listItems' == ListItems(rows, i + 1)
    ensures inList' <==> Flagged(rows, i + 1)
  {
    assert added == PiecesAt(rows, i);
  }

  /** The loop's state once the first `i` blocks have been walked: fragments, list flag and pending items. */
  ghost function Walked(rows: seq<BlockRow>, i: nat, templates: Templates): (seq<string>, bool, seq<BlockRow>)
    requires i <= |rows|
  {
    (Fragments(LegacyPieces(rows, i), templates), Flagged(rows, i), ListItems(rows, i))
  }

  /** Before the loop: nothing walked, no fragment, and the list flag already raised. */
  lemma WalkedNone(rows: seq<BlockRow>, templates: Templates)
    ensures Walked(rows, 0, templates) == ([], true, [])
  {
    assert LegacyPieces(rows, 0) == [];
    assert Fragments([], templates) == [];
    assert Flagged(rows, 0) && ListItems(rows, 0) == [];
  }

  /** Step over block `i`. */
  method Advance(rows: seq<BlockRow>, i: nat, blocks: seq<string>, inList: bool, listItems: seq<BlockRow>, templates: Templates)
    returns (blocks': seq<string>, inList': bool, listItems': seq<BlockRow>)
    requires i < |rows| && (blocks, inList, listItems) == Walked(rows, i, templates)
    ensures (blocks', inList', listItems') == Walked(rows, i + 1, templates)
  {
    ghost var added;
    blocks', inList', listItems', added := Step(rows[i], blocks, inList, listItems, templates, LegacyPieces(rows, i));
    LegacyStep(rows, i, inList, listItems, added, inList', listItems');
  }

  /**
   * `BlockQuerySet.render()` of the newsletter app: the fragments of the legacy pieces,
   * joined in order.
   */
  method RenderBlocks(rows: seq<BlockRow>, templates: Templates) returns (html: string)
    ensures html == Concat(Fragments(LegacyPieces(rows, |rows|), templates))
  {
    var blocks: seq<string> := [];
    var inList := true;
    var listItems: seq<BlockRow> := [];
    WalkedNone(rows, templates);
    for i := 0 to |rows|
      invariant (blocks, inList, listItems) == Walked(rows, i, templates)
    {
      blocks, inList, listItems := Advance(rows, i, blocks, inList, listItems, templates);
    }
    html := Concat(blocks);
  }

  // ----- what the legacy renderer does -----

  lemma {:induction false} NoPiecesFromListItems(rows: seq<BlockRow>, n: nat)
    requires n <= |rows|
    requires forall k :: 0 <= k < n ==> Render.IsListItem(rows[k])
    ensures LegacyPieces(rows, n) == []
    ensures ListItems(rows, n) == rows[..n]
  {
    if n > 0 {
      NoPiecesFromListItems(rows, n - 1);
      assert rows[..n] == rows[..n - 1] + [rows[n - 1]];
    }
  }

  lemma {:induction false} LegacyPiecesPrefix(rows: seq<BlockRow>, n: nat, m: nat)
    requires n <= m <= |rows|
    ensures LegacyPieces(rows, n) <= LegacyPieces(rows, m)
    decreases m - n
  {
    if n < m {
      LegacyPiecesPrefix(rows, n, m - 1);
      var front := LegacyPieces(rows, m - 1);
      assert LegacyPieces(rows, m) == front + PiecesAt(rows, m - 1);
      PrefixAppend(LegacyPieces(rows, n), front, PiecesAt(rows, m - 1));
    }
  }

  lemma PrefixAppend<T>(start: seq<T>, front: seq<T>, back: seq<T>)
    requires start <= front
    ensures start <= front + back
  {
    assert (front + back)[..|start|] == front[..|start|];
  }

  /**
   * The first block that is not a list item always comes after a list group holding the
   * list items before it, even when there are none.
   */
  lemma FirstBlockFollowsGroup(rows: seq<BlockRow>, j: nat)
    requires j < |rows| && !Render.IsListItem(rows[j])
    requires forall k :: 0 <= k < j ==> Render.IsListItem(rows[k])
    ensures [Render.Group(rows[..j]), Render.Single(rows[j])] <= LegacyPieces(rows, |rows|)
  {
    NoPiecesFromListItems(rows, j);
    assert Flagged(rows, j);
    assert PiecesAt(rows, j) == [Render.Group(rows[..j]), Render.Single(rows[j])];
    assert LegacyPieces(rows, j + 1) == LegacyPieces(rows, j) + PiecesAt(rows, j);
    LegacyPiecesPrefix(rows, j + 1, |rows|);
  }

  /**
   * The accumulator only grows: a later group holds every list item an earlier group
   * holds, in the same order, and every list item seen so far.
   */
  lemma {:induction false} GroupsAccumulate(rows: seq<BlockRow>, j: nat, j': nat)
    requires j <= j' <= |rows|
    ensures ListItems(rows, j) <= ListItems(rows, j')
    decreases j' - j
  {
    if j < j' {
      GroupsAccumulate(rows, j, j' - 1);
    }
  }

  lemma {:induction false} ListItemsMembers(rows: seq<BlockRow>, n: nat)
    requires n <= |rows|
    ensures forall x :: x in ListItems(rows, n) <==> x in rows[..n] && Render.IsListItem(x)
  {
    if n > 0 {
      ListItemsMembers(rows, n - 1);
      assert rows[..n] == rows[..n - 1] + [rows[n - 1]];
    }
  }

  lemma {:induction false} ListItemsPrefixRows(rows: seq<BlockRow>, extra: seq<BlockRow>, n: nat)
    requires n <= |rows|
    ensures ListItems(rows + extra, n) == ListItems(rows, n)
  {
    if n > 0 {
      ListItemsPrefixRows(rows, extra, n - 1);
      assert (rows + extra)[n - 1] == rows[n - 1];
    }
  }

  lemma {:induction false} LegacyPiecesPrefixRows(rows: seq<BlockRow>, extra: seq<BlockRow>, n: nat)
    requires n <= |rows|
    ensures LegacyPieces(rows + extra, n) == LegacyPieces(rows, n)
  {
    if n > 0 {
      var all := rows + extra;
      LegacyPiecesPrefixRows(rows, extra, n - 1);
      ListItemsPrefixRows(rows, extra, n - 1);
      assert all[n - 1] == rows[n - 1];
      assert n - 1 > 0 ==> all[n - 2] == rows[n - 2];
      assert PiecesAt(all, n - 1) == PiecesAt(rows, n - 1);
    }
  }

  lemma {:induction false} TrailingItemsCount(rows: seq<BlockRow>, extra: seq<BlockRow>, n: nat)
    requires |rows| <= n <= |rows| + |extra|
    requires Render.AllListItems(extra)
    ensures LegacyPieces(rows + extra, n) == LegacyPieces(rows, |rows|)
  {
    if n == |rows| {
      LegacyPiecesPrefixRows(rows, extra, n);
    } else {
      TrailingItemsCount(rows, extra, n - 1);
      assert Render.IsListItem((rows + extra)[n - 1]) by {
        assert (rows + extra)[n - 1] == extra[n - 1 - |rows|];
      }
    }
  }

  /** With no flush after the loop, list items after the last other block change nothing. */
  lemma TrailingItemsDropped(rows: seq<BlockRow>, extra: seq<BlockRow>)
    requires Render.AllListItems(extra)
    ensures LegacyPieces(rows + extra, |rows + extra|) == LegacyPieces(rows, |rows|)
  {
    TrailingItemsCount(rows, extra, |rows + extra|);
  }

  /** The blocks of the single pieces, in order. */
  function Singles(ps: seq<Render.Piece>): seq<BlockRow> {
    if ps == [] then []
    else (if ps[0].Single? then [ps[0].row] else []) + Singles(ps[1..])
  }

  lemma {:induction false} SinglesSnoc(ps: seq<Render.Piece>, p: Render.Piece)
    ensures Singles(ps + [p]) == Singles(ps) + (if p.Single? then [p.row] else [])
  {
    if ps != [] {
      SinglesSnoc(ps[1..], p);
      assert (ps + [p])[1..] == ps[1..] + [p];
    }
  }

  /** Every block that is not a list item is emitted exactly once, in order. */
  lemma {:induction false} EveryOtherBlockOnce(rows: seq<BlockRow>, n: nat)
    requires n <= |rows|
    ensures Singles(LegacyPieces(rows, n)) == Others(rows, n)
  {
    if n > 0 {
      var before, b := LegacyPieces(rows, n - 1), rows[n - 1];
      EveryOtherBlockOnce(rows, n - 1);
      if Render.IsListItem(b) {
        assert LegacyPieces(rows, n) == before + [];
        assert before + [] == before;
      } else if Flagged(rows, n - 1) {
        var g := Render.Group(ListItems(rows, n - 1));
        assert LegacyPieces(rows, n) == before + [g] + [Render.Single(b)];
        SinglesSnoc(before, g);
        SinglesSnoc(before + [g], Render.Single(b));
      } else {
        assert LegacyPieces(rows, n) == before + [Render.Single(b)];
        SinglesSnoc(before, Render.Single(b));
      }
    }
  }

  lemma {:induction false} OthersMembers(rows: seq<BlockRow>, n: nat)
    requires n <= |rows|
    ensures forall x :: x in Others(rows, n) <==> x in rows[..n] && !Render.IsListItem(x)
  {
    if n > 0 {
      OthersMembers(rows, n - 1);
      assert rows[..n] == rows[..n - 1] + [rows[n - 1]];
    }
  }

  // ----- where it departs from the renderer in Render -----

  /** A second list group repeats the items of the first: for list items a, b and other blocks p, q. */
  lemma LegacyRepeatsItems(a: BlockRow, p: BlockRow, b: BlockRow, q: BlockRow)
    requires Render.IsListItem(a) && Render.IsListItem(b)
    requires !Render.IsListItem(p) && !Render.IsListItem(q)
    ensures LegacyPieces([a, p, b, q], 4) == [Render.Group([a]), Render.Single(p), Render.Group([a, b]), Render.Single(q)]
  {
    var rows := [a, p, b, q];
    assert ListItems(rows, 1) == [a];
    assert ListItems(rows, 3) == [a, b];
    var two := LegacyPieces(rows, 2);
    assert two == [Render.Group([a]), Render.Single(p)] by {
      assert LegacyPieces(rows, 1) == [];
      assert PiecesAt(rows, 1) == [Render.Group([a]), Render.Single(p)];
    }
    assert LegacyPieces(rows, 3) == two;
    assert PiecesAt(rows, 3) == [Render.Group([a, b]), Render.Single(q)];
  }

  /** A block list ending in a list item loses that item, and the first block gets an empty group. */
  lemma LegacyDropsTrailingItem(p: BlockRow, a: BlockRow)
    requires !Render.IsListItem(p) && Render.IsListItem(a)
    ensures LegacyPieces([p, a], 2) == [Render.Group([]), Render.Single(p)]
  {
    var rows := [p, a];
    assert PiecesAt(rows, 0) == [Render.Group([]), Render.Single(p)];
    assert LegacyPieces(rows, 1) == PiecesAt(rows, 0);
  }
}
