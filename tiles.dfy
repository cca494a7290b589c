/** The tile list of one sub-board, `BanListWidget`, and the sub-board
    record around it (xban/board.py, xban/gui.py).

    Each `QListWidgetItem` is a tile with an identity, a text and an
    editable flag. The list also records which tiles are selected (by
    identity) and its current row, -1 when there is none. */
module Tiles {
  import opened YamlValues
  import Style

  datatype Tile = Tile(id: nat, text: string, editable: bool)

  datatype TileList = TileList(tiles: seq<Tile>, selected: set<nat>, current: int, nextId: nat)

  /** A sub-board: its widget identity, title, colour name and list. */
  datatype SubBoard = SubBoard(id: nat, title: string, color: string, list: TileList)

  /** The stylesheet of a sub-board's list: `SubBoard.__init__` sets
      `TILE_STYLE.get(color, "black")` and `color_change` sets
      `TILE_STYLE[color]` for a palette colour, so it is the sheet of the
      colour the sub-board records, or the bare text "black" for a colour
      outside the palette. */
  function Sheet(b: SubBoard): string {
    Style.ListStyleAsWritten(b.color)
  }

  /** A sub-board of a palette colour has that colour's sheet; any other
      colour leaves its list with "black", which is none of the palette's
      sheets. */
  lemma SheetOfColor(b: SubBoard)
    ensures b.color in Style.TileStyle() ==> Sheet(b) == Style.TileStyle()[b.color]
    ensures b.color !in Style.TileStyle() ==> Sheet(b) == "black"
    ensures Sheet(b) in Style.TileStyle().Values <==> b.color in Style.TileStyle()
  {
    Style.BlackIsNoSheet();
  }

  function Ids(tiles: seq<Tile>): (ids: seq<nat>)
    ensures |ids| == |tiles|
    ensures forall i :: 0 <= i < |tiles| ==> ids[i] == tiles[i].id
  {
    seq(|tiles|, i requires 0 <= i < |tiles| => tiles[i].id)
  }

  function Texts(tiles: seq<Tile>): (texts: seq<string>)
    ensures |texts| == |tiles|
    ensures forall i :: 0 <= i < |tiles| ==> texts[i] == tiles[i].text
  {
    seq(|tiles|, i requires 0 <= i < |tiles| => tiles[i].text)
  }

  /** Every tile is a distinct item, the selection holds tiles of the list and
      the current row is a row or -1. */
  predicate ListValid(l: TileList) {
    Distinct(Ids(l.tiles)) &&
    (forall i :: 0 <= i < |l.tiles| ==> l.tiles[i].id < l.nextId) &&
    (forall id :: id in l.selected ==> id in Ids(l.tiles)) &&
    -1 <= l.current < |l.tiles|
  }

  const EmptyList := TileList([], {}, -1, 0)

  /** `add_item`: a new editable tile at the end. */
  function AddItem(l: TileList, text: string): (r: TileList)
    ensures r.tiles == l.tiles + [Tile(l.nextId, text, true)]
    ensures r.selected == l.selected && r.current == l.current
    ensures Texts(r.tiles) == Texts(l.tiles) + [text]
    ensures ListValid(l) ==> ListValid(r)
  {
    var r := TileList(l.tiles + [Tile(l.nextId, text, true)], l.selected, l.current, l.nextId + 1);
    assert Texts(r.tiles) == Texts(l.tiles) + [text];
    assert Ids(r.tiles) == Ids(l.tiles) + [l.nextId];
    r
  }

  /** `takeItem(row)`: the row's tile leaves the list and the selection; a row
      outside the list changes nothing. The current row follows its tile, and
      when the current tile itself goes it passes to the tile that took its
      place, or to the one above when it was the last. */
  function TakeItem(l: TileList, row: int): (r: TileList)
    ensures !(0 <= row < |l.tiles|) ==> r == l
    ensures 0 <= row < |l.tiles| ==>
      r.tiles == l.tiles[..row] + l.tiles[row + 1..] && r.selected == l.selected - {l.tiles[row].id}
    ensures r.nextId == l.nextId
    ensures ListValid(l) ==> ListValid(r)
  {
    if !(0 <= row < |l.tiles|) then l
    else
      var tiles := l.tiles[..row] + l.tiles[row + 1..];
      var current := if l.current > row then l.current - 1
                     else if l.current == row then (if row < |tiles| then row else row - 1)
                     else l.current;
      var r := TileList(tiles, l.selected - {l.tiles[row].id}, current, l.nextId);
      if ListValid(l) then TakeItemValid(l, row, r); r else r
  }

  lemma TakeItemValid(l: TileList, row: nat, r: TileList)
    requires ListValid(l) && row < |l.tiles|
    requires r.tiles == l.tiles[..row] + l.tiles[row + 1..] && r.selected == l.selected - {l.tiles[row].id}
    requires r.nextId == l.nextId && -1 <= r.current < |r.tiles|
    ensures ListValid(r)
  {
    var ids := Ids(l.tiles);
    assert Ids(r.tiles) == ids[..row] + ids[row + 1..];
    forall i, j | 0 <= i < j < |r.tiles|
      ensures Ids(r.tiles)[i] != Ids(r.tiles)[j]
    {
      var i' := if i < row then i else i + 1;
      var j' := if j < row then j else j + 1;
      assert Ids(r.tiles)[i] == ids[i'] && Ids(r.tiles)[j] == ids[j'];
    }
    forall id | id in r.selected
      ensures id in Ids(r.tiles)
    {
      var k :| 0 <= k < |l.tiles| && ids[k] == id;
      assert k != row;
      if k < row { assert Ids(r.tiles)[k] == id; } else { assert Ids(r.tiles)[k - 1] == id; }
    }
  }

  /** The row holding the tile `id`, or |tiles| when there is none. */
  function RowOf(tiles: seq<Tile>, id: nat): (k: nat)
    ensures k <= |tiles|
    ensures k < |tiles| ==> tiles[k].id == id
    ensures forall j :: 0 <= j < k ==> tiles[j].id != id
  {
    if tiles == [] then 0
    else if tiles[0].id == id then 0
    else 1 + RowOf(tiles[1..], id)
  }

  /** `del_item(item)`: the scan over the rows, counted once at the start,
      takes the row holding the item; the other tiles keep their order. */
  method DelItem(l: TileList, id: nat) returns (r: TileList)
    requires ListValid(l)
    ensures r == TakeItem(l, RowOf(l.tiles, id))
    ensures ListValid(r)
  {
    var k := RowOf(l.tiles, id);
    var count := |l.tiles|;
    r := l;
    var i := 0;
    while i < count
      invariant 0 <= i <= count
      invariant i <= k ==> r == l
      invariant i > k ==> r == TakeItem(l, k)
    {
      if i < |r.tiles| && r.tiles[i].id == id {
        r := TakeItem(r, i);
      }
      i := i + 1;
    }
  }

  /** The tiles outside `sel`, in their order. */
  function Unselected(tiles: seq<Tile>, sel: set<nat>): (r: seq<Tile>)
    ensures |r| <= |tiles|
    ensures forall t :: t in r <==> t in tiles && t.id !in sel
  {
    if tiles == [] then []
    else (if tiles[0].id in sel then [] else [tiles[0]]) + Unselected(tiles[1..], sel)
  }

  /** Filtering twice is filtering once by both sets. */
  lemma {:induction false} UnselectedTwice(tiles: seq<Tile>, d: set<nat>, e: set<nat>)
    ensures Unselected(Unselected(tiles, d), e) == Unselected(tiles, d + e)
  {
    if tiles != [] {
      UnselectedTwice(tiles[1..], d, e);
      var head := if tiles[0].id in d then [] else [tiles[0]];
      UnselectedAppend(head, Unselected(tiles[1..], d), e);
      if tiles[0].id !in d {
        assert Unselected(head, e) == if tiles[0].id in e then [] else [tiles[0]] by {
          assert head[1..] == [];
        }
      }
    }
  }

  lemma {:induction false} UnselectedAppend(a: seq<Tile>, b: seq<Tile>, e: set<nat>)
    ensures Unselected(a + b, e) == Unselected(a, e) + Unselected(b, e)
  {
    if a == [] {
      assert a + b == b;
    } else {
      assert (a + b)[1..] == a[1..] + b;
      UnselectedAppend(a[1..], b, e);
    }
  }

  /** The tiles with the row of `id` taken out, when there is one. */
  function Without(f: seq<Tile>, id: nat): seq<Tile>
  {
    var k := RowOf(f, id);
    if k < |f| then f[..k] + f[k + 1..] else f
  }

  /** With distinct items, taking the row of `id` filters `id` out. */
  lemma {:induction false} TakeRowOf(f: seq<Tile>, id: nat)
    requires Distinct(Ids(f))
    ensures Without(f, id) == Unselected(f, {id})
  {
    if f == [] {
    } else if f[0].id == id {
      TakeFirstRow(f, id);
    } else {
      assert Ids(f[1..]) == Ids(f)[1..];
      TakeRowOf(f[1..], id);
      WithoutCons(f, id);
      UnselectedCons(f, {id});
    }
  }

  lemma TakeFirstRow(f: seq<Tile>, id: nat)
    requires Distinct(Ids(f)) && f != [] && f[0].id == id
    ensures Without(f, id) == Unselected(f, {id})
  {
    forall j | 0 <= j < |f[1..]|
      ensures f[1..][j].id !in {id}
    {
      assert Ids(f)[0] != Ids(f)[j + 1];
    }
    UnselectedKeepsAll(f[1..], {id});
    assert Without(f, id) == f[1..];
  }

  lemma WithoutCons(f: seq<Tile>, id: nat)
    requires f != [] && f[0].id != id
    ensures Without(f, id) == [f[0]] + Without(f[1..], id)
  {
    var tail := f[1..];
    var k := RowOf(tail, id);
    assert RowOf(f, id) == k + 1;
    if k < |tail| {
      assert f[..k + 1] + f[k + 2..] == [f[0]] + (tail[..k] + tail[k + 1..]);
    } else {
      assert f == [f[0]] + tail;
    }
  }

  lemma UnselectedCons(f: seq<Tile>, sel: set<nat>)
    requires f != [] && f[0].id !in sel
    ensures Unselected(f, sel) == [f[0]] + Unselected(f[1..], sel)
  {
  }

  lemma {:induction false} UnselectedKeepsAll(ts: seq<Tile>, e: set<nat>)
    requires forall j :: 0 <= j < |ts| ==> ts[j].id !in e
    ensures Unselected(ts, e) == ts
  {
    if ts != [] {
      UnselectedKeepsAll(ts[1..], e);
      assert [ts[0]] + ts[1..] == ts;
    }
  }

  /** `del_listitem`: every selected tile is deleted, one `del_item` per tile
      of the selection, in whatever order the selection lists them. */
  method DelListItem(l: TileList) returns (r: TileList)
    requires ListValid(l)
    ensures r.tiles == Unselected(l.tiles, l.selected)
    ensures r.selected == {}
    ensures ListValid(r)
  {
    r := l;
    var pending := l.selected;
    UnselectedKeepsAll(l.tiles, {});
    assert l.selected - pending == {};
    while pending != {}
      invariant ListValid(r)
      invariant pending <= l.selected
      invariant r.tiles == Unselected(l.tiles, l.selected - pending)
      invariant r.selected == pending
      decreases |pending|
    {
      var id :| id in pending;
      var next := DelItem(r, id);
      DelListStep(l, pending, id, r, next);
      r := next;
      pending := pending - {id};
    }
    assert l.selected - pending == l.selected;
  }

  lemma DelListStep(l: TileList, pending: set<nat>, id: nat, r: TileList, next: TileList)
    requires ListValid(r) && pending <= l.selected && id in pending
    requires r.tiles == Unselected(l.tiles, l.selected - pending) && r.selected == pending
    requires next == TakeItem(r, RowOf(r.tiles, id))
    ensures next.tiles == Unselected(l.tiles, l.selected - (pending - {id}))
    ensures next.selected == pending - {id}
  {
    RowOfPresent(r.tiles, id);
    TakeRowOf(r.tiles, id);
    var done := l.selected - pending;
    UnselectedTwice(l.tiles, done, {id});
    SelectionStep(l.selected, pending, id);
  }

  lemma RowOfPresent(tiles: seq<Tile>, id: nat)
    requires id in Ids(tiles)
    ensures RowOf(tiles, id) < |tiles|
  {
    var j :| 0 <= j < |tiles| && Ids(tiles)[j] == id;
    assert RowOf(tiles, id) <= j;
  }

  lemma SelectionStep(sel: set<nat>, pending: set<nat>, id: nat)
    requires id in pending && pending <= sel
    ensures (sel - pending) + {id} == sel - (pending - {id})
  {
  }

  /** `add_listitem`: an empty tile at the end, which becomes the current row
      and the only selected tile. */
  function AddListItem(l: TileList): (r: TileList)
    ensures r.tiles == l.tiles + [Tile(l.nextId, "", true)]
    ensures r.selected == {l.nextId} && r.current == |l.tiles|
    ensures ListValid(l) ==> ListValid(r)
  {
    var added := AddItem(l, "");
    assert Ids(added.tiles)[|l.tiles|] == l.nextId;
    added.(selected := {l.nextId}, current := |l.tiles|)
  }

  /** Tiles `texts` as the drop creates them: fresh items without the editable flag. */
  function DroppedTiles(start: nat, texts: seq<string>): (ts: seq<Tile>)
    ensures |ts| == |texts|
    ensures forall i :: 0 <= i < |texts| ==> ts[i] == Tile(start + i, texts[i], false)
  {
    seq(|texts|, i requires 0 <= i < |texts| => Tile(start + i, texts[i], false))
  }

  /** The row a drop inserts at: `row` when it is one of the list's
      positions, the end otherwise. */
  function DropRow(l: TileList, row: int): (at: nat)
    ensures at <= |l.tiles|
    ensures 0 <= row <= |l.tiles| ==> at == row
  {
    if 0 <= row <= |l.tiles| then row else |l.tiles|
  }

  /** The list view's own drop handling: the dragged texts become new tiles at
      `row`, or at the end when the row is not one of the list's positions. */
  function InsertDropped(l: TileList, row: int, dragged: seq<string>): (r: TileList)
    ensures r.tiles == l.tiles[..DropRow(l, row)] + DroppedTiles(l.nextId, dragged) + l.tiles[DropRow(l, row)..]
    ensures r.selected == l.selected
    ensures ListValid(l) ==> ListValid(r)
  {
    var at := DropRow(l, row);
    var news := DroppedTiles(l.nextId, dragged);
    var tiles := l.tiles[..at] + news + l.tiles[at..];
    var current := if l.current >= at then l.current + |dragged| else l.current;
    var r := TileList(tiles, l.selected, current, l.nextId + |dragged|);
    if ListValid(l) then InsertDroppedValid(l, at, news, r); r else r
  }

  lemma InsertDroppedValid(l: TileList, at: nat, news: seq<Tile>, r: TileList)
    requires ListValid(l) && at <= |l.tiles|
    requires forall i :: 0 <= i < |news| ==> news[i].id == l.nextId + i
    requires r.tiles == l.tiles[..at] + news + l.tiles[at..] && r.selected == l.selected
    requires r.nextId == l.nextId + |news| && -1 <= r.current < |r.tiles|
    ensures ListValid(r)
  {
    var ids := Ids(l.tiles);
    assert Ids(r.tiles) == ids[..at] + Ids(news) + ids[at..];
    FreshIds(ids, Ids(news), at, l.nextId);
    forall i | 0 <= i < |r.tiles|
      ensures r.tiles[i].id < r.nextId
    {
      assert r.tiles[i].id == Ids(r.tiles)[i];
    }
    forall id | id in r.selected
      ensures id in Ids(r.tiles)
    {
      assert id in ids;
    }
  }

  /** New identities, all at least `bound`, spliced among old ones below it stay distinct. */
  lemma FreshIds(xs: seq<nat>, ys: seq<nat>, at: nat, bound: nat)
    requires Distinct(xs) && at <= |xs| && forall i :: 0 <= i < |xs| ==> xs[i] < bound
    requires forall i :: 0 <= i < |ys| ==> ys[i] == bound + i
    ensures Distinct(xs[..at] + ys + xs[at..])
    ensures forall i :: 0 <= i < |xs[..at] + ys + xs[at..]| ==> (xs[..at] + ys + xs[at..])[i] < bound + |ys|
  {
    var zs := xs[..at] + ys + xs[at..];
    var n := |ys|;
    forall i | 0 <= i < |zs|
      ensures zs[i] == if i < at then xs[i] else if i < at + n then bound + (i - at) else xs[i - n]
    {
    }
  }


  /** The list with every tile's editable flag set. */
  function Editable(l: TileList): TileList {
    l.(tiles := seq(|l.tiles|, i requires 0 <= i < |l.tiles| => l.tiles[i].(editable := true)))
  }

  /** The loop setting the editable flag on every tile after a drop (xban/board.py). */
  method MakeEditable(l: TileList) returns (r: TileList)
    ensures r == Editable(l)
    ensures |r.tiles| == |l.tiles|
    ensures forall i :: 0 <= i < |l.tiles| ==> r.tiles[i] == l.tiles[i].(editable := true)
    ensures r.selected == l.selected && r.current == l.current && r.nextId == l.nextId
    ensures Ids(r.tiles) == Ids(l.tiles) && Texts(r.tiles) == Texts(l.tiles)
    ensures ListValid(l) ==> ListValid(r)
  {
    var tiles := l.tiles;
    for i := 0 to |tiles|
      invariant |tiles| == |l.tiles|
      invariant forall j :: 0 <= j < i ==> tiles[j] == l.tiles[j].(editable := true)
      invariant forall j :: i <= j < |tiles| ==> tiles[j] == l.tiles[j]
    {
      tiles := tiles[i := tiles[i].(editable := true)];
    }
    r := l.(tiles := tiles);
    assert Ids(r.tiles) == Ids(l.tiles);
    assert Texts(r.tiles) == Texts(l.tiles);
  }

  /** The list a sub-board starts with: one editable tile per text, nothing selected. */
  function FromTexts(texts: seq<string>): (l: TileList)
    ensures Texts(l.tiles) == texts
    ensures forall i :: 0 <= i < |l.tiles| ==> l.tiles[i].editable
    ensures l.selected == {} && l.current == -1
    ensures ListValid(l)
  {
    var l := TileList(seq(|texts|, i requires 0 <= i < |texts| => Tile(i, texts[i], true)), {}, -1, |texts|);
    assert Texts(l.tiles) == texts;
    l
  }

  /** The sub-board `SubBoard.__init__` builds: its list holds one editable
      tile per text. */
  function Built(id: nat, title: string, texts: seq<string>, color: string): (b: SubBoard)
    ensures b.title == title && b.color == color && Texts(b.list.tiles) == texts
    ensures ListValid(b.list)
    ensures b.list.selected == {} && b.list.current == -1
  {
    SubBoard(id, title, color, FromTexts(texts))
  }

  /** `SubBoard.__init__`: the list filled tile by tile with `add_item`. */
  method NewSubBoard(id: nat, title: string, texts: seq<string>, color: string) returns (b: SubBoard)
    ensures b == Built(id, title, texts, color)
  {
    var list := EmptyList;
    for i := 0 to |texts|
      invariant list == FromTexts(texts[..i])
    {
      list := AddItem(list, texts[i]);
      assert list.tiles == FromTexts(texts[..i + 1]).tiles;
    }
    assert texts[..|texts|] == texts;
    b := SubBoard(id, title, color, list);
  }

  /** `SubBoard.parse`: the title and the tile texts in row order. The title
      is returned as stored; the normalisation `toPlainText` applies to it
      is not modelled. */
  function Parse(b: SubBoard): (r: (string, seq<string>))
    ensures r.0 == b.title && |r.1| == |b.list.tiles|
    ensures forall i :: 0 <= i < |r.1| ==> r.1[i] == b.list.tiles[i].text
  {
    (b.title, Texts(b.list.tiles))
  }

  /** A sub-board parses back to the title and texts it was built from. */
  lemma ParseNewSubBoard(id: nat, title: string, texts: seq<string>, color: string)
    ensures Parse(Built(id, title, texts, color)) == (title, texts)
  {
  }

  /** After `add_listitem` the sub-board parses to one more, empty, tile. */
  lemma ParseAddListItem(b: SubBoard)
    ensures Parse(b.(list := AddListItem(b.list))).1 == Parse(b).1 + [""]
  {
    assert Texts(b.list.tiles + [Tile(b.list.nextId, "", true)]) == Texts(b.list.tiles) + [""];
  }
}
