/** The horizontal layout of a board: its sub-boards in order, then the "+"
    button (xban/board.py, xban/gui.py). */
module Layout {
  import opened YamlValues
  import opened Tiles
  import opened Io

  datatype LayoutItem = Board(sub: SubBoard) | PlusButton

  /** The sub-boards of a layout, in layout order. */
  function Boards(items: seq<LayoutItem>): (bs: seq<SubBoard>)
    ensures |bs| <= |items|
  {
    if items == [] then []
    else (if items[0].Board? then [items[0].sub] else []) + Boards(items[1..])
  }

  function BoardIds(bs: seq<SubBoard>): (ids: seq<nat>)
    ensures |ids| == |bs|
    ensures forall i :: 0 <= i < |bs| ==> ids[i] == bs[i].id
  {
    seq(|bs|, i requires 0 <= i < |bs| => bs[i].id)
  }

  /** Sub-boards first, each a distinct widget, and the "+" button last. */
  predicate WellFormed(items: seq<LayoutItem>) {
    |items| >= 1 && items[|items| - 1].PlusButton? &&
    (forall i :: 0 <= i < |items| - 1 ==> items[i].Board?) &&
    Distinct(BoardIds(Boards(items)))
  }

  lemma {:induction false} BoardsAppend(a: seq<LayoutItem>, b: seq<LayoutItem>)
    ensures Boards(a + b) == Boards(a) + Boards(b)
  {
    if a == [] {
      assert a + b == b;
    } else {
      var head := if a[0].Board? then [a[0].sub] else [];
      assert (a + b)[0] == a[0];
      assert (a + b)[1..] == a[1..] + b;
      BoardsAppend(a[1..], b);
      assert Boards(a + b) == head + Boards(a[1..] + b);
      assert Boards(a) == head + Boards(a[1..]);
    }
  }

  lemma BoardsSingle(x: LayoutItem)
    ensures Boards([x]) == if x.Board? then [x.sub] else []
  {
    assert [x][1..] == [];
  }

  /** In a well-formed layout, item i < count - 1 is sub-board i. */
  lemma {:induction false} BoardsOfWellFormed(items: seq<LayoutItem>)
    requires |items| >= 1 && items[|items| - 1].PlusButton?
    requires forall i :: 0 <= i < |items| - 1 ==> items[i].Board?
    ensures |Boards(items)| == |items| - 1
    ensures forall i :: 0 <= i < |items| - 1 ==> Boards(items)[i] == items[i].sub
  {
    if |items| > 1 {
      BoardsOfWellFormed(items[1..]);
    } else {
      BoardsSingle(items[0]);
    }
  }

  /** `QBoxLayout.insertWidget(index, w)` for a widget not yet in the layout:
      a negative index appends. */
  function QtInsert(items: seq<LayoutItem>, index: int, x: LayoutItem): (r: seq<LayoutItem>)
    requires index <= |items|
    ensures |r| == |items| + 1
    ensures var at := if index < 0 then |items| else index;
      r[at] == x && r[..at] == items[..at] && r[at + 1..] == items[at..]
  {
    var at := if index < 0 then |items| else index;
    items[..at] + [x] + items[at..]
  }

  /** The position of the sub-board widget `id`, or |items| when it is not there. */
  function PositionOf(items: seq<LayoutItem>, id: nat): (k: nat)
    ensures k <= |items|
    ensures k < |items| ==> items[k].Board? && items[k].sub.id == id
  {
    if items == [] then 0
    else if items[0].Board? && items[0].sub.id == id then 0
    else 1 + PositionOf(items[1..], id)
  }

  /** `removeWidget(board)`: the widget's item leaves the layout; the others keep their order. */
  function RemoveWidget(items: seq<LayoutItem>, id: nat): (r: seq<LayoutItem>)
    ensures PositionOf(items, id) == |items| ==> r == items
    ensures PositionOf(items, id) < |items| ==>
      r == items[..PositionOf(items, id)] + items[PositionOf(items, id) + 1..]
  {
    var k := PositionOf(items, id);
    if k < |items| then items[..k] + items[k + 1..] else items
  }

  function Min(a: int, b: int): int { if a <= b then a else b }

  /** `insertWidget(index, w)` for a widget already in the layout: Qt first
      takes it out of its old place, then inserts it at `index` of what is left. */
  function QtMove(items: seq<LayoutItem>, id: nat, index: int): (r: seq<LayoutItem>)
    requires PositionOf(items, id) < |items| && index <= |items| - 1
    ensures |r| == |items|
  {
    var k := PositionOf(items, id);
    QtInsert(RemoveWidget(items, id), index, items[k])
  }

  /** `dropEvent` as written: the drop index is clamped to count - 1, counted
      before Qt takes the widget out. */
  function DropAsWritten(items: seq<LayoutItem>, id: nat, hit: int): seq<LayoutItem>
    requires PositionOf(items, id) < |items| && hit < |items|
  {
    if hit >= 0 then QtMove(items, id, Min(hit, |items| - 1)) else items
  }

  /** Dropping the only sub-board on the "+" button puts it after the button. */
  lemma DropOnPlusAsWritten(b: SubBoard)
    ensures WellFormed([Board(b), PlusButton])
    ensures DropAsWritten([Board(b), PlusButton], b.id, 1) == [PlusButton, Board(b)]
    ensures !WellFormed(DropAsWritten([Board(b), PlusButton], b.id, 1))
  {
    var items := [Board(b), PlusButton];
    BoardsOfWellFormed(items);
    assert PositionOf(items, b.id) == 0;
    assert RemoveWidget(items, b.id) == [PlusButton];
  }

  /** The intended drop: the index is clamped to the last place before the
      "+" button once the widget has been taken out. */
  function Drop(items: seq<LayoutItem>, id: nat, hit: int): (r: seq<LayoutItem>)
    requires PositionOf(items, id) < |items| && items[|items| - 1].PlusButton? && hit < |items|
    ensures |r| == |items|
  {
    if hit >= 0 then QtMove(items, id, Min(hit, |items| - 2)) else items
  }

  /** The correction only changes drops on the "+" button. */
  lemma DropAgreesBeforePlus(items: seq<LayoutItem>, id: nat, hit: int)
    requires PositionOf(items, id) < |items| && items[|items| - 1].PlusButton? && hit < |items| - 1
    ensures Drop(items, id, hit) == DropAsWritten(items, id, hit)
  {
  }

  /** A board can be dropped when -1 <= hit < count; the result is again
      well formed, holds the same sub-boards, and the moved one sits at the
      hit position, or last before "+" when it was dropped on "+". */
  lemma DropWellFormed(items: seq<LayoutItem>, id: nat, hit: int)
    requires WellFormed(items) && PositionOf(items, id) < |items| && -1 <= hit < |items|
    ensures WellFormed(Drop(items, id, hit))
    ensures multiset(Boards(Drop(items, id, hit))) == multiset(Boards(items))
    ensures hit >= 0 ==> Drop(items, id, hit)[Min(hit, |items| - 2)] == items[PositionOf(items, id)]
  {
    if hit >= 0 {
      DropSplice(items, id, hit);
      var k, index := PositionOf(items, id), Min(hit, |items| - 2);
      MoveShape(items, k, index);
      MoveBoards(items, k, index);
    }
  }

  /** Item k taken out and put back at `index` of what is left. */
  function Moved(items: seq<LayoutItem>, k: nat, index: nat): seq<LayoutItem>
    requires k < |items| && index <= |items| - 1
  {
    var rest := items[..k] + items[k + 1..];
    rest[..index] + [items[k]] + rest[index..]
  }

  /** A drop takes the widget out and puts it back at the clamped index. */
  lemma DropSplice(items: seq<LayoutItem>, id: nat, hit: int)
    requires PositionOf(items, id) < |items| && items[|items| - 1].PlusButton? && 0 <= hit < |items|
    ensures PositionOf(items, id) < |items| - 1
    ensures Drop(items, id, hit) == Moved(items, PositionOf(items, id), Min(hit, |items| - 2))
  {
    var k := PositionOf(items, id);
    var rest := RemoveWidget(items, id);
    assert rest == items[..k] + items[k + 1..];
    var index := Min(hit, |items| - 2);
    assert Drop(items, id, hit) == QtInsert(rest, index, items[k]);
  }

  /** Moving a widget of a layout from k to index, before the last item. */
  lemma MoveShape(items: seq<LayoutItem>, k: nat, index: nat)
    requires |items| >= 1 && items[|items| - 1].PlusButton?
    requires forall i :: 0 <= i < |items| - 1 ==> items[i].Board?
    requires k < |items| - 1 && index <= |items| - 2
    ensures |Moved(items, k, index)| == |items|
    ensures Moved(items, k, index)[|items| - 1].PlusButton?
    ensures forall i :: 0 <= i < |items| - 1 ==> Moved(items, k, index)[i].Board?
    ensures Moved(items, k, index)[index] == items[k]
  {
    var rest := items[..k] + items[k + 1..];
    var r := Moved(items, k, index);
    assert r == rest[..index] + [items[k]] + rest[index..];
    forall i | 0 <= i < |r| - 1
      ensures r[i].Board?
    {
      if i > index {
        assert r[i] == rest[i - 1];
      }
    }
  }

  lemma {:induction false} MoveBoards(items: seq<LayoutItem>, k: nat, index: nat)
    requires k < |items| && items[k].Board? && index <= |items| - 1
    requires Distinct(BoardIds(Boards(items)))
    ensures multiset(Boards(Moved(items, k, index))) == multiset(Boards(items))
    ensures Distinct(BoardIds(Boards(Moved(items, k, index))))
  {
    var rest := items[..k] + items[k + 1..];
    var r := Moved(items, k, index);
    assert r == rest[..index] + [items[k]] + rest[index..];
    var x := items[k];
    var p, q := Boards(items[..k]), Boards(items[k + 1..]);
    var u, v := Boards(rest[..index]), Boards(rest[index..]);
    SplitBoards(items, k);
    BoardsAppend(items[..k], items[k + 1..]);
    assert Boards(items) == p + [x.sub] + q;
    assert Boards(rest) == p + q;
    assert rest == rest[..index] + rest[index..];
    BoardsAppend(rest[..index], rest[index..]);
    assert p + q == u + v;
    SplitBoardsAt(rest, index, x, r);
    assert Boards(r) == u + [x.sub] + v;
    Reinsert(p, q, u, v, x.sub);
  }

  /** Taking x out from between p and q and putting it back between u and v,
      where u + v == p + q, keeps the boards and their distinct ids. */
  lemma Reinsert(p: seq<SubBoard>, q: seq<SubBoard>, u: seq<SubBoard>, v: seq<SubBoard>, x: SubBoard)
    requires p + q == u + v && Distinct(BoardIds(p + [x] + q))
    ensures multiset(u + [x] + v) == multiset(p + [x] + q)
    ensures Distinct(BoardIds(u + [x] + v))
  {
    calc {
      multiset(u + [x] + v);
      multiset(u) + multiset{x} + multiset(v);
      multiset(u + v) + multiset{x};
      multiset(p + q) + multiset{x};
      multiset(p + [x] + q);
    }
    IdsSplice(p, x, q);
    IdsSplice(u, x, v);
    BoardIdsAppend(p, q);
    BoardIdsAppend(u, v);
    DistinctRemove(BoardIds(p), x.id, BoardIds(q));
    DistinctInsert(BoardIds(u), x.id, BoardIds(v));
  }

  lemma SplitBoards(items: seq<LayoutItem>, k: nat)
    requires k < |items| && items[k].Board?
    ensures Boards(items) == Boards(items[..k]) + [items[k].sub] + Boards(items[k + 1..])
  {
    assert items == items[..k] + [items[k]] + items[k + 1..];
    BoardsAppend(items[..k] + [items[k]], items[k + 1..]);
    BoardsAppend(items[..k], [items[k]]);
    BoardsSingle(items[k]);
  }

  lemma SplitBoardsAt(rest: seq<LayoutItem>, index: nat, x: LayoutItem, r: seq<LayoutItem>)
    requires index <= |rest| && x.Board? && r == rest[..index] + [x] + rest[index..]
    ensures Boards(r) == Boards(rest[..index]) + [x.sub] + Boards(rest[index..])
  {
    BoardsAppend(rest[..index] + [x], rest[index..]);
    BoardsAppend(rest[..index], [x]);
    BoardsSingle(x);
  }

  lemma IdsSplice(p: seq<SubBoard>, x: SubBoard, q: seq<SubBoard>)
    ensures BoardIds(p + [x] + q) == BoardIds(p) + [x.id] + BoardIds(q)
  {
  }

  lemma BoardIdsAppend(a: seq<SubBoard>, b: seq<SubBoard>)
    ensures BoardIds(a + b) == BoardIds(a) + BoardIds(b)
  {
  }

  lemma DistinctRemove<T>(p: seq<T>, x: T, q: seq<T>)
    requires Distinct(p + [x] + q)
    ensures Distinct(p + q) && x !in p + q
  {
    var s := p + [x] + q;
    forall i, j | 0 <= i < j < |p + q|
      ensures (p + q)[i] != (p + q)[j]
    {
      var i', j' := if i < |p| then i else i + 1, if j < |p| then j else j + 1;
      assert (p + q)[i] == s[i'] && (p + q)[j] == s[j'];
    }
    forall i | 0 <= i < |p + q|
      ensures (p + q)[i] != x
    {
      var i' := if i < |p| then i else i + 1;
      assert (p + q)[i] == s[i'] && s[|p|] == x;
    }
  }

  lemma DistinctInsert<T>(p: seq<T>, x: T, q: seq<T>)
    requires Distinct(p + q) && x !in p + q
    ensures Distinct(p + [x] + q)
  {
    var s := p + [x] + q;
    forall i, j | 0 <= i < j < |s|
      ensures s[i] != s[j]
    {
      if i != |p| && j != |p| {
        var i', j' := if i < |p| then i else i - 1, if j < |p| then j else j - 1;
        assert s[i] == (p + q)[i'] && s[j] == (p + q)[j'];
      } else if i == |p| {
        assert s[j] == (p + q)[j - 1];
      } else {
        assert s[i] == (p + q)[i];
      }
    }
  }

  /** In a well-formed layout a sub-board widget is found exactly when its id is a board id. */
  lemma PositionInWellFormed(items: seq<LayoutItem>, id: nat)
    requires WellFormed(items)
    ensures |Boards(items)| == |items| - 1
    ensures PositionOf(items, id) < |items| <==> id in BoardIds(Boards(items))
    ensures PositionOf(items, id) < |items| ==>
      (PositionOf(items, id) < |items| - 1 &&
       Boards(items)[PositionOf(items, id)] == items[PositionOf(items, id)].sub)
  {
    BoardsOfWellFormed(items);
    var bs := Boards(items);
    if id in BoardIds(bs) {
      var i :| 0 <= i < |bs| && BoardIds(bs)[i] == id;
      assert items[i].Board? && items[i].sub.id == id;
      PositionOfFirst(items, id, i);
    }
  }

  /** The search stops at the first sub-board with that identity. */
  lemma {:induction false} PositionOfFirst(items: seq<LayoutItem>, id: nat, i: nat)
    requires i < |items| && items[i].Board? && items[i].sub.id == id
    ensures PositionOf(items, id) <= i
  {
    if i > 0 && !(items[0].Board? && items[0].sub.id == id) {
      PositionOfFirst(items[1..], id, i - 1);
    }
  }

  /** `insert_board`: `insertWidget(count - 1, board)` puts a new sub-board
      last, just before the "+" button. */
  lemma InsertBeforePlus(items: seq<LayoutItem>, b: SubBoard)
    requires WellFormed(items) && b.id !in BoardIds(Boards(items))
    ensures WellFormed(QtInsert(items, |items| - 1, Board(b)))
    ensures Boards(QtInsert(items, |items| - 1, Board(b))) == Boards(items) + [b]
  {
    var n := |items|;
    var r := QtInsert(items, n - 1, Board(b));
    assert forall i :: 0 <= i < n - 1 ==> r[i] == items[i];
    assert r[n - 1] == Board(b) && r[n] == PlusButton;
    BoardsOfWellFormed(items);
    BoardsOfWellFormed(r);
    assert Boards(r) == Boards(items) + [b];
    BoardIdsAppend(Boards(items), [b]);
    DistinctInsert(BoardIds(Boards(items)), b.id, []);
    assert BoardIds(Boards(items)) + [b.id] + [] == BoardIds(Boards(r));
  }

  /** `delete_board`: removing a sub-board keeps the layout well formed and
      drops exactly that sub-board. */
  lemma RemoveWellFormed(items: seq<LayoutItem>, id: nat)
    requires WellFormed(items)
    ensures WellFormed(RemoveWidget(items, id))
    ensures id !in BoardIds(Boards(items)) ==> RemoveWidget(items, id) == items
    ensures id in BoardIds(Boards(items)) ==>
      |Boards(RemoveWidget(items, id))| == |Boards(items)| - 1
    ensures forall b :: b in Boards(RemoveWidget(items, id)) <==> b in Boards(items) && b.id != id
  {
    PositionInWellFormed(items, id);
    var k := PositionOf(items, id);
    if k < |items| {
      var bs := Boards(items);
      RemoveShape(items, k);
      RemoveAt(bs, k);
    } else {
      NoBoardWithId(Boards(items), id);
    }
  }

  /** Taking out item k < count - 1 keeps sub-boards first and "+" last. */
  lemma RemoveShape(items: seq<LayoutItem>, k: nat)
    requires |items| >= 1 && items[|items| - 1].PlusButton?
    requires forall i :: 0 <= i < |items| - 1 ==> items[i].Board?
    requires k < |items| - 1
    ensures |Boards(items)| == |items| - 1
    ensures Boards(items[..k] + items[k + 1..]) == Boards(items)[..k] + Boards(items)[k + 1..]
    ensures var r := items[..k] + items[k + 1..];
      |r| >= 1 && r[|r| - 1].PlusButton? && forall i :: 0 <= i < |r| - 1 ==> r[i].Board?
  {
    var r := items[..k] + items[k + 1..];
    forall i | 0 <= i < |r| - 1
      ensures r[i].Board?
    {
      if i >= k {
        assert r[i] == items[i + 1];
      }
    }
    BoardsOfWellFormed(items);
    BoardsOfWellFormed(r);
    var bs := Boards(items);
    forall i | 0 <= i < |r| - 1
      ensures Boards(r)[i] == (bs[..k] + bs[k + 1..])[i]
    {
      if i >= k {
        assert r[i] == items[i + 1];
      }
    }
  }

  /** Removing the board at k, whose id is unique, removes exactly the boards with that id. */
  lemma RemoveAt(bs: seq<SubBoard>, k: nat)
    requires k < |bs| && Distinct(BoardIds(bs))
    ensures Distinct(BoardIds(bs[..k] + bs[k + 1..]))
    ensures forall b :: b in bs[..k] + bs[k + 1..] <==> b in bs && b.id != bs[k].id
  {
    var p, q := bs[..k], bs[k + 1..];
    assert bs == p + [bs[k]] + q;
    IdsSplice(p, bs[k], q);
    BoardIdsAppend(p, q);
    DistinctRemove(BoardIds(p), bs[k].id, BoardIds(q));
    forall b: SubBoard | b in bs && b.id == bs[k].id
      ensures b == bs[k]
    {
      var i :| 0 <= i < |bs| && bs[i] == b;
      assert BoardIds(bs)[i] == BoardIds(bs)[k];
    }
    forall b: SubBoard | b in p + q
      ensures b.id != bs[k].id
    {
      var i :| 0 <= i < |p + q| && (p + q)[i] == b;
      assert BoardIds(p + q)[i] == b.id;
    }
  }

  lemma NoBoardWithId(bs: seq<SubBoard>, id: nat)
    requires id !in BoardIds(bs)
    ensures forall b :: b in bs ==> b.id != id
  {
    forall b | b in bs
      ensures b.id != id
    {
      var i :| 0 <= i < |bs| && bs[i] == b;
      assert BoardIds(bs)[i] == b.id;
    }
  }

  /** A point and a `QRect` given by its corners, as `QRect.contains` reads
      them: x2 = x1 + width - 1, and a rectangle whose corners are swapped by
      more than one unit is normalised. */
  datatype Point = Point(x: int, y: int)
  datatype Rect = Rect(x1: int, y1: int, x2: int, y2: int)

  predicate Between(lo: int, hi: int, v: int) {
    if hi < lo - 1 then hi <= v <= lo else lo <= v <= hi
  }

  predicate Contains(r: Rect, p: Point) {
    Between(r.x1, r.x2, p.x) && Between(r.y1, r.y2, p.y)
  }

  /** `get_index(pos)`: the first layout item whose geometry holds the point, or -1. */
  method GetIndex(geometry: seq<Rect>, pos: Point) returns (index: int)
    ensures -1 <= index < |geometry|
    ensures index >= 0 ==> Contains(geometry[index], pos)
    ensures index >= 0 ==> forall j :: 0 <= j < index ==> !Contains(geometry[j], pos)
    ensures index == -1 ==> forall j :: 0 <= j < |geometry| ==> !Contains(geometry[j], pos)
  {
    for i := 0 to |geometry|
      invariant forall j :: 0 <= j < i ==> !Contains(geometry[j], pos)
    {
      if Contains(geometry[i], pos) {
        return i;
      }
    }
    return -1;
  }

  function Titles(bs: seq<SubBoard>): (ts: seq<string>)
    ensures |ts| == |bs|
    ensures forall i :: 0 <= i < |bs| ==> ts[i] == bs[i].title
  {
    seq(|bs|, i requires 0 <= i < |bs| => bs[i].title)
  }

  /** `board_color` as `parse_board` collects it: one colour per sub-board, in layout order. */
  function Colors(bs: seq<SubBoard>): (cs: seq<string>)
    ensures |cs| == |bs|
    ensures forall i :: 0 <= i < |bs| ==> cs[i] == bs[i].color
  {
    seq(|bs|, i requires 0 <= i < |bs| => bs[i].color)
  }

  /** The YAML value of one sub-board's tiles: the list of their texts. */
  function TileValue(b: SubBoard): (v: Value)
    ensures v == StrSeq(Texts(b.list.tiles))
  {
    StrSeq(Parse(b).1)
  }

  /** One `{title: tiles}` update per sub-board, in layout order. */
  function Columns(bs: seq<SubBoard>): (es: seq<Entry>)
    ensures |es| == |bs| && Keys(es) == Titles(bs)
    ensures forall i :: 0 <= i < |bs| ==> es[i] == Entry(bs[i].title, TileValue(bs[i]))
  {
    seq(|bs|, i requires 0 <= i < |bs| => Entry(bs[i].title, TileValue(bs[i])))
  }

  /** The content dict `parse_board` builds with `content.update({title: tiles})`. */
  function Content(bs: seq<SubBoard>): (c: seq<Entry>)
    ensures IsDict(c)
    ensures forall t :: t in Keys(c) <==> t in Titles(bs)
  {
    UpdatesKeys(Columns(bs));
    Updates(Columns(bs))
  }

  /** Two sub-boards with the same title collapse into one entry: the dict is
      shorter than the layout exactly when the titles repeat, and with distinct
      titles every sub-board has its own entry, in layout order. */
  lemma ContentLength(bs: seq<SubBoard>)
    ensures |Content(bs)| <= |bs|
    ensures |Content(bs)| == |bs| <==> Distinct(Titles(bs))
    ensures Distinct(Titles(bs)) ==> Content(bs) == Columns(bs)
  {
    UpdatesLength(Columns(bs));
    if Distinct(Titles(bs)) {
      UpdatesOfDict(Columns(bs));
    }
  }

  /** For a repeated title the dict keeps the tiles of the LAST sub-board with that title. */
  lemma ContentLastWins(bs: seq<SubBoard>, j: nat)
    requires j < |bs|
    requires forall i :: j < i < |bs| ==> bs[i].title != bs[j].title
    ensures Lookup(Content(bs), bs[j].title) == Some(TileValue(bs[j]))
  {
    UpdatesLastWins(Columns(bs), j);
  }

  /** The sub-board rows of a board file, as `draw_board` reads them. */
  datatype BoardConfig = BoardConfig(
    title: string, description: string, colors: seq<string>,
    columns: seq<(string, seq<string>)>)

  /** The texts `add_item` gives the items of a tile list: a string is its
      own text, and a null becomes `QListWidgetItem(None)`, an empty tile;
      any other item raises. */
  function TileStrings(items: seq<Value>): (r: Option<seq<string>>)
    ensures r.Some? <==> forall i :: 0 <= i < |items| ==> items[i].Str? || items[i].Null?
    ensures r.Some? ==> |r.value| == |items|
    ensures r.Some? ==> forall i :: 0 <= i < |items| ==>
      if items[i].Null? then r.value[i] == "" else items[i] == Str(r.value[i])
  {
    if items == [] then Some([])
    else if !(items[0].Str? || items[0].Null?) then None
    else match TileStrings(items[1..])
      case None => None
      case Some(rest) => Some([if items[0].Null? then "" else items[0].s] + rest)
  }

  /** A written tile list reads back as its texts. */
  lemma TileStringsOfStrSeq(xs: seq<string>)
    ensures TileStrings(StrSeq(xs).items) == Some(xs)
  {
    var r := TileStrings(StrSeq(xs).items);
    assert r.Some?;
    assert r.value == xs;
  }

  /** What `for tile in tile_items` walks over: the items of a list, the
      characters of a string, the keys of a mapping; anything else raises. */
  function TileTexts(v: Value): Option<seq<string>> {
    match v
    case Seq(items) => TileStrings(items)
    case Str(s) => Some(seq(|s|, i requires 0 <= i < |s| => [s[i]]))
    case Mapping(es) => Some(Keys(es))
    case _ => None
  }

  /** `content.items()` with every tile list walked. */
  function DecodeColumns(entries: seq<Entry>): (r: Option<seq<(string, seq<string>)>>)
    ensures r.Some? <==> forall i :: 0 <= i < |entries| ==> TileTexts(entries[i].val).Some?
    ensures r.Some? ==> |r.value| == |entries|
    ensures r.Some? ==> forall i :: 0 <= i < |entries| ==>
      r.value[i] == (entries[i].key, TileTexts(entries[i].val).value)
  {
    if entries == [] then Some([])
    else match (TileTexts(entries[0].val), DecodeColumns(entries[1..]))
      case (Some(texts), Some(rest)) => Some([(entries[0].key, texts)] + rest)
      case _ => None
  }

  function StrField(config: Value, key: string): Option<string> {
    if config.Mapping? then
      match Lookup(config.entries, key)
      case Some(Str(s)) => Some(s)
      case _ => None
    else None
  }

  /** `color[i]` for each of the first n column indices, where `color` is
      the config's "board_color" (a missing key raises): a list gives its
      items, which must be strings here; a string gives its characters; any
      other value is never indexed when there are no columns and raises
      otherwise. */
  function ColorField(config: Value, n: nat): (r: Option<seq<string>>)
    ensures r.Some? ==> |r.value| == n
  {
    if !config.Mapping? then None
    else match Lookup(config.entries, "board_color")
      case None => None
      case Some(Seq(items)) => if n <= |items| then Strings(items[..n]) else None
      case Some(Str(s)) => if n <= |s| then Some(seq(n, i requires 0 <= i < n => [s[i]])) else None
      case Some(_) => if n == 0 then Some([]) else None
  }

  /** `draw_board(file_config)`: the two documents unpack, the config has a
      string title and description and a "board_color" entry, every column's
      tiles walk, and `color[i]` yields a colour for every column i; the
      result holds exactly the colours the columns receive. On any other
      file drawing raises, except where a colour, the title or the
      description is a non-string value, which the model does not hold. */
  function Decode(docs: seq<Value>): (r: Option<BoardConfig>)
    ensures r.Some? ==> |docs| == 2 && HasKey(docs[0], ConfigKey) && docs[1].Mapping?
    ensures r.Some? ==> |r.value.columns| == |docs[1].entries| == |r.value.colors|
  {
    if |docs| != 2 || !HasKey(docs[0], ConfigKey) || !docs[1].Mapping? then None
    else
      var config := Lookup(docs[0].entries, ConfigKey).value;
      match (StrField(config, "title"), StrField(config, "description"),
             ColorField(config, |docs[1].entries|), DecodeColumns(docs[1].entries))
      case (Some(title), Some(description), Some(colors), Some(columns)) =>
        Some(BoardConfig(title, description, colors, columns))
      case _ => None
  }

  /** A file in the shape `parse_board` writes decodes exactly when its tiles
      walk and there are enough colours, and its columns take the leading ones. */
  lemma DecodeConfigDoc(title: string, description: string, colors: seq<string>, entries: seq<Entry>)
    ensures Decode([ConfigDoc(title, description, colors), Mapping(entries)]) ==
      match DecodeColumns(entries)
      case Some(columns) =>
        if |columns| <= |colors| then Some(BoardConfig(title, description, colors[..|columns|], columns)) else None
      case None => None
  {
    ConfigLookup(title, description, colors);
    ConfigFields(title, description, colors, |entries|);
  }

  lemma ConfigLookup(title: string, description: string, colors: seq<string>)
    ensures Lookup(ConfigDoc(title, description, colors).entries, ConfigKey) ==
      Some(Mapping(ConfigEntries(title, description, colors)))
  {
  }

  lemma ConfigFields(title: string, description: string, colors: seq<string>, n: nat)
    ensures var config := Mapping(ConfigEntries(title, description, colors));
      StrField(config, "title") == Some(title) &&
      StrField(config, "description") == Some(description) &&
      ColorField(config, n) == if n <= |colors| then Some(colors[..n]) else None
  {
    var inner := ConfigEntries(title, description, colors);
    assert IndexOf(inner, "title", 0) == 0;
    assert IndexOf(inner, "description", 0) == 1 by {
      assert inner[0].key != "description";
    }
    assert inner[0].key != "board_color" && inner[1].key != "board_color" && inner[2].key == "board_color";
    assert IndexOf(inner, "board_color", 0) == IndexOf(inner, "board_color", 1) == IndexOf(inner, "board_color", 2) == 2;
    if n <= |colors| {
      var items := StrSeq(colors).items[..n];
      assert forall i :: 0 <= i < n ==> items[i] == Str(colors[i]);
      assert Strings(items).value == colors[..n];
    }
  }

  /** A colour string is indexed character by character, and a board without
      columns never reads its colours. */
  lemma DecodeLooseColors(color: Value)
    ensures var config := Mapping([Entry("title", Str("t")), Entry("description", Str("")), Entry("board_color", color)]);
      var head := Mapping([Entry(ConfigKey, config)]);
      Decode([head, Mapping([])]) == Some(BoardConfig("t", "", [], [])) &&
      (color == Str("red") ==>
        Decode([head, Mapping([Entry("todo", Seq([]))])]) == Some(BoardConfig("t", "", ["r"], [("todo", [])])))
  {
    var config := Mapping([Entry("title", Str("t")), Entry("description", Str("")), Entry("board_color", color)]);
    var inner := config.entries;
    assert IndexOf(inner, "title", 0) == 0;
    assert inner[0].key != "description" && inner[1].key == "description";
    assert IndexOf(inner, "description", 0) == IndexOf(inner, "description", 1) == 1;
    assert inner[0].key != "board_color" && inner[1].key != "board_color" && inner[2].key == "board_color";
    assert IndexOf(inner, "board_color", 0) == IndexOf(inner, "board_color", 1) == IndexOf(inner, "board_color", 2) == 2;
    var head := Mapping([Entry(ConfigKey, config)]);
    assert IndexOf(head.entries, ConfigKey, 0) == 0;
    assert Keys(head.entries) == [ConfigKey];
    if color == Str("red") {
      var entries := [Entry("todo", Seq([]))];
      assert Lookup(inner, "board_color") == Some(Str("red"));
      var colors := ColorField(config, 1).value;
      assert colors[0] == ["red"[0]] == "r";
      assert colors == ["r"];
      assert TileTexts(entries[0].val) == Some([]);
      var columns := DecodeColumns(entries).value;
      assert |columns| == 1 && columns[0] == ("todo", []);
      assert columns == [("todo", [])];
    }
  }

  /** A null tile is drawn as an empty tile. */
  lemma DecodeNullTile()
    ensures var config := Mapping([Entry("title", Str("t")), Entry("description", Str("")),
                                   Entry("board_color", Seq([Str("red")]))]);
      Decode([Mapping([Entry(ConfigKey, config)]), Mapping([Entry("todo", Seq([Null]))])]) ==
        Some(BoardConfig("t", "", ["red"], [("todo", [""])]))
  {
    var config := Mapping([Entry("title", Str("t")), Entry("description", Str("")),
                           Entry("board_color", Seq([Str("red")]))]);
    var inner := config.entries;
    assert IndexOf(inner, "title", 0) == 0;
    assert inner[0].key != "description" && inner[1].key == "description";
    assert IndexOf(inner, "description", 0) == IndexOf(inner, "description", 1) == 1;
    assert inner[0].key != "board_color" && inner[1].key != "board_color" && inner[2].key == "board_color";
    assert IndexOf(inner, "board_color", 0) == IndexOf(inner, "board_color", 1) == IndexOf(inner, "board_color", 2) == 2;
    var head := Mapping([Entry(ConfigKey, config)]);
    assert IndexOf(head.entries, ConfigKey, 0) == 0;
    assert Keys(head.entries) == [ConfigKey];
    assert Seq([Str("red")]).items[..1] == [Str("red")];
    assert ColorField(config, 1).value == ["red"];
    var entries := [Entry("todo", Seq([Null]))];
    var texts := TileStrings([Null]);
    assert texts.Some? && |texts.value| == 1 && texts.value[0] == "";
    assert texts.value == [""];
    var columns := DecodeColumns(entries).value;
    assert columns == [("todo", [""])];
  }

  /** The default document of a new or empty file opens as an empty board. */
  lemma DecodeEmptyFile(path: string)
    ensures Decode([ConfigDoc(Paths.Title(path), "", []), Mapping([])]) ==
      Some(BoardConfig(Paths.Title(path), "", [], []))
  {
    DecodeConfigDoc(Paths.Title(path), "", [], []);
  }

  /** The sub-boards `draw_board` inserts, numbered in order. */
  function DrawnBoards(cfg: BoardConfig): (bs: seq<SubBoard>)
    requires |cfg.columns| <= |cfg.colors|
    ensures |bs| == |cfg.columns|
    ensures forall i :: 0 <= i < |bs| ==>
      bs[i] == Built(i, cfg.columns[i].0, cfg.columns[i].1, cfg.colors[i])
  {
    seq(|cfg.columns|, i requires 0 <= i < |cfg.columns| =>
      Built(i, cfg.columns[i].0, cfg.columns[i].1, cfg.colors[i]))
  }

  /** The layout holding the sub-boards `bs`, then "+". */
  function Laid(bs: seq<SubBoard>): (items: seq<LayoutItem>)
    ensures |items| == |bs| + 1
  {
    seq(|bs|, i requires 0 <= i < |bs| => Board(bs[i])) + [PlusButton]
  }

  lemma LaidWellFormed(bs: seq<SubBoard>)
    requires Distinct(BoardIds(bs))
    ensures WellFormed(Laid(bs)) && Boards(Laid(bs)) == bs
  {
    var items := Laid(bs);
    BoardsOfWellFormed(items);
    assert Boards(items) == bs;
  }

  /** The layout drawn from a config: its sub-boards, then "+". */
  function DrawnLayout(cfg: BoardConfig): (items: seq<LayoutItem>)
    requires |cfg.columns| <= |cfg.colors|
    ensures WellFormed(items) && Boards(items) == DrawnBoards(cfg)
  {
    var bs := DrawnBoards(cfg);
    assert forall i :: 0 <= i < |bs| ==> BoardIds(bs)[i] == i;
    LaidWellFormed(bs);
    Laid(bs)
  }

  /** Inserting column i's sub-board before "+" extends the layout of the
      first i columns to the first i + 1. */
  lemma DrawStep(cfg: BoardConfig, i: nat)
    requires |cfg.columns| <= |cfg.colors| && i < |cfg.columns|
    ensures var lay := Laid(DrawnBoards(cfg)[..i]);
      QtInsert(lay, |lay| - 1, Board(Built(i, cfg.columns[i].0, cfg.columns[i].1, cfg.colors[i]))) ==
      Laid(DrawnBoards(cfg)[..i + 1])
  {
    var drawn := DrawnBoards(cfg);
    LaidSnoc(drawn[..i], drawn[i]);
    assert drawn[..i + 1] == drawn[..i] + [drawn[i]];
  }

  /** Before the first column the layout is "+" alone; after the last it is the drawn layout. */
  lemma DrawEnds(cfg: BoardConfig)
    requires |cfg.columns| <= |cfg.colors|
    ensures Laid(DrawnBoards(cfg)[..0]) == [PlusButton]
    ensures Laid(DrawnBoards(cfg)[..|cfg.columns|]) == DrawnLayout(cfg)
  {
    var drawn := DrawnBoards(cfg);
    assert drawn[..|cfg.columns|] == drawn;
    assert drawn[..0] == [];
  }

  /** The two documents `parse_board` returns for a title, description and sub-boards. */
  function ParsedDocs(title: string, description: string, bs: seq<SubBoard>): seq<Value> {
    [ConfigDoc(title, description, Colors(bs)), Mapping(Content(bs))]
  }

  /** What a user sees of a sub-board: title, tile texts and colour. */
  function Summary(b: SubBoard): (string, seq<string>, string) {
    (b.title, Texts(b.list.tiles), b.color)
  }

  function Summaries(bs: seq<SubBoard>): (ss: seq<(string, seq<string>, string)>)
    ensures |ss| == |bs|
    ensures forall i :: 0 <= i < |bs| ==> ss[i] == Summary(bs[i])
  {
    seq(|bs|, i requires 0 <= i < |bs| => Summary(bs[i]))
  }

  /** Every column `parse_board` writes walks back as the texts it was written from. */
  lemma DecodeContent(bs: seq<SubBoard>)
    ensures DecodeColumns(Content(bs)).Some?
    ensures Distinct(Titles(bs)) ==>
      DecodeColumns(Content(bs)).value ==
      seq(|bs|, i requires 0 <= i < |bs| => (bs[i].title, Texts(bs[i].list.tiles)))
  {
    ContentWalks(bs);
    if Distinct(Titles(bs)) {
      ContentLength(bs);
      forall i | 0 <= i < |bs|
        ensures TileTexts(Content(bs)[i].val) == Some(Texts(bs[i].list.tiles))
      {
        TileStringsOfStrSeq(Texts(bs[i].list.tiles));
      }
    }
  }

  lemma ContentWalks(bs: seq<SubBoard>)
    ensures forall i :: 0 <= i < |Content(bs)| ==> TileTexts(Content(bs)[i].val).Some?
  {
    var c := Content(bs);
    UpdatesEntries(Columns(bs));
    forall i | 0 <= i < |c|
      ensures TileTexts(c[i].val).Some?
    {
      assert c[i] in Columns(bs);
      var j :| 0 <= j < |bs| && Columns(bs)[j] == c[i];
      TileStringsOfStrSeq(Texts(bs[j].list.tiles));
    }
  }

  /** Saving a board and opening the file again reproduces every sub-board's
      title, tiles and colour, in order, exactly when no two sub-boards share
      a title; otherwise the dict merges them and sub-boards are lost. */
  lemma RoundTrip(title: string, description: string, bs: seq<SubBoard>)
    ensures Decode(ParsedDocs(title, description, bs)).Some?
    ensures var cfg := Decode(ParsedDocs(title, description, bs)).value;
      cfg.title == title && cfg.description == description &&
      (Summaries(DrawnBoards(cfg)) == Summaries(bs) <==> Distinct(Titles(bs)))
  {
    DecodeParsed(title, description, bs);
    var cfg := Decode(ParsedDocs(title, description, bs)).value;
    if Distinct(Titles(bs)) {
      DecodeContent(bs);
      ContentLength(bs);
      assert Colors(bs)[..|Content(bs)|] == Colors(bs);
      DrawnSummaries(cfg, bs);
    } else {
      ContentLength(bs);
      assert |Summaries(DrawnBoards(cfg))| < |Summaries(bs)|;
    }
  }

  /** The documents `parse_board` writes always decode, to their own title,
      description and colours. */
  lemma DecodeParsed(title: string, description: string, bs: seq<SubBoard>)
    ensures DecodeColumns(Content(bs)).Some? && |Content(bs)| <= |bs|
    ensures Decode(ParsedDocs(title, description, bs)) ==
      Some(BoardConfig(title, description, Colors(bs)[..|Content(bs)|], DecodeColumns(Content(bs)).value))
  {
    DecodeContent(bs);
    ContentLength(bs);
    DecodeConfigDoc(title, description, Colors(bs), Content(bs));
  }

  lemma DrawnSummaries(cfg: BoardConfig, bs: seq<SubBoard>)
    requires cfg.colors == Colors(bs)
    requires cfg.columns == seq(|bs|, i requires 0 <= i < |bs| => (bs[i].title, Texts(bs[i].list.tiles)))
    ensures Summaries(DrawnBoards(cfg)) == Summaries(bs)
  {
    var ds := DrawnBoards(cfg);
    forall i | 0 <= i < |bs|
      ensures Summary(ds[i]) == Summary(bs[i])
    {
    }
  }

  /** Putting a changed sub-board, with the same widget identity, in place of
      sub-board k keeps the layout well formed. */
  lemma ReplaceWellFormed(items: seq<LayoutItem>, k: nat, b: SubBoard)
    requires WellFormed(items) && k < |items| - 1 && b.id == items[k].sub.id
    ensures WellFormed(items[k := Board(b)]) && |Boards(items)| == |items| - 1
    ensures Boards(items[k := Board(b)]) == Boards(items)[k := b]
  {
    var r := items[k := Board(b)];
    BoardsOfWellFormed(items);
    BoardsOfWellFormed(r);
    assert Boards(r) == Boards(items)[k := b];
    assert BoardIds(Boards(r)) == BoardIds(Boards(items));
  }

  /** Laying out one more sub-board is inserting it before "+". */
  lemma LaidSnoc(bs: seq<SubBoard>, b: SubBoard)
    ensures Laid(bs + [b]) == QtInsert(Laid(bs), |bs|, Board(b))
  {
    var l := Laid(bs);
    assert l[..|bs|] == seq(|bs|, i requires 0 <= i < |bs| => Board(bs[i]));
    assert l[|bs|..] == [PlusButton];
  }

  /** One more sub-board adds its colour and its `{title: tiles}` update. */
  lemma ParsedSnoc(bs: seq<SubBoard>, i: nat)
    requires i < |bs|
    ensures Colors(bs[..i + 1]) == Colors(bs[..i]) + [bs[i].color]
    ensures Updates(Columns(bs[..i + 1])) == Put(Updates(Columns(bs[..i])), bs[i].title, TileValue(bs[i]))
  {
    var pairs := Columns(bs[..i + 1]);
    assert pairs[..i] == Columns(bs[..i]);
    assert pairs[i] == Entry(bs[i].title, TileValue(bs[i]));
  }
}
