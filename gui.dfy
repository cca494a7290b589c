/** The older main board of xban/gui.py, `BanBoard`, over the same state as
    the one of xban/board.py: the title and description edits and the
    horizontal layout of sub-boards ending in the "+" button. It differs in
    how `draw_board` fills the layout, in `insert_board` taking no content,
    in having no single-selection rule, and in its list drop, which does not
    reset the editable flag of the dropped tiles. */
module Gui {
  import opened YamlValues
  import opened Tiles
  import opened Layout
  import opened Io
  import Board
  import Style

  /** The layout `draw_board` builds is sound, with one identity handed out
      per column. */
  lemma DrawnSound(cfg: BoardConfig)
    requires |cfg.columns| <= |cfg.colors|
    ensures Board.Sound(DrawnLayout(cfg), |cfg.columns|)
  {
    var bs := DrawnBoards(cfg);
    forall b | b in Boards(DrawnLayout(cfg))
      ensures b.id < |cfg.columns| && ListValid(b.list)
    {
      var i :| 0 <= i < |bs| && bs[i] == b;
    }
  }

  /** The sub-boards added one after the other, then "+", give the drawn layout. */
  lemma Appended(cfg: BoardConfig, laid: seq<LayoutItem>)
    requires |cfg.columns| <= |cfg.colors| && |laid| == |cfg.columns|
    requires forall j :: 0 <= j < |laid| ==> laid[j] == Board(DrawnBoards(cfg)[j])
    ensures laid + [PlusButton] == DrawnLayout(cfg)
  {
  }

  /** The widgets `draw_board` adds to the sub-board layout: one sub-board
      per column, in column order with the colour at its position, each
      added at the end, and then the "+" button. */
  method DrawWidgets(cfg: BoardConfig) returns (laid: seq<LayoutItem>)
    requires |cfg.columns| <= |cfg.colors|
    ensures laid == DrawnLayout(cfg)
  {
    var drawn := DrawnBoards(cfg);
    laid := [];
    for i := 0 to |cfg.columns|
      invariant |laid| == i
      invariant forall j :: 0 <= j < i ==> laid[j] == Board(drawn[j])
    {
      var b := NewSubBoard(i, cfg.columns[i].0, cfg.columns[i].1, cfg.colors[i]);
      laid := laid + [Board(b)];
    }
    Appended(cfg, laid);
    laid := laid + [PlusButton];
  }

  /** The tiles a drop of `dragged` creates sit from the drop row on, carry
      the dragged texts and are not editable. */
  lemma DroppedNotEditable(l: TileList, row: int, dragged: seq<string>)
    ensures |InsertDropped(l, row, dragged).tiles| == |l.tiles| + |dragged|
    ensures forall j :: 0 <= j < |dragged| ==>
      InsertDropped(l, row, dragged).tiles[DropRow(l, row) + j] == Tile(l.nextId + j, dragged[j], false)
  {
    var at := DropRow(l, row);
    var pre, news, post := l.tiles[..at], DroppedTiles(l.nextId, dragged), l.tiles[at..];
    var ts := InsertDropped(l, row, dragged).tiles;
    forall j | 0 <= j < |dragged|
      ensures ts[at + j] == Tile(l.nextId + j, dragged[j], false)
    {
      Middle(pre, news, post, j);
    }
  }

  lemma Middle<T>(a: seq<T>, b: seq<T>, c: seq<T>, j: nat)
    requires j < |b|
    ensures (a + b + c)[|a| + j] == b[j]
  {
  }

  /** The layout after tiles of sub-board src are dropped on sub-board dst
      (see `BanBoard.DropTile`). */
  method DropTiles(items: seq<LayoutItem>, src: nat, dst: nat, row: int, dragged: seq<string>, bound: nat)
    returns (r: seq<LayoutItem>)
    requires Board.Sound(items, bound) && PositionOf(items, src) < |items| && PositionOf(items, dst) < |items| && src != dst
    ensures Board.Sound(r, bound)
    ensures var ks, kd := PositionOf(items, src), PositionOf(items, dst);
      var source, target := items[ks].sub, items[kd].sub;
      r == items
        [ks := Board(source.(list := TakeItem(source.list, source.list.current)))]
        [kd := Board(target.(list := InsertDropped(target.list, row, dragged)))]
  {
    var ks, kd := PositionOf(items, src), PositionOf(items, dst);
    var source, target := items[ks].sub, items[kd].sub;
    Board.SoundAt(items, ks, bound);
    Board.SoundAt(items, kd, bound);
    var taken := source.(list := TakeItem(source.list, source.list.current));
    var dropped := target.(list := InsertDropped(target.list, row, dragged));
    Board.SoundReplaceTwo(items, ks, taken, kd, dropped, bound);
    r := items[ks := Board(taken)][kd := Board(dropped)];
  }

  class BanBoard {
    var filepath: string
    var title: string
    var description: string
    var items: seq<LayoutItem>
    var nextId: nat

    predicate Valid()
      reads this
    {
      Board.Sound(items, nextId)
    }

    /** `__init__(filepath, file_config)` with `draw_board`, which adds the
        widgets of `DrawWidgets` to an empty layout: the layout xban/board.py
        draws by inserting before "+". The model takes a file that
        decodes; on the others `draw_board` raises, apart from non-string
        colours and fields, which sub-boards here cannot hold. */
    constructor (filepath: string, docs: seq<Value>)
      requires Decode(docs).Some?
      ensures Valid()
      ensures this.filepath == filepath
      ensures var cfg := Decode(docs).value;
        title == cfg.title && description == cfg.description &&
        items == DrawnLayout(cfg) && nextId == |cfg.columns|
    {
      var cfg := Decode(docs).value;
      var laid := DrawWidgets(cfg);
      this.filepath := filepath;
      title := cfg.title;
      description := cfg.description;
      items := laid;
      nextId := |cfg.columns|;
      new;
      DrawnSound(cfg);
    }

    /** `insert_board()`: an untitled, empty, black sub-board goes second to
        last, just before "+". */
    method InsertBoard()
      requires Valid()
      modifies this
      ensures Valid()
      ensures var b := Built(old(nextId), "", [], "black");
        items == QtInsert(old(items), |old(items)| - 1, Board(b)) &&
        Boards(items) == Boards(old(items)) + [b]
      ensures nextId == old(nextId) + 1
      ensures filepath == old(filepath) && title == old(title) && description == old(description)
    {
      var b := NewSubBoard(nextId, "", [], "black");
      Board.SoundInsert(items, b, nextId);
      items := QtInsert(items, |items| - 1, Board(b));
      nextId := nextId + 1;
    }

    /** `delete_board(board)`: the sub-board leaves the layout. */
    method DeleteBoard(id: nat)
      requires Valid()
      modifies this
      ensures Valid()
      ensures items == RemoveWidget(old(items), id)
      ensures forall b :: b in Boards(items) <==> b in Boards(old(items)) && b.id != id
      ensures nextId == old(nextId) && filepath == old(filepath)
      ensures title == old(title) && description == old(description)
    {
      RemoveWellFormed(items, id);
      items := RemoveWidget(items, id);
    }

    /** `parse_board`: one colour and one `content.update({title: tiles})`
        per sub-board, the "+" button excluded. */
    method ParseBoard() returns (docs: seq<Value>)
      requires Valid()
      ensures docs == ParsedDocs(title, description, Boards(items))
    {
      var bs := Boards(items);
      var color: seq<string> := [];
      var content: seq<Entry> := [];
      assert bs[..0] == [];
      for i := 0 to |bs|
        invariant color == Colors(bs[..i]) && content == Updates(Columns(bs[..i]))
      {
        var parsed := Parse(bs[i]);
        color := color + [bs[i].color];
        content := Put(content, parsed.0, StrSeq(parsed.1));
        ParsedSnoc(bs, i);
      }
      assert bs[..|bs|] == bs;
      docs := [ConfigDoc(title, description, color), Mapping(content)];
    }

    /** `save_board`: the documents `parse_board` gives, for the board's file. */
    method SaveBoard() returns (path: string, docs: seq<Value>)
      requires Valid()
      ensures path == filepath && docs == ParsedDocs(title, description, Boards(items))
    {
      docs := ParseBoard();
      path := filepath;
    }

    /** `dropEvent` for a dragged sub-board `id`, with the same index rule as
        xban/board.py: never past the last place before "+", and nothing
        changes for a drop outside every item. */
    method DropEvent(id: nat, geometry: seq<Rect>, pos: Point) returns (hit: int)
      requires Valid() && PositionOf(items, id) < |items| && |geometry| == |items|
      modifies this
      ensures Valid()
      ensures -1 <= hit < |geometry|
      ensures hit >= 0 ==> Contains(geometry[hit], pos) && forall j :: 0 <= j < hit ==> !Contains(geometry[j], pos)
      ensures hit == -1 ==> forall j :: 0 <= j < |geometry| ==> !Contains(geometry[j], pos)
      ensures items == Drop(old(items), id, hit)
      ensures multiset(Boards(items)) == multiset(Boards(old(items)))
      ensures nextId == old(nextId) && filepath == old(filepath)
      ensures title == old(title) && description == old(description)
    {
      hit := GetIndex(geometry, pos);
      Board.DropSound(items, id, hit, nextId);
      items := Drop(items, id, hit);
    }

    /** `add_listitem` on sub-board `id`. */
    method AddListItem(id: nat)
      requires Valid() && PositionOf(items, id) < |items|
      modifies this
      ensures Valid()
      ensures var k := PositionOf(old(items), id);
        items == old(items)[k := Board(old(items)[k].sub.(list := Tiles.AddListItem(old(items)[k].sub.list)))]
      ensures nextId == old(nextId) && filepath == old(filepath)
      ensures title == old(title) && description == old(description)
    {
      var k := PositionOf(items, id);
      var sub := items[k].sub;
      Board.SoundAt(items, k, nextId);
      var changed := sub.(list := Tiles.AddListItem(sub.list));
      Board.SoundReplace(items, k, changed, nextId);
      items := items[k := Board(changed)];
    }

    /** `del_listitem` on sub-board `id`: its selected tiles go. */
    method DelListItem(id: nat)
      requires Valid() && PositionOf(items, id) < |items|
      modifies this
      ensures Valid()
      ensures var k := PositionOf(old(items), id);
        |items| == |old(items)| &&
        (forall j :: 0 <= j < |items| && j != k ==> items[j] == old(items)[j]) &&
        items[k] == Board(old(items)[k].sub.(list := items[k].sub.list)) &&
        items[k].sub.list.tiles == Unselected(old(items)[k].sub.list.tiles, old(items)[k].sub.list.selected) &&
        items[k].sub.list.selected == {}
      ensures nextId == old(nextId) && filepath == old(filepath)
      ensures title == old(title) && description == old(description)
    {
      var k := PositionOf(items, id);
      var sub := items[k].sub;
      Board.SoundAt(items, k, nextId);
      var list := Tiles.DelListItem(sub.list);
      var changed := sub.(list := list);
      Board.SoundReplace(items, k, changed, nextId);
      items := items[k := Board(changed)];
    }

    /** `color_change(color)` on sub-board `id`, from the "Tile Color" menu,
        which offers exactly the palette's names. */
    method ColorChange(id: nat, color: string)
      requires Valid() && PositionOf(items, id) < |items| && color in Style.PaletteNames()
      modifies this
      ensures Valid()
      ensures var k := PositionOf(old(items), id);
        items == old(items)[k := Board(old(items)[k].sub.(color := color))]
      ensures nextId == old(nextId) && filepath == old(filepath)
      ensures title == old(title) && description == old(description)
    {
      var k := PositionOf(items, id);
      var sub := items[k].sub;
      Board.SoundAt(items, k, nextId);
      var changed := sub.(color := color);
      Board.SoundReplace(items, k, changed, nextId);
      items := items[k := Board(changed)];
    }

    /** `BanListWidget.dropEvent` for tiles dragged from the list of sub-board
        `src` onto the list of sub-board `dst` at `row`: the source list takes
        its current row and the list view inserts the dragged texts as new
        tiles, which keep the flags the list view gives them. */
    method DropTile(src: nat, dst: nat, row: int, dragged: seq<string>)
      requires Valid() && PositionOf(items, src) < |items| && PositionOf(items, dst) < |items| && src != dst
      modifies this
      ensures Valid()
      ensures var ks, kd := PositionOf(old(items), src), PositionOf(old(items), dst);
        var source, target := old(items)[ks].sub, old(items)[kd].sub;
        items == old(items)
          [ks := Board(source.(list := TakeItem(source.list, source.list.current)))]
          [kd := Board(target.(list := InsertDropped(target.list, row, dragged)))]
      ensures nextId == old(nextId) && filepath == old(filepath)
      ensures title == old(title) && description == old(description)
    {
      items := DropTiles(items, src, dst, row, dragged, nextId);
    }
  }
}
