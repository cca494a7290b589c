/** The main board widget of xban/board.py, `BanBoard`, as a class over its
    state: the title and description edits and the horizontal layout of
    sub-boards ending in the "+" button. Sub-boards are named by their widget
    identity, handed out from `nextId`. */
module Board {
  import opened YamlValues
  import opened Tiles
  import opened Layout
  import Style
  import opened Io

  /** A layout of well-formed sub-boards whose identities are below `bound`. */
  predicate Sound(items: seq<LayoutItem>, bound: nat) {
    WellFormed(items) &&
    forall b :: b in Boards(items) ==> b.id < bound && ListValid(b.list)
  }

  /** The "+" button alone is a sound layout. */
  lemma EmptySound()
    ensures Sound([PlusButton], 0)
  {
    BoardsSingle(PlusButton);
  }

  /** A widget identity not yet handed out is no sub-board's. */
  lemma FreshBoard(items: seq<LayoutItem>, bound: nat)
    requires Sound(items, bound)
    ensures bound !in BoardIds(Boards(items))
  {
    var bs := Boards(items);
    forall i | 0 <= i < |bs|
      ensures BoardIds(bs)[i] != bound
    {
      assert bs[i] in bs;
    }
  }

  /** Inserting a valid sub-board with the next identity before "+" keeps the
      layout sound, with one more identity handed out. */
  lemma SoundInsert(items: seq<LayoutItem>, b: SubBoard, bound: nat)
    requires Sound(items, bound) && b.id == bound && ListValid(b.list)
    ensures Sound(QtInsert(items, |items| - 1, Board(b)), bound + 1)
    ensures Boards(QtInsert(items, |items| - 1, Board(b))) == Boards(items) + [b]
  {
    FreshBoard(items, bound);
    InsertBeforePlus(items, b);
  }

  /** Sub-board k of a sound layout is one of its sub-boards. */
  lemma SoundAt(items: seq<LayoutItem>, k: nat, bound: nat)
    requires Sound(items, bound) && k < |items| - 1
    ensures items[k].sub.id < bound && ListValid(items[k].sub.list)
  {
    BoardsOfWellFormed(items);
    assert Boards(items)[k] in Boards(items);
  }

  /** Replacing sub-board k by a valid one with the same identity keeps the layout sound. */
  lemma SoundReplace(items: seq<LayoutItem>, k: nat, b: SubBoard, bound: nat)
    requires Sound(items, bound) && k < |items| - 1 && b.id == items[k].sub.id && ListValid(b.list)
    ensures Sound(items[k := Board(b)], bound)
  {
    ReplaceWellFormed(items, k, b);
    SoundAt(items, k, bound);
    var bs := Boards(items);
    forall x: SubBoard | x in bs[k := b]
      ensures x.id < bound && ListValid(x.list)
    {
      var i :| 0 <= i < |bs| && bs[k := b][i] == x;
      if i != k {
        assert bs[i] in bs;
      }
    }
  }

  /** Replacing two different sub-boards keeps the layout sound. */
  lemma SoundReplaceTwo(items: seq<LayoutItem>, k: nat, b: SubBoard, m: nat, c: SubBoard, bound: nat)
    requires Sound(items, bound) && k < |items| - 1 && m < |items| - 1 && k != m
    requires b.id == items[k].sub.id && ListValid(b.list)
    requires c.id == items[m].sub.id && ListValid(c.list)
    ensures Sound(items[k := Board(b)][m := Board(c)], bound)
  {
    SoundReplace(items, k, b, bound);
    SoundReplace(items[k := Board(b)], m, c, bound);
  }

  /** A layout holding the same sub-boards as a sound one is sound. */
  lemma SoundSameBoards(a: seq<LayoutItem>, r: seq<LayoutItem>, bound: nat)
    requires Sound(a, bound) && WellFormed(r) && multiset(Boards(r)) == multiset(Boards(a))
    ensures Sound(r, bound)
  {
    forall x | x in Boards(r)
      ensures x in Boards(a)
    {
      assert x in multiset(Boards(r));
    }
  }

  /** A drop keeps the layout sound and holds the same sub-boards. */
  lemma DropSound(items: seq<LayoutItem>, id: nat, hit: int, bound: nat)
    requires Sound(items, bound) && PositionOf(items, id) < |items| && -1 <= hit < |items|
    ensures Sound(Drop(items, id, hit), bound)
    ensures multiset(Boards(Drop(items, id, hit))) == multiset(Boards(items))
  {
    DropWellFormed(items, id, hit);
    SoundSameBoards(items, Drop(items, id, hit), bound);
  }

  /** Whether sub-board `id`'s list has selected tiles. */
  predicate HasSelection(items: seq<LayoutItem>, id: nat) {
    PositionOf(items, id) < |items| && items[PositionOf(items, id)].sub.list.selected != {}
  }

  /** A layout item after `clearSelection` on every list but sub-board `keep`'s. */
  function ClearedExcept(x: LayoutItem, keep: nat): LayoutItem {
    if x.Board? && x.sub.id != keep then Board(x.sub.(list := x.sub.list.(selected := {}))) else x
  }

  /** The layout after `clearSelection` on every list but sub-board `keep`'s. */
  function ClearOthers(items: seq<LayoutItem>, keep: nat): (r: seq<LayoutItem>)
    ensures |r| == |items|
    ensures forall i :: 0 <= i < |items| ==> r[i] == ClearedExcept(items[i], keep)
  {
    seq(|items|, i requires 0 <= i < |items| => ClearedExcept(items[i], keep))
  }

  /** Afterwards at most the list of sub-board `keep` has a selection, and
      that one keeps its selection. */
  lemma ClearOthersSelection(items: seq<LayoutItem>, keep: nat)
    ensures forall i :: 0 <= i < |items| && ClearOthers(items, keep)[i].Board? ==>
      (ClearOthers(items, keep)[i].sub.list.selected != {} ==> ClearOthers(items, keep)[i].sub.id == keep)
    ensures forall i :: 0 <= i < |items| && items[i].Board? && items[i].sub.id == keep ==>
      ClearOthers(items, keep)[i] == items[i]
  {
  }

  /** Clearing selections keeps the layout sound. */
  lemma ClearedSound(items: seq<LayoutItem>, keep: nat, bound: nat)
    requires Sound(items, bound)
    ensures Sound(ClearOthers(items, keep), bound)
  {
    var r := ClearOthers(items, keep);
    var bs, cs := Boards(items), Boards(r);
    BoardsOfWellFormed(items);
    BoardsOfWellFormed(r);
    forall i | 0 <= i < |cs|
      ensures cs[i] == bs[i].(list := cs[i].list) && ListValid(cs[i].list) && cs[i].id < bound
    {
      assert bs[i] in bs;
    }
    assert BoardIds(cs) == BoardIds(bs);
  }

  /** The layout after tiles of sub-board src are dropped on sub-board dst
      (see `BanBoard.DropTile`). */
  method DropTiles(items: seq<LayoutItem>, src: nat, dst: nat, row: int, dragged: seq<string>, bound: nat)
    returns (r: seq<LayoutItem>)
    requires Sound(items, bound) && PositionOf(items, src) < |items| && PositionOf(items, dst) < |items| && src != dst
    ensures Sound(r, bound)
    ensures var ks, kd := PositionOf(items, src), PositionOf(items, dst);
      var source, target := items[ks].sub, items[kd].sub;
      r == items
        [ks := Board(source.(list := TakeItem(source.list, source.list.current)))]
        [kd := Board(target.(list := Editable(InsertDropped(target.list, row, dragged))))]
  {
    var ks, kd := PositionOf(items, src), PositionOf(items, dst);
    var source, target := items[ks].sub, items[kd].sub;
    SoundAt(items, ks, bound);
    SoundAt(items, kd, bound);
    var taken := source.(list := TakeItem(source.list, source.list.current));
    var flagged := MakeEditable(InsertDropped(target.list, row, dragged));
    var dropped := target.(list := flagged);
    SoundReplaceTwo(items, ks, taken, kd, dropped, bound);
    r := items[ks := Board(taken)][kd := Board(dropped)];
  }

  /** The loop of `single_selection`: `clearSelection` on the list of every
      sub-board before "+" but `keep`. */
  method ClearSelections(items: seq<LayoutItem>, keep: nat, bound: nat) returns (r: seq<LayoutItem>)
    requires Sound(items, bound)
    ensures r == ClearOthers(items, keep) && Sound(r, bound)
  {
    r := items;
    for i := 0 to |items| - 1
      invariant |r| == |items|
      invariant forall j :: 0 <= j < i ==> r[j] == ClearedExcept(items[j], keep)
      invariant forall j :: i <= j < |r| ==> r[j] == items[j]
    {
      if r[i].sub.id != keep {
        r := r[i := Board(r[i].sub.(list := r[i].sub.list.(selected := {})))];
      }
    }
    ClearedSound(items, keep, bound);
    assert r == ClearOthers(items, keep);
  }

  class BanBoard {
    var filepath: string
    var title: string
    var description: string
    var items: seq<LayoutItem>
    var nextId: nat

    predicate Valid()
      reads this
    {
      Sound(items, nextId)
    }

    /** `__init__(filepath, file_config)`: the layout starts as the "+"
        button alone and `draw_board` fills it. The model takes a file that
        decodes; on the others `draw_board` raises, apart from non-string
        colours and fields, which sub-boards here cannot hold. */
    constructor (filepath: string, docs: seq<Value>)
      requires Decode(docs).Some?
      ensures Valid()
      ensures this.filepath == filepath
      ensures var cfg := Decode(docs).value;
        title == cfg.title && description == cfg.description &&
        items == DrawnLayout(cfg) && nextId == |cfg.columns|
    {
      var cfg := Decode(docs).value;
      this.filepath := filepath;
      title := cfg.title;
      description := cfg.description;
      items := [PlusButton];
      nextId := 0;
      new;
      EmptySound();
      DrawBoard(cfg);
    }

    /** The loop of `draw_board`: every column of the file is inserted in
        turn, with the colour at its position. */
    method DrawBoard(cfg: BoardConfig)
      requires Valid() && items == [PlusButton] && nextId == 0 && |cfg.columns| <= |cfg.colors|
      modifies this
      ensures Valid() && items == DrawnLayout(cfg) && nextId == |cfg.columns|
      ensures filepath == old(filepath) && title == old(title) && description == old(description)
    {
      DrawEnds(cfg);
      for i := 0 to |cfg.columns|
        invariant Valid()
        invariant items == Laid(DrawnBoards(cfg)[..i]) && nextId == i
        invariant filepath == old(filepath) && title == old(title) && description == old(description)
      {
        DrawStep(cfg, i);
        InsertBoard(cfg.columns[i], cfg.colors[i]);
      }
    }

    /** `insert_board(content, color)`: a new sub-board, built from the title
        and tiles of `content`, goes second to last, just before "+". */
    method InsertBoard(content: (string, seq<string>), color: string)
      requires Valid()
      modifies this
      ensures Valid()
      ensures var b := Built(old(nextId), content.0, content.1, color);
        items == QtInsert(old(items), |old(items)| - 1, Board(b)) &&
        Boards(items) == Boards(old(items)) + [b]
      ensures nextId == old(nextId) + 1
      ensures filepath == old(filepath) && title == old(title) && description == old(description)
    {
      var b := NewSubBoard(nextId, content.0, content.1, color);
      SoundInsert(items, b, nextId);
      items := QtInsert(items, |items| - 1, Board(b));
      nextId := nextId + 1;
    }

    /** `insert_board()` from the "+" button: an untitled, empty, black sub-board. */
    method InsertEmptyBoard()
      requires Valid()
      modifies this
      ensures Valid()
      ensures Boards(items) == Boards(old(items)) + [Built(old(nextId), "", [], "black")]
      ensures nextId == old(nextId) + 1
      ensures filepath == old(filepath) && title == old(title) && description == old(description)
    {
      InsertBoard(("", []), "black");
    }

    /** `delete_board(board)`: the sub-board leaves the layout. */
    method DeleteBoard(id: nat)
      requires Valid()
      modifies this
      ensures Valid()
      ensures items == RemoveWidget(old(items), id)
      ensures forall b :: b in Boards(items) <==> b in Boards(old(items)) && b.id != id
      ensures nextId == old(nextId) && filepath == old(filepath)
      ensures title == old(title) && description == old(description)
    {
      RemoveWellFormed(items, id);
      items := RemoveWidget(items, id);
    }

    /** `parse_board`: one colour and one `content.update({title: tiles})`
        per sub-board, the "+" button excluded: in a well-formed layout item
        i < count - 1 is sub-board i (`BoardsOfWellFormed`). */
    method ParseBoard() returns (docs: seq<Value>)
      requires Valid()
      ensures docs == ParsedDocs(title, description, Boards(items))
    {
      var bs := Boards(items);
      var color: seq<string> := [];
      var content: seq<Entry> := [];
      assert bs[..0] == [];
      for i := 0 to |bs|
        invariant color == Colors(bs[..i]) && content == Updates(Columns(bs[..i]))
      {
        var parsed := Parse(bs[i]);
        color := color + [bs[i].color];
        content := Put(content, parsed.0, StrSeq(parsed.1));
        ParsedSnoc(bs, i);
      }
      assert bs[..|bs|] == bs;
      docs := [ConfigDoc(title, description, color), Mapping(content)];
    }

    /** `save_board`: the documents `parse_board` gives, for the board's file. */
    method SaveBoard() returns (path: string, docs: seq<Value>)
      requires Valid()
      ensures path == filepath && docs == ParsedDocs(title, description, Boards(items))
    {
      docs := ParseBoard();
      path := filepath;
    }

    /** `dropEvent` for a dragged sub-board `id`: the layout item under the
        cursor gives the index, and the sub-board moves there, but never past
        the last place before "+"; a drop outside every item changes nothing. */
    method DropEvent(id: nat, geometry: seq<Rect>, pos: Point) returns (hit: int)
      requires Valid() && PositionOf(items, id) < |items| && |geometry| == |items|
      modifies this
      ensures Valid()
      ensures -1 <= hit < |geometry|
      ensures hit >= 0 ==> Contains(geometry[hit], pos) && forall j :: 0 <= j < hit ==> !Contains(geometry[j], pos)
      ensures hit == -1 ==> forall j :: 0 <= j < |geometry| ==> !Contains(geometry[j], pos)
      ensures items == Drop(old(items), id, hit)
      ensures multiset(Boards(items)) == multiset(Boards(old(items)))
      ensures nextId == old(nextId) && filepath == old(filepath)
      ensures title == old(title) && description == old(description)
    {
      hit := GetIndex(geometry, pos);
      DropSound(items, id, hit, nextId);
      items := Drop(items, id, hit);
    }

    /** `single_selection(list)`: when the list of sub-board `id` has a
        selection, the loop over the sub-boards clears every other list's
        selection; otherwise nothing changes. */
    method SingleSelection(id: nat)
      requires Valid() && PositionOf(items, id) < |items|
      modifies this
      ensures Valid()
      ensures !HasSelection(old(items), id) ==> items == old(items)
      ensures HasSelection(old(items), id) ==> items == ClearOthers(old(items), id)
      ensures nextId == old(nextId) && filepath == old(filepath)
      ensures title == old(title) && description == old(description)
    {
      var k := PositionOf(items, id);
      if items[k].sub.list.selected != {} {
        items := ClearSelections(items, id, nextId);
      }
    }

    /** `add_listitem` on sub-board `id`. Its `clearSelection` leaves the
        list without a selection, so the `single_selection` it triggers does
        nothing; `setCurrentRow` then selects the new tile, and the
        `single_selection` that triggers clears every other list's
        selection. */
    method AddListItem(id: nat)
      requires Valid() && PositionOf(items, id) < |items|
      modifies this
      ensures Valid()
      ensures var k := PositionOf(old(items), id);
        items == ClearOthers(old(items)[k := Board(old(items)[k].sub.(list := Tiles.AddListItem(old(items)[k].sub.list)))], id)
      ensures nextId == old(nextId) && filepath == old(filepath)
      ensures title == old(title) && description == old(description)
    {
      var k := PositionOf(items, id);
      var sub := items[k].sub;
      SoundAt(items, k, nextId);
      var changed := sub.(list := Tiles.AddListItem(sub.list));
      SoundReplace(items, k, changed, nextId);
      items := items[k := Board(changed)];
      items := ClearSelections(items, id, nextId);
    }

    /** `del_listitem` on sub-board `id`: its selected tiles go. */
    method DelListItem(id: nat)
      requires Valid() && PositionOf(items, id) < |items|
      modifies this
      ensures Valid()
      ensures var k := PositionOf(old(items), id);
        |items| == |old(items)| &&
        (forall j :: 0 <= j < |items| && j != k ==> items[j] == old(items)[j]) &&
        items[k] == Board(old(items)[k].sub.(list := items[k].sub.list)) &&
        items[k].sub.list.tiles == Unselected(old(items)[k].sub.list.tiles, old(items)[k].sub.list.selected) &&
        items[k].sub.list.selected == {}
      ensures nextId == old(nextId) && filepath == old(filepath)
      ensures title == old(title) && description == old(description)
    {
      var k := PositionOf(items, id);
      var sub := items[k].sub;
      SoundAt(items, k, nextId);
      var list := Tiles.DelListItem(sub.list);
      var changed := sub.(list := list);
      SoundReplace(items, k, changed, nextId);
      items := items[k := Board(changed)];
    }

    /** `color_change(color)` on sub-board `id`, from the colour menu, which
        offers exactly the palette's names. */
    method ColorChange(id: nat, color: string)
      requires Valid() && PositionOf(items, id) < |items| && color in Style.PaletteNames()
      modifies this
      ensures Valid()
      ensures var k := PositionOf(old(items), id);
        items == old(items)[k := Board(old(items)[k].sub.(color := color))]
      ensures nextId == old(nextId) && filepath == old(filepath)
      ensures title == old(title) && description == old(description)
    {
      var k := PositionOf(items, id);
      var sub := items[k].sub;
      SoundAt(items, k, nextId);
      var changed := sub.(color := color);
      SoundReplace(items, k, changed, nextId);
      items := items[k := Board(changed)];
    }

    /** `BanListWidget.dropEvent` for tiles dragged from the list of sub-board
        `src` onto the list of sub-board `dst` at `row`: the source list takes
        its current row, the list view inserts the dragged texts as new
        tiles, and the flag loop makes every tile of the target editable. */
    method DropTile(src: nat, dst: nat, row: int, dragged: seq<string>)
      requires Valid() && PositionOf(items, src) < |items| && PositionOf(items, dst) < |items| && src != dst
      modifies this
      ensures Valid()
      ensures var ks, kd := PositionOf(old(items), src), PositionOf(old(items), dst);
        var source, target := old(items)[ks].sub, old(items)[kd].sub;
        items == old(items)
          [ks := Board(source.(list := TakeItem(source.list, source.list.current)))]
          [kd := Board(target.(list := Editable(InsertDropped(target.list, row, dragged))))]
      ensures nextId == old(nextId) && filepath == old(filepath)
      ensures title == old(title) && description == old(description)
    {
      items := DropTiles(items, src, dst, row, dragged, nextId);
    }
  }

  /** After `color_change(color)` the list is styled with `TILE_STYLE[color]`. */
  lemma ColorChangeSheet(b: SubBoard, color: string)
    requires color in Style.PaletteNames()
    ensures color in Style.TileStyle() && Sheet(b.(color := color)) == Style.TileStyle()[color]
  {
    Style.TileStyleKeys();
    SheetOfColor(b.(color := color));
  }

  /** An empty sub-board added from "+" is saved as an untitled column with
      no tiles and a black entry at the end of `board_color`. */
  lemma InsertedEmptySaved(bs: seq<SubBoard>, id: nat)
    ensures var saved := bs + [Built(id, "", [], "black")];
      Colors(saved) == Colors(bs) + ["black"] &&
      Lookup(Content(saved), "") == Some(StrSeq([]))
  {
    var saved := bs + [Built(id, "", [], "black")];
    ContentLastWins(saved, |bs|);
    assert Colors(saved) == Colors(bs) + ["black"];
  }
}
