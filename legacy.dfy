/** The legacy single-file app xban/xBan.py: a board of titled columns of
    notes, each column closed by a "+" button, the project dictionary it
    loads and saves, the `.xban` path rules of its File menu and the
    `OPENED_DICT` registry of open windows. Qt widgets are abstracted to
    their `_text` and `_col` fields and layouts to sequences. */
module Legacy {
  import opened YamlValues
  import Paths

  /** The keys of `COLOR_DICT`, in the order of the "Color Scheme" menu. */
  const Palette: seq<string> := ["purple", "red", "yellow", "blue", "green"]

  /** A `NoteBase`, the state shared by `NoteTitle` and `NoteBlock`: its text
      and the column it believes it is in. */
  datatype Note = Note(text: string, col: int)

  /** One layout of `noteVL_list`: its note blocks, then the "+" button,
      which carries a column of its own. */
  datatype Column = Column(notes: seq<Note>, plusCol: int)

  /** The dictionaries of the project file. */
  datatype TitleRecord = TitleRecord(content: string, col: int, comments: string)
  datatype NoteRecord = NoteRecord(content: string, col: int, colIndex: int, comments: string)
  datatype ProjectInfo = ProjectInfo(name: string, lastUpdate: string, colcolor: seq<string>)
  datatype Project = Project(info: ProjectInfo, titles: seq<TitleRecord>, content: seq<NoteRecord>)

  // ---------------------------------------------------------------- state

  /** Every note of c, and its "+" button, carry column i. */
  predicate InColumn(c: Column, i: int) {
    c.plusCol == i && forall j :: 0 <= j < |c.notes| ==> c.notes[j].col == i
  }

  /** The bookkeeping of a board: one title and one layout per column, the
      column count, a colour for every column (the list may run longer), all
      from the palette, and every widget knowing the column it sits in. */
  predicate Consistent(titles: seq<Note>, columns: seq<Column>, colcolor: seq<string>, tnumCol: int) {
    tnumCol == |titles| == |columns| && tnumCol <= |colcolor| &&
    (forall i :: 0 <= i < tnumCol ==> titles[i].col == i && InColumn(columns[i], i)) &&
    (forall i :: 0 <= i < |colcolor| ==> colcolor[i] in Palette)
  }

  // ---------------------------------------------------------------- loading

  /** Where `QBoxLayout.insertWidget(index, w)` puts w among n widgets: at
      index when that is a place, at the end for a negative index (Qt's
      rule) and for one past the end (the list appends). */
  function InsertPlace(index: int, n: nat): (at: nat)
    ensures at <= n
    ensures 0 <= index <= n ==> at == index
    ensures !(0 <= index <= n) ==> at == n
  {
    if 0 <= index <= n then index else n
  }

  /** `insertWidget(index, w)` on a layout holding ws: w lands at its place
      and the others keep their order. */
  function ColumnInsert(ws: seq<Note>, index: int, w: Note): (r: seq<Note>)
    ensures |r| == |ws| + 1
  {
    var at := InsertPlace(index, |ws|);
    ws[..at] + [w] + ws[at..]
  }

  lemma ColumnInsertPlaces(ws: seq<Note>, index: int, w: Note)
    ensures var at, r := InsertPlace(index, |ws|), ColumnInsert(ws, index, w);
      r[at] == w && r[..at] + r[at + 1..] == ws
  {
    var at := InsertPlace(index, |ws|);
    var r := ColumnInsert(ws, index, w);
    assert r[..at] == ws[..at];
    assert r[at + 1..] == ws[at..];
  }

  /** Inserting a note of column i keeps every note of the layout in i. */
  lemma ColumnInsertIn(ws: seq<Note>, index: int, w: Note, i: int)
    requires w.col == i && forall j :: 0 <= j < |ws| ==> ws[j].col == i
    ensures var r := ColumnInsert(ws, index, w); forall j :: 0 <= j < |r| ==> r[j].col == i
  {
    var at := InsertPlace(index, |ws|);
    var r := ColumnInsert(ws, index, w);
    forall j | 0 <= j < |r|
      ensures r[j].col == i
    {
      if j < at {
        assert r[j] == ws[j];
      } else if j > at {
        assert r[j] == ws[j - 1];
      }
    }
  }

  predicate InRange(recs: seq<NoteRecord>, n: int) {
    forall r :: r in recs ==> 0 <= r.col < n
  }

  /** One iteration of the `initProj` loop over `project_content`: a note
      block for the record, inserted at `col_index` into layout `col`. */
  function PlaceOne(cols: seq<seq<Note>>, r: NoteRecord): (placed: seq<seq<Note>>)
    requires 0 <= r.col < |cols|
    ensures |placed| == |cols|
  {
    cols[r.col := ColumnInsert(cols[r.col], r.colIndex, Note(r.content, r.col))]
  }

  /** The whole loop, in file order. */
  function Placed(cols: seq<seq<Note>>, recs: seq<NoteRecord>): (placed: seq<seq<Note>>)
    requires InRange(recs, |cols|)
    ensures |placed| == |cols|
    decreases |recs|
  {
    if recs == [] then cols
    else
      assert forall r :: r in recs[1..] ==> r in recs;
      Placed(PlaceOne(cols, recs[0]), recs[1..])
  }

  function Empties(n: nat): (cols: seq<seq<Note>>)
    ensures |cols| == n && forall i :: 0 <= i < n ==> cols[i] == []
  {
    seq(n, _ => [])
  }

  /** What `initProj` demands of a file: every note names a column the
      titles create and whose colour `COLOR_DICT` knows; otherwise a lookup
      raises and no board comes up. */
  predicate Loadable(p: Project) {
    InRange(p.content, |p.titles|) &&
    forall r :: r in p.content ==> r.col < |p.info.colcolor| && p.info.colcolor[r.col] in Palette
  }

  /** A file whose titles are numbered 0, 1, ..., with a palette colour for
      each and none but palette colours: the files `save_proj` and
      `start_project` write. */
  predicate WellNumbered(p: Project) {
    |p.titles| <= |p.info.colcolor| &&
    (forall i :: 0 <= i < |p.titles| ==> p.titles[i].col == i) &&
    (forall i :: 0 <= i < |p.info.colcolor| ==> p.info.colcolor[i] in Palette)
  }

  /** The title widgets `initProj` adds, from `project_title`. */
  function LoadedTitles(recs: seq<TitleRecord>): seq<Note> {
    seq(|recs|, i requires 0 <= i < |recs| => Note(recs[i].content, recs[i].col))
  }

  /** The layouts `initProj` builds: one per title, the notes placed, and
      then a "+" button of that column at the end of each. */
  function LoadedColumns(p: Project): seq<Column>
    requires InRange(p.content, |p.titles|)
  {
    var placed := Placed(Empties(|p.titles|), p.content);
    seq(|placed|, i requires 0 <= i < |placed| => Column(placed[i], i))
  }

  /** Every note of layout i carries column i. */
  predicate SitIn(cols: seq<seq<Note>>) {
    forall i, j :: 0 <= i < |cols| && 0 <= j < |cols[i]| ==> cols[i][j].col == i
  }

  /** Placing notes of the right column keeps every layout's notes in it. */
  lemma {:induction false} PlacedIn(cols: seq<seq<Note>>, recs: seq<NoteRecord>)
    requires InRange(recs, |cols|) && SitIn(cols)
    ensures SitIn(Placed(cols, recs))
    decreases |recs|
  {
    if recs != [] {
      var r := recs[0];
      ColumnInsertIn(cols[r.col], r.colIndex, Note(r.content, r.col), r.col);
      var moved: seq<seq<Note>> := PlaceOne(cols, r);
      assert Placed(cols, recs) == Placed(moved, recs[1..]);
      assert SitIn(moved) by {
        forall i, j | 0 <= i < |moved| && 0 <= j < |moved[i]|
          ensures moved[i][j].col == i
        {
          if i != r.col {
            assert moved[i] == cols[i];
          }
        }
      }
      assert forall q :: q in recs[1..] ==> q in recs;
      PlacedIn(moved, recs[1..]);
    }
  }

  /** A well-numbered file that loads gives a consistent board. */
  lemma LoadedConsistent(p: Project)
    requires Loadable(p) && WellNumbered(p)
    ensures Consistent(LoadedTitles(p.titles), LoadedColumns(p), p.info.colcolor, |p.titles|)
  {
    var ts, cs := LoadedTitles(p.titles), LoadedColumns(p);
    var placed := Placed(Empties(|p.titles|), p.content);
    PlacedIn(Empties(|p.titles|), p.content);
    forall i | 0 <= i < |p.titles|
      ensures ts[i].col == i && InColumn(cs[i], i)
    {
      assert cs[i] == Column(placed[i], i);
    }
  }

  /** The title loop of `initProj`. */
  method LoadTitles(recs: seq<TitleRecord>) returns (titles: seq<Note>)
    ensures titles == LoadedTitles(recs)
  {
    titles := [];
    for i := 0 to |recs|
      invariant |titles| == i && forall k :: 0 <= k < i ==> titles[k] == Note(recs[k].content, recs[k].col)
    {
      titles := titles + [Note(recs[i].content, recs[i].col)];
    }
  }

  /** The layout loops of `initProj`: an empty layout per title, the notes
      inserted in file order, and a "+" button added to each layout. */
  method LoadColumns(p: Project) returns (columns: seq<Column>)
    requires InRange(p.content, |p.titles|)
    ensures columns == LoadedColumns(p)
  {
    var n := |p.titles|;
    var layouts: seq<seq<Note>> := [];
    for ncol := 0 to n
      invariant layouts == Empties(ncol)
    {
      layouts := layouts + [[]];
    }
    var content := p.content;
    for k := 0 to |content|
      invariant |layouts| == n && InRange(content[k..], n)
      invariant Placed(layouts, content[k..]) == Placed(Empties(n), content)
    {
      assert content[k] in content[k..];
      assert content[k..][1..] == content[k + 1..];
      layouts := PlaceOne(layouts, content[k]);
    }
    assert content[|content|..] == [];
    columns := [];
    for ncol := 0 to n
      invariant |columns| == ncol && forall i :: 0 <= i < ncol ==> columns[i] == Column(layouts[i], i)
    {
      columns := columns + [Column(layouts[ncol], ncol)];
    }
  }

  // ---------------------------------------------------------------- saving

  /** The `title_list` of `save_proj`. */
  function SavedTitles(titles: seq<Note>): seq<TitleRecord> {
    seq(|titles|, i requires 0 <= i < |titles| => TitleRecord(titles[i].text, titles[i].col, ""))
  }

  /** The records `save_proj` writes for one layout: its widgets but the
      last, numbered from 0 by their place, with the column each carries. */
  function ColumnRecords(c: Column): seq<NoteRecord> {
    seq(|c.notes|, j requires 0 <= j < |c.notes| => NoteRecord(c.notes[j].text, c.notes[j].col, j, ""))
  }

  /** The `note_list` of `save_proj`: the layouts' records, layout by layout. */
  function SavedNotes(columns: seq<Column>): seq<NoteRecord> {
    if columns == [] then []
    else SavedNotes(columns[..|columns| - 1]) + ColumnRecords(columns[|columns| - 1])
  }

  /** The dictionary `save_proj` dumps. */
  function Saved(name: string, lastUpdate: string, colcolor: seq<string>, titles: seq<Note>, columns: seq<Column>): Project {
    Project(ProjectInfo(name, lastUpdate, colcolor), SavedTitles(titles), SavedNotes(columns))
  }

  /** Notes of the layouts up to n, the others still empty. */
  function Partial(columns: seq<Column>, n: int): seq<seq<Note>> {
    seq(|columns|, i requires 0 <= i < |columns| => if i < n then columns[i].notes else [])
  }

  predicate NotesIn(columns: seq<Column>) {
    forall i, j :: 0 <= i < |columns| && 0 <= j < |columns[i].notes| ==> columns[i].notes[j].col == i
  }

  /** The records of a column of well-placed notes are in range. */
  lemma {:induction false} SavedNotesIn(columns: seq<Column>)
    requires NotesIn(columns)
    ensures forall r :: r in SavedNotes(columns) ==> 0 <= r.col < |columns|
  {
    if columns != [] {
      var init := columns[..|columns| - 1];
      assert NotesIn(init) by {
        forall i, j | 0 <= i < |init| && 0 <= j < |init[i].notes|
          ensures init[i].notes[j].col == i
        {
          assert init[i] == columns[i];
        }
      }
      SavedNotesIn(init);
      var last := columns[|columns| - 1];
      forall r | r in ColumnRecords(last)
        ensures r.col == |columns| - 1
      {
        var j :| 0 <= j < |ColumnRecords(last)| && ColumnRecords(last)[j] == r;
      }
    }
  }

  lemma {:induction false} PlacedAppend(cols: seq<seq<Note>>, a: seq<NoteRecord>, b: seq<NoteRecord>)
    requires InRange(a, |cols|) && InRange(b, |cols|)
    ensures InRange(a + b, |cols|)
    ensures Placed(cols, a + b) == Placed(Placed(cols, a), b)
    decreases |a|
  {
    assert forall r :: r in a + b ==> r in a || r in b;
    if a != [] {
      assert (a + b)[0] == a[0];
      assert (a + b)[1..] == a[1..] + b;
      assert forall r :: r in a[1..] ==> r in a;
      var moved := PlaceOne(cols, a[0]);
      PlacedAppend(moved, a[1..], b);
      assert Placed(cols, a + b) == Placed(moved, a[1..] + b);
      assert Placed(cols, a) == Placed(moved, a[1..]);
    } else {
      assert a + b == b;
    }
  }

  /** Placing the records of column c from the j-th on, into a layout i that
      already holds c's first j notes, fills layout i with exactly c's notes:
      each record's `col_index` is the count of notes before it. */
  lemma {:induction false} FillColumn(cols: seq<seq<Note>>, c: Column, i: int, j: nat)
    requires 0 <= i < |cols| && j <= |c.notes| && cols[i] == c.notes[..j]
    requires forall k :: 0 <= k < |c.notes| ==> c.notes[k].col == i
    ensures InRange(ColumnRecords(c)[j..], |cols|)
    ensures Placed(cols, ColumnRecords(c)[j..]) == cols[i := c.notes]
    decreases |c.notes| - j
  {
    var recs := ColumnRecords(c)[j..];
    if j == |c.notes| {
      assert c.notes[..j] == c.notes;
      assert cols[i := c.notes] == cols;
    } else {
      var r := recs[0];
      assert r == NoteRecord(c.notes[j].text, i, j, "");
      assert Note(r.content, r.col) == c.notes[j];
      assert c.notes[..j] + [c.notes[j]] + c.notes[..j][j..] == c.notes[..j + 1];
      assert cols[i][..j] == cols[i] && cols[i][j..] == [];
      assert ColumnInsert(cols[i], j, c.notes[j]) == c.notes[..j + 1];
      var next := PlaceOne(cols, r);
      assert next == cols[i := c.notes[..j + 1]];
      assert recs[1..] == ColumnRecords(c)[j + 1..];
      FillColumn(next, c, i, j + 1);
      assert next[i := c.notes] == cols[i := c.notes];
      assert forall q :: q in recs ==> q == r || q in recs[1..];
    }
  }

  /** Loading the notes saved from the first n layouts gives those layouts'
      notes back, in their order. */
  lemma {:induction false} PlacedSaved(columns: seq<Column>, n: nat)
    requires n <= |columns| && NotesIn(columns)
    ensures InRange(SavedNotes(columns[..n]), |columns|)
    ensures Placed(Empties(|columns|), SavedNotes(columns[..n])) == Partial(columns, n)
  {
    var pre := columns[..n];
    assert NotesIn(pre) by {
      forall i, j | 0 <= i < |pre| && 0 <= j < |pre[i].notes|
        ensures pre[i].notes[j].col == i
      {
        assert pre[i] == columns[i];
      }
    }
    SavedNotesIn(pre);
    if n == 0 {
      assert Partial(columns, 0) == Empties(|columns|);
    } else {
      PlacedSaved(columns, n - 1);
      assert pre[..n - 1] == columns[..n - 1];
      var acc := Partial(columns, n - 1);
      var c := columns[n - 1];
      assert acc[n - 1] == c.notes[..0];
      FillColumn(acc, c, n - 1, 0);
      assert ColumnRecords(c)[0..] == ColumnRecords(c);
      PlacedAppend(Empties(|columns|), SavedNotes(columns[..n - 1]), ColumnRecords(c));
      assert acc[n - 1 := c.notes] == Partial(columns, n);
    }
  }

  /** `save_proj` then `initProj` round trip: a consistent board saved and
      loaded again gives back its name, time, colours, titles, column count
      and layouts, and the saved file is one that loads. */
  lemma LoadSaved(name: string, lastUpdate: string, colcolor: seq<string>, titles: seq<Note>, columns: seq<Column>, tnumCol: int)
    requires Consistent(titles, columns, colcolor, tnumCol)
    ensures var p := Saved(name, lastUpdate, colcolor, titles, columns);
      Loadable(p) && WellNumbered(p) &&
      p.info == ProjectInfo(name, lastUpdate, colcolor) && |p.titles| == tnumCol &&
      LoadedTitles(p.titles) == titles && LoadedColumns(p) == columns
  {
    var p := Saved(name, lastUpdate, colcolor, titles, columns);
    assert NotesIn(columns);
    PlacedSaved(columns, |columns|);
    assert columns[..|columns|] == columns;
    var placed := Placed(Empties(|columns|), p.content);
    assert forall i :: 0 <= i < |columns| ==> placed[i] == columns[i].notes;
  }

  // ---------------------------------------------------------------- column edits

  function Lowered(n: Note): Note {
    n.(col := n.col - 1)
  }

  /** A layout after the inner loop of `del_col`: each of its widgets, the
      "+" button too, one column lower. */
  function LoweredColumn(c: Column): Column {
    Column(seq(|c.notes|, j requires 0 <= j < |c.notes| => Lowered(c.notes[j])), c.plusCol - 1)
  }

  /** The titles after the loop of `del_col`: those from `from` on one column lower. */
  function LowerTitles(titles: seq<Note>, from: int): seq<Note> {
    seq(|titles|, i requires 0 <= i < |titles| => if i >= from then Lowered(titles[i]) else titles[i])
  }

  function LowerColumns(columns: seq<Column>, from: int): seq<Column> {
    seq(|columns|, i requires 0 <= i < |columns| => if i >= from then LoweredColumn(columns[i]) else columns[i])
  }

  function Remove<T>(s: seq<T>, k: nat): seq<T>
    requires k < |s|
  {
    s[..k] + s[k + 1..]
  }

  lemma RemoveAt<T>(s: seq<T>, k: nat, i: nat)
    requires k < |s| && i < |s| - 1
    ensures |Remove(s, k)| == |s| - 1
    ensures Remove(s, k)[i] == if i < k then s[i] else s[i + 1]
  {
  }

  /** The titles after `del_col(ncol)`: those before ncol as they were,
      each later one a place and a column lower. */
  lemma TitlesShift(titles: seq<Note>, ncol: nat)
    requires ncol < |titles|
    ensures var ts := Remove(LowerTitles(titles, ncol + 1), ncol);
      |ts| == |titles| - 1 &&
      (forall i :: 0 <= i < ncol ==> ts[i] == titles[i]) &&
      (forall i :: ncol <= i < |ts| ==> ts[i] == Lowered(titles[i + 1]))
  {
    var lt := LowerTitles(titles, ncol + 1);
    forall i | 0 <= i < |titles| - 1
      ensures Remove(lt, ncol)[i] == if i < ncol then titles[i] else Lowered(titles[i + 1])
    {
      RemoveAt(lt, ncol, i);
    }
  }

  /** The layouts after `del_col(ncol)`, in the same way. */
  lemma ColumnsShift(columns: seq<Column>, ncol: nat)
    requires ncol < |columns|
    ensures var cs := Remove(LowerColumns(columns, ncol + 1), ncol);
      |cs| == |columns| - 1 &&
      (forall i :: 0 <= i < ncol ==> cs[i] == columns[i]) &&
      (forall i :: ncol <= i < |cs| ==> cs[i] == LoweredColumn(columns[i + 1]))
  {
    var lc := LowerColumns(columns, ncol + 1);
    forall i | 0 <= i < |columns| - 1
      ensures Remove(lc, ncol)[i] == if i < ncol then columns[i] else LoweredColumn(columns[i + 1])
    {
      RemoveAt(lc, ncol, i);
    }
  }

  /** `del_col(ncol)` keeps the board consistent. */
  lemma DelColConsistent(titles: seq<Note>, columns: seq<Column>, colcolor: seq<string>, tnumCol: int, ncol: nat)
    requires Consistent(titles, columns, colcolor, tnumCol) && ncol < tnumCol
    ensures Consistent(Remove(LowerTitles(titles, ncol + 1), ncol), Remove(LowerColumns(columns, ncol + 1), ncol),
      Remove(colcolor, ncol), tnumCol - 1)
  {
    var ts, cs, cc := Remove(LowerTitles(titles, ncol + 1), ncol), Remove(LowerColumns(columns, ncol + 1), ncol), Remove(colcolor, ncol);
    TitlesShift(titles, ncol);
    ColumnsShift(columns, ncol);
    forall i | 0 <= i < |cc|
      ensures cc[i] in Palette
    {
      RemoveAt(colcolor, ncol, i);
    }
    forall i | 0 <= i < tnumCol - 1
      ensures ts[i].col == i && InColumn(cs[i], i)
    {
      if i >= ncol {
        assert InColumn(columns[i + 1], i + 1);
      }
    }
  }

  /** The inner loop of `del_col` over `col_map(n_col)`. */
  method LowerColumn(c: Column) returns (d: Column)
    ensures d == LoweredColumn(c)
  {
    var notes := c.notes;
    for j := 0 to |notes|
      invariant |notes| == |c.notes|
      invariant forall k :: 0 <= k < |notes| ==> notes[k] == if k < j then Lowered(c.notes[k]) else c.notes[k]
    {
      notes := notes[j := Lowered(notes[j])];
    }
    d := Column(notes, c.plusCol - 1);
  }

  // ---------------------------------------------------------------- the board

  /** `BanBoard` of xban/xBan.py. */
  class BanBoard {
    var projectName: string
    var lastUpdate: string
    var colcolor: seq<string>
    var tnumCol: int
    var titles: seq<Note>
    var columns: seq<Column>

    predicate Valid()
      reads this
    {
      Consistent(titles, columns, colcolor, tnumCol)
    }

    /** `__init__` with `initProj(proj_data)` for a file that loads. */
    constructor (doc: Project)
      requires Loadable(doc)
      ensures projectName == doc.info.name && lastUpdate == doc.info.lastUpdate
      ensures colcolor == doc.info.colcolor && tnumCol == |doc.titles|
      ensures titles == LoadedTitles(doc.titles) && columns == LoadedColumns(doc)
      ensures WellNumbered(doc) ==> Valid()
    {
      var ts := LoadTitles(doc.titles);
      var cs := LoadColumns(doc);
      projectName := doc.info.name;
      lastUpdate := doc.info.lastUpdate;
      colcolor := doc.info.colcolor;
      titles := ts;
      tnumCol := |doc.titles|;
      columns := cs;
      new;
      if WellNumbered(doc) {
        LoadedConsistent(doc);
      }
    }

    /** `add_notes` from the "+" button of column ncol: an empty note just
        before the button. Its `proj_edited` call reaches `time_changed`,
        which stamps the edit time with the clock reading `now`. */
    method AddNotes(ncol: int, now: string)
      requires Valid() && 0 <= ncol < tnumCol
      modifies this
      ensures Valid()
      ensures columns == old(columns)[ncol := Column(old(columns)[ncol].notes + [Note("", ncol)], ncol)]
      ensures titles == old(titles) && colcolor == old(colcolor) && tnumCol == old(tnumCol)
      ensures projectName == old(projectName) && lastUpdate == now
    {
      var c := columns[ncol];
      var d := Column(c.notes + [Note("", ncol)], ncol);
      assert InColumn(d, ncol);
      columns := columns[ncol := d];
      lastUpdate := now;
    }

    /** `col_color_change({'col': col, 'color': color})`: the colour chosen
        in the "Color Scheme" menu of the title of column col. The signal it
        emits stamps the edit time with the clock reading `now`. */
    method ColColorChange(col: int, color: string, now: string)
      requires Valid() && 0 <= col < tnumCol && color in Palette
      modifies this
      ensures Valid()
      ensures colcolor == old(colcolor)[col := color]
      ensures titles == old(titles) && columns == old(columns) && tnumCol == old(tnumCol)
      ensures projectName == old(projectName) && lastUpdate == now
    {
      colcolor := colcolor[col := color];
      lastUpdate := now;
    }

    /** `del_col` from the title of column ncol: the later titles and every
        widget of the later layouts move one column down, then the title,
        the layout and the colour of ncol go. */
    method DelCol(ncol: int)
      requires Valid() && 0 <= ncol < tnumCol
      modifies this
      ensures Valid()
      ensures tnumCol == old(tnumCol) - 1 && colcolor == Remove(old(colcolor), ncol)
      ensures titles == Remove(LowerTitles(old(titles), ncol + 1), ncol)
      ensures columns == Remove(LowerColumns(old(columns), ncol + 1), ncol)
      ensures |colcolor| - tnumCol == |old(colcolor)| - old(tnumCol)
      ensures projectName == old(projectName) && lastUpdate == old(lastUpdate)
    {
      var ts, cs := titles, columns;
      for n := ncol + 1 to tnumCol
        invariant unchanged(this)
        invariant |ts| == |titles| && |cs| == |columns|
        invariant forall i :: 0 <= i < |ts| ==> ts[i] == if ncol < i < n then Lowered(titles[i]) else titles[i]
        invariant forall i :: 0 <= i < |cs| ==> cs[i] == if ncol < i < n then LoweredColumn(columns[i]) else columns[i]
      {
        ts := ts[n := Lowered(ts[n])];
        var c := LowerColumn(cs[n]);
        cs := cs[n := c];
      }
      assert ts == LowerTitles(titles, ncol + 1);
      assert cs == LowerColumns(columns, ncol + 1);
      DelColConsistent(titles, columns, colcolor, tnumCol, ncol);
      titles := Remove(ts, ncol);
      columns := Remove(cs, ncol);
      colcolor := Remove(colcolor, ncol);
      tnumCol := tnumCol - 1;
    }

    /** `add_col` as evidently intended: a "New List" title and an empty
        layout with its "+" button for a new last column, and 'blue' at the
        end of the colour list (the new column's colour when the list was
        as long as the column count), the tab order linked only when there
        is a title before it. */
    method AddCol()
      requires Valid()
      modifies this
      ensures Valid()
      ensures titles == old(titles) + [Note("New List", old(tnumCol))]
      ensures columns == old(columns) + [Column([], old(tnumCol))]
      ensures colcolor == old(colcolor) + ["blue"] && tnumCol == old(tnumCol) + 1
      ensures |colcolor| - tnumCol == |old(colcolor)| - old(tnumCol)
      ensures projectName == old(projectName) && lastUpdate == old(lastUpdate)
    {
      var ncol := tnumCol;
      titles := titles + [Note("New List", ncol)];
      columns := columns + [Column([], ncol)];
      colcolor := colcolor + ["blue"];
      tnumCol := tnumCol + 1;
      Appended(old(titles), old(columns), old(colcolor), ncol);
    }

    /** `add_col` as written: the title goes in first, and linking the tab
        order looks up the title at ncol - 1, which for a board without
        columns is no item, so the call raises there, leaving the new title
        without a layout, colour or count. */
    method AddColAsWritten() returns (raised: bool)
      requires Valid()
      modifies this
      ensures raised <==> old(tnumCol) == 0
      ensures titles == old(titles) + [Note("New List", old(tnumCol))]
      ensures !raised ==> (Valid() && columns == old(columns) + [Column([], old(tnumCol))] &&
        colcolor == old(colcolor) + ["blue"] && tnumCol == old(tnumCol) + 1)
      ensures raised ==> columns == old(columns) && colcolor == old(colcolor) && tnumCol == 0 && !Valid()
      ensures projectName == old(projectName) && lastUpdate == old(lastUpdate)
    {
      var ncol := tnumCol;
      titles := titles + [Note("New List", ncol)];
      if ncol - 1 < 0 {
        raised := true;
        return;
      }
      raised := false;
      columns := columns + [Column([], ncol)];
      colcolor := colcolor + ["blue"];
      tnumCol := tnumCol + 1;
      Appended(old(titles), old(columns), old(colcolor), ncol);
    }

    /** `save_proj`: the title records, then the layouts' records in nested
        loops, and the project information. */
    method SaveProj() returns (p: Project)
      ensures p == Saved(projectName, lastUpdate, colcolor, titles, columns)
    {
      var titleList: seq<TitleRecord> := [];
      for n := 0 to |titles|
        invariant |titleList| == n
        invariant forall i :: 0 <= i < n ==> titleList[i] == TitleRecord(titles[i].text, titles[i].col, "")
      {
        titleList := titleList + [TitleRecord(titles[n].text, titles[n].col, "")];
      }
      var noteList: seq<NoteRecord> := [];
      assert columns[..0] == [];
      for i := 0 to |columns|
        invariant noteList == SavedNotes(columns[..i])
      {
        var vl := columns[i];
        var start := noteList;
        for colIndex := 0 to |vl.notes|
          invariant noteList == start + ColumnRecords(vl)[..colIndex]
        {
          assert ColumnRecords(vl)[..colIndex + 1] == ColumnRecords(vl)[..colIndex] + [ColumnRecords(vl)[colIndex]];
          noteList := noteList + [NoteRecord(vl.notes[colIndex].text, vl.notes[colIndex].col, colIndex, "")];
        }
        assert ColumnRecords(vl)[..|vl.notes|] == ColumnRecords(vl);
        assert columns[..i + 1][..i] == columns[..i];
      }
      assert columns[..|columns|] == columns;
      p := Project(ProjectInfo(projectName, lastUpdate, colcolor), titleList, noteList);
    }
  }

  /** A new last column "New List", empty and blue, keeps a board consistent. */
  lemma Appended(titles: seq<Note>, columns: seq<Column>, colcolor: seq<string>, tnumCol: int)
    requires Consistent(titles, columns, colcolor, tnumCol)
    ensures Consistent(titles + [Note("New List", tnumCol)], columns + [Column([], tnumCol)], colcolor + ["blue"], tnumCol + 1)
  {
    var ts, cs, cc := titles + [Note("New List", tnumCol)], columns + [Column([], tnumCol)], colcolor + ["blue"];
    forall i | 0 <= i < tnumCol + 1
      ensures ts[i].col == i && InColumn(cs[i], i)
    {
      if i < tnumCol {
        assert ts[i] == titles[i] && cs[i] == columns[i];
      }
    }
    forall i | 0 <= i < |cc|
      ensures cc[i] in Palette
    {
      if i < |colcolor| {
        assert cc[i] == colcolor[i];
      } else {
        assert cc[i] == "blue" == Palette[3];
      }
    }
  }

  /** Deleting the only column of a board leaves none: the state from which
      the as-written `add_col` raises. */
  lemma LastColumnDeleted(t: Note, c: Column, colcolor: seq<string>)
    requires Consistent([t], [c], colcolor, 1)
    ensures Remove(LowerTitles([t], 1), 0) == [] && Remove(LowerColumns([c], 1), 0) == []
    ensures Consistent([], [], Remove(colcolor, 0), 0)
  {
    DelColConsistent([t], [c], colcolor, 1, 0);
  }

  // ---------------------------------------------------------------- paths

  predicate EndsWith(s: string, suffix: string) {
    |suffix| <= |s| && s[|s| - |suffix|..] == suffix
  }

  /** The path `start_project` writes to: nothing for a cancelled dialog,
      the path itself when it ends in ".xban", the path and ".xban" otherwise. */
  function StartPath(p: string): (r: Option<string>)
    ensures r.Some? <==> p != ""
    ensures r.Some? ==> EndsWith(r.value, ".xban") && |p| <= |r.value| && r.value[..|p|] == p
  {
    if p == "" then None
    else if EndsWith(p, ".xban") then Some(p)
    else
      assert (p + ".xban")[..|p|] == p;
      Some(p + ".xban")
  }

  /** Adding the suffix once is enough: the rule is idempotent, and a path
      that has the suffix is kept as it is. */
  lemma StartPathIdempotent(p: string)
    requires p != ""
    ensures StartPath(StartPath(p).value) == StartPath(p)
    ensures EndsWith(p, ".xban") ==> StartPath(p) == Some(p)
    ensures !EndsWith(p, ".xban") ==> StartPath(p) == Some(p + ".xban")
  {
  }

  /** The `xban_default` of `start_project` for the chosen path: the project
      named after the file's name without extension, three coloured columns
      and one empty note. */
  function DefaultProject(projpath: string, time: string): (p: Project)
    ensures p.info.name == Paths.ProjectName(projpath)
  {
    Project(
      ProjectInfo(Paths.ProjectName(projpath), time, ["red", "yellow", "green"]),
      [TitleRecord("To-Do", 0, ""), TitleRecord("In Process", 1, ""), TitleRecord("Done", 2, "")],
      [NoteRecord("", 0, 1, "")])
  }

  /** The default project loads as three titled columns, "To-Do" holding one
      empty note: its `col_index` 1 is past the end of the empty layout, so
      the note is appended. */
  lemma DefaultBoard(projpath: string, time: string)
    ensures var p := DefaultProject(projpath, time);
      Loadable(p) && WellNumbered(p) &&
      LoadedTitles(p.titles) == [Note("To-Do", 0), Note("In Process", 1), Note("Done", 2)] &&
      LoadedColumns(p) == [Column([Note("", 0)], 0), Column([], 1), Column([], 2)]
  {
    var p := DefaultProject(projpath, time);
    var r := p.content[0];
    var e := Empties(3);
    assert p.content[1..] == [];
    assert ColumnInsert([], 1, Note("", 0)) == [Note("", 0)];
    assert Placed(e, p.content) == [[Note("", 0)], [], []];
  }

  // ---------------------------------------------------------------- windows

  /** What a window does when asked to show a project. */
  datatype OpenAction =
    | Ignore              // the dialog was cancelled
    | NotXban             // not a ".xban" file: only a message is printed
    | ShowOpened(path: string)   // the window registered for the path is shown
    | LoadHere(path: string)     // this window, showing no board, loads it
    | NewWindow(path: string)    // a new window `XBan(path)` opens

  /** `new_ban_win(file_path)`: a window whose central widget is not a board's
      scroll area loads the project itself, any other starts a new window. */
  function NewBanWin(path: string, showsBoard: bool): (a: OpenAction)
    ensures a == LoadHere(path) || a == NewWindow(path)
    ensures a.LoadHere? <==> !showsBoard
  {
    if !showsBoard then LoadHere(path) else NewWindow(path)
  }

  /** `open_project` for the path the dialog returned, against the keys of
      `OPENED_DICT`. */
  function OpenProject(path: string, openedDict: map<string, nat>, showsBoard: bool): OpenAction {
    if path == "" then Ignore
    else if !EndsWith(path, ".xban") then NotXban
    else if path in openedDict then ShowOpened(path)
    else NewBanWin(path, showsBoard)
  }

  /** Only a non-empty ".xban" path is ever shown or opened; a registered one
      reuses its window, an unregistered one is loaded. */
  lemma OpenProjectCases(path: string, openedDict: map<string, nat>, showsBoard: bool)
    ensures var a := OpenProject(path, openedDict, showsBoard);
      (a == Ignore <==> path == "") &&
      (a == NotXban <==> path != "" && !EndsWith(path, ".xban")) &&
      (a.ShowOpened? <==> path != "" && EndsWith(path, ".xban") && path in openedDict) &&
      ((a.LoadHere? || a.NewWindow?) <==> path != "" && EndsWith(path, ".xban") && path !in openedDict) &&
      (!a.Ignore? && !a.NotXban? ==> a.path == path)
  {
  }

  /** `start_project`: the path the file is written to, the default project
      it holds and where it is shown; `OPENED_DICT` is not consulted. */
  function StartProject(path: string, time: string, showsBoard: bool): (r: Option<(string, Project, OpenAction)>)
    ensures r.Some? <==> path != ""
    ensures r.Some? ==> r.value.0 == StartPath(path).value && r.value.2 == NewBanWin(r.value.0, showsBoard)
    ensures r.Some? ==> r.value.1 == DefaultProject(path, time)
  {
    match StartPath(path)
    case None => None
    case Some(p) => Some((p, DefaultProject(path, time), NewBanWin(p, showsBoard)))
  }

  // ---------------------------------------------------------------- OPENED_DICT

  /** `OPENED_DICT[proj_path] = self` of `XBan.__init__`, for a path that is
      non-empty and not yet a key. */
  function Registered(openedDict: map<string, nat>, path: string, window: nat): (r: map<string, nat>)
    ensures r.Keys == if path == "" then openedDict.Keys else openedDict.Keys + {path}
    ensures forall p :: p in openedDict ==> r[p] == openedDict[p]
    ensures path != "" && path !in openedDict ==> r[path] == window
  {
    if path != "" && path !in openedDict then openedDict[path := window] else openedDict
  }

  /** `OPENED_DICT.pop(self._proj_path)` of `closeEvent`, for a path that is
      non-empty and a key, whichever window it names. */
  function Unregistered(openedDict: map<string, nat>, path: string): (r: map<string, nat>)
    ensures r.Keys == if path == "" then openedDict.Keys else openedDict.Keys - {path}
    ensures forall p :: p in r ==> r[p] == openedDict[p]
  {
    if path != "" && path in openedDict then openedDict - {path} else openedDict
  }

  /** Closing the window that registered a path undoes the registration. */
  lemma RegisterThenClose(openedDict: map<string, nat>, path: string, window: nat)
    requires path !in openedDict
    ensures Unregistered(Registered(openedDict, path, window), path) == openedDict
  {
    if path != "" {
      assert Registered(openedDict, path, window) - {path} == openedDict;
    }
  }

  /** `OPENED_DICT` after an open: as written, only a new window registers
      its path (in `XBan.__init__`); a project loaded into the window itself
      is not registered. */
  function AfterOpenAsWritten(openedDict: map<string, nat>, a: OpenAction, newWindow: nat): map<string, nat> {
    if a.NewWindow? then Registered(openedDict, a.path, newWindow) else openedDict
  }

  /** As written, opening a project in an empty window and then opening it
      again from that window starts a second window on the same file. */
  lemma ReopenAsWritten()
    ensures var first := OpenProject("a.xban", map[], false);
      first == LoadHere("a.xban") &&
      OpenProject("a.xban", AfterOpenAsWritten(map[], first, 1), true) == NewWindow("a.xban")
  {
    assert EndsWith("a.xban", ".xban");
  }

  /** `OPENED_DICT` after an open, as evidently intended: the window that
      loads a project registers it too. */
  function AfterOpen(openedDict: map<string, nat>, a: OpenAction, here: nat, newWindow: nat): map<string, nat> {
    match a
    case LoadHere(p) => Registered(openedDict, p, here)
    case NewWindow(p) => Registered(openedDict, p, newWindow)
    case _ => openedDict
  }

  /** With that registration, a project once opened is shown again, never
      opened a second time, whatever window asks. */
  lemma ReopenShows(path: string, openedDict: map<string, nat>, showsBoard: bool, here: nat, newWindow: nat, again: bool)
    ensures var a := OpenProject(path, openedDict, showsBoard);
      a.LoadHere? || a.NewWindow? || a.ShowOpened? ==>
        OpenProject(path, AfterOpen(openedDict, a, here, newWindow), again) == ShowOpened(path)
  {
    OpenProjectCases(path, openedDict, showsBoard);
  }

  /** The `OPENED_DICT` of the app: open project paths to their windows. */
  class Registry {
    var openedDict: map<string, nat>

    /** The empty path is never a key. */
    predicate Valid()
      reads this
    {
      "" !in openedDict
    }

    constructor ()
      ensures Valid() && openedDict == map[]
    {
      openedDict := map[];
    }

    /** The registration of `XBan.__init__(proj_path)` for window `window`. */
    method Register(path: string, window: nat)
      requires Valid()
      modifies this
      ensures Valid()
      ensures openedDict == Registered(old(openedDict), path, window)
    {
      if path != "" && path !in openedDict {
        openedDict := openedDict[path := window];
      }
    }

    /** The unregistration of `closeEvent` for a window whose `_proj_path` is path. */
    method Unregister(path: string)
      requires Valid()
      modifies this
      ensures Valid()
      ensures openedDict == Unregistered(old(openedDict), path)
    {
      if path != "" && path in openedDict {
        openedDict := openedDict - {path};
      }
    }
  }
}
