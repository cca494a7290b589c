# xBan in Dafny

xBan is a desktop kanban board. A board is a row of sub-boards ("lists"), each
with a title, a colour and a list of text tiles, followed by a "+" button that
adds a new sub-board. A board is saved as two YAML documents: a configuration
mapping under the key `xban_config` (title, description, one colour per
sub-board) and a content mapping from each sub-board's title to its tile texts.
The repository also ships an older single-file app, `xban/xBan.py`, which keeps
a board of numbered columns in a JSON project file.

This project models, as Dafny values, functions, classes and lemmas:

- `yaml_values.dfy` (`YamlValues`): parsed YAML values, and Python dicts with
  insertion order as sequences of entries; `d[key]`, `d.update`, and a fold of
  updates.
- `paths.dfy` (`Paths`): `os.path.basename`, `os.path.splitext` and the board
  title derived from a file path.
- `style.dfy` (`Style`): the seven-colour palette `COLOR_DICT`, Python's
  `str.format` on the `WIDGET_FORMAT` template, and the `TILE_STYLE` table the
  import-time loop builds.
- `io.dfy` (`Io`): `xban_content`, which classifies the parsed documents of a
  board file, and `process_yaml` as "any failure gives `[]`".
- `tiles.dfy` (`Tiles`): one sub-board's tile list (`BanListWidget`) and the
  sub-board's own list operations (`SubBoard.parse`, `add_listitem`,
  `del_listitem`).
- `layout.dfy` (`Layout`): the horizontal layout as a sequence of sub-boards
  followed by the "+" button, Qt's `insertWidget`/`removeWidget`, `get_index`,
  the drop rule, `parse_board`'s serialisation and the decoding `draw_board`
  performs.
- `board.dfy` (`Board`): `BanBoard` of `xban/board.py` as a class whose fields
  are the file path, title, description, layout and the next free widget
  identity.
- `gui.dfy` (`Gui`): the older `BanBoard` of `xban/gui.py` over the same state.
- `note_text.dfy` (`NoteText`): the line-count rule `_text_line_count` of
  `xban/xBan.py` with `str.splitlines`, and the note height of `text_resize`.
- `legacy.dfy` (`Legacy`): the column bookkeeping of `xban/xBan.py`'s
  `BanBoard` (`_colcolor`, `_tnum_col`, the `_col` of every title and note),
  `initProj` and `save_proj` with their round trip, the `.xban` suffix rule,
  the open dispatch, and the `OPENED_DICT` registry as a class.

Facts the code depends on that come from outside it are parameters:
- `random.sample`'s choice is an ordering `draw` of the palette, and the sample of `n` colours is `draw[..n]`;
- `textwrap.wrap` is a function argument `wrap`;
- the time string of a new project, and the clock reading an edit stamps as the last update, are arguments;
- widget geometry is a sequence of integer rectangles;
- the window of a registered project is a number.

Two places where the model follows the code rather than its documentation:
- In `xban/xBan.py`, `add_col` gives the new column the colour at position `_tnum_col` of `_colcolor`. That colour is `'blue'` only when the list is exactly as long as the number of columns; the model keeps the list's extra entries and proves that `len(_colcolor) - _tnum_col` is preserved.
- `TILE_STYLE.get(color, "black")` falls back to the text `"black"`, not to the black stylesheet (a finding below).

## Model

| member | source | states |
|---|---|---|
| YamlValues.Lookup | xban/io.py:35 | `key in d` holds exactly when the key is among the mapping's keys, and then the value returned is the one stored under it |
| YamlValues.PutFacts | xban/board.py:130 | after `d.update({key: val})` the key maps to val, every other key keeps its value, the keys are the old ones plus key, and a dict stays a dict |
| YamlValues.PutExisting | xban/board.py:130 | updating a key already present replaces its value at the same position |
| YamlValues.PutNew | xban/board.py:130 | updating a new key appends it at the end |
| YamlValues.Strings | xban/board.py:235-236 | the strings of a YAML list exist exactly when every item is a string, in order |
| YamlValues.StringsOfStrSeq | xban/board.py:282-295 | a list of strings written out reads back as the same strings |
| YamlValues.UpdatesKeys | xban/board.py:124-130 | the dict built by repeated updates has exactly the keys that were updated |
| YamlValues.UpdatesLength | xban/board.py:124-130 | the dict has at most as many keys as updates, and exactly as many only when the keys were distinct |
| YamlValues.UpdatesOfDict | xban/board.py:124-130 | updates with distinct keys build exactly that sequence of entries |
| YamlValues.UpdatesLastWins | xban/board.py:130 | a key repeated across updates maps to the value of its last update |
| YamlValues.UpdatesEntries | xban/board.py:124-130 | every entry of the dict comes from one of the updates |
| Paths.LastIndexOfFacts | xban/io.py:27 | `rfind` returns the last index holding the character, or -1, with no later occurrence |
| Paths.BaseNameSuffix | xban/io.py:27 | the basename is a suffix of the path and holds no '/' |
| Paths.SplitExtRoot | xban/io.py:27 | the splitext root is either the whole path or a proper prefix followed by '.' |
| Paths.TitleIsProjectName | xban/io.py:27 | basename of the splitext root equals the splitext root of the basename (xban/xBan.py:805 strips in the other order) |
| Paths.TitleOfPath | xban/io.py:27 | a file "dir/stem.ext" is titled "stem": the directory and the last extension go |
| Paths.TitleOfTestFile | tests/test_io.py:21 | "test/testfile.yaml" is titled "testfile" |
| Style.PaletteShape | xban/style.py:4-12 | the palette is black, purple, red, yellow, blue, green, teal: seven distinct names |
| Style.FormatAppend | xban/style.py:45 | `str.format` distributes over concatenation of a template whose left part formats |
| Style.FormatPlain | xban/style.py:45 | text without braces formats to itself |
| Style.FormatFieldLine | xban/style.py:45 | "pre{name}post" formats to pre, the setting's value for name, post |
| Style.FormatEscapeLine | xban/style.py:45 | "{{" and "}}" format to one brace |
| Style.WidgetFormatFills | xban/style.py:14-35 | filling `WIDGET_FORMAT` with any setting succeeds and gives that setting's stylesheet, every `{color}`, `{bgcolor}` and `{bcolor}` replaced and every doubled brace collapsed |
| Style.StyleMapValues | xban/style.py:44-45 | with distinct names, each name maps to the sheet of its own entry |
| Style.TileStyleKeys | xban/style.py:42-45 | `TILE_STYLE`'s keys are exactly the palette's names, and iterating it visits them in `COLOR_DICT`'s order |
| Style.StyleOrderOfDistinct | xban/style.py:42-45 | assigning distinct names one by one gives a dict whose keys come in exactly that order |
| Style.TileStyleContents | xban/style.py:44-45 | `TILE_STYLE[name]` is the stylesheet of that name's colour setting, for every palette entry |
| Style.BuildTileStyle | xban/style.py:42-45 | the import-time loop builds exactly `TILE_STYLE`, both its mapping and its key order |
| Style.StyleMapAvoids | xban/style.py:42-45 | a text no entry's sheet equals is not among the built dict's values |
| Style.BlackIsNoSheet | xban/board.py:234 | the text "black" is none of `TILE_STYLE`'s values |
| Style.BlackTileStyle | tests/test_style.py:10-36 | `TILE_STYLE["black"]` is the literal black stylesheet, character for character |
| Style.ListStyleAsWrittenUnknownColor | xban/board.py:234 | as written, a colour outside the palette gets the text "black", which is no stylesheet |
| Style.ListStyleSheets | xban/board.py:234 | the corrected lookup always gives one of `TILE_STYLE`'s sheets: the colour's own, else black's |
| Io.ConfigDoc | xban/io.py:28-30 | the synthesised configuration is a mapping, a proper dict, and carries `xban_config` |
| Io.Sample | xban/io.py:44 | the draw succeeds exactly when at most seven colours are asked for, and gives that many distinct palette names |
| Io.EverySampleReachable | xban/io.py:44 | every sequence of distinct palette names is the outcome of some draw |
| Io.EmptyStream | xban/io.py:47-48 | an empty stream gives the default configuration titled after the file, and an empty content |
| Io.NonMappingRejected | xban/io.py:32-34 | any document that is not a mapping gives `[]` with the "does not have a valid xban format" error, whatever the first document holds |
| Io.ConfigPassesThrough | xban/io.py:35-36 | all mappings with `xban_config` in the first: returned unchanged, no error |
| Io.TooManyDocuments | xban/io.py:37-39 | two or more plain mappings give `[]` with the "too many yaml documents" error |
| Io.SingleMappingGetsColors | xban/io.py:40-46 | one plain mapping of up to seven keys gives a configuration with those drawn colours and the same mapping; more than seven keys raise |
| Io.PlainMappingResult | xban/io.py:40-46 | one plain mapping of at most seven keys, the empty one included, is kept as the content behind a config titled after the file, with one distinct palette colour per key and no error |
| Io.SucceedsExactly | xban/io.py:31-48 | a non-empty result comes exactly from an empty stream, a configured stream of mappings or a single plain mapping of at most seven keys |
| Io.Idempotent | xban/io.py:35-36 | every non-empty result is a configured board document, and feeding it back returns it unchanged |
| Io.ProcessYaml | xban/io.py:51-65 | a read failure gives `[]` with the "Incorrect path. Error:" message; a raising normaliser gives `[]`; otherwise the normaliser's result |
| Io.EmptyTestFile | tests/test_io.py:14-21 | the empty stream of "test/testfile.yaml" gives the default board titled "testfile" |
| Io.InvalidTestStream | tests/test_io.py:39-51 | a mapping followed by a list gives `[]` and the format error |
| Io.ValidTestStream | tests/test_io.py:54-62 | a configured stream is returned as it is |
| Io.TwoKeyResult | xban/io.py:43-46 | a plain mapping with two keys keeps its content and gets two distinct colours, each a key of `TILE_STYLE` |
| Io.PlainYamlTestStream | tests/test_io.py:65-79 | the two-key mapping keeps its content, is titled "testfile" and gets two distinct colours, each a key of `TILE_STYLE` |
| Io.MultiDocTestStream | tests/test_io.py:82-88 | two plain documents give `[]` and the "too many yaml documents" error |
| Io.ProcessInvalidYaml | tests/test_io.py:91-108 | a parse failure gives `[]` and one "Incorrect test/file.yaml. Error:" message |
| Io.ProcessValidYaml | tests/test_io.py:127-141 | the two-document file is returned as parsed |
| Tiles.AddItem | xban/board.py:445-453 | `add_item` appends one editable tile with the text at the end; the texts grow by that text; nothing else changes |
| Tiles.TakeItem | xban/board.py:443 | `takeItem(row)` on a row of the list removes exactly that tile from the tiles and the selection; any other row changes nothing |
| Tiles.DelItem | xban/board.py:431-443 | `del_item` removes the row holding the item, if any, and keeps the list valid |
| Tiles.RowOf | xban/board.py:441-443 | the row found holds the item and no earlier row does |
| Tiles.TakeRowOf | xban/board.py:431-443 | with distinct items, removing the row of an item is filtering that item out |
| Tiles.DelListItem | xban/board.py:305-309 | `del_listitem` leaves exactly the unselected tiles, in order, and no selection |
| Tiles.UnselectedTwice | xban/board.py:308-309 | deleting one selected tile after another is deleting them all at once |
| Tiles.AddListItem | xban/board.py:297-303 | `add_listitem` appends an empty editable tile, selects only it and makes it the current row |
| Tiles.InsertDropped | xban/board.py:425 | the dropped texts become fresh tiles at the drop row, the others keep their order |
| Tiles.MakeEditable | xban/board.py:427-429 | after a drop every tile is editable, with the same identities and texts |
| Tiles.NewSubBoard | xban/board.py:215-236 | a new sub-board has the given title and colour, one editable tile per text in order, and no selection |
| Tiles.ParseNewSubBoard | xban/board.py:282-295 | a sub-board parses back to the title and texts it was built from, for titles that `toPlainText` returns unchanged (see "## Left out") |
| Tiles.ParseAddListItem | xban/board.py:297-303 | after `add_listitem` the sub-board parses to its texts and one more, empty, text |
| Tiles.SheetOfColor | xban/board.py:234 | a sub-board's list gets its colour's sheet when the colour is in `TILE_STYLE`, and otherwise the text "black", which is none of `TILE_STYLE`'s sheets; the sheet is one of them exactly when the colour is a palette colour |
| Layout.BoardsAppend | xban/board.py:124-126 | the sub-boards of a concatenated layout are those of each part |
| Layout.QtInsert | xban/board.py:107 | `insertWidget(index, w)` puts w at index, or at the end for a negative index, and keeps every other item in order |
| Layout.InsertBeforePlus | xban/board.py:99-107 | inserting at `count() - 1` keeps the layout well formed and adds the sub-board as the last before "+" |
| Layout.RemoveWidget | xban/board.py:109-113 | `removeWidget(board)` takes out exactly that widget's item, or changes nothing if it is not there |
| Layout.RemoveWellFormed | xban/board.py:109-113 | deleting a sub-board keeps the layout well formed and removes exactly the sub-board with that identity |
| Layout.RemoveAt | xban/gui.py:107-112 | removing one sub-board keeps the others, in order, and their identities distinct |
| Layout.PositionInWellFormed | xban/board.py:109-113 | in a well-formed layout a widget is found exactly when it is one of the sub-boards |
| Layout.GetIndex | xban/board.py:140-147 | `get_index` returns the first item whose geometry contains the point, else -1; the result lies in [-1, count) |
| Layout.QtMove | xban/board.py:178 | `insertWidget` of a widget already laid out takes it out first, then inserts it at the index among the rest |
| Layout.DropOnPlusAsWritten | xban/board.py:175-178 | as written, dropping on the "+" button (index count - 1) puts the sub-board after "+" |
| Layout.DropAgreesBeforePlus | xban/board.py:175-178 | the corrected drop differs from the written one only for a drop on "+" |
| Layout.DropWellFormed | xban/board.py:161-180 | the corrected drop keeps "+" last and the same sub-boards, puts the dragged one at min(index, count - 2), and changes nothing for -1 |
| Layout.DropSplice | xban/board.py:175-178 | a drop takes the widget out and puts it back at the clamped index |
| Layout.MoveBoards | xban/board.py:175-178 | moving a widget keeps the same sub-boards, each once |
| Layout.Colors | xban/board.py:124-128 | `board_color` has one colour per sub-board, in layout order |
| Layout.Columns | xban/board.py:126-130 | one `{title: tiles}` update per sub-board, in layout order |
| Layout.Content | xban/board.py:120-130 | the content dict has exactly the sub-boards' titles as keys |
| Layout.ContentLength | xban/board.py:129-130 | the content has at most one key per sub-board, exactly one each when titles are distinct, and then it is the titles and tiles in layout order |
| Layout.ContentLastWins | xban/board.py:130 | for a repeated title the content keeps the tiles of the last sub-board with it |
| Layout.TileStrings | xban/board.py:235-236 | a tile list draws exactly when each item is a string or a null; a string is its own text and a null, `QListWidgetItem(None)`, is an empty tile |
| Layout.DecodeColumns | xban/board.py:95-97 | `content.items()` walks exactly when every value is walkable, giving each title with its tile texts in order |
| Layout.Decode | xban/board.py:55-97 | a file `draw_board` can draw has two documents, a configuration first, and exactly one colour `color[i]` per column |
| Layout.ColorField | xban/board.py:76-97 | when `color[i]` succeeds for every column, it gives exactly one colour per column |
| Layout.DecodeLooseColors | xban/board.py:76-97 | a board without columns opens whatever its `board_color`, and `board_color: "red"` gives one column the colour "r" |
| Layout.DecodeConfigDoc | xban/board.py:55-97 | a file in the shape `parse_board` writes decodes exactly when its tiles walk and it has enough colours, to its title, description, columns and their leading colours |
| Layout.DecodeNullTile | xban/board.py:445-452 | a column `todo: [null]` opens with one empty tile |
| Layout.DecodeEmptyFile | xban/io.py:47-48 | the default document of an empty file opens as an empty board titled after the file |
| Layout.DrawnBoards | xban/board.py:95-97 | column i of the file becomes sub-board i, with colour `board_color[i]`, its title and its tiles |
| Layout.DrawnLayout | xban/board.py:90-97 | the drawn layout is well formed: the drawn sub-boards in order, then "+" |
| Layout.DrawStep | xban/board.py:95-107 | inserting column i's sub-board before "+" extends the layout of the first i columns |
| Layout.DecodeContent | xban/board.py:124-130 | every column `parse_board` writes walks back as the texts it was written from |
| Layout.RoundTrip | xban/board.py:115-138 | a saved board decodes to its own title and description, and reopens with every sub-board's title, tiles and colour exactly when the titles are distinct |
| Layout.DecodeParsed | xban/board.py:115-138 | the documents `parse_board` writes always decode, to the collapsed content and the leading colours it uses |
| Layout.DrawnSummaries | xban/board.py:90-97 | opening a saved board with distinct titles reproduces every sub-board's title, tiles and colour, in order |
| Layout.ParsedSnoc | xban/board.py:125-130 | one more sub-board adds its colour and one `update` with its title and tiles |
| Board.FreshBoard | xban/board.py:99-107 | an identity not yet handed out is no sub-board's |
| Board.SoundInsert | xban/board.py:99-107 | inserting a valid new sub-board before "+" keeps the layout sound and adds it last |
| Board.DropSound | xban/board.py:161-180 | a drop keeps the layout sound and holds the same sub-boards |
| Board.ClearOthersSelection | xban/board.py:198-203 | after clearing, at most the chosen sub-board's list has a selection, and that one keeps it |
| Board.ClearedSound | xban/board.py:198-203 | clearing selections keeps the layout sound |
| Board.ClearSelections | xban/board.py:199-203 | the loop clears every list but the chosen one |
| Board.DropTiles | xban/board.py:404-429 | a tile drop takes the current row out of the source list, inserts the dragged texts at the drop row of the target list, makes every target tile editable, and keeps the layout sound |
| Board.BanBoard.constructor | xban/board.py:37-97 | a new board holds the file's title, description and layout as `draw_board` draws it |
| Board.BanBoard.DrawBoard | xban/board.py:95-97 | the loop inserts every column before "+", giving the drawn layout |
| Board.BanBoard.InsertBoard | xban/board.py:99-107 | `insert_board(content, color)` adds the sub-board built from them as the last before "+" |
| Board.BanBoard.InsertEmptyBoard | xban/board.py:99-107 | the "+" button adds an untitled, empty, black sub-board last |
| Board.BanBoard.DeleteBoard | xban/board.py:109-113 | the sub-board leaves the layout; the others keep their order |
| Board.BanBoard.ParseBoard | xban/board.py:115-138 | the two documents with the title, description, one colour per sub-board and the content dict |
| Board.BanBoard.SaveBoard | xban/board.py:182-187 | the documents of `parse_board`, for the board's file |
| Board.BanBoard.DropEvent | xban/board.py:161-180 | the hit index as `get_index` finds it, then the corrected drop of the board with that index |
| Board.BanBoard.SingleSelection | xban/board.py:189-203 | with a selection in the chosen list every other list's selection is cleared; without, nothing changes |
| Board.BanBoard.AddListItem | xban/board.py:297-303 | `add_listitem` on one sub-board, then the `single_selection` its new selection triggers (xban/board.py:103-105, 198-203): every other list loses its selection |
| Board.BanBoard.DelListItem | xban/board.py:305-309 | `del_listitem` on one sub-board; the rest of the layout is unchanged |
| Board.BanBoard.ColorChange | xban/board.py:360-363 | the sub-board's colour becomes the chosen palette colour; the rest is unchanged |
| Board.BanBoard.DropTile | xban/board.py:404-429 | the tile drop between two sub-boards of the board |
| Board.ColorChangeSheet | xban/board.py:363 | after `color_change` the list is styled with `TILE_STYLE[color]` |
| Board.InsertedEmptySaved | xban/board.py:99-138 | a sub-board added from "+" adds "black" at the end of `board_color`, and the saved key "" then holds an empty tile list, overwriting any earlier untitled sub-board's |
| Gui.DrawnSound | xban/gui.py:79-91 | the layout `draw_board` builds is sound |
| Gui.DrawWidgets | xban/gui.py:79-91 | the sub-boards are added in content order with `color[i]`, then "+" last |
| Gui.DroppedNotEditable | xban/gui.py:217-231 | the tiles a drop creates sit from the drop row on and carry the dragged texts, without the editable flag |
| Gui.DropTiles | xban/gui.py:217-231 | a tile drop takes the current row from the source list and inserts the dragged texts in the target list |
| Gui.BanBoard.constructor | xban/gui.py:37-97 | a new board holds the file's title, description and drawn layout |
| Gui.BanBoard.InsertBoard | xban/gui.py:99-105 | `insert_board()` adds an untitled, empty, black sub-board before "+" |
| Gui.BanBoard.DeleteBoard | xban/gui.py:107-112 | only the given sub-board leaves; the others keep their order |
| Gui.BanBoard.ParseBoard | xban/gui.py:114-137 | one colour per sub-board and the content dict with `update` overwrites |
| Gui.BanBoard.SaveBoard | xban/gui.py:181-185 | the documents of `parse_board`, for the board's file |
| Gui.BanBoard.DropEvent | xban/gui.py:160-179 | the same index rule as xban/board.py |
| Gui.BanBoard.AddListItem | xban/gui.py:312-318 | `add_listitem` on one sub-board |
| Gui.BanBoard.DelListItem | xban/gui.py:320-324 | `del_listitem` on one sub-board |
| Gui.BanBoard.ColorChange | xban/gui.py:372-375 | the sub-board's colour becomes the chosen palette colour |
| Gui.BanBoard.DropTile | xban/gui.py:217-231 | the tile drop between two sub-boards, without resetting the editable flag |
| NoteText.FirstBreak | xban/xBan.py:116 | the first line boundary of `splitlines`, or the end |
| NoteText.BeforeFirstBreak | xban/xBan.py:116 | no boundary comes before the first one |
| NoteText.SplitTerminated | xban/xBan.py:116 | `splitlines` undoes ending every line with '\n' |
| NoteText.SplitAppendNewline | xban/xBan.py:112-116 | a final '\n' adds one empty line to `splitlines` only when the text already ended in '\n' |
| NoteText.LineCount | xban/xBan.py:109-121 | the count is at least 1, and it is the raw count when that is positive |
| NoteText.TextLineCount | xban/xBan.py:109-121 | the loop computes the line count |
| NoteText.TrailingNewline | xban/xBan.py:112-115 | a '\n' added after a text adds exactly one line |
| NoteText.SingleLine | xban/xBan.py:116-121 | text without a boundary shows as many lines as `wrap` gives it, at least one |
| NoteText.CountTerminated | xban/xBan.py:109-121 | terminated lines show one line for the final '\n' plus each line's wrapped count, an empty line counting 1 |
| NoteText.EmptyNotes | xban/xBan.py:109-121 | an empty note shows one line; a note holding only '\n' shows two |
| NoteText.NoteHeight | xban/xBan.py:171-174 | the minimum height is 33 + 18 * line count, so at least 51 |
| Legacy.InsertPlace | xban/xBan.py:475 | `insertWidget(index, w)` puts w at index when 0 <= index <= count, else at the end |
| Legacy.ColumnInsertPlaces | xban/xBan.py:475 | the inserted note sits at its place and the others keep their order |
| Legacy.PlacedIn | xban/xBan.py:468-475 | placing notes that name their own column keeps every layout's notes in it |
| Legacy.LoadedConsistent | xban/xBan.py:425-482 | a well-numbered file that loads gives a consistent board: one title and one layout per column, numbered in order, every colour in the palette |
| Legacy.LoadTitles | xban/xBan.py:446-451 | the title loop adds one title per record, in order |
| Legacy.LoadColumns | xban/xBan.py:453-482 | one empty layout per title, each note inserted at its `col_index` in its column, then "+" |
| Legacy.SavedNotesIn | xban/xBan.py:760-771 | every record `save_proj` writes names a column of the board |
| Legacy.PlacedAppend | xban/xBan.py:468-475 | loading two runs of records is loading one then the other |
| Legacy.FillColumn | xban/xBan.py:468-475 | the saved records of a column load back as exactly its notes |
| Legacy.PlacedSaved | xban/xBan.py:468-475 | the notes saved from the first n layouts load back into those layouts |
| Legacy.LoadSaved | xban/xBan.py:752-781 | a consistent board saved by `save_proj` loads back by `initProj` to the same titles, layouts, colours and column count |
| Legacy.TitlesShift | xban/xBan.py:567-589 | after `del_col(ncol)` the titles before ncol are untouched and the later ones move down one place with their `_col` lowered |
| Legacy.ColumnsShift | xban/xBan.py:567-589 | the same for the layouts and every widget in them |
| Legacy.DelColConsistent | xban/xBan.py:562-593 | `del_col` keeps the board consistent |
| Legacy.LowerColumn | xban/xBan.py:569-571 | the inner loop lowers every widget of a layout by one column |
| Legacy.BanBoard.constructor | xban/xBan.py:425-482 | the board holds the file's name, time, colours, one title per record, and the loaded layouts; a well-numbered file gives a valid board |
| Legacy.BanBoard.AddNotes | xban/xBan.py:500-515 | an empty note goes just before column ncol's "+" button; the edit time becomes the clock reading, through `proj_edited` and `time_changed` (xban/xBan.py:540-541, 368-370); titles, colours and the other columns are unchanged |
| Legacy.BanBoard.ColColorChange | xban/xBan.py:543-551 | only entry `col` of the colour list changes, and the edit time becomes the clock reading, through the `time_changed` slot (xban/xBan.py:368-370, 441) |
| Legacy.BanBoard.DelCol | xban/xBan.py:562-593 | the column's title, layout and colour go, later columns move down, the column count drops by one, and `len(_colcolor) - _tnum_col` is preserved |
| Legacy.BanBoard.AddCol | xban/xBan.py:595-628 | a "New List" title, an empty layout, 'blue' appended and one more column, the board staying consistent |
| Legacy.BanBoard.AddColAsWritten | xban/xBan.py:595-607 | as written, on a board without columns the title is added and then the call raises, leaving an inconsistent board; otherwise it acts as the corrected `AddCol` |
| Legacy.BanBoard.SaveProj | xban/xBan.py:752-781 | the saved project: title records, then per layout one record per note with `col_index` 0..count-2, then the info |
| Legacy.Appended | xban/xBan.py:595-624 | appending a column keeps a board consistent |
| Legacy.LastColumnDeleted | xban/xBan.py:562-593 | deleting the only column leaves a consistent board without columns |
| Legacy.StartPath | xban/xBan.py:821-827 | an empty path is ignored, any other path ends with ".xban" and extends the input |
| Legacy.StartPathIdempotent | xban/xBan.py:824-825 | the suffix rule is idempotent, keeps a ".xban" path and appends to any other |
| Legacy.DefaultProject | xban/xBan.py:805-820 | the default project is named after the chosen path |
| Legacy.DefaultBoard | xban/xBan.py:806-820 | the default project loads as "To-Do" holding one empty note, then "In Process" and "Done" |
| Legacy.NewBanWin | xban/xBan.py:849-861 | a window without a board loads the project in place; any other starts a new window |
| Legacy.OpenProjectCases | xban/xBan.py:830-847 | an empty path is ignored, a non-".xban" path rejected, a registered one shown, any other handed to `new_ban_win` |
| Legacy.StartProject | xban/xBan.py:798-828 | nothing for an empty path; otherwise the suffixed path, the default project and the `new_ban_win` action |
| Legacy.Registered | xban/xBan.py:643-644 | a non-empty path is registered only when absent; existing entries keep their windows |
| Legacy.Unregistered | xban/xBan.py:792-793 | closing removes the window's path and keeps the other entries |
| Legacy.RegisterThenClose | xban/xBan.py:641-644 | closing the window that registered a path undoes the registration |
| Legacy.ReopenAsWritten | xban/xBan.py:849-858 | as written, a project opened in an empty window is not registered, so opening it again starts a second window |
| Legacy.ReopenShows | xban/xBan.py:830-847 | registering on every open shows an opened project again instead of opening it twice |
| Legacy.Registry.Register | xban/xBan.py:643-644 | the registry becomes the registration of the path |
| Legacy.Registry.Unregister | xban/xBan.py:792-793 | the registry becomes the unregistration of the path |

## Left out

- YAML parsing and dumping, JSON load and dump, and all file opening and writing (xban/io.py:51-76, xban/xBan.py:783-784): the model starts from parsed documents and ends at the documents written.
- Logging is modelled only as the list of error messages `xban_content` and `process_yaml` produce.
- `random.sample` is a caller-supplied ordering of the palette; the model proves every valid sample is reachable, but not its randomness. The model follows the Python versions of the PySide2 5.12 era that setup.py pins: from Python 3.11 on, `random.sample` refuses the `TILE_STYLE.keys()` view with a TypeError, which would make every single plain mapping fail to load.
- `textwrap.wrap` is an uninterpreted function argument. The width it gets, `int(self._note_width / char_width)` (xban/xBan.py:172), is 0 for a note narrower than one character, and `textwrap.wrap` then raises ValueError on any non-empty line. The model's `wrap` is total, so NoteText.LineCount gives a count there where the source raises.
- The model assumes a revision in which xban/board.py imports: as the files stand, xban/style.py defines no `MENU_STYLE` for board.py:26 to import, and xban/utils.py imports PySide6 while the rest imports PySide2.
- Qt rendering, style sheets other than `TILE_STYLE`, `MENU_STYLE`, shadows, fonts, shortcuts, tab order (`tab_reorder`, the tab-order call of `add_col` apart from its failure) and scrolling (`scroll_action`).
- Floating point geometry: rectangles and points are integers, and `QRect.contains` is the inclusive corner test.
- `mouseMoveEvent`/`QDrag`: the drag itself is outside the model, which starts from the dragged sub-board or tiles.
- Board.BanBoard.DropTile: models one tile list dropped on another sub-board's list; a drop within the same list, drags of several selected tiles and drops from another window are not modelled.
- Gui.BanBoard.DropTile: the same restriction as in xban/board.py.
- NoteBlock deletion, `note_moved` signals and widget editing in the legacy app are not part of this model; notes are values.
- Signals that alias the colour list (`paraChangedSig`, `_color_list`) are left out; the model keeps one colour list.
- Board.BanBoard.constructor: requires a file that Decode accepts. The source raises during setup on most other files, but it also draws some that Decode rejects: a non-string entry (a number, null) among the first `board_color` items a column uses, whose colour would not be a string. A title or description that is not a string is rejected too, whether or not Qt's widget constructors would accept it.
- Gui.BanBoard.constructor: the same requirement as in xban/board.py.
- Layout.Decode: sub-board colours are strings, so a file giving a column a non-string colour (`board_color: [1]`) is rejected, although the source draws it with the fallback sheet.
- Board.BanBoard.DropEvent: applies the corrected drop; for a drop on the "+" button the source places the sub-board after "+" (a finding below, Layout.DropOnPlusAsWritten).
- Gui.BanBoard.DropEvent: applies the corrected drop, as in xban/board.py; the source's drop on "+" is the same as-written behaviour.
- Board.BanBoard.DropTile: the `single_selection` calls that the selection changes of a tile drop trigger are not modelled.
- Board.BanBoard.ParseBoard: the description and every sub-board title are stored with `setPlainText` and read back with `toPlainText` (xban/board.py:123, 228, 289, 525). On the way a non-breaking space becomes a space, and U+2028, U+2029, '\r' and "\r\n" each become '\n'. The model reads both back unchanged, so Layout.RoundTrip does not cover such text.
- Gui.BanBoard.ParseBoard: the same `setPlainText`/`toPlainText` normalisation of the description and the titles (xban/gui.py:122, 273, 305, 399) is not modelled.
- Tiles.ParseNewSubBoard: `Tiles.Parse` returns the title as built. In the source a title with a non-breaking space, U+2028, U+2029, '\r' or "\r\n" reads back normalised, as in the ParseBoard lines above.
- Legacy.BanBoard.constructor: requires every note to name an existing column, where `initProj` would raise; a file whose titles are not numbered 0, 1, ... loads but is not proved valid.
- `noteVL_list[-1]` wrap-around for a negative column is not modelled; such notes make the file unloadable.
- Dictionary keys are strings; YAML mappings with other key types are outside the model.
- The time string of `start_project` and the clock reading of `time_changed` are arguments, and windows are numbers.
- `closeEvent`'s saving of the board is not modelled separately; `SaveProj` covers what it writes.
- Tiles.TakeItem: the current row after `takeItem` follows its tile, and passes to the next tile (or the one above, for the last) when the current tile goes; this is a fixed rule, not Qt's selection-model policy.
- Windows-style paths: only POSIX `basename` and `splitext` are modelled.
- `xban/mainwindow.py`, `xban/utils.py` and `xban/xban.py` (the window shell and command line) are not part of this model.

## Findings

| source | as written | input that shows it | evidently intended | confidence | as-written member | corrected member |
|---|---|---|---|---|---|---|
| xban/board.py:175-178 | `insertWidget(min(index, count - 1), widget)` on a widget already in the layout: Qt takes it out first, so index count - 1 is past "+" | drag the only sub-board onto the "+" button | nothing lands after the "+" button | not executed | Layout.DropOnPlusAsWritten | Layout.DropWellFormed |
| xban/gui.py:175-177 | the same `insertWidget(min(index, count - 1), widget)` as in xban/board.py | drag the only sub-board onto the "+" button | nothing lands after the "+" button | not executed | Layout.DropOnPlusAsWritten | Layout.DropWellFormed |
| xban/board.py:234 | `TILE_STYLE.get(color, "black")` falls back to the string "black" | a board file whose `board_color` names "orange" | the black stylesheet, `TILE_STYLE["black"]` | not executed | Style.ListStyleAsWrittenUnknownColor | Style.ListStyleSheets |
| xban/xBan.py:604-607 | `add_col` adds the title, then calls `HL_title.itemAt(ncol - 1).widget()`, which is None when there was no column | delete every column, then add a new column | a new first column | not executed | Legacy.BanBoard.AddColAsWritten | Legacy.BanBoard.AddCol |
| xban/xBan.py:849-858 | `new_ban_win` loads a project into an empty window without putting its path in `OPENED_DICT` | in an empty window open a.xban, then open a.xban again | an opened project is brought up instead of being opened twice (the comment on `open_project`) | not executed | Legacy.ReopenAsWritten | Legacy.ReopenShows |
