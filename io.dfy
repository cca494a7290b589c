/** Normalising parsed YAML documents into a board document (xban/io.py). */
module Io {
  import opened YamlValues
  import opened Paths
  import opened Style

  /** What `xban_content` does: return documents (logging some errors on the
      way) or raise. */
  datatype ContentResult =
    | Returned(docs: seq<Value>, errors: seq<string>)
    | Raised(error: string)

  /** The outcome of opening and parsing a file, which this model does not do. */
  datatype ReadOutcome = Parsed(stream: seq<Value>) | ReadFailed(message: string)

  /** What `process_yaml` returns and the error lines it logs. */
  datatype Loaded = Loaded(docs: seq<Value>, errors: seq<string>)

  const ConfigKey := "xban_config"

  /** `{"xban_config": {"title": t, "description": d, "board_color": colors}}` */
  function ConfigDoc(title: string, description: string, colors: seq<string>): (v: Value)
    ensures v.Mapping? && IsDict(v.entries) && HasKey(v, ConfigKey)
  {
    var entries := [Entry(ConfigKey, Mapping(ConfigEntries(title, description, colors)))];
    assert Keys(entries) == [ConfigKey];
    Mapping(entries)
  }

  /** The three settings under "xban_config", in the order they are written. */
  function ConfigEntries(title: string, description: string, colors: seq<string>): seq<Entry> {
    [Entry("title", Str(title)), Entry("description", Str(description)),
     Entry("board_color", StrSeq(colors))]
  }

  /** An order in which `random.sample` may draw the palette: every name once. */
  predicate IsPaletteOrdering(draw: seq<string>) {
    |draw| == |PaletteNames()| && Distinct(draw) &&
    (forall c :: c in draw ==> c in PaletteNames()) && (forall c :: c in PaletteNames() ==> c in draw)
  }

  /** `random.sample(TILE_STYLE.keys(), n)`, the first n names of the order
      drawn, or the ValueError it raises for more names than the palette has. */
  function Sample(draw: seq<string>, n: nat): (r: Result)
    requires IsPaletteOrdering(draw)
    ensures r.Drawn? <==> n <= |PaletteNames()|
    ensures r.Drawn? ==> |r.colors| == n && Distinct(r.colors)
    ensures r.Drawn? ==> forall c :: c in r.colors ==> c in PaletteNames()
  {
    if n <= |draw| then Drawn(draw[..n]) else Failed("Sample larger than population or is negative")
  }

  datatype Result = Drawn(colors: seq<string>) | Failed(error: string)

  predicate AllMappings(stream: seq<Value>) {
    forall i :: 0 <= i < |stream| ==> stream[i].Mapping?
  }

  /** `xban_content(filepath, yaml_stream)`, with the colour draw supplied. */
  function XbanContent(path: string, stream: seq<Value>, draw: seq<string>): ContentResult
    requires IsPaletteOrdering(draw)
  {
    var title := Title(path);
    if stream == [] then Returned([ConfigDoc(title, "", []), Mapping([])], [])
    else if !AllMappings(stream) then Returned([], [path + " does not have a valid xban format"])
    else if HasKey(stream[0], ConfigKey) then Returned(stream, [])
    else if |stream| >= 2 then Returned([], [path + " have too many yaml documents"])
    else match Sample(draw, |stream[0].entries|)
      case Failed(e) => Raised(e)
      case Drawn(colors) => Returned([ConfigDoc(title, "", colors), stream[0]], [])
  }

  /** `process_yaml`: whatever goes wrong is logged and gives no documents. */
  function ProcessYaml(path: string, read: ReadOutcome, draw: seq<string>): (r: Loaded)
    requires IsPaletteOrdering(draw)
    ensures read.ReadFailed? ==> r == Loaded([], ["Incorrect " + path + ". Error: " + read.message])
    ensures read.Parsed? && XbanContent(path, read.stream, draw).Raised? ==>
      r == Loaded([], ["Incorrect " + path + ". Error: " + XbanContent(path, read.stream, draw).error])
    ensures read.Parsed? && XbanContent(path, read.stream, draw).Returned? ==>
      r == Loaded(XbanContent(path, read.stream, draw).docs, XbanContent(path, read.stream, draw).errors)
  {
    match read
    case ReadFailed(m) => Loaded([], ["Incorrect " + path + ". Error: " + m])
    case Parsed(stream) =>
      match XbanContent(path, stream, draw)
      case Raised(e) => Loaded([], ["Incorrect " + path + ". Error: " + e])
      case Returned(docs, errors) => Loaded(docs, errors)
  }

  /** A board document: a config mapping followed by further mappings. */
  predicate IsBoardDocument(docs: seq<Value>) {
    docs != [] && AllMappings(docs) && HasKey(docs[0], ConfigKey)
  }

  /** An empty stream gets the default board titled after the file. */
  lemma EmptyStream(path: string, draw: seq<string>)
    requires IsPaletteOrdering(draw)
    ensures XbanContent(path, [], draw) == Returned([ConfigDoc(Title(path), "", []), Mapping([])], [])
  {
  }

  /** A document that is not a mapping fails the whole stream, even after a config. */
  lemma NonMappingRejected(path: string, stream: seq<Value>, draw: seq<string>, i: nat)
    requires IsPaletteOrdering(draw) && i < |stream| && !stream[i].Mapping?
    ensures XbanContent(path, stream, draw) == Returned([], [path + " does not have a valid xban format"])
  {
  }

  /** A stream of mappings opening with a config passes through untouched. */
  lemma ConfigPassesThrough(path: string, stream: seq<Value>, draw: seq<string>)
    requires IsPaletteOrdering(draw) && IsBoardDocument(stream)
    ensures XbanContent(path, stream, draw) == Returned(stream, [])
  {
  }

  /** Several plain mappings are refused. */
  lemma TooManyDocuments(path: string, stream: seq<Value>, draw: seq<string>)
    requires IsPaletteOrdering(draw) && |stream| >= 2 && AllMappings(stream)
    requires !HasKey(stream[0], ConfigKey)
    ensures XbanContent(path, stream, draw) == Returned([], [path + " have too many yaml documents"])
  {
  }

  /** A single plain mapping with at most seven keys gets a config with one
      distinct palette colour per key; with more keys the draw raises. */
  lemma SingleMappingGetsColors(path: string, m: Value, draw: seq<string>)
    requires IsPaletteOrdering(draw) && m.Mapping? && !HasKey(m, ConfigKey)
    ensures |m.entries| <= 7 ==>
      exists colors ::
        XbanContent(path, [m], draw) == Returned([ConfigDoc(Title(path), "", colors), m], []) &&
        |colors| == |m.entries| && Distinct(colors) && (forall c :: c in colors ==> c in PaletteNames())
    ensures |m.entries| > 7 ==> XbanContent(path, [m], draw).Raised?
  {
    PaletteShape();
    var r := Sample(draw, |m.entries|);
    if r.Drawn? {
      assert XbanContent(path, [m], draw) == Returned([ConfigDoc(Title(path), "", r.colors), m], []);
    }
  }

  /** On which streams `xban_content` yields a board rather than `[]` or an error. */
  lemma SucceedsExactly(path: string, stream: seq<Value>, draw: seq<string>)
    requires IsPaletteOrdering(draw)
    ensures (XbanContent(path, stream, draw).Returned? && XbanContent(path, stream, draw).docs != []) <==>
      (stream == [] ||
       (AllMappings(stream) && (HasKey(stream[0], ConfigKey) || (|stream| == 1 && |stream[0].entries| <= 7))))
  {
    PaletteShape();
  }

  /** Every board it returns is a board document, and one it keeps as it is. */
  lemma {:induction false} Idempotent(path: string, stream: seq<Value>, draw: seq<string>, path': string, draw': seq<string>)
    requires IsPaletteOrdering(draw) && IsPaletteOrdering(draw')
    requires XbanContent(path, stream, draw).Returned? && XbanContent(path, stream, draw).docs != []
    ensures IsBoardDocument(XbanContent(path, stream, draw).docs)
    ensures XbanContent(path', XbanContent(path, stream, draw).docs, draw') ==
            Returned(XbanContent(path, stream, draw).docs, [])
  {
    var docs := XbanContent(path, stream, draw).docs;
    assert IsBoardDocument(docs);
    ConfigPassesThrough(path', docs, draw');
  }

  /** The names of `pool` that are not in `taken`, in pool order. */
  function Missing(pool: seq<string>, taken: seq<string>): (r: seq<string>)
    ensures forall c :: c in r <==> c in pool && c !in taken
    ensures Distinct(pool) ==> Distinct(r)
  {
    if pool == [] then []
    else
      var rest := Missing(pool[1..], taken);
      assert forall c :: c in pool[1..] ==> c in pool;
      if pool[0] in taken then rest else [pool[0]] + rest
  }

  lemma {:induction false} DistinctCard(xs: seq<string>)
    requires Distinct(xs)
    ensures |set x | x in xs| == |xs|
  {
    if xs != [] {
      DistinctCard(xs[1..]);
      assert (set x | x in xs) == {xs[0]} + (set x | x in xs[1..]);
      assert xs[0] !in xs[1..];
    }
  }

  /** Every distinct choice of palette colours is a sample some draw produces. */
  lemma EverySampleReachable(colors: seq<string>)
    requires Distinct(colors) && forall c :: c in colors ==> c in PaletteNames()
    ensures exists draw :: IsPaletteOrdering(draw) && Sample(draw, |colors|) == Drawn(colors)
  {
    PaletteShape();
    var pal := PaletteNames();
    var rest := Missing(pal, colors);
    var draw := colors + rest;
    assert Distinct(draw) by {
      forall i, j | 0 <= i < j < |draw|
        ensures draw[i] != draw[j]
      {
        if j < |colors| {
        } else if i >= |colors| {
          assert draw[i] == rest[i - |colors|] && draw[j] == rest[j - |colors|];
        } else {
          assert draw[i] in colors && draw[j] in rest;
        }
      }
    }
    assert (set x | x in draw) == (set x | x in pal);
    DistinctCard(draw);
    DistinctCard(pal);
    assert draw[..|colors|] == colors;
    assert IsPaletteOrdering(draw);
  }

  /** tests/test_io.py, test_empty. */
  lemma EmptyTestFile(draw: seq<string>)
    requires IsPaletteOrdering(draw)
    ensures XbanContent("test/testfile.yaml", [], draw) ==
      Returned([ConfigDoc("testfile", "", []), Mapping([])], [])
  {
    TitleOfTestFile();
  }

  /** tests/test_io.py, test_invalid_xban. */
  lemma InvalidTestStream(draw: seq<string>)
    requires IsPaletteOrdering(draw)
    ensures XbanContent("test/testfile.yaml",
                        [Mapping([Entry("config", Mapping([Entry("test", Str("new"))]))]), Seq([])], draw) ==
      Returned([], ["test/testfile.yaml" + " does not have a valid xban format"])
  {
    var stream := [Mapping([Entry("config", Mapping([Entry("test", Str("new"))]))]), Seq([])];
    NonMappingRejected("test/testfile.yaml", stream, draw, 1);
  }

  /** tests/test_io.py, test_valid_xban. */
  lemma ValidTestStream(draw: seq<string>)
    requires IsPaletteOrdering(draw)
    ensures XbanContent("test/testfile.yaml", [ConfigDoc("testfile", "", []), Mapping([])], draw) ==
      Returned([ConfigDoc("testfile", "", []), Mapping([])], [])
  {
    ConfigPassesThrough("test/testfile.yaml", [ConfigDoc("testfile", "", []), Mapping([])], draw);
  }

  /** tests/test_io.py, test_valid_yaml_xban. */
  lemma PlainYamlTestStream(draw: seq<string>)
    requires IsPaletteOrdering(draw)
    ensures var m := Mapping([Entry("new", StrSeq(["a", "b"])), Entry("old", StrSeq(["c", "d"]))]);
      var r := XbanContent("test/testfile.yaml", [m], draw);
      r.Returned? && |r.docs| == 2 && r.docs[1] == m &&
      exists colors :: r.docs[0] == ConfigDoc("testfile", "", colors) &&
        |colors| == 2 && colors[0] != colors[1] && colors[0] in TileStyle() && colors[1] in TileStyle()
  {
    var m := Mapping([Entry("new", StrSeq(["a", "b"])), Entry("old", StrSeq(["c", "d"]))]);
    PlainTestMapping(m);
    TwoKeyResult("test/testfile.yaml", m, draw);
    TitleOfTestFile();
  }

  /** A plain mapping with two keys gets two distinct `TILE_STYLE` colours. */
  lemma TwoKeyResult(path: string, m: Value, draw: seq<string>)
    requires IsPaletteOrdering(draw) && m.Mapping? && !HasKey(m, ConfigKey) && |m.entries| == 2
    ensures var r := XbanContent(path, [m], draw);
      r.Returned? && |r.docs| == 2 && r.docs[1] == m &&
      exists colors :: r.docs[0] == ConfigDoc(Title(path), "", colors) &&
        |colors| == 2 && colors[0] != colors[1] && colors[0] in TileStyle() && colors[1] in TileStyle()
  {
    PlainMappingResult(path, m, draw);
    var r := XbanContent(path, [m], draw);
    var colors :| r.docs[0] == ConfigDoc(Title(path), "", colors) &&
      |colors| == 2 && Distinct(colors) && (forall c :: c in colors ==> c in PaletteNames());
    StyledPair(colors);
  }

  lemma StyledPair(colors: seq<string>)
    requires |colors| == 2 && Distinct(colors) && forall c :: c in colors ==> c in PaletteNames()
    ensures colors[0] != colors[1] && colors[0] in TileStyle() && colors[1] in TileStyle()
  {
    TileStyleKeys();
    assert colors[0] in colors && colors[1] in colors;
  }

  lemma PlainTestMapping(m: Value)
    requires m == Mapping([Entry("new", StrSeq(["a", "b"])), Entry("old", StrSeq(["c", "d"]))])
    ensures m.Mapping? && !HasKey(m, ConfigKey) && |m.entries| == 2
  {
    assert Keys(m.entries) == ["new", "old"];
  }

  /** A single plain mapping with at most seven keys is kept as the content,
      behind a config titled after the file with one distinct palette colour
      per key; an empty mapping gets no colours. */
  lemma PlainMappingResult(path: string, m: Value, draw: seq<string>)
    requires IsPaletteOrdering(draw) && m.Mapping? && !HasKey(m, ConfigKey) && |m.entries| <= 7
    ensures var r := XbanContent(path, [m], draw);
      r.Returned? && r.errors == [] && |r.docs| == 2 && r.docs[1] == m &&
      exists colors :: r.docs[0] == ConfigDoc(Title(path), "", colors) &&
        |colors| == |m.entries| && Distinct(colors) && (forall c :: c in colors ==> c in PaletteNames())
  {
    SingleMappingGetsColors(path, m, draw);
  }

  /** tests/test_io.py, test_multi_docs_stream. */
  lemma MultiDocTestStream(draw: seq<string>)
    requires IsPaletteOrdering(draw)
    ensures XbanContent("test/testfile.yaml",
                        [Mapping([Entry("new", StrSeq(["a", "b"])), Entry("old", StrSeq(["c", "d"]))]),
                         Mapping([Entry("new", StrSeq(["a", "b"]))])], draw) ==
      Returned([], ["test/testfile.yaml" + " have too many yaml documents"])
  {
    var m := Mapping([Entry("new", StrSeq(["a", "b"])), Entry("old", StrSeq(["c", "d"]))]);
    assert Keys(m.entries) == ["new", "old"];
    TooManyDocuments("test/testfile.yaml", [m, Mapping([Entry("new", StrSeq(["a", "b"]))])], draw);
  }

  /** tests/test_io.py, test_process_yaml_invalid: a parser error gives no
      documents and one error line naming the file. */
  lemma ProcessInvalidYaml(draw: seq<string>, parserMessage: string)
    requires IsPaletteOrdering(draw)
    ensures var r := ProcessYaml("test/file.yaml", ReadFailed(parserMessage), draw);
      r.docs == [] && r.errors == ["Incorrect " + "test/file.yaml" + ". Error: " + parserMessage]
  {
  }

  /** tests/test_io.py, test_process_yaml_valid. */
  lemma ProcessValidYaml(draw: seq<string>)
    requires IsPaletteOrdering(draw)
    ensures var config := Mapping([Entry("xban_config", Mapping([
                Entry("title", Str("testfile")), Entry("description", Str("test io")),
                Entry("board_color", StrSeq(["red", "teal"]))]))]);
      var content := Mapping([Entry("todo", StrSeq(["need more tests!", "and more!"])),
                              Entry("finished", StrSeq(["io tests"]))]);
      ProcessYaml("test/testfile.yaml", Parsed([config, content]), draw) == Loaded([config, content], [])
  {
    var config := Mapping([Entry("xban_config", Mapping([
                Entry("title", Str("testfile")), Entry("description", Str("test io")),
                Entry("board_color", StrSeq(["red", "teal"]))]))]);
    var content := Mapping([Entry("todo", StrSeq(["need more tests!", "and more!"])),
                            Entry("finished", StrSeq(["io tests"]))]);
    assert Keys(config.entries) == ["xban_config"];
    ConfigPassesThrough("test/testfile.yaml", [config, content], draw);
  }
}
