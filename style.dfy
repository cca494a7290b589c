/** The colour palette and the tile stylesheets built from it (xban/style.py). */
module Style {
  import opened YamlValues

  datatype ColorSetting = ColorSetting(bgcolor: string, color: string, bcolor: string)

  datatype PaletteEntry = PaletteEntry(name: string, setting: ColorSetting)

  /** COLOR_DICT, in its insertion order. */
  const ColorDict: seq<PaletteEntry> := [
    PaletteEntry("black", ColorSetting("#D9D7D7", "black", "#414141")),
    PaletteEntry("purple", ColorSetting("#fbdbff", "#d30bea", "#fb87ff")),
    PaletteEntry("red", ColorSetting("#ffecee", "#fe3a51", "#fec9d0")),
    PaletteEntry("yellow", ColorSetting("#fef8e7", "#ff9900", "#f2ce98")),
    PaletteEntry("blue", ColorSetting("#eaf8fe", "#29ade8", "#c6ebfb")),
    PaletteEntry("green", ColorSetting("#bafce2", "#00c678", "#2ce89e")),
    PaletteEntry("teal", ColorSetting("#c2eaf0", "#426A70", "#6b8485"))
  ]

  /** The palette's colour names, in order. */
  function PaletteNames(): (names: seq<string>)
    ensures |names| == |ColorDict|
    ensures forall i :: 0 <= i < |ColorDict| ==> names[i] == ColorDict[i].name
  {
    seq(|ColorDict|, i requires 0 <= i < |ColorDict| => ColorDict[i].name)
  }

  /** The palette has seven distinct names in a fixed order. */
  lemma PaletteShape()
    ensures PaletteNames() == ["black", "purple", "red", "yellow", "blue", "green", "teal"]
    ensures |PaletteNames()| == 7
    ensures Distinct(PaletteNames())
  {
  }

  /** The `str.format` template of every tile stylesheet, rule by rule. */
  const WidgetFormat: string := ListWidgetRule + ItemRule + SelectedRule

  const ListWidgetRule: string :=
    "\n" +
    "QListWidget QWidget {{\n" +
    "  color: {color};\n" +
    "  background : {bgcolor};\n" +
    "  font-family: \"Helvetica\";\n" +
    "}}\n"

  const ItemRule: string :=
    "QListView::item\n" +
    "{{\n" +
    "  background-color: {bgcolor};\n" +
    "  color: {color};\n" +
    "  font-size: 15px; font-weight: bold;" +
    " padding: 6px;\n" +
    "  border: 1px solid {bcolor};\n" +
    "  border-radius: 4px;\n" +
    "  margin-top: 3px;\n" +
    "  margin-bottom: 3px;\n" +
    "}}\n"

  const SelectedRule: string :=
    "QListView::item:selected\n" +
    "{{\n" +
    "  color: {color};\n" +
    "  border : 2px solid {color};\n" +
    "}}\n"

  datatype FormatResult = Ok(value: string) | Err(error: string)

  /** The keyword arguments `**setting` offer to `str.format`. */
  function Field(name: string, s: ColorSetting): FormatResult
  {
    if name == "color" then Ok(s.color)
    else if name == "bgcolor" then Ok(s.bgcolor)
    else if name == "bcolor" then Ok(s.bcolor)
    else Err("KeyError")
  }

  /** The first index from `i` on that holds '}', or |t|. */
  function FieldEnd(t: string, i: nat): (k: nat)
    requires i <= |t|
    ensures i <= k <= |t|
    ensures k < |t| ==> t[k] == '}'
    ensures forall j :: i <= j < k ==> t[j] != '}'
    decreases |t| - i
  {
    if i == |t| || t[i] == '}' then i else FieldEnd(t, i + 1)
  }

  function Prepend(p: string, r: FormatResult): (q: FormatResult)
  {
    match r
    case Err(e) => Err(e)
    case Ok(v) => Ok(p + v)
  }

  /** `template.format(**setting)`: "{{" and "}}" stand for one brace, a
      "{name}" for the named value; a lone '}', an unclosed '{' and an
      unknown name are errors. */
  function Format(t: string, s: ColorSetting): FormatResult
    decreases |t|, 1
  {
    if t == [] then Ok([])
    else if t[0] == '{' then
      if |t| > 1 && t[1] == '{' then Prepend("{", Format(t[2..], s))
      else ReplaceField(t, FieldEnd(t, 1), s)
    else if t[0] == '}' then
      if |t| > 1 && t[1] == '}' then Prepend("}", Format(t[2..], s))
      else Err("Single '}' encountered in format string")
    else Prepend([t[0]], Format(t[1..], s))
  }

  /** The field opened by t[0] and closed at t[k], then the rest of `t`. */
  function ReplaceField(t: string, k: nat, s: ColorSetting): FormatResult
    requires 1 <= k <= |t|
    decreases |t|, 0
  {
    if k == |t| then Err("expected '}' before end of string")
    else if '{' in t[1..k] then Err("unexpected '{' in field name")
    else match Field(t[1..k], s)
      case Err(e) => Err(e)
      case Ok(v) => Prepend(v, Format(t[k + 1..], s))
  }

  lemma {:induction false} FieldEndAppend(a: string, b: string, i: nat)
    requires i <= |a| && FieldEnd(a, i) < |a|
    ensures FieldEnd(a + b, i) == FieldEnd(a, i)
    decreases |a| - i
  {
    if a[i] != '}' {
      FieldEndAppend(a, b, i + 1);
    }
  }

  /** Formatting distributes over concatenation once the left part formats. */
  lemma {:induction false} FormatAppend(a: string, b: string, s: ColorSetting)
    requires Format(a, s).Ok?
    ensures Format(a + b, s) == Prepend(Format(a, s).value, Format(b, s))
    decreases |a|
  {
    if a == [] {
      assert a + b == b;
    } else if a[0] == '{' && |a| > 1 && a[1] == '{' {
      FormatAppendEscape(a, b, s);
    } else if a[0] == '{' {
      FormatAppendField(a, b, s);
    } else if a[0] == '}' {
      FormatAppendEscape(a, b, s);
    } else {
      assert (a + b)[1..] == a[1..] + b;
      FormatAppend(a[1..], b, s);
    }
  }

  lemma {:induction false} FormatAppendEscape(a: string, b: string, s: ColorSetting)
    requires Format(a, s).Ok? && |a| > 1 && a[0] == a[1] && (a[0] == '{' || a[0] == '}')
    ensures Format(a + b, s) == Prepend(Format(a, s).value, Format(b, s))
    decreases |a|, 0
  {
    EscapeParts(a, s);
    EscapeOfAppend(a, b, s);
    FormatAppend(a[2..], b, s);
    PrependTwice(a[..1], Format(a[2..], s).value, Format(b, s));
  }

  lemma EscapeParts(a: string, s: ColorSetting)
    requires Format(a, s).Ok? && |a| > 1 && a[0] == a[1] && (a[0] == '{' || a[0] == '}')
    ensures Format(a[2..], s).Ok? && Format(a, s).value == a[..1] + Format(a[2..], s).value
  {
    assert a[..1] == [a[0]];
    if a[0] == '{' {
      assert Format(a, s) == Prepend("{", Format(a[2..], s));
    } else {
      assert Format(a, s) == Prepend("}", Format(a[2..], s));
    }
  }

  lemma EscapeOfAppend(a: string, b: string, s: ColorSetting)
    requires |a| > 1 && a[0] == a[1] && (a[0] == '{' || a[0] == '}')
    ensures Format(a + b, s) == Prepend(a[..1], Format(a[2..] + b, s))
  {
    assert (a + b)[0] == a[0] && (a + b)[1] == a[1];
    assert (a + b)[2..] == a[2..] + b;
    assert a[..1] == [a[0]];
    if a[0] == '{' {
      assert Format(a + b, s) == Prepend("{", Format((a + b)[2..], s));
    } else {
      assert Format(a + b, s) == Prepend("}", Format((a + b)[2..], s));
    }
  }

  lemma {:induction false} FormatAppendField(a: string, b: string, s: ColorSetting)
    requires Format(a, s).Ok? && a != [] && a[0] == '{' && !(|a| > 1 && a[1] == '{')
    ensures Format(a + b, s) == Prepend(Format(a, s).value, Format(b, s))
    decreases |a|, 0
  {
    var k := FieldEnd(a, 1);
    FieldParts(a, s);
    var v := Field(a[1..k], s).value;
    var w := Format(a[k + 1..], s).value;
    FieldEndAppend(a, b, 1);
    FieldOfAppend(a, b, k, s);
    FormatAppend(a[k + 1..], b, s);
    PrependTwice(v, w, Format(b, s));
  }

  /** A field that formats: closed at k, a known name, and a rest that formats. */
  lemma FieldParts(a: string, s: ColorSetting)
    requires Format(a, s).Ok? && a != [] && a[0] == '{' && !(|a| > 1 && a[1] == '{')
    ensures FieldEnd(a, 1) < |a| && '{' !in a[1..FieldEnd(a, 1)]
    ensures Field(a[1..FieldEnd(a, 1)], s).Ok? && Format(a[FieldEnd(a, 1) + 1..], s).Ok?
    ensures Format(a, s).value ==
      Field(a[1..FieldEnd(a, 1)], s).value + Format(a[FieldEnd(a, 1) + 1..], s).value
  {
    assert Format(a, s) == ReplaceField(a, FieldEnd(a, 1), s);
  }

  lemma FieldOfAppend(a: string, b: string, k: nat, s: ColorSetting)
    requires 1 <= k < |a| && a[0] == '{' && a[1] != '{' && FieldEnd(a + b, 1) == k
    requires '{' !in a[1..k] && Field(a[1..k], s).Ok?
    ensures Format(a + b, s) == Prepend(Field(a[1..k], s).value, Format(a[k + 1..] + b, s))
  {
    assert (a + b)[0] == '{' && (a + b)[1] == a[1];
    assert (a + b)[1..k] == a[1..k];
    assert (a + b)[k + 1..] == a[k + 1..] + b;
    assert Format(a + b, s) == ReplaceField(a + b, k, s);
  }

  lemma PrependTwice(v: string, w: string, r: FormatResult)
    ensures Prepend(v, Prepend(w, r)) == Prepend(v + w, r)
  {
    if r.Ok? {
      assert v + (w + r.value) == (v + w) + r.value;
    }
  }

  lemma {:induction false} FieldEndAt(t: string, i: nat, k: nat)
    requires i <= k < |t| && t[k] == '}'
    requires forall j :: i <= j < k ==> t[j] != '}'
    ensures FieldEnd(t, i) == k
    decreases k - i
  {
    if i < k {
      FieldEndAt(t, i + 1, k);
    }
  }

  predicate NoBraces(p: string) {
    forall i :: 0 <= i < |p| ==> p[i] != '{' && p[i] != '}'
  }

  /** Text without braces formats to itself. */
  lemma {:induction false} FormatPlain(p: string, s: ColorSetting)
    requires NoBraces(p)
    ensures Format(p, s) == Ok(p)
    decreases |p|
  {
    if p != [] {
      assert forall i :: 0 <= i < |p[1..]| ==> p[1..][i] == p[i + 1];
      FormatPlain(p[1..], s);
      assert [p[0]] + p[1..] == p;
    }
  }

  lemma FormatEscapes(s: ColorSetting)
    ensures Format("{{", s) == Ok("{")
    ensures Format("}}", s) == Ok("}")
  {
    assert "{{"[2..] == [];
    assert "}}"[2..] == [];
  }

  lemma FormatField(name: string, s: ColorSetting)
    requires NoBraces(name) && Field(name, s).Ok?
    ensures Format("{" + name + "}", s) == Field(name, s)
  {
    var t := "{" + name + "}";
    assert forall j :: 1 <= j < |t| - 1 ==> t[j] == name[j - 1];
    assert forall j :: 1 <= j < |t| - 1 ==> t[j] in name;
    assert forall j :: 1 <= j < |name| + 1 ==> t[j] != '}';
    FieldEndAt(t, 1, |name| + 1);
    assert t[1..|name| + 1] == name;
    assert t[|name| + 2..] == [];
    assert t[1] == name[0] && name[0] in name;
    assert Format(t, s) == ReplaceField(t, |name| + 1, s);
    assert Format(t[|name| + 2..], s) == Ok([]);
  }

  /** One line "pre{name}post" of the template. */
  lemma FormatFieldLine(pre: string, name: string, post: string, s: ColorSetting)
    requires NoBraces(pre) && NoBraces(name) && NoBraces(post) && Field(name, s).Ok?
    ensures Format(pre + "{" + name + "}" + post, s) == Ok(pre + Field(name, s).value + post)
  {
    var f, v := "{" + name + "}", Field(name, s).value;
    FormatPlain(pre, s);
    FormatPlain(post, s);
    FormatField(name, s);
    FormatJoin(pre, f, pre, v, s);
    Assoc(pre, "{", name, "}");
    FormatJoin(pre + f, post, pre + v, post, s);
  }

  lemma Assoc(a: string, b: string, c: string, d: string)
    ensures a + b + c + d == a + (b + c + d)
  {
  }

  /** One line "pre{{post" or "pre}}post" of the template. */
  lemma FormatEscapeLine(pre: string, esc: string, post: string, s: ColorSetting)
    requires NoBraces(pre) && NoBraces(post) && (esc == "{{" || esc == "}}")
    ensures Format(pre + esc + post, s) == Ok(pre + esc[..1] + post)
  {
    var e := esc[..1];
    FormatPlain(pre, s);
    FormatPlain(post, s);
    FormatEscapes(s);
    assert Format(esc, s) == Ok(e);
    FormatJoin(pre, esc, pre, e, s);
    FormatJoin(pre + esc, post, pre + e, post, s);
  }

  lemma FormatJoin(a: string, b: string, fa: string, fb: string, s: ColorSetting)
    requires Format(a, s) == Ok(fa) && Format(b, s) == Ok(fb)
    ensures Format(a + b, s) == Ok(fa + fb)
  {
    FormatAppend(a, b, s);
  }

  /** The stylesheet a colour setting is meant to produce. */
  function Stylesheet(s: ColorSetting): string
  {
    ListWidgetSheet(s) + ItemSheet(s) + SelectedSheet(s)
  }

  function ListWidgetSheet(s: ColorSetting): string
  {
    "\n" +
    "QListWidget QWidget {\n" +
    "  color: " + s.color + ";\n" +
    "  background : " + s.bgcolor + ";\n" +
    "  font-family: \"Helvetica\";\n" +
    "}\n"
  }

  function ItemSheet(s: ColorSetting): string
  {
    "QListView::item\n" +
    "{\n" +
    "  background-color: " + s.bgcolor + ";\n" +
    "  color: " + s.color + ";\n" +
    "  font-size: 15px; font-weight: bold;" +
    " padding: 6px;\n" +
    "  border: 1px solid " + s.bcolor + ";\n" +
    "  border-radius: 4px;\n" +
    "  margin-top: 3px;\n" +
    "  margin-bottom: 3px;\n" +
    "}\n"
  }

  function SelectedSheet(s: ColorSetting): string
  {
    "QListView::item:selected\n" +
    "{\n" +
    "  color: " + s.color + ";\n" +
    "  border : 2px solid " + s.color + ";\n" +
    "}\n"
  }

  lemma JoinPlain(acc: string, accv: string, line: string, s: ColorSetting)
    requires Format(acc, s) == Ok(accv) && NoBraces(line)
    ensures Format(acc + line, s) == Ok(accv + line)
  {
    FormatPlain(line, s);
    FormatJoin(acc, line, accv, line, s);
  }

  /** `line` is "pre{{post" or "pre}}post", an escaped brace between plain text. */
  predicate EscapeLine(line: string, pre: string, esc: string, post: string) {
    line == pre + esc + post && NoBraces(pre) && NoBraces(post) && (esc == "{{" || esc == "}}")
  }

  /** `line` is "pre{name}post", a known field between plain text. */
  predicate FieldLine(line: string, pre: string, name: string, post: string, s: ColorSetting) {
    line == pre + "{" + name + "}" + post &&
    NoBraces(pre) && NoBraces(name) && NoBraces(post) && Field(name, s).Ok?
  }

  lemma JoinEscapeLine(acc: string, accv: string, line: string, pre: string, esc: string, post: string, s: ColorSetting)
    requires Format(acc, s) == Ok(accv) && EscapeLine(line, pre, esc, post)
    ensures Format(acc + line, s) == Ok(accv + (pre + esc[..1] + post))
  {
    FormatEscapeLine(pre, esc, post, s);
    FormatJoin(acc, line, accv, pre + esc[..1] + post, s);
  }

  lemma JoinFieldLine(acc: string, accv: string, line: string, pre: string, name: string, post: string, s: ColorSetting)
    requires Format(acc, s) == Ok(accv) && FieldLine(line, pre, name, post, s)
    ensures Format(acc + line, s) == Ok(accv + (pre + Field(name, s).value + post))
  {
    FormatFieldLine(pre, name, post, s);
    FormatJoin(acc, line, accv, pre + Field(name, s).value + post, s);
  }

  lemma ListWidgetLine1()
    ensures EscapeLine("QListWidget QWidget {{\n", "QListWidget QWidget ", "{{", "\n")
    ensures "QListWidget QWidget " + "{{"[..1] + "\n" == "QListWidget QWidget {\n"
  {
    assert "QListWidget QWidget {{\n" == "QListWidget QWidget " + "{{" + "\n";
  }

  lemma ListWidgetRulePart1(acc: string, accv: string, s: ColorSetting)
    requires Format(acc, s) == Ok(accv)
    ensures Format(acc + "QListWidget QWidget {{\n", s)
      == Ok(accv + "QListWidget QWidget {\n")
  {
    ListWidgetLine1();
    JoinEscapeLine(acc, accv, "QListWidget QWidget {{\n", "QListWidget QWidget ", "{{", "\n", s);
  }

  lemma ListWidgetLine2(s: ColorSetting)
    ensures FieldLine("  color: {color};\n", "  color: ", "color", ";\n", s)
    ensures Field("color", s).value == s.color
  {
    assert "  color: {color};\n" == "  color: " + "{" + "color" + "}" + ";\n";
  }

  lemma ListWidgetRulePart2(acc: string, accv: string, s: ColorSetting)
    requires Format(acc, s) == Ok(accv)
    ensures Format(acc + "  color: {color};\n", s)
      == Ok(accv + "  color: " + s.color + ";\n")
  {
    ListWidgetLine2(s);
    JoinFieldLine(acc, accv, "  color: {color};\n", "  color: ", "color", ";\n", s);
    Assoc(accv, "  color: ", s.color, ";\n");
  }

  lemma ListWidgetLine3(s: ColorSetting)
    ensures FieldLine("  background : {bgcolor};\n", "  background : ", "bgcolor", ";\n", s)
    ensures Field("bgcolor", s).value == s.bgcolor
  {
    assert "  background : {bgcolor};\n" == "  background : " + "{" + "bgcolor" + "}" + ";\n";
  }

  lemma ListWidgetRulePart3(acc: string, accv: string, s: ColorSetting)
    requires Format(acc, s) == Ok(accv)
    ensures Format(acc + "  background : {bgcolor};\n", s)
      == Ok(accv + "  background : " + s.bgcolor + ";\n")
  {
    ListWidgetLine3(s);
    JoinFieldLine(acc, accv, "  background : {bgcolor};\n", "  background : ", "bgcolor", ";\n", s);
    Assoc(accv, "  background : ", s.bgcolor, ";\n");
  }

  lemma ListWidgetLine4()
    ensures NoBraces("  font-family: \"Helvetica\";\n")
  {
  }

  lemma ListWidgetRulePart4(acc: string, accv: string, s: ColorSetting)
    requires Format(acc, s) == Ok(accv)
    ensures Format(acc + "  font-family: \"Helvetica\";\n", s)
      == Ok(accv + "  font-family: \"Helvetica\";\n")
  {
    ListWidgetLine4();
    JoinPlain(acc, accv, "  font-family: \"Helvetica\";\n", s);
  }

  lemma ListWidgetLine5()
    ensures EscapeLine("}}\n", "", "}}", "\n")
    ensures "" + "}}"[..1] + "\n" == "}\n"
  {
    assert "}}\n" == "" + "}}" + "\n";
  }

  lemma ListWidgetRulePart5(acc: string, accv: string, s: ColorSetting)
    requires Format(acc, s) == Ok(accv)
    ensures Format(acc + "}}\n", s)
      == Ok(accv + "}\n")
  {
    ListWidgetLine5();
    JoinEscapeLine(acc, accv, "}}\n", "", "}}", "\n", s);
  }

  lemma ListWidgetRuleChain(acc: string, accv: string, s: ColorSetting)
    requires Format(acc, s) == Ok(accv)
    ensures Format(acc + "QListWidget QWidget {{\n" + "  color: {color};\n" + "  background : {bgcolor};\n" + "  font-family: \"Helvetica\";\n" + "}}\n", s)
      == Ok(accv + "QListWidget QWidget {\n" + "  color: " + s.color + ";\n" + "  background : " + s.bgcolor + ";\n" + "  font-family: \"Helvetica\";\n" + "}\n")
  {
    var t0, v0 := acc, accv;
    ListWidgetRulePart1(t0, v0, s);
    var t1, v1 := t0 + "QListWidget QWidget {{\n", v0 + "QListWidget QWidget {\n";
    ListWidgetRulePart2(t1, v1, s);
    var t2, v2 := t1 + "  color: {color};\n", v1 + "  color: " + s.color + ";\n";
    ListWidgetRulePart3(t2, v2, s);
    var t3, v3 := t2 + "  background : {bgcolor};\n", v2 + "  background : " + s.bgcolor + ";\n";
    ListWidgetRulePart4(t3, v3, s);
    var t4, v4 := t3 + "  font-family: \"Helvetica\";\n", v3 + "  font-family: \"Helvetica\";\n";
    ListWidgetRulePart5(t4, v4, s);
  }

  lemma ListWidgetRuleFills(s: ColorSetting)
    ensures Format(ListWidgetRule, s) == Ok(ListWidgetSheet(s))
  {
    FormatPlain("\n", s);
    ListWidgetRuleChain("\n", "\n", s);
  }

  lemma ItemLine1()
    ensures EscapeLine("{{\n", "", "{{", "\n")
    ensures "" + "{{"[..1] + "\n" == "{\n"
  {
    assert "{{\n" == "" + "{{" + "\n";
  }

  lemma ItemRulePart1(acc: string, accv: string, s: ColorSetting)
    requires Format(acc, s) == Ok(accv)
    ensures Format(acc + "{{\n", s)
      == Ok(accv + "{\n")
  {
    ItemLine1();
    JoinEscapeLine(acc, accv, "{{\n", "", "{{", "\n", s);
  }

  lemma ItemLine2(s: ColorSetting)
    ensures FieldLine("  background-color: {bgcolor};\n", "  background-color: ", "bgcolor", ";\n", s)
    ensures Field("bgcolor", s).value == s.bgcolor
  {
    assert "  background-color: {bgcolor};\n" == "  background-color: " + "{" + "bgcolor" + "}" + ";\n";
  }

  lemma ItemRulePart2(acc: string, accv: string, s: ColorSetting)
    requires Format(acc, s) == Ok(accv)
    ensures Format(acc + "  background-color: {bgcolor};\n", s)
      == Ok(accv + "  background-color: " + s.bgcolor + ";\n")
  {
    ItemLine2(s);
    JoinFieldLine(acc, accv, "  background-color: {bgcolor};\n", "  background-color: ", "bgcolor", ";\n", s);
    Assoc(accv, "  background-color: ", s.bgcolor, ";\n");
  }

  lemma ItemLine3(s: ColorSetting)
    ensures FieldLine("  color: {color};\n", "  color: ", "color", ";\n", s)
    ensures Field("color", s).value == s.color
  {
    assert "  color: {color};\n" == "  color: " + "{" + "color" + "}" + ";\n";
  }

  lemma ItemRulePart3(acc: string, accv: string, s: ColorSetting)
    requires Format(acc, s) == Ok(accv)
    ensures Format(acc + "  color: {color};\n", s)
      == Ok(accv + "  color: " + s.color + ";\n")
  {
    ItemLine3(s);
    JoinFieldLine(acc, accv, "  color: {color};\n", "  color: ", "color", ";\n", s);
    Assoc(accv, "  color: ", s.color, ";\n");
  }

  lemma ItemLine4()
    ensures NoBraces("  font-size: 15px; font-weight: bold;")
  {
  }

  lemma ItemRulePart4(acc: string, accv: string, s: ColorSetting)
    requires Format(acc, s) == Ok(accv)
    ensures Format(acc + "  font-size: 15px; font-weight: bold;", s)
      == Ok(accv + "  font-size: 15px; font-weight: bold;")
  {
    ItemLine4();
    JoinPlain(acc, accv, "  font-size: 15px; font-weight: bold;", s);
  }

  lemma ItemLine5()
    ensures NoBraces(" padding: 6px;\n")
  {
  }

  lemma ItemRulePart5(acc: string, accv: string, s: ColorSetting)
    requires Format(acc, s) == Ok(accv)
    ensures Format(acc + " padding: 6px;\n", s)
      == Ok(accv + " padding: 6px;\n")
  {
    ItemLine5();
    JoinPlain(acc, accv, " padding: 6px;\n", s);
  }

  lemma ItemLine6(s: ColorSetting)
    ensures FieldLine("  border: 1px solid {bcolor};\n", "  border: 1px solid ", "bcolor", ";\n", s)
    ensures Field("bcolor", s).value == s.bcolor
  {
    assert "  border: 1px solid {bcolor};\n" == "  border: 1px solid " + "{" + "bcolor" + "}" + ";\n";
  }

  lemma ItemRulePart6(acc: string, accv: string, s: ColorSetting)
    requires Format(acc, s) == Ok(accv)
    ensures Format(acc + "  border: 1px solid {bcolor};\n", s)
      == Ok(accv + "  border: 1px solid " + s.bcolor + ";\n")
  {
    ItemLine6(s);
    JoinFieldLine(acc, accv, "  border: 1px solid {bcolor};\n", "  border: 1px solid ", "bcolor", ";\n", s);
    Assoc(accv, "  border: 1px solid ", s.bcolor, ";\n");
  }

  lemma ItemLine7()
    ensures NoBraces("  border-radius: 4px;\n")
  {
  }

  lemma ItemRulePart7(acc: string, accv: string, s: ColorSetting)
    requires Format(acc, s) == Ok(accv)
    ensures Format(acc + "  border-radius: 4px;\n", s)
      == Ok(accv + "  border-radius: 4px;\n")
  {
    ItemLine7();
    JoinPlain(acc, accv, "  border-radius: 4px;\n", s);
  }

  lemma ItemLine8()
    ensures NoBraces("  margin-top: 3px;\n")
  {
  }

  lemma ItemRulePart8(acc: string, accv: string, s: ColorSetting)
    requires Format(acc, s) == Ok(accv)
    ensures Format(acc + "  margin-top: 3px;\n", s)
      == Ok(accv + "  margin-top: 3px;\n")
  {
    ItemLine8();
    JoinPlain(acc, accv, "  margin-top: 3px;\n", s);
  }

  lemma ItemLine9()
    ensures NoBraces("  margin-bottom: 3px;\n")
  {
  }

  lemma ItemRulePart9(acc: string, accv: string, s: ColorSetting)
    requires Format(acc, s) == Ok(accv)
    ensures Format(acc + "  margin-bottom: 3px;\n", s)
      == Ok(accv + "  margin-bottom: 3px;\n")
  {
    ItemLine9();
    JoinPlain(acc, accv, "  margin-bottom: 3px;\n", s);
  }

  lemma ItemLine10()
    ensures EscapeLine("}}\n", "", "}}", "\n")
    ensures "" + "}}"[..1] + "\n" == "}\n"
  {
    assert "}}\n" == "" + "}}" + "\n";
  }

  lemma ItemRulePart10(acc: string, accv: string, s: ColorSetting)
    requires Format(acc, s) == Ok(accv)
    ensures Format(acc + "}}\n", s)
      == Ok(accv + "}\n")
  {
    ItemLine10();
    JoinEscapeLine(acc, accv, "}}\n", "", "}}", "\n", s);
  }

  lemma ItemRuleChain(acc: string, accv: string, s: ColorSetting)
    requires Format(acc, s) == Ok(accv)
    ensures Format(acc + "{{\n" + "  background-color: {bgcolor};\n" + "  color: {color};\n" + "  font-size: 15px; font-weight: bold;" + " padding: 6px;\n" + "  border: 1px solid {bcolor};\n" + "  border-radius: 4px;\n" + "  margin-top: 3px;\n" + "  margin-bottom: 3px;\n" + "}}\n", s)
      == Ok(accv + "{\n" + "  background-color: " + s.bgcolor + ";\n" + "  color: " + s.color + ";\n" + "  font-size: 15px; font-weight: bold;" + " padding: 6px;\n" + "  border: 1px solid " + s.bcolor + ";\n" + "  border-radius: 4px;\n" + "  margin-top: 3px;\n" + "  margin-bottom: 3px;\n" + "}\n")
  {
    var t0, v0 := acc, accv;
    ItemRulePart1(t0, v0, s);
    var t1, v1 := t0 + "{{\n", v0 + "{\n";
    ItemRulePart2(t1, v1, s);
    var t2, v2 := t1 + "  background-color: {bgcolor};\n", v1 + "  background-color: " + s.bgcolor + ";\n";
    ItemRulePart3(t2, v2, s);
    var t3, v3 := t2 + "  color: {color};\n", v2 + "  color: " + s.color + ";\n";
    ItemRulePart4(t3, v3, s);
    var t4, v4 := t3 + "  font-size: 15px; font-weight: bold;", v3 + "  font-size: 15px; font-weight: bold;";
    ItemRulePart5(t4, v4, s);
    var t5, v5 := t4 + " padding: 6px;\n", v4 + " padding: 6px;\n";
    ItemRulePart6(t5, v5, s);
    var t6, v6 := t5 + "  border: 1px solid {bcolor};\n", v5 + "  border: 1px solid " + s.bcolor + ";\n";
    ItemRulePart7(t6, v6, s);
    var t7, v7 := t6 + "  border-radius: 4px;\n", v6 + "  border-radius: 4px;\n";
    ItemRulePart8(t7, v7, s);
    var t8, v8 := t7 + "  margin-top: 3px;\n", v7 + "  margin-top: 3px;\n";
    ItemRulePart9(t8, v8, s);
    var t9, v9 := t8 + "  margin-bottom: 3px;\n", v8 + "  margin-bottom: 3px;\n";
    ItemRulePart10(t9, v9, s);
  }

  lemma ItemRuleFills(s: ColorSetting)
    ensures Format(ItemRule, s) == Ok(ItemSheet(s))
  {
    FormatPlain("QListView::item\n", s);
    ItemRuleChain("QListView::item\n", "QListView::item\n", s);
  }

  lemma SelectedLine1()
    ensures EscapeLine("{{\n", "", "{{", "\n")
    ensures "" + "{{"[..1] + "\n" == "{\n"
  {
    assert "{{\n" == "" + "{{" + "\n";
  }

  lemma SelectedRulePart1(acc: string, accv: string, s: ColorSetting)
    requires Format(acc, s) == Ok(accv)
    ensures Format(acc + "{{\n", s)
      == Ok(accv + "{\n")
  {
    SelectedLine1();
    JoinEscapeLine(acc, accv, "{{\n", "", "{{", "\n", s);
  }

  lemma SelectedLine2(s: ColorSetting)
    ensures FieldLine("  color: {color};\n", "  color: ", "color", ";\n", s)
    ensures Field("color", s).value == s.color
  {
    assert "  color: {color};\n" == "  color: " + "{" + "color" + "}" + ";\n";
  }

  lemma SelectedRulePart2(acc: string, accv: string, s: ColorSetting)
    requires Format(acc, s) == Ok(accv)
    ensures Format(acc + "  color: {color};\n", s)
      == Ok(accv + "  color: " + s.color + ";\n")
  {
    SelectedLine2(s);
    JoinFieldLine(acc, accv, "  color: {color};\n", "  color: ", "color", ";\n", s);
    Assoc(accv, "  color: ", s.color, ";\n");
  }

  lemma SelectedLine3(s: ColorSetting)
    ensures FieldLine("  border : 2px solid {color};\n", "  border : 2px solid ", "color", ";\n", s)
    ensures Field("color", s).value == s.color
  {
    assert "  border : 2px solid {color};\n" == "  border : 2px solid " + "{" + "color" + "}" + ";\n";
  }

  lemma SelectedRulePart3(acc: string, accv: string, s: ColorSetting)
    requires Format(acc, s) == Ok(accv)
    ensures Format(acc + "  border : 2px solid {color};\n", s)
      == Ok(accv + "  border : 2px solid " + s.color + ";\n")
  {
    SelectedLine3(s);
    JoinFieldLine(acc, accv, "  border : 2px solid {color};\n", "  border : 2px solid ", "color", ";\n", s);
    Assoc(accv, "  border : 2px solid ", s.color, ";\n");
  }

  lemma SelectedLine4()
    ensures EscapeLine("}}\n", "", "}}", "\n")
    ensures "" + "}}"[..1] + "\n" == "}\n"
  {
    assert "}}\n" == "" + "}}" + "\n";
  }

  lemma SelectedRulePart4(acc: string, accv: string, s: ColorSetting)
    requires Format(acc, s) == Ok(accv)
    ensures Format(acc + "}}\n", s)
      == Ok(accv + "}\n")
  {
    SelectedLine4();
    JoinEscapeLine(acc, accv, "}}\n", "", "}}", "\n", s);
  }

  lemma SelectedRuleChain(acc: string, accv: string, s: ColorSetting)
    requires Format(acc, s) == Ok(accv)
    ensures Format(acc + "{{\n" + "  color: {color};\n" + "  border : 2px solid {color};\n" + "}}\n", s)
      == Ok(accv + "{\n" + "  color: " + s.color + ";\n" + "  border : 2px solid " + s.color + ";\n" + "}\n")
  {
    var t0, v0 := acc, accv;
    SelectedRulePart1(t0, v0, s);
    var t1, v1 := t0 + "{{\n", v0 + "{\n";
    SelectedRulePart2(t1, v1, s);
    var t2, v2 := t1 + "  color: {color};\n", v1 + "  color: " + s.color + ";\n";
    SelectedRulePart3(t2, v2, s);
    var t3, v3 := t2 + "  border : 2px solid {color};\n", v2 + "  border : 2px solid " + s.color + ";\n";
    SelectedRulePart4(t3, v3, s);
  }

  lemma SelectedRuleFills(s: ColorSetting)
    ensures Format(SelectedRule, s) == Ok(SelectedSheet(s))
  {
    FormatPlain("QListView::item:selected\n", s);
    SelectedRuleChain("QListView::item:selected\n", "QListView::item:selected\n", s);
  }
  /** Filling the template with a setting gives exactly that setting's stylesheet. */
  lemma WidgetFormatFills(s: ColorSetting)
    ensures Format(WidgetFormat, s) == Ok(Stylesheet(s))
  {
    ListWidgetRuleFills(s);
    ItemRuleFills(s);
    SelectedRuleFills(s);
    FormatJoin(ListWidgetRule, ItemRule, ListWidgetSheet(s), ItemSheet(s), s);
    FormatJoin(ListWidgetRule + ItemRule, SelectedRule, ListWidgetSheet(s) + ItemSheet(s), SelectedSheet(s), s);
  }

  function Names(entries: seq<PaletteEntry>): (names: seq<string>)
    ensures |names| == |entries|
    ensures forall i :: 0 <= i < |entries| ==> names[i] == entries[i].name
  {
    seq(|entries|, i requires 0 <= i < |entries| => entries[i].name)
  }

  /** `WIDGET_FORMAT.format(**setting)`, which never fails. */
  function Formatted(s: ColorSetting): string
  {
    WidgetFormatFills(s);
    Format(WidgetFormat, s).value
  }

  lemma FormattedIsStylesheet(s: ColorSetting)
    ensures Formatted(s) == Stylesheet(s)
  {
    WidgetFormatFills(s);
  }

  /** The dictionary that assigning `d[name] = sheet(setting)` entry by
      entry builds. */
  function StyleMap(entries: seq<PaletteEntry>, sheet: ColorSetting -> string): (m: map<string, string>)
    ensures forall k :: k in m <==> k in Names(entries)
  {
    if entries == [] then map[]
    else
      var init := entries[..|entries| - 1];
      var last := entries[|entries| - 1];
      assert Names(entries) == Names(init) + [last.name];
      StyleMap(init, sheet)[last.name := sheet(last.setting)]
  }

  /** With distinct names, each name maps to its own entry's stylesheet. */
  lemma {:induction false} StyleMapValues(entries: seq<PaletteEntry>, sheet: ColorSetting -> string)
    requires Distinct(Names(entries))
    ensures forall i :: 0 <= i < |entries| ==> StyleMap(entries, sheet)[entries[i].name] == sheet(entries[i].setting)
  {
    if entries != [] {
      var n := |entries|;
      var init, last := entries[..n - 1], entries[n - 1];
      assert Names(init) == Names(entries)[..n - 1];
      StyleMapValues(init, sheet);
      var m0 := StyleMap(init, sheet);
      assert StyleMap(entries, sheet) == m0[last.name := sheet(last.setting)];
      forall i | 0 <= i < n
        ensures StyleMap(entries, sheet)[entries[i].name] == sheet(entries[i].setting)
      {
        if i < n - 1 {
          assert Names(entries)[i] != Names(entries)[n - 1];
          assert init[i] == entries[i];
          assert Names(init)[i] == entries[i].name;
        }
      }
    }
  }

  lemma StyleMapSnoc(entries: seq<PaletteEntry>, e: PaletteEntry, sheet: ColorSetting -> string)
    ensures StyleMap(entries + [e], sheet) == StyleMap(entries, sheet)[e.name := sheet(e.setting)]
  {
    assert (entries + [e])[..|entries|] == entries;
  }

  /** The order in which iterating that dictionary yields its keys: a name
      takes its place the first time it is assigned. */
  function StyleOrder(entries: seq<PaletteEntry>): (ks: seq<string>)
    ensures forall k :: k in ks <==> k in Names(entries)
  {
    if entries == [] then []
    else
      var init := entries[..|entries| - 1];
      var last := entries[|entries| - 1];
      assert Names(entries) == Names(init) + [last.name];
      var ks := StyleOrder(init);
      if last.name in ks then ks else ks + [last.name]
  }

  /** With distinct names the keys come in the entries' own order. */
  lemma {:induction false} StyleOrderOfDistinct(entries: seq<PaletteEntry>)
    requires Distinct(Names(entries))
    ensures StyleOrder(entries) == Names(entries)
  {
    if entries != [] {
      var n := |entries|;
      var init, last := entries[..n - 1], entries[n - 1];
      assert Names(init) == Names(entries)[..n - 1];
      StyleOrderOfDistinct(init);
      forall j | 0 <= j < n - 1
        ensures Names(init)[j] != last.name
      {
        assert Names(entries)[j] != Names(entries)[n - 1];
      }
      assert Names(entries) == Names(init) + [last.name];
    }
  }

  lemma StyleOrderSnoc(entries: seq<PaletteEntry>, e: PaletteEntry)
    ensures StyleOrder(entries + [e]) ==
      if e.name in StyleOrder(entries) then StyleOrder(entries) else StyleOrder(entries) + [e.name]
  {
    assert (entries + [e])[..|entries|] == entries;
  }

  /** A text no entry's sheet equals is not among the dictionary's values. */
  lemma {:induction false} StyleMapAvoids(entries: seq<PaletteEntry>, sheet: ColorSetting -> string, x: string)
    requires forall i :: 0 <= i < |entries| ==> sheet(entries[i].setting) != x
    ensures x !in StyleMap(entries, sheet).Values
  {
    if entries != [] {
      var n := |entries|;
      var init, last := entries[..n - 1], entries[n - 1];
      assert forall i :: 0 <= i < n - 1 ==> init[i] == entries[i];
      StyleMapAvoids(init, sheet, x);
      var m0 := StyleMap(init, sheet);
      var m := StyleMap(entries, sheet);
      assert m == m0[last.name := sheet(last.setting)];
      forall k | k in m
        ensures m[k] != x
      {
        if k != last.name {
          assert m[k] == m0[k];
        }
      }
    }
  }

  /** TILE_STYLE, as built at import time. */
  function TileStyle(): map<string, string>
  {
    StyleMap(ColorDict, Formatted)
  }

  /** The order in which `for color_name in TILE_STYLE` visits the keys. */
  function TileStyleOrder(): seq<string>
  {
    StyleOrder(ColorDict)
  }

  /** TILE_STYLE's keys are exactly the palette's colour names, and iterating
      it visits them in COLOR_DICT's order. */
  lemma TileStyleKeys()
    ensures forall c :: c in TileStyle() <==> c in PaletteNames()
    ensures TileStyleOrder() == PaletteNames()
  {
    PaletteShape();
    assert Names(ColorDict) == PaletteNames();
    StyleOrderOfDistinct(ColorDict);
  }

  /** TILE_STYLE holds the stylesheet of each palette colour. */
  lemma TileStyleContents()
    ensures forall i :: 0 <= i < |ColorDict| ==> TileStyle()[ColorDict[i].name] == Stylesheet(ColorDict[i].setting)
  {
    PaletteShape();
    assert Names(ColorDict) == PaletteNames();
    StyleMapValues(ColorDict, Formatted);
    forall i | 0 <= i < |ColorDict|
      ensures TileStyle()[ColorDict[i].name] == Stylesheet(ColorDict[i].setting)
    {
      FormattedIsStylesheet(ColorDict[i].setting);
    }
  }

  /** The import-time loop filling TILE_STYLE, as a mapping together with
      the dict's key order; every `format` call succeeds. */
  method BuildTileStyle() returns (tileStyle: map<string, string>, order: seq<string>)
    ensures tileStyle == TileStyle() && order == TileStyleOrder()
  {
    tileStyle, order := map[], [];
    for i := 0 to |ColorDict|
      invariant tileStyle == StyleMap(ColorDict[..i], Formatted)
      invariant order == StyleOrder(ColorDict[..i])
    {
      var entry := ColorDict[i];
      var formatted := Formatted(entry.setting);
      assert ColorDict[..i + 1] == ColorDict[..i] + [entry];
      StyleMapSnoc(ColorDict[..i], entry, Formatted);
      StyleOrderSnoc(ColorDict[..i], entry);
      if entry.name !in order {
        order := order + [entry.name];
      }
      tileStyle := tileStyle[entry.name := formatted];
    }
    assert ColorDict[..|ColorDict|] == ColorDict;
  }

  /** Every stylesheet begins with a line break. */
  lemma StylesheetStart(s: ColorSetting)
    ensures |Stylesheet(s)| > 0 && Stylesheet(s)[0] == '\n'
  {
    assert ListWidgetSheet(s)[0] == '\n';
  }

  /** `TILE_STYLE.get(color, "black")`, the stylesheet a sub-board's list
      receives: the default is the colour name, not the black stylesheet. */
  function ListStyleAsWritten(color: string): string
  {
    if color in TileStyle() then TileStyle()[color] else "black"
  }

  /** A colour outside the palette gets the text "black", which is no stylesheet at all. */
  lemma ListStyleAsWrittenUnknownColor()
    ensures "orange" !in TileStyle()
    ensures ListStyleAsWritten("orange") == "black"
    ensures forall s: ColorSetting :: ListStyleAsWritten("orange") != Stylesheet(s)
  {
    OrangeOutsidePalette();
    NoStylesheetIsAName();
  }

  /** None of TILE_STYLE's values is the text "black". */
  lemma BlackIsNoSheet()
    ensures "black" !in TileStyle().Values
  {
    NoStylesheetIsAName();
    forall i | 0 <= i < |ColorDict|
      ensures Formatted(ColorDict[i].setting) != "black"
    {
      FormattedIsStylesheet(ColorDict[i].setting);
    }
    StyleMapAvoids(ColorDict, Formatted, "black");
  }

  lemma OrangeOutsidePalette()
    ensures "orange" !in TileStyle()
  {
    TileStyleKeys();
    PaletteShape();
  }

  lemma NoStylesheetIsAName()
    ensures forall s: ColorSetting :: "black" != Stylesheet(s)
  {
    forall s: ColorSetting
      ensures "black" != Stylesheet(s)
    {
      StylesheetStart(s);
    }
  }

  lemma BlackInTileStyle()
    ensures "black" in TileStyle()
  {
    assert Names(ColorDict)[0] == "black";
  }

  /** The intended lookup, `TILE_STYLE.get(color, TILE_STYLE["black"])`. */
  function ListStyle(color: string): string
  {
    BlackInTileStyle();
    if color in TileStyle() then TileStyle()[color] else TileStyle()["black"]
  }

  /** Every sub-board list gets one of TILE_STYLE's stylesheets: its own
      colour's when the colour is known, the black one otherwise. */
  lemma ListStyleSheets(color: string)
    ensures "black" in TileStyle()
    ensures ListStyle(color) in TileStyle().Values
    ensures color in TileStyle() ==> ListStyle(color) == TileStyle()[color]
    ensures color !in TileStyle() ==> ListStyle(color) == TileStyle()["black"]
  {
    BlackInTileStyle();
  }

  /** The black stylesheet written out in full, rule by rule. */
  const BlackStyle: string := BlackListWidget + BlackItem + BlackSelected

  const BlackListWidget: string :=
    "\n" +
    "QListWidget QWidget {\n" +
    "  color: black;\n" +
    "  background : #D9D7D7;\n" +
    "  font-family: \"Helvetica\";\n" +
    "}\n"

  const BlackItem: string :=
    "QListView::item\n" +
    "{\n" +
    "  background-color: #D9D7D7;\n" +
    "  color: black;\n" +
    "  font-size: 15px; font-weight: bold;" +
    " padding: 6px;\n" +
    "  border: 1px solid #414141;\n" +
    "  border-radius: 4px;\n" +
    "  margin-top: 3px;\n" +
    "  margin-bottom: 3px;\n" +
    "}\n"

  const BlackSelected: string :=
    "QListView::item:selected\n" +
    "{\n" +
    "  color: black;\n" +
    "  border : 2px solid black;\n" +
    "}\n"

  lemma BlackListWidgetSheet(s: ColorSetting)
    requires s == ColorSetting("#D9D7D7", "black", "#414141")
    ensures ListWidgetSheet(s) == BlackListWidget
  {
    var t0 := "\n";
    var t1 := t0 + "QListWidget QWidget {\n";
    assert "  color: " + s.color + ";\n" == "  color: black;\n";
    assert t1 + "  color: " + s.color + ";\n" == t1 + "  color: black;\n";
    var t2 := t1 + "  color: black;\n";
    assert "  background : " + s.bgcolor + ";\n" == "  background : #D9D7D7;\n";
    assert t2 + "  background : " + s.bgcolor + ";\n" == t2 + "  background : #D9D7D7;\n";
    var t3 := t2 + "  background : #D9D7D7;\n";
    var t4 := t3 + "  font-family: \"Helvetica\";\n";
    var t5 := t4 + "}\n";
  }

  lemma BlackItemSheet(s: ColorSetting)
    requires s == ColorSetting("#D9D7D7", "black", "#414141")
    ensures ItemSheet(s) == BlackItem
  {
    var t0 := "QListView::item\n";
    var t1 := t0 + "{\n";
    assert "  background-color: " + s.bgcolor + ";\n" == "  background-color: #D9D7D7;\n";
    assert t1 + "  background-color: " + s.bgcolor + ";\n" == t1 + "  background-color: #D9D7D7;\n";
    var t2 := t1 + "  background-color: #D9D7D7;\n";
    assert "  color: " + s.color + ";\n" == "  color: black;\n";
    assert t2 + "  color: " + s.color + ";\n" == t2 + "  color: black;\n";
    var t3 := t2 + "  color: black;\n";
    var t4 := t3 + "  font-size: 15px; font-weight: bold;";
    var t5 := t4 + " padding: 6px;\n";
    assert "  border: 1px solid " + s.bcolor + ";\n" == "  border: 1px solid #414141;\n";
    assert t5 + "  border: 1px solid " + s.bcolor + ";\n" == t5 + "  border: 1px solid #414141;\n";
    var t6 := t5 + "  border: 1px solid #414141;\n";
    var t7 := t6 + "  border-radius: 4px;\n";
    var t8 := t7 + "  margin-top: 3px;\n";
    var t9 := t8 + "  margin-bottom: 3px;\n";
    var t10 := t9 + "}\n";
  }

  lemma BlackSelectedSheet(s: ColorSetting)
    requires s == ColorSetting("#D9D7D7", "black", "#414141")
    ensures SelectedSheet(s) == BlackSelected
  {
    var t0 := "QListView::item:selected\n";
    var t1 := t0 + "{\n";
    assert "  color: " + s.color + ";\n" == "  color: black;\n";
    assert t1 + "  color: " + s.color + ";\n" == t1 + "  color: black;\n";
    var t2 := t1 + "  color: black;\n";
    assert "  border : 2px solid " + s.color + ";\n" == "  border : 2px solid black;\n";
    assert t2 + "  border : 2px solid " + s.color + ";\n" == t2 + "  border : 2px solid black;\n";
    var t3 := t2 + "  border : 2px solid black;\n";
    var t4 := t3 + "}\n";
  }

  /** TILE_STYLE["black"] is exactly the black stylesheet. */
  lemma BlackTileStyle()
    ensures "black" in TileStyle()
    ensures TileStyle()["black"] == BlackStyle
  {
    TileStyleContents();
    var s := ColorDict[0].setting;
    assert ColorDict[0].name == "black";
    BlackListWidgetSheet(s);
    BlackItemSheet(s);
    BlackSelectedSheet(s);
  }
}
