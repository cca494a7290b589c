/** The number of lines a note of the legacy app xban/xBan.py shows,
    `_text_line_count`, and the minimum height it gives the note. The text is
    split with Python's `str.splitlines`; the wrapping of one line,
    `textwrap.wrap(line, char)`, is a parameter of the model. */
module NoteText {

  /** The line boundaries of Python's `str.splitlines`; "\r\n" is one boundary. */
  predicate IsLineBreak(c: char) {
    c == '\n' || c == '\r' || c == '\U{0B}' || c == '\U{0C}' || c == '\U{1C}' || c == '\U{1D}' ||
    c == '\U{1E}' || c == '\U{85}' || c == '\U{2028}' || c == '\U{2029}'
  }

  predicate NoBreak(s: string) {
    forall i :: 0 <= i < |s| ==> !IsLineBreak(s[i])
  }

  /** The index of the first line boundary, |s| when there is none. */
  function FirstBreak(s: string): (k: nat)
    ensures k <= |s|
    ensures k < |s| ==> IsLineBreak(s[k])
  {
    if s == [] then 0
    else if IsLineBreak(s[0]) then 0
    else 1 + FirstBreak(s[1..])
  }

  /** No boundary comes before the first. */
  lemma {:induction false} BeforeFirstBreak(s: string)
    ensures NoBreak(s[..FirstBreak(s)])
  {
    if s != [] && !IsLineBreak(s[0]) {
      BeforeFirstBreak(s[1..]);
      var k := FirstBreak(s);
      assert s[..k] == [s[0]] + s[1..][..k - 1];
    }
  }

  /** The length of the boundary at k: two for "\r\n", one otherwise. */
  function BreakLength(s: string, k: nat): nat
    requires k < |s|
  {
    if s[k] == '\r' && k + 1 < |s| && s[k + 1] == '\n' then 2 else 1
  }

  /** `str.splitlines()`: the lines between boundaries, without them; a
      boundary at the very end does not start another line. */
  function SplitLines(s: string): seq<string>
    decreases |s|
  {
    if s == [] then []
    else
      var k := FirstBreak(s);
      if k == |s| then [s]
      else [s[..k]] + SplitLines(s[k + BreakLength(s, k)..])
  }

  /** The lines a note shows for each split line: one for an empty line, as
      many as `wrap` gives otherwise. */
  function Wrapped(lines: seq<string>, width: int, wrap: (string, int) -> seq<string>): nat
  {
    if lines == [] then 0
    else
      var last := lines[|lines| - 1];
      Wrapped(lines[..|lines| - 1], width, wrap) + (if last == "" then 1 else |wrap(last, width)|)
  }

  /** The count before the floor of one: a final '\n' is one more line. */
  function RawCount(text: string, width: int, wrap: (string, int) -> seq<string>): nat {
    (if |text| > 0 && text[|text| - 1] == '\n' then 1 else 0) + Wrapped(SplitLines(text), width, wrap)
  }

  /** `_text_line_count(text, char)`: never fewer than one line. */
  function LineCount(text: string, width: int, wrap: (string, int) -> seq<string>): (n: nat)
    ensures n >= 1 && n >= RawCount(text, width, wrap)
    ensures RawCount(text, width, wrap) >= 1 ==> n == RawCount(text, width, wrap)
  {
    var raw := RawCount(text, width, wrap);
    if raw >= 1 then raw else 1
  }

  /** The loop of `_text_line_count`. */
  method TextLineCount(text: string, width: int, wrap: (string, int) -> seq<string>) returns (count: int)
    ensures count == LineCount(text, width, wrap)
    ensures count >= 1
  {
    var lines := SplitLines(text);
    count := if |text| > 0 && text[|text| - 1] == '\n' then 1 else 0;
    var start := count;
    assert lines[..0] == [];
    for i := 0 to |lines|
      invariant count == start + Wrapped(lines[..i], width, wrap)
    {
      assert lines[..i + 1][..i] == lines[..i];
      if lines[i] == "" {
        count := count + 1;
      } else {
        count := count + |wrap(lines[i], width)|;
      }
    }
    assert lines[..|lines|] == lines;
    if count < 1 {
      count := 1;
    }
  }

  /** `text_resize`: the minimum height of a note, 33 pixels and 18 per line. */
  function NoteHeight(text: string, width: int, wrap: (string, int) -> seq<string>): (h: int)
    ensures h >= 51
    ensures (h - 33) % 18 == 0 && (h - 33) / 18 == LineCount(text, width, wrap)
  {
    33 + 18 * LineCount(text, width, wrap)
  }

  /** Lines each followed by '\n'. */
  function Terminated(lines: seq<string>): string {
    if lines == [] then [] else lines[0] + "\n" + Terminated(lines[1..])
  }

  /** A line without boundaries, then '\n', splits off as that line. */
  lemma SplitLinesCons(a: string, rest: string)
    requires NoBreak(a)
    ensures SplitLines(a + "\n" + rest) == [a] + SplitLines(rest)
  {
    var s := a + "\n" + rest;
    FirstBreakOf(a, rest);
    assert s[..|a|] == a;
    assert BreakLength(s, |a|) == 1;
    assert s[|a| + 1..] == rest;
  }

  lemma {:induction false} FirstBreakOf(a: string, rest: string)
    requires NoBreak(a)
    ensures FirstBreak(a + "\n" + rest) == |a|
  {
    var s := a + "\n" + rest;
    if a != [] {
      assert s[1..] == a[1..] + "\n" + rest;
      FirstBreakOf(a[1..], rest);
    }
  }

  /** `splitlines` undoes terminating every line with '\n'. */
  lemma {:induction false} SplitTerminated(lines: seq<string>)
    requires forall i :: 0 <= i < |lines| ==> NoBreak(lines[i])
    ensures SplitLines(Terminated(lines)) == lines
  {
    if lines != [] {
      SplitTerminated(lines[1..]);
      SplitLinesCons(lines[0], Terminated(lines[1..]));
    }
  }

  /** A text written as terminated lines shows each line's wrapped lines and
      one more for the final '\n'. */
  lemma CountTerminated(lines: seq<string>, width: int, wrap: (string, int) -> seq<string>)
    requires lines != [] && forall i :: 0 <= i < |lines| ==> NoBreak(lines[i])
    ensures LineCount(Terminated(lines), width, wrap) == 1 + Wrapped(lines, width, wrap)
  {
    SplitTerminated(lines);
    TerminatedEnds(lines);
  }

  lemma {:induction false} TerminatedEnds(lines: seq<string>)
    requires lines != []
    ensures var t := Terminated(lines); |t| > 0 && t[|t| - 1] == '\n'
  {
    if |lines| > 1 {
      TerminatedEnds(lines[1..]);
    }
  }

  /** Text without a boundary is one line, however `wrap` cuts it, unless it
      is blank and `wrap` gives nothing, when the floor gives one. */
  lemma SingleLine(a: string, width: int, wrap: (string, int) -> seq<string>)
    requires a != [] && NoBreak(a)
    ensures LineCount(a, width, wrap) == if |wrap(a, width)| >= 1 then |wrap(a, width)| else 1
  {
    assert FirstBreak(a) == |a|;
    assert SplitLines(a) == [a];
    assert [a][..0] == [];
    assert !IsLineBreak(a[|a| - 1]);
    assert Wrapped([a], width, wrap) == |wrap(a, width)|;
  }

  /** A '\n' added after a text that does not end in another boundary adds
      exactly one line. */
  lemma TrailingNewline(s: string, width: int, wrap: (string, int) -> seq<string>)
    requires s != [] && (s[|s| - 1] == '\n' || !IsLineBreak(s[|s| - 1]))
    ensures RawCount(s + "\n", width, wrap) == RawCount(s, width, wrap) + 1
  {
    var extra: seq<string> := if s[|s| - 1] == '\n' then [""] else [];
    SplitAppendNewline(s);
    WrappedSnoc(SplitLines(s), extra, width, wrap);
  }

  lemma WrappedSnoc(lines: seq<string>, extra: seq<string>, width: int, wrap: (string, int) -> seq<string>)
    requires extra == [] || extra == [""]
    ensures Wrapped(lines + extra, width, wrap) == Wrapped(lines, width, wrap) + |extra|
  {
    if extra == [""] {
      assert (lines + extra)[..|lines|] == lines;
    } else {
      assert lines + extra == lines;
    }
  }

  /** `splitlines` of s + "\n": the lines of s, and one more, empty, line when
      s already ended with '\n'. */
  lemma {:induction false} SplitAppendNewline(s: string)
    requires s != [] && (s[|s| - 1] == '\n' || !IsLineBreak(s[|s| - 1]))
    ensures SplitLines(s + "\n") == SplitLines(s) + (if s[|s| - 1] == '\n' then [""] else [])
    decreases |s|
  {
    var extra: seq<string> := if s[|s| - 1] == '\n' then [""] else [];
    var k := FirstBreak(s);
    if k == |s| {
      SplitNoBreakNewline(s);
      assert extra == [];
    } else {
      var rest := s[k + BreakLength(s, k)..];
      SplitAfterBreakNewline(s, k);
      if rest == [] {
        assert extra == [""];
        SplitNewline();
      } else {
        assert rest[|rest| - 1] == s[|s| - 1];
        SplitAppendNewline(rest);
        AppendAssoc([s[..k]], SplitLines(rest), extra);
      }
    }
  }

  /** "\n" alone is one empty line. */
  lemma SplitNewline()
    ensures SplitLines("\n") == [""]
  {
    assert "\n" == "" + "\n" + "";
    SplitLinesCons("", "");
  }

  lemma AppendAssoc<T>(a: seq<T>, b: seq<T>, c: seq<T>)
    ensures a + (b + c) == a + b + c
  {
  }

  /** Text without a boundary splits as itself, also with '\n' after it. */
  lemma SplitNoBreakNewline(s: string)
    requires s != [] && FirstBreak(s) == |s|
    ensures SplitLines(s) == [s] && SplitLines(s + "\n") == [s]
    ensures !IsLineBreak(s[|s| - 1])
  {
    BeforeFirstBreak(s);
    assert s[..|s|] == s;
    assert s[..|s|][|s| - 1] == s[|s| - 1];
    assert s + "\n" == s + "\n" + "";
    SplitLinesCons(s, "");
  }

  /** Past the first boundary of s, s + "\n" splits as s does, with '\n'
      after the rest. */
  lemma SplitAfterBreakNewline(s: string, k: nat)
    requires k == FirstBreak(s) && k < |s| && (s[|s| - 1] == '\n' || !IsLineBreak(s[|s| - 1]))
    ensures SplitLines(s) == [s[..k]] + SplitLines(s[k + BreakLength(s, k)..])
    ensures SplitLines(s + "\n") == [s[..k]] + SplitLines(s[k + BreakLength(s, k)..] + "\n")
  {
    var t := s + "\n";
    var n := BreakLength(s, k);
    FirstBreakExtend(s);
    BreakLengthExtend(s, k);
    TakeAppend(s, "\n", k);
    DropAppend(s, "\n", k + n);
    SplitStep(s, k);
    SplitStep(t, k);
  }

  lemma TakeAppend<T>(a: seq<T>, b: seq<T>, i: nat)
    requires i <= |a|
    ensures (a + b)[..i] == a[..i]
  {
  }

  lemma DropAppend<T>(a: seq<T>, b: seq<T>, i: nat)
    requires i <= |a|
    ensures (a + b)[i..] == a[i..] + b
  {
  }

  /** `splitlines` takes off the line before the first boundary. */
  lemma SplitStep(s: string, k: nat)
    requires k == FirstBreak(s) && k < |s|
    ensures SplitLines(s) == [s[..k]] + SplitLines(s[k + BreakLength(s, k)..])
  {
  }

  /** A '\n' added at the end does not join a final '\r' of s into "\r\n". */
  lemma BreakLengthExtend(s: string, k: nat)
    requires k < |s| && (s[|s| - 1] == '\n' || !IsLineBreak(s[|s| - 1]))
    ensures BreakLength(s + "\n", k) == BreakLength(s, k)
  {
    if s[k] == '\r' {
      assert k + 1 < |s|;
    }
  }

  lemma FirstBreakExtend(s: string)
    ensures FirstBreak(s + "\n") == FirstBreak(s)
  {
    var k := FirstBreak(s);
    var t := s + "\n";
    if k == |s| {
      BeforeFirstBreak(s);
      assert s[..k] == s;
      assert t == s + "\n" + "";
      FirstBreakOf(s, "");
    } else {
      BeforeFirstBreak(s);
      assert t[..k] == s[..k] && t[k] == s[k];
      FirstBreakAt(t, k);
    }
  }

  /** A boundary at k with none before it is the first boundary. */
  lemma {:induction false} FirstBreakAt(s: string, k: nat)
    requires k < |s| && IsLineBreak(s[k]) && NoBreak(s[..k])
    ensures FirstBreak(s) == k
  {
    if k > 0 {
      assert !IsLineBreak(s[..k][0]);
      assert s[1..][..k - 1] == s[..k][1..];
      FirstBreakAt(s[1..], k - 1);
    }
  }

  /** An empty note shows one line; a note holding only '\n' shows two. */
  lemma EmptyNotes(width: int, wrap: (string, int) -> seq<string>)
    ensures LineCount("", width, wrap) == 1
    ensures LineCount("\n", width, wrap) == 2
  {
    SplitNewline();
    assert [""][..0] == [];
  }
}
