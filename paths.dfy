/** POSIX path helpers the loader uses to name a board after its file:
    `os.path.basename` and the root part of `os.path.splitext`. */
module Paths {

  /** Python's `s.rfind(c)`: the last index holding `c`, or -1. */
  function LastIndexOf(s: string, c: char): (r: int)
    ensures -1 <= r < |s|
  {
    if s == [] then -1
    else if s[|s| - 1] == c then |s| - 1
    else LastIndexOf(s[..|s| - 1], c)
  }

  /** `c` sits at the index found and nowhere after it. */
  lemma {:induction false} LastIndexOfFacts(s: string, c: char)
    ensures var r := LastIndexOf(s, c);
      (r >= 0 ==> s[r] == c) && forall j :: r < j < |s| ==> s[j] != c
  {
    if s != [] && s[|s| - 1] != c {
      var init := s[..|s| - 1];
      LastIndexOfFacts(init, c);
      assert forall j :: 0 <= j < |init| ==> init[j] == s[j];
    }
  }

  /** Those two facts pin the index down. */
  lemma {:induction false} LastIndexUnique(s: string, c: char, r: int)
    requires -1 <= r < |s|
    requires r >= 0 ==> s[r] == c
    requires forall j :: r < j < |s| ==> s[j] != c
    ensures LastIndexOf(s, c) == r
  {
    if s != [] && r < |s| - 1 {
      var init := s[..|s| - 1];
      assert forall j :: 0 <= j < |init| ==> init[j] == s[j];
      LastIndexUnique(init, c, r);
    }
  }

  /** `os.path.basename(p)`: everything after the last '/'. */
  function BaseName(p: string): (b: string)
  {
    p[LastIndexOf(p, '/') + 1..]
  }

  /** The basename is a suffix of the path without a '/'. */
  lemma BaseNameSuffix(p: string)
    ensures '/' !in BaseName(p)
    ensures |BaseName(p)| <= |p| && BaseName(p) == p[|p| - |BaseName(p)|..]
  {
    var i := LastIndexOf(p, '/') + 1;
    LastIndexOfFacts(p, '/');
    assert forall k :: 0 <= k < |p[i..]| ==> p[i..][k] == p[i + k];
  }

  /** Is some character of p[lo..hi] other than '.'? */
  predicate HasNonDot(p: string, lo: int, hi: int)
    requires 0 <= lo && hi <= |p|
  {
    exists k :: lo <= k < hi && p[k] != '.'
  }

  /** `os.path.splitext(p)[0]` for POSIX: the last '.' after the last '/'
      starts the extension, unless only dots precede it in the file name
      (".profile" has no extension). */
  function SplitExtRoot(p: string): (root: string)
    ensures root == p || (|root| < |p| && root == p[..|root|] && p[|root|] == '.')
  {
    var sep := LastIndexOf(p, '/');
    var dot := LastIndexOf(p, '.');
    if dot > sep && HasNonDot(p, sep + 1, dot) then
      LastIndexOfFacts(p, '.');
      p[..dot]
    else p
  }

  /** The default board title of xban/io.py: basename of the splitext root. */
  function Title(path: string): string
  {
    BaseName(SplitExtRoot(path))
  }

  /** The project name of xban/xBan.py: splitext root of the basename. */
  function ProjectName(path: string): string
  {
    SplitExtRoot(BaseName(path))
  }

  lemma LastIndexOfPrefix(p: string, c: char, n: nat)
    requires LastIndexOf(p, c) < n <= |p|
    ensures LastIndexOf(p[..n], c) == LastIndexOf(p, c)
  {
    LastIndexOfFacts(p, c);
    assert forall j :: 0 <= j < n ==> p[..n][j] == p[j];
    LastIndexUnique(p[..n], c, LastIndexOf(p, c));
  }

  lemma LastIndexOfSuffix(p: string, c: char, m: nat)
    requires m <= |p|
    ensures LastIndexOf(p[m..], c) == if LastIndexOf(p, c) >= m then LastIndexOf(p, c) - m else -1
  {
    var r := LastIndexOf(p, c);
    var q := if r >= m then r - m else -1;
    LastIndexOfFacts(p, c);
    assert forall j :: 0 <= j < |p[m..]| ==> p[m..][j] == p[m + j];
    LastIndexUnique(p[m..], c, q);
  }

  /** Both orders of stripping give the same name, so the titles of
      xban/io.py and the project names of xban/xBan.py agree. */
  lemma TitleIsProjectName(p: string)
    ensures Title(p) == ProjectName(p)
  {
    var sep := LastIndexOf(p, '/');
    var dot := LastIndexOf(p, '.');
    var b := p[sep + 1..];
    LastIndexOfSuffix(p, '/', sep + 1);
    LastIndexOfSuffix(p, '.', sep + 1);
    assert BaseName(p) == b;
    if dot > sep {
      NonDotShift(p, sep + 1, dot);
    }
    if dot > sep && HasNonDot(p, sep + 1, dot) {
      TitleWithExt(p, sep, dot);
    } else {
      assert SplitExtRoot(p) == p;
      assert SplitExtRoot(b) == b;
    }
  }

  lemma TitleWithExt(p: string, sep: int, dot: int)
    requires sep == LastIndexOf(p, '/') && dot == LastIndexOf(p, '.')
    requires dot > sep && HasNonDot(p, sep + 1, dot)
    requires LastIndexOf(p[sep + 1..], '/') == -1 && LastIndexOf(p[sep + 1..], '.') == dot - sep - 1
    requires HasNonDot(p[sep + 1..], 0, dot - sep - 1)
    ensures Title(p) == ProjectName(p)
  {
    var b, pre := p[sep + 1..], p[..dot];
    assert SplitExtRoot(p) == pre;
    LastIndexOfPrefix(p, '/', dot);
    assert Title(p) == pre[sep + 1..];
    assert BaseName(p) == b;
    assert SplitExtRoot(b) == b[..dot - sep - 1];
    assert ProjectName(p) == b[..dot - sep - 1];
    SliceOfPrefix(p, sep + 1, dot);
  }

  lemma NonDotShift(p: string, m: nat, hi: nat)
    requires m <= hi <= |p|
    ensures HasNonDot(p, m, hi) <==> HasNonDot(p[m..], 0, hi - m)
  {
    if HasNonDot(p, m, hi) {
      var k :| m <= k < hi && p[k] != '.';
      assert p[m..][k - m] == p[k];
    }
    if HasNonDot(p[m..], 0, hi - m) {
      var k :| 0 <= k < hi - m && p[m..][k] != '.';
      assert p[k + m] == p[m..][k];
    }
  }

  lemma SliceOfPrefix(p: string, i: nat, j: nat)
    requires i <= j <= |p|
    ensures p[..j][i..] == p[i..][..j - i]
  {
  }

  /** A file "dir/stem.ext" is titled "stem": the directory and the last
      extension are dropped. */
  lemma TitleOfPath(dir: string, stem: string, ext: string)
    requires dir == [] || dir[|dir| - 1] == '/'
    requires '/' !in stem && '/' !in ext && '.' !in ext
    requires exists k :: 0 <= k < |stem| && stem[k] != '.'
    ensures Title(dir + stem + "." + ext) == stem
  {
    var p := dir + stem + "." + ext;
    var dot := |dir| + |stem|;
    assert p[dot] == '.';
    assert forall j :: dot < j < |p| ==> p[j] == ext[j - dot - 1];
    LastIndexUnique(p, '.', dot);
    var sep := |dir| - 1;
    assert forall j :: sep < j < |p| ==> (j < dot ==> p[j] == stem[j - |dir|]);
    LastIndexUnique(p, '/', sep);
    var k :| 0 <= k < |stem| && stem[k] != '.';
    assert p[|dir| + k] == stem[k];
    assert HasNonDot(p, sep + 1, dot);
    assert SplitExtRoot(p) == dir + stem;
    assert p[..dot] == dir + stem;
    LastIndexOfPrefix(p, '/', dot);
    assert (dir + stem)[|dir|..] == stem;
  }

  /** The file name the loader's tests use. */
  lemma TitleOfTestFile()
    ensures Title("test/testfile.yaml") == "testfile"
  {
    assert "test/testfile.yaml" == "test/" + "testfile" + "." + "yaml";
    assert "testfile"[0] != '.';
    TitleOfPath("test/", "testfile", "yaml");
  }
}
