/** The parts of `pathlib.PurePosixPath` the modelled code uses: `name`, `suffix`,
    `stem` and `parent`, on paths written as strings with `/` separators. */
module Paths {
  import opened Text

  /** `s.rfind(c)`: the last position holding `c`, or -1. */
  function LastIndexOf(s: string, c: char): (r: int)
    ensures -1 <= r < |s|
    ensures r >= 0 ==> s[r] == c
  {
    if |s| == 0 then -1
    else if s[|s| - 1] == c then |s| - 1
    else LastIndexOf(s[..|s| - 1], c)
  }

  /** `rfind` finds the last occurrence: no later position holds `c`. */
  lemma {:induction false} LastIndexOfLast(s: string, c: char)
    ensures forall j :: LastIndexOf(s, c) < j < |s| ==> s[j] != c
  {
    if |s| > 0 && s[|s| - 1] != c {
      LastIndexOfLast(s[..|s| - 1], c);
    }
  }

  /** `Path(p).name`: the text after the last `/`. */
  function Name(p: string): string
  {
    var i := LastIndexOf(p, '/');
    p[i + 1..]
  }

  /** `Path.name` holds no `/`. */
  lemma NameSlashFree(p: string)
    ensures forall j :: 0 <= j < |Name(p)| ==> Name(p)[j] != '/'
  {
    LastIndexOfLast(p, '/');
  }

  /** Position of the dot that starts the suffix of a name, or -1 when it has none:
      a leading dot (a hidden file) or a trailing dot does not start a suffix. */
  function SuffixDot(n: string): (i: int)
    ensures i == -1 || (0 < i < |n| - 1 && n[i] == '.')
  {
    var i := LastIndexOf(n, '.');
    if 0 < i < |n| - 1 then i else -1
  }

  /** `Path(p).suffix`, dot included. */
  function Suffix(p: string): string
  {
    var n := Name(p);
    var i := SuffixDot(n);
    if i == -1 then "" else n[i..]
  }

  /** `Path(p).stem`. */
  function Stem(p: string): string
  {
    var n := Name(p);
    var i := SuffixDot(n);
    if i == -1 then n else n[..i]
  }

  /** The name is the stem followed by the suffix; a non-empty suffix is a dot
      followed by at least one character and no further dot. */
  lemma StemSuffix(p: string)
    ensures Stem(p) + Suffix(p) == Name(p)
    ensures Suffix(p) == "" || (|Suffix(p)| >= 2 && Suffix(p)[0] == '.' && NoneIn(Suffix(p)[1..], {'.'}))
  {
    var n := Name(p);
    var i := SuffixDot(n);
    if i != -1 {
      LastIndexOfLast(n, '.');
      assert n[..i] + n[i..] == n;
    }
  }

  lemma NameWithoutSlash(p: string)
    requires forall j :: 0 <= j < |p| ==> p[j] != '/'
    ensures Name(p) == p
  {
    assert LastIndexOf(p, '/') == -1;
  }

  /** A name `base.ext` whose parts hold no dot or slash has stem `base` and suffix `.ext`. */
  lemma StemSuffixOf(base: string, ext: string)
    requires |base| >= 1 && |ext| >= 1
    requires forall j :: 0 <= j < |base| ==> base[j] != '/' && base[j] != '.'
    requires forall j :: 0 <= j < |ext| ==> ext[j] != '/' && ext[j] != '.'
    ensures Stem(base + "." + ext) == base
    ensures Suffix(base + "." + ext) == "." + ext
  {
    var f := base + "." + ext;
    assert forall j :: 0 <= j < |f| ==> f[j] != '/';
    NameWithoutSlash(f);
    assert f[|base|] == '.';
    LastIndexOfLast(f, '.');
    assert LastIndexOf(f, '.') == |base|;
  }

  /** `Path(a) / b`. */
  function PathJoin(a: string, b: string): string
  {
    a + "/" + b
  }

  lemma PathJoinInjective(dir: string, f: string, g: string)
    requires PathJoin(dir, f) == PathJoin(dir, g)
    ensures f == g
  {
    assert PathJoin(dir, f)[|dir| + 1..] == f;
    assert PathJoin(dir, g)[|dir| + 1..] == g;
  }
}
