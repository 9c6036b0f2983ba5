/** images.py: the resettable image-list cursor, the extension patterns of
    `read_image_list`, the output size of `process_resize` and the length dispatch
    of `read_opencv_calibration`. Directory listing (`Path.glob`) is a parameter. */
module Images {
  import opened Outcomes
  import opened Text
  import Sorting

  // ---------------------------------------------------------------- ImageList

  /** `s[idx]` on a Python list: negative indices count from the end. */
  function PyIndex<T>(s: seq<T>, idx: int): (r: Result<T>)
    ensures r.Ok? <==> -|s| <= idx < |s|
    ensures 0 <= idx < |s| ==> r == Ok(s[idx])
    ensures -|s| <= idx < 0 ==> r == Ok(s[|s| + idx])
  {
    if 0 <= idx < |s| then Ok(s[idx])
    else if -|s| <= idx < 0 then Ok(s[|s| + idx])
    else Raise(IndexError)
  }

  /** A negative index names the same item as the index `|s|` higher. */
  lemma PyIndexNegative<T>(s: seq<T>, i: int)
    requires 0 <= i < |s|
    ensures PyIndex(s, i - |s|) == PyIndex(s, i)
    ensures PyIndex(s, -1) == Ok(s[|s| - 1])
  {}

  /** The list of files found, iterated through a cursor the object itself holds:
      `__iter__` returns the object, so every loop over it shares that cursor. */
  class ImageList {
    var files: seq<string>
    var currentIdx: nat

    ghost predicate Valid()
      reads this
    {
      currentIdx <= |files|
    }

    /** The list `read_image_list` returned, with the cursor at the start. */
    constructor (found: seq<string>)
      ensures files == found && currentIdx == 0 && Valid()
    {
      files := found;
      currentIdx := 0;
    }

    /** `__len__`. */
    function Length(): (n: nat)
      reads this
      ensures n == |files|
    {
      |files|
    }

    /** `__getitem__`. */
    method GetItem(idx: int) returns (r: Result<string>)
      ensures r == PyIndex(files, idx)
    {
      if 0 <= idx < |files| {
        r := Ok(files[idx]);
      } else if -|files| <= idx < 0 {
        r := Ok(files[|files| + idx]);
      } else {
        r := Raise(IndexError);
      }
    }

    /** `__next__`: the next file, or None for StopIteration, after which the
        cursor is back at the start. */
    method Next() returns (r: Option<string>)
      requires Valid()
      modifies this
      ensures Valid() && files == old(files)
      ensures old(currentIdx) < |files| ==> r == Some(files[old(currentIdx)]) && currentIdx == old(currentIdx) + 1
      ensures old(currentIdx) >= |files| ==> r == None && currentIdx == 0
    {
      if currentIdx >= |files| {
        currentIdx := 0;
        return None;
      }
      var cur := currentIdx;
      currentIdx := currentIdx + 1;
      return Some(files[cur]);
    }

    /** A `for f in image_list` loop run to the end: the files from the cursor on,
        in order, leaving the cursor at the start for the next loop. */
    method Drain() returns (seen: seq<string>)
      requires Valid()
      modifies this
      ensures Valid() && files == old(files)
      ensures seen == old(files[currentIdx..]) && currentIdx == 0
    {
      seen := [];
      ghost var start := currentIdx;
      while true
        invariant Valid() && files == old(files) && start <= currentIdx
        invariant seen == files[start..currentIdx]
        decreases |files| - currentIdx
      {
        var f := Next();
        if f.None? {
          assert seen == files[start..];
          return;
        }
        seen := seen + [f.value];
      }
    }
  }

  // ---------------------------------------------------------------- read_image_list

  /** The `image_ext` argument: None, one extension, a list of them, or anything
      else. */
  datatype ExtArg = NoExt | OneExt(ext: string) | ExtList(exts: seq<string>) | OtherArg

  /** `ext_patt`: the suffixes searched, each with its dot; lower-case variants
      then upper-case ones unless the search is case-sensitive. */
  function Patterns(imageExt: ExtArg, caseSensitive: bool): Result<seq<string>>
  {
    match imageExt
      case NoExt => Ok([""])
      case OtherArg => Raise(AssertionError)
      case _ => Suffixes(ExtsOf(imageExt), caseSensitive)
  }

  /** The extensions of the argument: a string counts as a one-item list. */
  function ExtsOf(imageExt: ExtArg): seq<string>
  {
    match imageExt
      case OneExt(e) => [e]
      case ExtList(es) => es
      case _ => []
  }

  /** The suffixes of a list of extensions, each of which must have three
      characters. */
  function Suffixes(exts: seq<string>, caseSensitive: bool): Result<seq<string>>
  {
    if exists k :: 0 <= k < |exts| && |exts[k]| != 3 then Raise(AssertionError)
    else
      var variants := if caseSensitive then exts else Lowered(exts) + Uppered(exts);
      Ok(seq(|variants|, k requires 0 <= k < |variants| => "." + variants[k]))
  }

  function Lowered(exts: seq<string>): (r: seq<string>)
    ensures |r| == |exts| && forall k :: 0 <= k < |exts| ==> r[k] == Lower(exts[k])
  {
    seq(|exts|, k requires 0 <= k < |exts| => Lower(exts[k]))
  }

  function Uppered(exts: seq<string>): (r: seq<string>)
    ensures |r| == |exts| && forall k :: 0 <= k < |exts| ==> r[k] == Upper(exts[k])
  {
    seq(|exts|, k requires 0 <= k < |exts| => Upper(exts[k]))
  }

  /** The extension argument is rejected, with AssertionError, exactly when it is
      neither None, a string nor a list, or when one of its items is not three
      characters long; None searches for every file. */
  lemma PatternsChecked(imageExt: ExtArg, caseSensitive: bool)
    ensures var exts := ExtsOf(imageExt);
      var r := Patterns(imageExt, caseSensitive);
      && (r.Raise? <==> imageExt.OtherArg? || exists k :: 0 <= k < |exts| && |exts[k]| != 3)
      && (r.Raise? ==> r.error == AssertionError)
      && (imageExt.NoExt? ==> r == Ok([""]))
  {
    if !imageExt.NoExt? && !imageExt.OtherArg? {
      SuffixesChecked(ExtsOf(imageExt), caseSensitive);
    }
  }

  /** An accepted string or list gives one suffix per extension, with its dot;
      a case-insensitive search gives the lower-case suffixes followed by the
      upper-case ones. */
  lemma PatternsShape(imageExt: ExtArg, caseSensitive: bool)
    requires imageExt.OneExt? || imageExt.ExtList?
    ensures var exts := ExtsOf(imageExt);
      var r := Patterns(imageExt, caseSensitive);
      && (r.Ok? && caseSensitive ==>
            |r.value| == |exts| && forall k :: 0 <= k < |exts| ==> r.value[k] == "." + exts[k])
      && (r.Ok? && !caseSensitive ==>
            && |r.value| == 2 * |exts|
            && (forall k :: 0 <= k < |exts| ==> r.value[k] == "." + Lower(exts[k]))
            && (forall k :: 0 <= k < |exts| ==> r.value[|exts| + k] == "." + Upper(exts[k])))
  {
    if caseSensitive {
      SuffixesCaseSensitive(ExtsOf(imageExt));
    } else {
      SuffixesCaseInsensitive(ExtsOf(imageExt));
    }
  }

  lemma SuffixesChecked(exts: seq<string>, caseSensitive: bool)
    ensures var r := Suffixes(exts, caseSensitive);
      && (r.Raise? <==> exists k :: 0 <= k < |exts| && |exts[k]| != 3)
      && (r.Raise? ==> r.error == AssertionError)
  {}

  lemma SuffixesCaseSensitive(exts: seq<string>)
    ensures var r := Suffixes(exts, true);
      r.Ok? ==> |r.value| == |exts| && forall k :: 0 <= k < |exts| ==> r.value[k] == "." + exts[k]
  {}

  lemma SuffixesCaseInsensitive(exts: seq<string>)
    ensures var r := Suffixes(exts, false);
      r.Ok? ==>
        && |r.value| == 2 * |exts|
        && (forall k :: 0 <= k < |exts| ==> r.value[k] == "." + Lower(exts[k]))
        && (forall k :: 0 <= k < |exts| ==> r.value[|exts| + k] == "." + Upper(exts[k]))
  {
    var r := Suffixes(exts, false);
    if r.Ok? {
      var variants := Lowered(exts) + Uppered(exts);
      forall k | 0 <= k < |exts|
        ensures r.value[|exts| + k] == "." + Upper(exts[k])
      {
        assert variants[|exts| + k] == Upper(exts[k]);
      }
    }
  }

  /** The glob pattern for one suffix. */
  function GlobPattern(ext: string, recursive: bool): string
  {
    if recursive then "**/*" + ext else "*" + ext
  }

  /** The matches of every pattern, in pattern order. */
  function Matches(dataDir: string, patterns: seq<string>, recursive: bool, glob: (string, string) -> seq<string>)
    : seq<string>
  {
    if |patterns| == 0 then []
    else glob(dataDir, GlobPattern(patterns[0], recursive)) + Matches(dataDir, patterns[1..], recursive, glob)
  }

  lemma MatchesStep(dataDir: string, patterns: seq<string>, k: nat, recursive: bool,
                    glob: (string, string) -> seq<string>)
    requires k < |patterns|
    ensures Matches(dataDir, patterns[k..], recursive, glob)
         == glob(dataDir, GlobPattern(patterns[k], recursive)) + Matches(dataDir, patterns[k + 1..], recursive, glob)
  {
    assert patterns[k..][1..] == patterns[k + 1..];
  }

  /** `read_image_list(data_dir, image_ext, recursive, case_sensitive)`, where
      `dirs` are the existing directories and `glob(dir, pattern)` lists matches. */
  function ReadImageListSpec(dataDir: string, dirs: set<string>, imageExt: ExtArg, recursive: bool,
                             caseSensitive: bool, glob: (string, string) -> seq<string>): Result<seq<string>>
  {
    if dataDir !in dirs then Raise(AssertionError)
    else
      var patterns :- Patterns(imageExt, caseSensitive);
      Ok(Sorting.Sort(Matches(dataDir, patterns, recursive, glob)))
  }

  method ReadImageList(dataDir: string, dirs: set<string>, imageExt: ExtArg, recursive: bool,
                       caseSensitive: bool, glob: (string, string) -> seq<string>) returns (r: Result<seq<string>>)
    ensures r == ReadImageListSpec(dataDir, dirs, imageExt, recursive, caseSensitive, glob)
  {
    if dataDir !in dirs {
      return Raise(AssertionError);
    }
    var extPatt := Patterns(imageExt, caseSensitive);
    if extPatt.Raise? {
      return Raise(extPatt.error);
    }
    var files := GlobAll(dataDir, extPatt.value, recursive, glob);
    return Ok(Sorting.Sort(files));
  }

  /** The loop over the patterns, collecting the matches of each in turn. */
  method GlobAll(dataDir: string, patterns: seq<string>, recursive: bool, glob: (string, string) -> seq<string>)
    returns (files: seq<string>)
    ensures files == Matches(dataDir, patterns, recursive, glob)
  {
    files := [];
    for k := 0 to |patterns|
      invariant files + Matches(dataDir, patterns[k..], recursive, glob) == Matches(dataDir, patterns, recursive, glob)
    {
      var pattern := if recursive then "**/*" + patterns[k] else "*" + patterns[k];
      MatchesStep(dataDir, patterns, k, recursive, glob);
      files := files + glob(dataDir, pattern);
    }
    assert patterns[|patterns|..] == [];
    assert files + [] == files;
  }

  /** The list found is sorted and holds every match of every pattern, each as
      often as the patterns produce it. */
  lemma ReadImageListSorted(dataDir: string, dirs: set<string>, imageExt: ExtArg, recursive: bool,
                            caseSensitive: bool, glob: (string, string) -> seq<string>)
    requires ReadImageListSpec(dataDir, dirs, imageExt, recursive, caseSensitive, glob).Ok?
    ensures var files := ReadImageListSpec(dataDir, dirs, imageExt, recursive, caseSensitive, glob).value;
      && dataDir in dirs
      && Sorting.Sorted(files)
      && multiset(files) == multiset(Matches(dataDir, Patterns(imageExt, caseSensitive).value, recursive, glob))
  {}

  // ---------------------------------------------------------------- process_resize

  /** Python's `round` on a number: to the nearest integer, ties to the even one. */
  function RoundHalfEven(x: real): (n: int)
    ensures (n as real) - x <= 1.0 / 2.0 && x - (n as real) <= 1.0 / 2.0
    ensures ((n as real) - x == 1.0 / 2.0 || x - (n as real) == 1.0 / 2.0) ==> n % 2 == 0
  {
    var f := x.Floor;
    var d := x - f as real;
    if d < 1.0 / 2.0 then f
    else if d > 1.0 / 2.0 then f + 1
    else if f % 2 == 0 then f else f + 1
  }

  /** `process_resize(w, h, resize)`. */
  function ProcessResize(w: int, h: int, resize: seq<int>): Result<(int, int)>
  {
    if !(0 < |resize| <= 2) then Raise(AssertionError)
    else if |resize| == 1 && resize[0] > -1 then
      var m := if h >= w then h else w;
      if m == 0 then Raise(ZeroDivisionError)
      else
        var scale := resize[0] as real / m as real;
        Ok((RoundHalfEven(w as real * scale), RoundHalfEven(h as real * scale)))
    else if |resize| == 1 && resize[0] == -1 then Ok((w, h))
    else if |resize| < 2 then Raise(IndexError)
    else Ok((resize[0], resize[1]))
  }

  /** The size is rejected when the list is empty or longer than two, when a
      single non-negative size meets an empty image, and when a single size is
      below -1 (there is no second entry to read). */
  lemma ProcessResizeErrors(w: int, h: int, resize: seq<int>)
    ensures ProcessResize(w, h, resize).Raise? <==>
      || !(0 < |resize| <= 2)
      || (|resize| == 1 && resize[0] > -1 && (if h >= w then h else w) == 0)
      || (|resize| == 1 && resize[0] < -1)
    ensures resize == [-1] ==> ProcessResize(w, h, resize) == Ok((w, h))
    ensures |resize| == 2 ==> ProcessResize(w, h, resize) == Ok((resize[0], resize[1]))
  {}

  /** A single size scales the longer side to exactly that size and the shorter
      side to within half a pixel of the same ratio. */
  lemma ProcessResizeLongerSide(w: int, h: int, r: int)
    requires r > -1 && w >= h && w > 0
    ensures ProcessResize(w, h, [r]).Ok?
    ensures ProcessResize(w, h, [r]).value.0 == r
    ensures var hNew := ProcessResize(w, h, [r]).value.1 as real;
      hNew - (h * r) as real / w as real <= 1.0 / 2.0 && (h * r) as real / w as real - hNew <= 1.0 / 2.0
  {
    var scale := r as real / w as real;
    assert w as real * scale == r as real;
    RoundIntegral(r);
    assert h as real * scale == (h * r) as real / w as real;
  }

  /** The same when the image is taller than wide. */
  lemma ProcessResizeTaller(w: int, h: int, r: int)
    requires r > -1 && h > w && h > 0
    ensures ProcessResize(w, h, [r]).Ok? && ProcessResize(w, h, [r]).value.1 == r
  {
    var scale := r as real / h as real;
    assert h as real * scale == r as real;
    RoundIntegral(r);
  }

  /** A 4x1 image resized to 2 has a height of `round(0.5)`, which is 0. */
  lemma ProcessResizeTie()
    ensures ProcessResize(4, 1, [2]) == Ok((2, 0))
  {
    assert RoundHalfEven(1.0 / 2.0) == 0;
  }

  lemma RoundIntegral(n: int)
    ensures RoundHalfEven(n as real) == n
  {
    assert (n as real).Floor == n;
  }

  // ---------------------------------------------------------------- read_opencv_calibration

  /** Width, height, the 3x3 camera matrix by rows and the distortion vector. */
  datatype Calibration = Calibration(w: real, h: real, k: seq<seq<real>>, dist: seq<real>)

  /** `read_opencv_calibration(path)` on the numbers of the file's one line;
      `found` says whether the path exists. */
  function ReadOpencvCalibration(found: bool, data: seq<real>): (r: Result<Calibration>)
  {
    if !found then Raise(ValueError)
    else if |data| < 2 then Raise(IndexError)
    else if |data| < 11 then Raise(ValueError)  // nine values cannot be reshaped to 3x3
    else
      var k := [data[2..5], data[5..8], data[8..11]];
      if |data| in {15, 16, 19} then Ok(Calibration(data[0], data[1], k, data[11..]))
      else Raise(ValueError)
  }

  /** The numbers laid out again: width, height, the matrix row by row, then the
      distortion coefficients. */
  function Flatten(c: Calibration): seq<real>
    requires |c.k| == 3
  {
    [c.w, c.h] + c.k[0] + c.k[1] + c.k[2] + c.dist
  }

  /** A file is accepted exactly when it exists and holds 15, 16 or 19 numbers
      (OpenCV's four, five or eight distortion coefficients); the matrix is read
      row-major, and the calibration lays out to the file's numbers again. */
  lemma CalibrationLayout(found: bool, data: seq<real>)
    ensures ReadOpencvCalibration(found, data).Ok? <==> found && |data| in {15, 16, 19}
    ensures ReadOpencvCalibration(found, data).Ok? ==>
      var c := ReadOpencvCalibration(found, data).value;
      && |c.k| == 3 && (forall i :: 0 <= i < 3 ==> |c.k[i]| == 3)
      && (forall i, j :: 0 <= i < 3 && 0 <= j < 3 ==> c.k[i][j] == data[2 + 3 * i + j])
      && |c.dist| == |data| - 11 && |c.dist| in {4, 5, 8}
      && Flatten(c) == data
    ensures !found ==> ReadOpencvCalibration(found, data) == Raise(ValueError)
  {
    if ReadOpencvCalibration(found, data).Ok? {
      var c := ReadOpencvCalibration(found, data).value;
      assert Flatten(c) == data[..2] + data[2..5] + data[5..8] + data[8..11] + data[11..];
      assert data == data[..2] + data[2..5] + data[5..8] + data[8..11] + data[11..];
    }
  }
}
