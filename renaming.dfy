/** renaming.py: new image names built from EXIF (`name_from_exif`), the copy
    that `copy_and_rename` makes, the `ImageRenamer` bookkeeping over an
    `ImageList`, and the colour and rectangle rules of `overlay_text`. */
module Renaming {
  import opened Outcomes
  import opened Text
  import opened Paths
  import opened ExifData
  import opened Actions
  import Images

  // ---------------------------------------------------------------- name_from_exif

  /** `id_str`: `_` and the progressive id zero-filled to four characters, or
      nothing without an id (`zfill` pads after a minus sign, as `%04d` does). */
  function IdString(progressiveId: Option<int>): string
  {
    match progressiveId
      case None => ""
      case Some(i) => "_" + FormatInt(i, 4)
  }

  /** The new name: base name, id part, `_`, date-time stamp, `_`, camera model
      and the original suffix. */
  function NewName(fname: string, baseName: string, progressiveId: Option<int>, dt: DateTime, model: Option<string>)
    : string
  {
    baseName + IdString(progressiveId) + "_" + Stamp(dt) + "_" + CameraModel(model) + Suffix(fname)
  }

  /** The record `name_from_exif` returns beside the new name. */
  datatype RenamingRecord = RenamingRecord(
    id: Option<int>, oldName: string, newName: string, date: Option<string>, time: Option<string>,
    camera: string, focal: Option<real>, gpsLat: Option<real>, gpsLon: Option<real>, gpsH: Option<real>,
    classification: Option<int>)

  /** `name_from_exif(fname, base_name, progressive_id)`, where `image` is the
      outcome of reading the image's EXIF. */
  function NameFromExif(fname: string, baseName: string, progressiveId: Option<int>, image: Result<Exif>)
    : (r: Result<(string, RenamingRecord)>)
    ensures r.Ok? <==> image.Ok? && image.value.dateTime.Some?
    ensures image.Raise? ==> r == Raise(image.error)
    ensures image.Ok? && image.value.dateTime.None? ==> r == Raise(RuntimeError)
    ensures r.Ok? ==>
      var rec := r.value.1;
      && r.value.0 == NewName(fname, baseName, progressiveId, image.value.dateTime.value, image.value.model)
      && rec.newName == r.value.0 && rec.id == progressiveId && rec.oldName == Name(fname)
      && rec.camera == CameraModel(image.value.model) && rec.focal == image.value.focal
      && rec.date == Date(image.value) && rec.time == Time(image.value)
      && rec.date.Some? && rec.time.Some? && rec.classification.None?
      && (image.value.gps.None? ==> rec.gpsLat.None? && rec.gpsLon.None? && rec.gpsH.None?)
      && (image.value.gps.Some? ==>
            var g := image.value.gps.value;
            rec.gpsLat == Some(g.0) && rec.gpsLon == Some(g.1) && rec.gpsH == Some(g.2))
  {
    var exif :- image;
    if exif.dateTime.None? then Raise(RuntimeError)
    else
      var camera := CameraModel(exif.model);
      var newName := NewName(fname, baseName, progressiveId, exif.dateTime.value, exif.model);
      var gps := exif.gps;
      Ok((newName, RenamingRecord(
        progressiveId, Name(fname), newName, Date(exif), Time(exif), camera, exif.focal,
        if gps.Some? then Some(gps.value.0) else None,
        if gps.Some? then Some(gps.value.1) else None,
        if gps.Some? then Some(gps.value.2) else None,
        None)))
  }

  /** The id written into a name reads back as the id, whatever its sign or size:
      zero-filling pads but never truncates. */
  lemma IdRoundTrip(i: int)
    ensures var s := IdString(Some(i));
      |s| >= 5 && s[0] == '_' && ParseInt(s[1..]) == Ok(i)
  {
    ParseFormatInt(i, 4);
    assert IdString(Some(i))[1..] == FormatInt(i, 4);
  }

  /** `n` is `b`, `id`, `_`, the 15 characters of `st`, `_`, then `rest`. */
  predicate Layout(n: string, b: string, id: string, st: string, rest: string)
  {
    var k := |b| + |id|;
    && |n| == k + 17 + |rest|
    && n[..|b|] == b
    && n[|b|..k] == id
    && n[k] == '_' && n[k + 1..k + 16] == st && n[k + 16] == '_'
    && n[k + 17..] == rest
  }

  /** A new name is the base name, the id part, `_`, the 15-character date-time
      stamp, `_`, the camera model and the original suffix. */
  lemma NameLayout(fname: string, baseName: string, progressiveId: Option<int>, dt: DateTime, model: Option<string>)
    requires ValidDateTime(dt)
    ensures Layout(NewName(fname, baseName, progressiveId, dt, model), baseName, IdString(progressiveId), Stamp(dt),
                   CameraModel(model) + Suffix(fname))
  {
    StampLength(dt);
    ConcatLayout(baseName, IdString(progressiveId), Stamp(dt), CameraModel(model), Suffix(fname));
  }

  lemma ConcatLayout(b: string, id: string, st: string, cam: string, suf: string)
    requires |st| == 15
    ensures Layout(b + id + "_" + st + "_" + cam + suf, b, id, st, cam + suf)
  {}

  /** The new name keeps the original suffix, so the renamed copy has the same
      file type, provided nothing written into the name holds a `/`. */
  lemma NameKeepsSuffix(fname: string, baseName: string, progressiveId: Option<int>, dt: DateTime, model: Option<string>)
    requires Suffix(fname) != ""
    requires SlashFree(baseName)
    requires model.Some? ==> SlashFree(model.value)
    ensures Suffix(NewName(fname, baseName, progressiveId, dt, model)) == Suffix(fname)
  {
    var x := Suffix(fname);
    StemSuffix(fname);
    var p := baseName + IdString(progressiveId) + "_" + Stamp(dt) + "_" + CameraModel(model);
    assert NewName(fname, baseName, progressiveId, dt, model) == p + x;
    NoSlash(baseName, progressiveId, dt, CameraModel(model), x, fname);
    SuffixOfConcat(p, x);
  }

  /** A slash-free name `p + x`, where `x` is a dot followed by at least one
      character and no further dot, has suffix `x`. */
  lemma SuffixOfConcat(p: string, x: string)
    requires |p| > 0 && |x| >= 2 && x[0] == '.' && NoneIn(x[1..], {'.'})
    requires SlashFree(p + x)
    ensures Suffix(p + x) == x
  {
    var n := p + x;
    NameWithoutSlash(n);
    assert n[|p|] == '.';
    assert forall j :: |p| < j < |n| ==> n[j] == x[1..][j - |p| - 1];
    LastIndexOfLast(n, '.');
    assert LastIndexOf(n, '.') == |p|;
    assert n[|p|..] == x;
  }

  predicate SlashFree(s: string)
  {
    forall j :: 0 <= j < |s| ==> s[j] != '/'
  }

  lemma SlashFreeConcat(a: string, b: string)
    requires SlashFree(a) && SlashFree(b)
    ensures SlashFree(a + b)
  {
    assert forall j :: |a| <= j < |a + b| ==> (a + b)[j] == b[j - |a|];
  }

  /** No character of a new name is `/` when neither the base name nor the model
      holds one. */
  lemma NoSlash(baseName: string, progressiveId: Option<int>, dt: DateTime, camera: string, x: string, fname: string)
    requires x == Suffix(fname)
    requires SlashFree(baseName) && SlashFree(camera)
    ensures SlashFree(baseName + IdString(progressiveId) + "_" + Stamp(dt) + "_" + camera + x)
  {
    StampSlashFree(dt);
    var id := IdString(progressiveId);
    if progressiveId.Some? {
      FormatNoSlash(progressiveId.value, 4);
      SlashFreeConcat("_", FormatInt(progressiveId.value, 4));
    }
    var nm := Name(fname);
    var i := SuffixDot(nm);
    NameSlashFree(fname);
    assert x == "" || x == nm[i..];
    assert SlashFree(x);
    SlashFreeConcat(baseName, id);
    SlashFreeConcat(baseName + id, "_");
    SlashFreeConcat(baseName + id + "_", Stamp(dt));
    SlashFreeConcat(baseName + id + "_" + Stamp(dt), "_");
    SlashFreeConcat(baseName + id + "_" + Stamp(dt) + "_", camera);
    SlashFreeConcat(baseName + id + "_" + Stamp(dt) + "_" + camera, x);
  }

  lemma StampSlashFree(dt: DateTime)
    ensures SlashFree(Stamp(dt))
  {
    var y, mo, d := FormatInt(dt.year, 4), FormatInt(dt.month, 2), FormatInt(dt.day, 2);
    var h, mi, se := FormatInt(dt.hour, 2), FormatInt(dt.minute, 2), FormatInt(dt.second, 2);
    FormatNoSlash(dt.year, 4);
    FormatNoSlash(dt.month, 2);
    FormatNoSlash(dt.day, 2);
    FormatNoSlash(dt.hour, 2);
    FormatNoSlash(dt.minute, 2);
    FormatNoSlash(dt.second, 2);
    SlashFreeConcat(y, mo);
    SlashFreeConcat(y + mo, d);
    SlashFreeConcat(y + mo + d, "_");
    SlashFreeConcat(y + mo + d + "_", h);
    SlashFreeConcat(y + mo + d + "_" + h, mi);
    SlashFreeConcat(y + mo + d + "_" + h + mi, se);
  }

  lemma FormatNoSlash(i: int, width: nat)
    ensures SlashFree(FormatInt(i, width))
  {
    var n := if i < 0 then -i else i;
    var w := if i < 0 then (if width > 0 then width - 1 else 0) else width;
    var z := ZeroPad(Digits(n), w);
    assert AllDigits(z) by {
      if |Digits(n)| < w {
        assert z == Zeros(w - |Digits(n)|) + Digits(n);
      }
    }
    assert forall j :: 0 <= j < |z| ==> IsDigit(z[j]);
    if i < 0 {
      SlashFreeConcat("-", z);
    }
  }

  // ---------------------------------------------------------------- copy_and_rename

  /** The options `rename` passes to `copy_and_rename`. */
  datatype Settings = Settings(destFolder: string, baseName: string, progressiveIds: bool, deleteOriginal: bool)

  /** `copy_and_rename`: create the destination folder, name the copy from EXIF,
      copy, and delete the original when asked; the record is returned. */
  function CopyAndRename(fname: string, destFolder: string, baseName: string, progressiveId: Option<int>,
                         deleteOriginal: bool, image: Result<Exif>): (seq<Action>, Result<RenamingRecord>)
  {
    var named := NameFromExif(fname, baseName, progressiveId, image);
    if named.Raise? then ([MakeDir(destFolder)], Raise(named.error))
    else (CopyOps(fname, destFolder, named.value.0, deleteOriginal), Ok(named.value.1))
  }

  /** The file operations of a successful `copy_and_rename`. */
  function CopyOps(fname: string, destFolder: string, newName: string, deleteOriginal: bool): seq<Action>
  {
    [MakeDir(destFolder), Copy(fname, PathJoin(destFolder, newName))] + (if deleteOriginal then [Unlink(fname)] else [])
  }

  /** File `i` renamed with id `i` when progressive ids are on, with none otherwise. */
  function RenameOne(file: string, i: nat, s: Settings, exifOf: string -> Result<Exif>): (seq<Action>, Result<RenamingRecord>)
  {
    CopyAndRename(file, s.destFolder, s.baseName, IdFor(s, i), s.deleteOriginal, exifOf(file))
  }

  function IdFor(s: Settings, i: nat): Option<int>
  {
    if s.progressiveIds then Some(i) else None
  }

  /** What renaming one file yields: the actions taken and its record, or an error. */
  type Outcome = (seq<Action>, Result<RenamingRecord>)

  /** The outcome of renaming each of the first `n` files, file `k` as the `k`-th. */
  function FileOutcomes(files: seq<string>, n: nat, s: Settings, exifOf: string -> Result<Exif>): (outs: seq<Outcome>)
    requires n <= |files|
    ensures |outs| == n
  {
    Indexed(files, n, (f: string, k: nat) => RenameOne(f, k, s, exifOf))
  }

  /** `one(files[k], k)` for each of the first `n` files. */
  function Indexed(files: seq<string>, n: nat, one: (string, nat) -> Outcome): (outs: seq<Outcome>)
    requires n <= |files|
    ensures |outs| == n
  {
    if n == 0 then [] else Indexed(files, n - 1, one) + [one(files[n - 1], n - 1)]
  }

  lemma {:induction false} IndexedAt(files: seq<string>, n: nat, one: (string, nat) -> Outcome, k: nat)
    requires k < n <= |files|
    ensures Indexed(files, n, one)[k] == one(files[k], k)
  {
    if k < n - 1 {
      IndexedAt(files, n - 1, one, k);
    }
  }

  lemma FileOutcomesAt(files: seq<string>, n: nat, s: Settings, exifOf: string -> Result<Exif>, k: nat)
    requires k < n <= |files|
    ensures FileOutcomes(files, n, s, exifOf)[k] == RenameOne(files[k], k, s, exifOf)
  {
    IndexedAt(files, n, (f: string, k: nat) => RenameOne(f, k, s, exifOf), k);
  }

  /** The sequential loop of `rename` over the first `n` outcomes: the actions
      taken and the dictionary keyed by position, or the first error. */
  function Collect(outs: seq<Outcome>, n: nat): (seq<Action>, Result<map<int, RenamingRecord>>)
    requires n <= |outs|
  {
    if n == 0 then ([], Ok(map[]))
    else
      var prev := Collect(outs, n - 1);
      if prev.1.Raise? then prev
      else
        var out := outs[n - 1];
        if out.1.Raise? then (prev.0 + out.0, Raise(out.1.error))
        else (prev.0 + out.0, Ok(prev.1.value[n - 1 := out.1.value]))
  }

  /** `rename` over a whole list. */
  function Renamed(files: seq<string>, s: Settings, exifOf: string -> Result<Exif>)
    : (seq<Action>, Result<map<int, RenamingRecord>>)
  {
    Collect(FileOutcomes(files, |files|, s, exifOf), |files|)
  }

  /** A successful run keys the results 0..n-1 in order, entry `k` being the
      record of outcome `k`. */
  lemma {:induction false} CollectKeys(outs: seq<Outcome>, n: nat)
    requires n <= |outs|
    ensures var r := Collect(outs, n).1;
      r.Ok? ==>
        && (forall k :: k in r.value <==> 0 <= k < n)
        && (forall k :: 0 <= k < n ==> outs[k].1 == Ok(r.value[k]))
  {
    if n > 0 {
      CollectKeys(outs, n - 1);
    }
  }

  /** A failed run stops at the first outcome that raises, with its error, and
      carries the actions of every file up to and including it. */
  lemma {:induction false} CollectFails(outs: seq<Outcome>, n: nat)
    requires n <= |outs|
    ensures var r := Collect(outs, n).1;
      r.Raise? ==>
        exists k :: 0 <= k < n && outs[k].1 == Raise(r.error)
          && Collect(outs, n) == Collect(outs, k + 1)
          && forall j :: 0 <= j < k ==> outs[j].1.Ok?
  {
    if n > 0 {
      var prev := Collect(outs, n - 1);
      if prev.1.Raise? {
        CollectFails(outs, n - 1);
      } else {
        CollectKeys(outs, n - 1);
        assert forall j :: 0 <= j < n - 1 ==> outs[j].1.Ok?;
      }
    }
  }

  /** Once an outcome fails, the ones after it change nothing. */
  lemma {:induction false} CollectStops(outs: seq<Outcome>, m: nat, n: nat)
    requires m <= n <= |outs| && Collect(outs, m).1.Raise?
    ensures Collect(outs, n) == Collect(outs, m)
    decreases n - m
  {
    if n > m {
      CollectStops(outs, m, n - 1);
    }
  }

  /** With progressive ids, file `k` is named with id `k`; without, with none;
      its record names the original file. */
  lemma RenameIds(files: seq<string>, s: Settings, exifOf: string -> Result<Exif>, k: nat)
    requires Renamed(files, s, exifOf).1.Ok? && k < |files|
    ensures var dict := Renamed(files, s, exifOf).1.value;
      && k in dict
      && dict[k].id == (if s.progressiveIds then Some(k) else None)
      && dict[k].oldName == Name(files[k])
  {
    CollectKeys(FileOutcomes(files, |files|, s, exifOf), |files|);
    FileOutcomesAt(files, |files|, s, exifOf, k);
    CopyAndRenameRecord(files[k], s.destFolder, s.baseName, IdFor(s, k), s.deleteOriginal, exifOf(files[k]));
  }

  /** A successful copy returns the record `name_from_exif` built, after making
      the folder, copying the file under the record's new name and, when asked,
      unlinking the original; a failed naming leaves only the folder creation. */
  lemma CopyAndRenameRecord(fname: string, destFolder: string, baseName: string, progressiveId: Option<int>,
                            deleteOriginal: bool, image: Result<Exif>)
    ensures var out := CopyAndRename(fname, destFolder, baseName, progressiveId, deleteOriginal, image);
      var named := NameFromExif(fname, baseName, progressiveId, image);
      && (out.1.Ok? <==> named.Ok?)
      && (out.1.Ok? ==>
            && out.1.value == named.value.1
            && out.1.value.id == progressiveId && out.1.value.oldName == Name(fname)
            && out.0 == CopyOps(fname, destFolder, named.value.0, deleteOriginal)
            && out.0[1] == Copy(fname, PathJoin(destFolder, out.1.value.newName))
            && (deleteOriginal <==> |out.0| == 3))
      && (out.1.Raise? ==> out.0 == [MakeDir(destFolder)] && out.1 == Raise(named.error))
  {
    var named := NameFromExif(fname, baseName, progressiveId, image);
    if named.Ok? {
      var ops := CopyOps(fname, destFolder, named.value.0, deleteOriginal);
      assert ops[1] == Copy(fname, PathJoin(destFolder, named.value.1.newName));
      assert |ops| == if deleteOriginal then 3 else 2;
    }
  }

  // ---------------------------------------------------------------- ImageRenamer

  class ImageRenamer {
    const imageList: Images.ImageList
    const settings: Settings
    var parallel: bool

    /** `__init__`: progressive ids switch parallel renaming off. */
    constructor (imageList: Images.ImageList, destFolder: string, baseName: string, progressiveIds: bool,
                 deleteOriginal: bool, parallel: bool)
      ensures this.imageList == imageList
      ensures settings == Settings(destFolder, baseName, progressiveIds, deleteOriginal)
      ensures this.parallel == (parallel && !progressiveIds)
    {
      this.imageList := imageList;
      settings := Settings(destFolder, baseName, progressiveIds, deleteOriginal);
      this.parallel := parallel;
      if progressiveIds && parallel {
        this.parallel := false;
      }
    }

    /** `rename`: each file from the list's cursor on, in order, keyed by its
        position; the first failure propagates and leaves the cursor one past the
        failing file. */
    method Rename(exifOf: string -> Result<Exif>) returns (ops: seq<Action>, r: Result<map<int, RenamingRecord>>)
      requires imageList.Valid()
      modifies imageList
      ensures imageList.Valid() && imageList.files == old(imageList.files)
      ensures var files := old(imageList.files[imageList.currentIdx..]);
        (ops, r) == Renamed(files, settings, exifOf)
      ensures r.Ok? ==> imageList.currentIdx == 0
      ensures r.Raise? ==>
        var outs := FileOutcomes(old(imageList.files[imageList.currentIdx..]), |old(imageList.files[imageList.currentIdx..])|, settings, exifOf);
        var k := imageList.currentIdx - old(imageList.currentIdx) - 1;
        0 <= k < |outs| && outs[k].1 == Raise(r.error) && forall j :: 0 <= j < k ==> outs[j].1.Ok?
    {
      ghost var start := imageList.currentIdx;
      ghost var files := imageList.files[start..];
      ghost var outs := FileOutcomes(files, |files|, settings, exifOf);
      var dict: map<int, RenamingRecord> := map[];
      ops := [];
      var i: nat := 0;
      while true
        invariant imageList.Valid() && imageList.files == old(imageList.files)
        invariant files == imageList.files[start..] && imageList.currentIdx == start + i
        invariant i <= |files| && (ops, Ok(dict)) == Collect(outs, i)
        decreases |imageList.files| - imageList.currentIdx
      {
        var f := imageList.Next();
        if f.None? {
          assert i == |files|;
          return ops, Ok(dict);
        }
        assert f.value == files[i];
        var step := RenameAt(f.value, files, i, settings, exifOf);
        ops := ops + step.0;
        if step.1.Raise? {
          CollectKeys(outs, i);
          CollectStops(outs, i + 1, |files|);
          return ops, Raise(step.1.error);
        }
        dict := dict[i := step.1.value];
        i := i + 1;
      }
    }
  }

  /** The body of the `rename` loop for file `i`: `copy_and_rename` with id `i`
      when progressive ids are on, with none otherwise. */
  method RenameAt(f: string, ghost files: seq<string>, i: nat, settings: Settings, exifOf: string -> Result<Exif>)
    returns (step: Outcome)
    requires i < |files| && f == files[i]
    ensures step == FileOutcomes(files, |files|, settings, exifOf)[i]
  {
    if settings.progressiveIds {
      step := CopyAndRename(f, settings.destFolder, settings.baseName, Some(i), settings.deleteOriginal, exifOf(f));
    } else {
      step := CopyAndRename(f, settings.destFolder, settings.baseName, None, settings.deleteOriginal, exifOf(f));
    }
    FileOutcomesAt(files, |files|, settings, exifOf, i);
  }

  // ---------------------------------------------------------------- overlay_text

  /** A BGR colour. */
  datatype Color = Color(b: int, g: int, r: int)

  const White := Color(255, 255, 255)
  const Black := Color(0, 0, 0)

  /** The font colour: black on a white background, white on a black one, the
      requested colour otherwise (and without a background). */
  function FontColor(background: Option<Color>, fontColor: Color): (c: Color)
    ensures background == Some(White) ==> c == Black
    ensures background == Some(Black) ==> c == White
    ensures background != Some(White) && background != Some(Black) ==> c == fontColor
  {
    match background
      case None => fontColor
      case Some(bg) => if bg == White then Black else if bg == Black then White else fontColor
  }

  function Max(a: int, b: int): int { if a >= b then a else b }
  function Min(a: int, b: int): int { if a <= b then a else b }

  /** The background rectangle: the text box at (`border`, `border`) grown by
      `buffer` on every side, then clamped below at 0 and above at (w, h). */
  function Rect(w: int, h: int, textW: int, textH: int, border: int, buffer: int): ((int, int), (int, int))
  {
    ((Max(border - buffer, 0), Max(border - buffer, 0)),
     (Min(border + textW + buffer, w), Min(border + textH + buffer, h)))
  }

  /** The clamp: the corners never leave the image on the low side nor pass
      (w, h) on the high side. */
  lemma RectClamped(w: int, h: int, textW: int, textH: int, border: int, buffer: int)
    ensures var (p0, p1) := Rect(w, h, textW, textH, border, buffer);
      p0.0 >= 0 && p0.1 >= 0 && p1.0 <= w && p1.1 <= h
  {}

  /** When the text box lies inside the image and the buffer is not negative, the
      rectangle covers the text box. */
  lemma RectCoversText(w: int, h: int, textW: int, textH: int, border: int, buffer: int)
    requires buffer >= 0 && border >= 0 && border + textW <= w && border + textH <= h
    ensures var (p0, p1) := Rect(w, h, textW, textH, border, buffer);
      p0.0 <= border && p0.1 <= border && p1.0 >= border + textW && p1.1 >= border + textH
  {}

  /** The colour and rectangle steps of `overlay_text`, for an image of width
      `w` and height `h` and a text of size (`textW`, `textH`); no rectangle is
      drawn without a background colour. */
  method OverlayText(w: int, h: int, textW: int, textH: int, fontColor: Color, border: int,
                     background: Option<Color>, buffer: int)
    returns (color: Color, rect: Option<((int, int), (int, int))>)
    ensures color == FontColor(background, fontColor)
    ensures rect == if background.None? then None else Some(Rect(w, h, textW, textH, border, buffer))
  {
    var corner := (border, textH + border);
    color := fontColor;
    rect := None;
    if background.Some? {
      if background.value == White {
        color := Black;
      } else if background.value == Black {
        color := White;
      }
      var x0, y0 := corner.0, corner.1;
      y0 := y0 - textH;
      var x1, y1 := x0 + textW, y0 + textH;
      x0, y0 := x0 - buffer, y0 - buffer;
      if x0 < 0 { x0 := 0; }
      if y0 < 0 { y0 := 0; }
      x1, y1 := x1 + buffer, y1 + buffer;
      if x1 > w { x1 := w; }
      if y1 > h { y1 := h; }
      rect := Some(((x0, y0), (x1, y1)));
    }
  }
}
