/** main.py: the command-line renamer. It lists the images with its own copy of
    `read_image_list` (the same code as images.py's, modelled once in
    `Images`), then renames them one by one with its own `rename_image`. */
module MainScript {
  import opened Outcomes
  import opened Paths
  import opened ExifData
  import opened Actions
  import Images
  import Rename

  /** The options `parse_command_line` collects. */
  datatype Options = Options(
    dataDir: string, imageExt: Images.ExtArg, destFolder: string, recursive: bool, baseName: string,
    deleteOriginal: bool, caseSensitive: bool, parallel: bool)

  /** main.py's `rename_image`. The `try` around `img.exif` can never raise, as
      the property only returns a field, so reading the image fails only as the
      `Image` constructor does, and that error propagates unchanged. */
  function RenameImage(fname: string, destFolder: string, baseName: string, deleteOriginal: bool, image: Result<Exif>)
    : (out: (seq<Action>, Result<bool>))
    ensures image.Raise? ==> out == ([MakeDir(destFolder)], Raise(image.error))
    ensures image.Ok? && image.value.dateTime.None? ==> out == ([MakeDir(destFolder)], Raise(RuntimeError))
  {
    match image
      case Raise(e) => ([MakeDir(destFolder)], Raise(e))
      case Ok(exif) =>
        if exif.dateTime.None? then ([MakeDir(destFolder)], Raise(RuntimeError))
        else
          var camera := CameraModel(exif.model);
          var newName := baseName + "_" + Stamp(exif.dateTime.value) + "_" + camera + Suffix(fname);
          ([MakeDir(destFolder), Copy(fname, PathJoin(destFolder, newName))]
             + (if deleteOriginal then [Unlink(fname)] else []),
           Ok(true))
  }

  /** main.py's `rename_image` does exactly what rename.py's does. */
  lemma RenameImageAgrees(fname: string, destFolder: string, baseName: string, deleteOriginal: bool, image: Result<Exif>)
    ensures RenameImage(fname, destFolder, baseName, deleteOriginal, image)
         == Rename.RenameImage(fname, destFolder, baseName, deleteOriginal, image)
  {
    if image.Ok? && image.value.dateTime.Some? {
      var e := image.value;
      assert Rename.NameFromExif(fname, baseName, image)
          == Ok(baseName + "_" + Stamp(e.dateTime.value) + "_" + CameraModel(e.model) + Suffix(fname));
    }
  }

  /** `rename_image` either raises or returns True, so the `if not rename_image(...)`
      check of `main` never raises. */
  lemma RenameImageTrue(fname: string, destFolder: string, baseName: string, deleteOriginal: bool, image: Result<Exif>)
    ensures var r := RenameImage(fname, destFolder, baseName, deleteOriginal, image).1;
      r == Ok(true) || (r.Raise? && (image.Raise? || r.error == RuntimeError))
  {
  }

  /** The outcome of `rename_image` on each file, in list order. */
  function RenameSteps(files: seq<string>, dest: string, base: string, del: bool, exifOf: string -> Result<Exif>)
    : (steps: seq<Step>)
    ensures |steps| == |files|
  {
    MapSteps(files, f => RenameImage(f, dest, base, del, exifOf(f)))
  }

  lemma RenameStepsAt(files: seq<string>, dest: string, base: string, del: bool,
                      exifOf: string -> Result<Exif>, k: nat)
    requires k < |files|
    ensures RenameSteps(files, dest, base, del, exifOf)[k] == RenameImage(files[k], dest, base, del, exifOf(files[k]))
  {
    MapStepsAt(files, f => RenameImage(f, dest, base, del, exifOf(f)), k);
  }

  /** `main(opt)`: what it does and returns, where `dirs` are the existing
      directories, `glob` lists the matches of a pattern and `exifOf` reads a
      file's EXIF. */
  function MainSpec(opt: Options, dirs: set<string>, glob: (string, string) -> seq<string>,
                    exifOf: string -> Result<Exif>): (seq<Action>, Result<bool>)
  {
    var files := Images.ReadImageListSpec(opt.dataDir, dirs, opt.imageExt, opt.recursive, false, glob);
    if files.Raise? then ([], Raise(files.error))
    else Sequenced(RenameSteps(files.value, opt.destFolder, opt.baseName, opt.deleteOriginal, exifOf))
  }

  /** `main`. The parallel branch is run as the sequential one. */
  method RunMain(opt: Options, dirs: set<string>, glob: (string, string) -> seq<string>, exifOf: string -> Result<Exif>)
    returns (ops: seq<Action>, r: Result<bool>)
    ensures (ops, r) == MainSpec(opt, dirs, glob, exifOf)
  {
    var found := Images.ReadImageList(opt.dataDir, dirs, opt.imageExt, opt.recursive, false, glob);
    if found.Raise? {
      return [], Raise(found.error);
    }
    ops, r := RenameFiles(found.value, opt.destFolder, opt.baseName, opt.deleteOriginal, exifOf);
  }

  /** The `for file in files` loop of `main`. The `if not rename_image(...)`
      test is left out, as `rename_image` never returns False. */
  method RenameFiles(files: seq<string>, dest: string, base: string, del: bool, exifOf: string -> Result<Exif>)
    returns (ops: seq<Action>, r: Result<bool>)
    ensures (ops, r) == Sequenced(RenameSteps(files, dest, base, del, exifOf))
  {
    ghost var steps := RenameSteps(files, dest, base, del, exifOf);
    ghost var all := Sequenced(steps);
    ops := [];
    assert steps[0..] == steps && [] + all.0 == all.0;
    for k := 0 to |files|
      invariant all == (ops + Sequenced(steps[k..]).0, Sequenced(steps[k..]).1)
    {
      var out := RenameFile(files, k, dest, base, del, exifOf);
      assert steps[k..][0] == out && steps[k..][1..] == steps[k + 1..];
      ghost var done := ops;
      ops := ops + out.0;
      if out.1.Raise? {
        return ops, Raise(out.1.error);
      }
      ghost var rest := Sequenced(steps[k + 1..]);
      assert Sequenced(steps[k..]) == (out.0 + rest.0, rest.1);
      assert done + (out.0 + rest.0) == ops + rest.0;
    }
    assert steps[|files|..] == [];
    assert ops + [] == ops;
    return ops, Ok(true);
  }

  /** `rename_image` on file `k`, the body of that loop. */
  method RenameFile(files: seq<string>, k: nat, dest: string, base: string, del: bool, exifOf: string -> Result<Exif>)
    returns (out: Step)
    requires k < |files|
    ensures out == RenameSteps(files, dest, base, del, exifOf)[k]
    ensures out.1.Ok? ==> out.1.value
  {
    out := RenameImage(files[k], dest, base, del, exifOf(files[k]));
    RenameStepsAt(files, dest, base, del, exifOf, k);
    RenameImageTrue(files[k], dest, base, del, exifOf(files[k]));
  }

  /** `main` lists the images case-insensitively whatever `case_sensitive` says,
      because it never passes the option on. */
  lemma MainIgnoresCaseSensitive(opt: Options, dirs: set<string>, glob: (string, string) -> seq<string>,
                                 exifOf: string -> Result<Exif>, caseSensitive: bool)
    ensures MainSpec(opt, dirs, glob, exifOf) == MainSpec(opt.(caseSensitive := caseSensitive), dirs, glob, exifOf)
  {
    var other := opt.(caseSensitive := caseSensitive);
    assert other.dataDir == opt.dataDir && other.imageExt == opt.imageExt && other.recursive == opt.recursive;
    assert other.destFolder == opt.destFolder && other.baseName == opt.baseName;
    assert other.deleteOriginal == opt.deleteOriginal;
  }

  /** A run over a listed `files` succeeds exactly when every file has a
      readable capture date-time; its actions are then those of `rename_image`
      on each file (the folder, the copy and the optional unlink), in list order. */
  lemma RenameFilesOk(files: seq<string>, dest: string, base: string, del: bool, exifOf: string -> Result<Exif>)
    ensures var out := Sequenced(RenameSteps(files, dest, base, del, exifOf));
      && (out.1.Ok? <==> forall k :: 0 <= k < |files| ==> exifOf(files[k]).Ok? && exifOf(files[k]).value.dateTime.Some?)
      && (out.1.Ok? ==> out.1.value && out.0 == AllActions(RenameSteps(files, dest, base, del, exifOf)))
  {
    var steps := RenameSteps(files, dest, base, del, exifOf);
    SequencedOk(steps);
    forall k | 0 <= k < |files|
      ensures steps[k].1 == Ok(true) <==> exifOf(files[k]).Ok? && exifOf(files[k]).value.dateTime.Some?
    {
      RenameStepsAt(files, dest, base, del, exifOf, k);
    }
  }
}
