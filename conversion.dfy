/** conversion.py: the RawTherapee command line `convert_raw` builds and runs,
    `rebuild_dir_tree`, which mirrors the input folders under the output
    folder, and the failure policy of `RawConverter.convert`. */
module Conversion {
  import opened Outcomes
  import opened Paths
  import opened Actions
  import Images

  /** What the conversion consults outside the program. */
  datatype Env = Env(
    existing: set<string>,            // the paths for which `Path.exists()` holds
    rawtherapee: Result<string>,      // what `find_rawtherapee()` returns or raises
    exitCode: seq<string> -> int,     // the exit code of running an argument vector
    system: string,                   // `platform.system()`
    resolve: string -> seq<string>)   // `Path.resolve()`, as its list of path components

  // ---------------------------------------------------------------- convert_raw

  /** The argument vector: executable, `-o` and the output folder, `-p` and the
      profile when one is given, the extra options, then `-c` and the file. */
  function Command(exe: string, output: string, profile: Option<string>, opts: seq<string>, fname: string)
    : seq<string>
  {
    [exe, "-o", output] + (if profile.Some? then ["-p", profile.value] else []) + opts + ["-c", fname]
  }

  /** Where each part sits in the vector. */
  lemma CommandLayout(exe: string, output: string, profile: Option<string>, opts: seq<string>, fname: string)
    ensures var cmd := Command(exe, output, profile, opts, fname);
      var p := if profile.Some? then 2 else 0;
      && |cmd| == 5 + p + |opts|
      && cmd[0] == exe && cmd[1] == "-o" && cmd[2] == output
      && (profile.Some? ==> cmd[3] == "-p" && cmd[4] == profile.value)
      && cmd[3 + p..3 + p + |opts|] == opts
      && cmd[|cmd| - 2] == "-c" && cmd[|cmd| - 1] == fname
  {
    var p := if profile.Some? then 2 else 0;
    var head := [exe, "-o", output] + (if profile.Some? then ["-p", profile.value] else []);
    var cmd := Command(exe, output, profile, opts, fname);
    assert cmd == head + opts + ["-c", fname];
    assert |head| == 3 + p;
    assert cmd[3 + p..3 + p + |opts|] == (head + opts + ["-c", fname])[|head|..|head| + |opts|];
  }

  /** The executable `convert_raw` runs: the one `find_rawtherapee()` finds
      when no path is given, otherwise the given path, which must exist. */
  function Executable(rawtherapeePath: Option<string>, env: Env): (r: Result<string>)
    ensures rawtherapeePath.None? ==> r == env.rawtherapee
    ensures rawtherapeePath.Some? ==>
      r == if rawtherapeePath.value in env.existing then Ok(rawtherapeePath.value) else Raise(AssertionError)
  {
    if rawtherapeePath.None? then env.rawtherapee
    else if rawtherapeePath.value in env.existing then Ok(rawtherapeePath.value)
    else Raise(AssertionError)
  }

  /** `convert_raw(fname, output_path, profile_path, rawtherapee_path, opts)`:
      the actions it takes and whether RawTherapee exited with 0. */
  function ConvertRawSpec(fname: string, output: string, profile: Option<string>, rawtherapeePath: Option<string>,
                          opts: seq<string>, env: Env): Step
  {
    var exe := Executable(rawtherapeePath, env);
    if exe.Raise? then ([], Raise(exe.error))
    else if profile.Some? && profile.value !in env.existing then ([MakeDir(output)], Raise(AssertionError))
    else
      var cmd := Command(exe.value, output, profile, opts, fname);
      ([MakeDir(output), Execute(cmd)], Ok(env.exitCode(cmd) == 0))
  }

  /** `convert_raw`: the vector is built by successive appends. */
  method ConvertRaw(fname: string, output: string, profile: Option<string>, rawtherapeePath: Option<string>,
                    opts: seq<string>, env: Env) returns (out: Step)
    ensures out == ConvertRawSpec(fname, output, profile, rawtherapeePath, opts, env)
  {
    var exe: string;
    if rawtherapeePath.None? {
      if env.rawtherapee.Raise? {
        return ([], Raise(env.rawtherapee.error));
      }
      exe := env.rawtherapee.value;
    } else {
      if rawtherapeePath.value !in env.existing {
        return ([], Raise(AssertionError));
      }
      exe := rawtherapeePath.value;
    }
    var ops := [MakeDir(output)];
    var cmd := [exe, "-o", output];
    if profile.Some? {
      if profile.value !in env.existing {
        return (ops, Raise(AssertionError));
      }
      cmd := cmd + ["-p"];
      cmd := cmd + [profile.value];
    }
    ghost var head := cmd;
    for k := 0 to |opts|
      invariant cmd == head + opts[..k]
    {
      cmd := cmd + [opts[k]];
      assert opts[..k + 1] == opts[..k] + [opts[k]];
    }
    assert opts[..|opts|] == opts;
    cmd := cmd + ["-c"];
    cmd := cmd + [fname];
    assert cmd == Command(exe, output, profile, opts, fname);
    assert ops + [Execute(cmd)] == [MakeDir(output), Execute(cmd)];
    return (ops + [Execute(cmd)], Ok(env.exitCode(cmd) == 0));
  }

  /** The result is True exactly when the executable and the profile are
      found and RawTherapee exits with 0; it then has created the output
      folder and run the command. */
  lemma ConvertRawTrue(fname: string, output: string, profile: Option<string>, rawtherapeePath: Option<string>,
                       opts: seq<string>, env: Env)
    ensures var out := ConvertRawSpec(fname, output, profile, rawtherapeePath, opts, env);
      var exe := Executable(rawtherapeePath, env);
      && (out.1 == Ok(true) <==>
            && exe.Ok?
            && (profile.Some? ==> profile.value in env.existing)
            && env.exitCode(Command(exe.value, output, profile, opts, fname)) == 0)
      && (out.1.Ok? ==> exe.Ok? && out.0 == [MakeDir(output), Execute(Command(exe.value, output, profile, opts, fname))])
      && (exe.Raise? ==> out == ([], Raise(exe.error)))
  {
  }

  // ---------------------------------------------------------------- rebuild_dir_tree

  /** `p` starts with `q`, component by component. */
  predicate IsPrefix(q: seq<string>, p: seq<string>)
  {
    |q| <= |p| && p[..|q|] == q
  }

  /** The longest common leading part of two component lists. */
  function CommonPrefix(a: seq<string>, b: seq<string>): (c: seq<string>)
    ensures IsPrefix(c, a) && IsPrefix(c, b)
    ensures |c| < |a| && |c| < |b| ==> a[|c|] != b[|c|]
  {
    if |a| == 0 || |b| == 0 || a[0] != b[0] then []
    else
      var rest := CommonPrefix(a[1..], b[1..]);
      assert a == [a[0]] + a[1..] && b == [b[0]] + b[1..];
      [a[0]] + rest
  }

  /** Every common prefix of `a` and `b` is a prefix of their longest one. */
  lemma {:induction false} CommonPrefixLongest(a: seq<string>, b: seq<string>, q: seq<string>)
    requires IsPrefix(q, a) && IsPrefix(q, b)
    ensures IsPrefix(q, CommonPrefix(a, b))
  {
    var c := CommonPrefix(a, b);
    if |q| <= |c| {
      assert forall j :: 0 <= j < |q| ==> c[j] == a[j] == q[j];
    }
  }

  /** `os.path.commonpath` of non-empty component lists. */
  function CommonPath(ps: seq<seq<string>>): (c: seq<string>)
    requires |ps| > 0
    ensures forall i :: 0 <= i < |ps| ==> IsPrefix(c, ps[i])
  {
    if |ps| == 1 then ps[0]
    else
      var init := CommonPath(ps[..|ps| - 1]);
      var c := CommonPrefix(init, ps[|ps| - 1]);
      assert forall i :: 0 <= i < |ps| - 1 ==> ps[i] == ps[..|ps| - 1][i];
      c
  }

  /** Every path the inputs share as a prefix is a prefix of their common path:
      the common path is the longest one. */
  lemma {:induction false} CommonPathLongest(ps: seq<seq<string>>, q: seq<string>)
    requires |ps| > 0
    requires forall i :: 0 <= i < |ps| ==> IsPrefix(q, ps[i])
    ensures IsPrefix(q, CommonPath(ps))
  {
    if |ps| > 1 {
      var init := ps[..|ps| - 1];
      assert forall i :: 0 <= i < |init| ==> init[i] == ps[i];
      CommonPathLongest(init, q);
      CommonPrefixLongest(CommonPath(init), ps[|ps| - 1], q);
    }
  }

  /** `Path.parent` of a relative path; the parent of `.` is `.`. */
  function Parent(p: seq<string>): seq<string>
  {
    if |p| == 0 then [] else p[..|p| - 1]
  }

  /** `dir` joined with each component of `parts` in turn. */
  function Under(dir: string, parts: seq<string>): string
    decreases |parts|
  {
    if |parts| == 0 then dir else Under(PathJoin(dir, parts[0]), parts[1..])
  }

  /** The resolved paths of the files. */
  function Resolved(files: seq<string>, env: Env): (ps: seq<seq<string>>)
    ensures |ps| == |files| && forall i :: 0 <= i < |files| ==> ps[i] == env.resolve(files[i])
  {
    seq(|files|, i requires 0 <= i < |files| => env.resolve(files[i]))
  }

  predicate KnownSystem(system: string)
  {
    system == "Linux" || system == "Darwin" || system == "Windows"
  }

  /** The drive (or root) of a resolved path: its first component. */
  function Drive(p: seq<string>): string
  {
    if |p| == 0 then "" else p[0]
  }

  /** Every resolved path is on the drive of the first one. */
  predicate SameDrive(ps: seq<seq<string>>)
  {
    forall i :: 0 <= i < |ps| ==> Drive(ps[i]) == Drive(ps[0])
  }

  /** `rebuild_dir_tree(file_list, dest_dir)`: for each file, `dest_dir` joined
      with the parent of its path relative to the common path of all files. On
      another system `paths` is never bound, an empty list has no common path,
      and on Windows `os.path.commonpath` refuses paths on different drives. */
  function RebuildDirTree(files: seq<string>, destDir: string, env: Env): (r: Result<seq<string>>)
    ensures r.Raise? <==>
      !KnownSystem(env.system) || |files| == 0 || (env.system == "Windows" && !SameDrive(Resolved(files, env)))
    ensures !KnownSystem(env.system) ==> r == Raise(UnboundLocalError)
    ensures KnownSystem(env.system) && r.Raise? ==> r == Raise(ValueError)
    ensures r.Ok? ==> |r.value| == |files|
  {
    if !KnownSystem(env.system) then Raise(UnboundLocalError)
    else if |files| == 0 then Raise(ValueError)
    else
      var paths := Resolved(files, env);
      if env.system == "Windows" && !SameDrive(paths) then Raise(ValueError)
      else
        var root := CommonPath(paths);
        Ok(seq(|files|, i requires 0 <= i < |files| => Under(destDir, Parent(paths[i][|root|..]))))
  }

  /** On Windows two files on different drives make `rebuild_dir_tree` raise
      ValueError; elsewhere the same two files get destinations. */
  lemma RebuildDirTreeDrives(a: string, b: string, destDir: string, env: Env)
    requires KnownSystem(env.system) && Drive(env.resolve(a)) != Drive(env.resolve(b))
    ensures env.system == "Windows" <==> RebuildDirTree([a, b], destDir, env) == Raise(ValueError)
  {
  }

  /** Each destination mirrors its file's folder below the common path: the
      common path is a prefix of every resolved path (so `relative_to` never
      fails) and is the longest such prefix. */
  lemma RebuildDirTreeMirrors(files: seq<string>, destDir: string, env: Env, i: nat)
    requires RebuildDirTree(files, destDir, env).Ok? && i < |files|
    ensures var ps := Resolved(files, env);
      var root := CommonPath(ps);
      && IsPrefix(root, env.resolve(files[i]))
      && (forall q :: (forall j :: 0 <= j < |files| ==> IsPrefix(q, ps[j])) ==> IsPrefix(q, root))
      && RebuildDirTree(files, destDir, env).value[i] == Under(destDir, Parent(env.resolve(files[i])[|root|..]))
  {
    var ps := Resolved(files, env);
    forall q | forall j :: 0 <= j < |files| ==> IsPrefix(q, ps[j])
      ensures IsPrefix(q, CommonPath(ps))
    {
      CommonPathLongest(ps, q);
    }
  }

  /** When every file sits directly in one folder (or there is a single file),
      every destination is `dest_dir` itself. */
  lemma RebuildDirTreeSameFolder(files: seq<string>, destDir: string, env: Env, folder: seq<string>)
    requires RebuildDirTree(files, destDir, env).Ok?
    requires forall i :: 0 <= i < |files| ==> |env.resolve(files[i])| == |folder| + 1 && IsPrefix(folder, env.resolve(files[i]))
    ensures forall i :: 0 <= i < |files| ==> RebuildDirTree(files, destDir, env).value[i] == destDir
  {
    var ps := Resolved(files, env);
    CommonPathLongest(ps, folder);
    var root := CommonPath(ps);
    forall i | 0 <= i < |files|
      ensures RebuildDirTree(files, destDir, env).value[i] == destDir
    {
      assert |ps[i][|root|..]| <= 1;
    }
  }

  lemma RebuildDirTreeSingle(file: string, destDir: string, env: Env)
    requires KnownSystem(env.system)
    ensures RebuildDirTree([file], destDir, env) == Ok([destDir])
  {
    var ps := Resolved([file], env);
    assert CommonPath(ps) == ps[0];
    assert ps[0][|ps[0]|..] == [];
    var r := RebuildDirTree([file], destDir, env).value;
    assert r[0] == Under(destDir, Parent(ps[0][|ps[0]|..])) == destDir;
    assert r == [destDir];
  }

  // ---------------------------------------------------------------- RawConverter

  /** The outcome of `convert_raw` on each file, into `output`, in list order. */
  function FlatSteps(files: seq<string>, output: string, profile: Option<string>, opts: seq<string>, env: Env)
    : (steps: seq<Step>)
    ensures |steps| == |files|
  {
    if |files| == 0 then []
    else FlatSteps(files[..|files| - 1], output, profile, opts, env)
           + [ConvertRawSpec(files[|files| - 1], output, profile, None, opts, env)]
  }

  lemma {:induction false} FlatStepsAt(files: seq<string>, output: string, profile: Option<string>, opts: seq<string>,
                                       env: Env, k: nat)
    requires k < |files|
    ensures FlatSteps(files, output, profile, opts, env)[k] == ConvertRawSpec(files[k], output, profile, None, opts, env)
  {
    var init := files[..|files| - 1];
    if k < |init| {
      FlatStepsAt(init, output, profile, opts, env, k);
    }
  }

  /** One step of the `keep_dir_tree` loop: create the file's destination, then
      convert into it. */
  function TreeStep(file: string, dest: string, profile: Option<string>, opts: seq<string>, env: Env): Step
  {
    var out := ConvertRawSpec(file, dest, profile, None, opts, env);
    ([MakeDir(dest)] + out.0, out.1)
  }

  /** The `keep_dir_tree` steps over the pairs of `zip(files, dests)`. */
  function TreeSteps(files: seq<string>, dests: seq<string>, profile: Option<string>, opts: seq<string>, env: Env)
    : (steps: seq<Step>)
    requires |files| == |dests|
    ensures |steps| == |files|
  {
    if |files| == 0 then []
    else TreeSteps(files[..|files| - 1], dests[..|dests| - 1], profile, opts, env)
           + [TreeStep(files[|files| - 1], dests[|dests| - 1], profile, opts, env)]
  }

  lemma {:induction false} TreeStepsAt(files: seq<string>, dests: seq<string>, profile: Option<string>,
                                       opts: seq<string>, env: Env, k: nat)
    requires |files| == |dests| && k < |files|
    ensures TreeSteps(files, dests, profile, opts, env)[k] == TreeStep(files[k], dests[k], profile, opts, env)
  {
    if k < |files| - 1 {
      TreeStepsAt(files[..|files| - 1], dests[..|dests| - 1], profile, opts, env, k);
    }
  }

  /** `convert` with `keep_dir_tree`: `rebuild_dir_tree` reads the files from
      the list's cursor on, which leaves the cursor at 0, so the `zip` then
      pairs the destinations with the files from the first one on. */
  function TreeSpec(files: seq<string>, cursor: nat, output: string, profile: Option<string>, opts: seq<string>,
                    env: Env): (seq<Action>, Result<bool>)
    requires cursor <= |files|
  {
    match RebuildDirTree(files[cursor..], output, env)
      case Raise(e) => ([], Raise(e))
      case Ok(dests) => Sequenced(TreeSteps(files[..|dests|], dests, profile, opts, env))
  }

  class RawConverter {
    const outputDir: string
    const pp3Path: Option<string>
    const opts: seq<string>
    const keepDirTree: bool
    var imageList: Images.ImageList?

    /** `__init__`. Creating the output folder when it is missing is not modelled. */
    constructor (outputDir: string, pp3Path: Option<string>, opts: seq<string>, keepDirTree: bool,
                 imageList: Images.ImageList?)
      ensures this.outputDir == outputDir && this.pp3Path == pp3Path && this.opts == opts
      ensures this.keepDirTree == keepDirTree && this.imageList == imageList
    {
      this.outputDir := outputDir;
      this.pp3Path := pp3Path;
      this.opts := opts;
      this.keepDirTree := keepDirTree;
      this.imageList := imageList;
    }

    /** `convert(image_list)`: the files in order, each into the output folder
        (or its mirrored subfolder); the first exception or False stops the run. */
    method Convert(list: Images.ImageList, env: Env) returns (ops: seq<Action>, r: Result<bool>)
      requires list.Valid()
      modifies this, list
      ensures imageList == list
      ensures list.Valid() && list.files == old(list.files)
      ensures !keepDirTree ==>
        (ops, r) == Sequenced(FlatSteps(old(list.files[list.currentIdx..]), outputDir, pp3Path, opts, env))
      ensures keepDirTree ==>
        (ops, r) == TreeSpec(old(list.files), old(list.currentIdx), outputDir, pp3Path, opts, env)
      ensures !keepDirTree && r.Ok? ==> list.currentIdx == 0
      ensures !keepDirTree && r.Raise? ==>
        var steps := FlatSteps(old(list.files[list.currentIdx..]), outputDir, pp3Path, opts, env);
        var k := list.currentIdx - old(list.currentIdx) - 1;
        0 <= k < |steps| && (forall j :: 0 <= j < k ==> steps[j].1 == Ok(true)) && steps[k].1 != Ok(true)
      ensures keepDirTree && !KnownSystem(env.system) ==> list.currentIdx == old(list.currentIdx)
      ensures keepDirTree && KnownSystem(env.system) && RebuildDirTree(old(list.files[list.currentIdx..]), outputDir, env).Raise? ==>
        list.currentIdx == 0
      ensures keepDirTree && KnownSystem(env.system) && r.Ok? ==>
        list.currentIdx == if old(list.currentIdx) == 0 then 0 else |list.files| - old(list.currentIdx) + 1
      ensures keepDirTree && RebuildDirTree(old(list.files[list.currentIdx..]), outputDir, env).Ok? && r.Raise? ==>
        var dests := RebuildDirTree(old(list.files[list.currentIdx..]), outputDir, env).value;
        var steps := TreeSteps(list.files[..|dests|], dests, pp3Path, opts, env);
        var k := list.currentIdx - 1;
        0 <= k < |steps| && (forall j :: 0 <= j < k ==> steps[j].1 == Ok(true)) && steps[k].1 != Ok(true)
    {
      if !keepDirTree {
        ops, r := ConvertFlat(list, env);
      } else {
        ops, r := ConvertTree(list, env);
      }
      imageList := list;
    }

    /** The loop of `convert` without `keep_dir_tree`. */
    method ConvertFlat(list: Images.ImageList, env: Env) returns (ops: seq<Action>, r: Result<bool>)
      requires list.Valid()
      modifies list
      ensures list.Valid() && list.files == old(list.files)
      ensures (ops, r) == Sequenced(FlatSteps(old(list.files[list.currentIdx..]), outputDir, pp3Path, opts, env))
      ensures r.Ok? ==> list.currentIdx == 0
      ensures r.Raise? ==>
        var steps := FlatSteps(old(list.files[list.currentIdx..]), outputDir, pp3Path, opts, env);
        var k := list.currentIdx - old(list.currentIdx) - 1;
        0 <= k < |steps| && (forall j :: 0 <= j < k ==> steps[j].1 == Ok(true)) && steps[k].1 != Ok(true)
    {
      var start := list.currentIdx;
      var files := list.files[start..];
      ghost var steps := FlatSteps(files, outputDir, pp3Path, opts, env);
      ghost var all := Sequenced(steps);
      ops := [];
      var k: nat := 0;
      assert steps[0..] == steps && [] + all.0 == all.0;
      while true
        invariant list.Valid() && list.files == old(list.files)
        invariant files == list.files[start..] && list.currentIdx == start + k && k <= |files|
        invariant all == (ops + Sequenced(steps[k..]).0, Sequenced(steps[k..]).1)
        invariant forall j :: 0 <= j < k ==> steps[j].1 == Ok(true)
        decreases |list.files| - list.currentIdx
      {
        var f := list.Next();
        if f.None? {
          assert steps[k..] == [];
          assert ops + [] == ops;
          return ops, Ok(true);
        }
        assert f.value == files[k];
        var out := ConvertFile(files, k, env);
        assert steps[k..][0] == out && steps[k..][1..] == steps[k + 1..];
        ghost var done := ops;
        ops := ops + out.0;
        if out.1.Raise? {
          return ops, Raise(out.1.error);
        }
        if !out.1.value {
          return ops, Raise(RuntimeError);
        }
        ghost var rest := Sequenced(steps[k + 1..]);
        assert Sequenced(steps[k..]) == (out.0 + rest.0, rest.1);
        assert done + (out.0 + rest.0) == ops + rest.0;
        k := k + 1;
      }
    }

    /** `convert_raw` on file `k`, into the output folder. */
    method ConvertFile(files: seq<string>, k: nat, env: Env) returns (out: Step)
      requires k < |files|
      ensures out == FlatSteps(files, outputDir, pp3Path, opts, env)[k]
    {
      out := ConvertRaw(files[k], outputDir, pp3Path, None, opts, env);
      FlatStepsAt(files, outputDir, pp3Path, opts, env, k);
    }

    /** `convert` with `keep_dir_tree`: `rebuild_dir_tree` over the list, then
        the loop over `zip(image_list, dest_paths)`. */
    method ConvertTree(list: Images.ImageList, env: Env) returns (ops: seq<Action>, r: Result<bool>)
      requires list.Valid()
      modifies list
      ensures list.Valid() && list.files == old(list.files)
      ensures (ops, r) == TreeSpec(old(list.files), old(list.currentIdx), outputDir, pp3Path, opts, env)
      ensures !KnownSystem(env.system) ==> list.currentIdx == old(list.currentIdx)
      ensures KnownSystem(env.system) && RebuildDirTree(old(list.files[list.currentIdx..]), outputDir, env).Raise? ==>
        list.currentIdx == 0
      ensures KnownSystem(env.system) && r.Ok? ==>
        list.currentIdx == if old(list.currentIdx) == 0 then 0 else |list.files| - old(list.currentIdx) + 1
      ensures RebuildDirTree(old(list.files[list.currentIdx..]), outputDir, env).Ok? && r.Raise? ==>
        var dests := RebuildDirTree(old(list.files[list.currentIdx..]), outputDir, env).value;
        var steps := TreeSteps(list.files[..|dests|], dests, pp3Path, opts, env);
        var k := list.currentIdx - 1;
        0 <= k < |steps| && (forall j :: 0 <= j < k ==> steps[j].1 == Ok(true)) && steps[k].1 != Ok(true)
    {
      if !KnownSystem(env.system) {
        return [], Raise(UnboundLocalError);
      }
      var seen := list.Drain();
      var rebuilt := RebuildDirTree(seen, outputDir, env);
      if rebuilt.Raise? {
        return [], Raise(rebuilt.error);
      }
      var dests := rebuilt.value;
      ops, r := ZipConvert(list, list.files[..|dests|], dests, env);
    }

    /** The loop over `zip(image_list, dest_paths)`, from the list's first file:
        it stops when either runs out, or at the first exception or False. */
    method ZipConvert(list: Images.ImageList, files: seq<string>, dests: seq<string>, env: Env)
      returns (ops: seq<Action>, r: Result<bool>)
      requires list.Valid() && list.currentIdx == 0
      requires |files| == |dests| <= |list.files| && files == list.files[..|dests|]
      modifies list
      ensures list.Valid() && list.files == old(list.files)
      ensures (ops, r) == Sequenced(TreeSteps(files, dests, pp3Path, opts, env))
      ensures r.Ok? ==> list.currentIdx == if |dests| == |list.files| then 0 else |dests| + 1
      ensures r.Raise? ==>
        var steps := TreeSteps(files, dests, pp3Path, opts, env);
        var k := list.currentIdx - 1;
        0 <= k < |steps| && (forall j :: 0 <= j < k ==> steps[j].1 == Ok(true)) && steps[k].1 != Ok(true)
    {
      ghost var steps := TreeSteps(files, dests, pp3Path, opts, env);
      ghost var all := Sequenced(steps);
      ops := [];
      var k: nat := 0;
      assert steps[0..] == steps && [] + all.0 == all.0;
      while true
        invariant list.Valid() && list.files == old(list.files)
        invariant list.currentIdx == k && k <= |dests|
        invariant all == (ops + Sequenced(steps[k..]).0, Sequenced(steps[k..]).1)
        invariant forall j :: 0 <= j < k ==> steps[j].1 == Ok(true)
        decreases |list.files| - list.currentIdx
      {
        var f := list.Next();
        if f.None? || k >= |dests| {
          assert steps[k..] == [];
          assert ops + [] == ops;
          return ops, Ok(true);
        }
        var out := TreeFile(files, dests, k, env);
        assert steps[k..][0] == out && steps[k..][1..] == steps[k + 1..];
        ghost var done := ops;
        ops := ops + out.0;
        if out.1.Raise? {
          return ops, Raise(out.1.error);
        }
        if !out.1.value {
          return ops, Raise(RuntimeError);
        }
        ghost var rest := Sequenced(steps[k + 1..]);
        assert Sequenced(steps[k..]) == (out.0 + rest.0, rest.1);
        assert done + (out.0 + rest.0) == ops + rest.0;
        k := k + 1;
      }
    }

    /** `dest.mkdir(...)` then `convert_raw` on file `k` into its destination. */
    method TreeFile(files: seq<string>, dests: seq<string>, k: nat, env: Env) returns (out: Step)
      requires |files| == |dests| && k < |files|
      ensures out == TreeSteps(files, dests, pp3Path, opts, env)[k]
    {
      var converted := ConvertRaw(files[k], dests[k], pp3Path, None, opts, env);
      out := ([MakeDir(dests[k])] + converted.0, converted.1);
      TreeStepsAt(files, dests, pp3Path, opts, env, k);
    }
  }

  /** `convert` stops at the first file that raises or returns False: its
      actions are those of the files up to and including it. */
  lemma ConvertStops(files: seq<string>, output: string, profile: Option<string>, opts: seq<string>, env: Env)
    ensures var r := Sequenced(FlatSteps(files, output, profile, opts, env));
      r.1.Raise? ==>
        exists k :: 0 <= k < |files|
          && (forall j :: 0 <= j < k ==> ConvertRawSpec(files[j], output, profile, None, opts, env).1 == Ok(true))
          && r.0 == AllActions(FlatSteps(files, output, profile, opts, env)[..k + 1])
          && var failed := ConvertRawSpec(files[k], output, profile, None, opts, env).1;
             failed == Raise(r.1.error) || (failed == Ok(false) && r.1.error == RuntimeError)
  {
    var steps := FlatSteps(files, output, profile, opts, env);
    SequencedStops(steps);
    var r := Sequenced(steps);
    if r.1.Raise? {
      var k :| 0 <= k < |steps|
        && (forall j :: 0 <= j < k ==> steps[j].1 == Ok(true))
        && (steps[k].1 == Raise(r.1.error) || (steps[k].1 == Ok(false) && r.1.error == RuntimeError))
        && r.0 == AllActions(steps[..k + 1]);
      FlatStepsAt(files, output, profile, opts, env, k);
      forall j | 0 <= j < k
        ensures ConvertRawSpec(files[j], output, profile, None, opts, env).1 == Ok(true)
      {
        FlatStepsAt(files, output, profile, opts, env, j);
      }
    }
  }

  /** `convert` returns True exactly when every file converts with exit code 0. */
  lemma ConvertAllTrue(files: seq<string>, output: string, profile: Option<string>, opts: seq<string>, env: Env)
    ensures var r := Sequenced(FlatSteps(files, output, profile, opts, env));
      r.1.Ok? <==> forall k :: 0 <= k < |files| ==> ConvertRawSpec(files[k], output, profile, None, opts, env).1 == Ok(true)
  {
    var steps := FlatSteps(files, output, profile, opts, env);
    SequencedOk(steps);
    forall k | 0 <= k < |files|
      ensures steps[k] == ConvertRawSpec(files[k], output, profile, None, opts, env)
    {
      FlatStepsAt(files, output, profile, opts, env, k);
    }
  }
}
