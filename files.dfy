/** The file organiser: files of a directory are moved (or copied) into one
    sub-folder per rule, chosen by their extension. The file system is
    abstract: a directory listing is a parameter, and the model returns the
    folder creations, moves and copies the code performs, in order. */
module Files {
  import opened Outcomes
  import opened Text
  import opened Paths
  import Sorting
  import opened Actions

  /** `get_extension(file)`: the lower-cased suffix of the name without its dot. */
  function GetExtension(file: string): (e: string)
  {
    var s := Lower(Paths.Suffix(file));
    if |s| == 0 then "" else s[1..]
  }

  /** The extension is empty exactly when the name has no suffix; otherwise it is
      the lower-cased suffix without its dot. */
  lemma GetExtensionSuffix(file: string)
    ensures GetExtension(file) == "" <==> Paths.Suffix(file) == ""
    ensures GetExtension(file) != "" ==> "." + GetExtension(file) == Lower(Paths.Suffix(file))
  {
    var s := Lower(Paths.Suffix(file));
    if |s| > 0 {
      Paths.StemSuffix(file);
      assert s[0] == '.';
      assert [s[0]] + s[1..] == s;
    }
  }

  /** A file `base.ext` whose parts hold no dot or slash has extension `ext`
      lower-cased. */
  lemma GetExtensionOf(base: string, ext: string)
    requires |base| >= 1 && |ext| >= 1
    requires forall j :: 0 <= j < |base| ==> base[j] != '/' && base[j] != '.'
    requires forall j :: 0 <= j < |ext| ==> ext[j] != '/' && ext[j] != '.'
    ensures GetExtension(base + "." + ext) == Lower(ext)
  {
    var p := base + "." + ext;
    Paths.StemSuffixOf(base, ext);
    assert Paths.Suffix(p) == "." + ext;
    var s := Lower("." + ext);
    assert GetExtension(p) == s[1..];
    forall j | 0 <= j < |ext|
      ensures s[1..][j] == Lower(ext)[j]
    {
      assert ("." + ext)[j + 1] == ext[j];
    }
    assert s[1..] == Lower(ext);
  }

  /** The value of one rule: the list of its extensions, or anything that is not
      a list. */
  datatype RuleValue = Exts(exts: seq<string>) | NotAList

  /** The rules dictionary, in its insertion order. */
  type Rules = seq<(string, RuleValue)>

  /** The actions performed, in order, and the exception that ended the run, if any. */
  datatype Effects = Effects(done: seq<Action>, raised: Option<Error>)

  /** The extensions present among the entries of the directory. */
  function CurrentExtensions(files: seq<string>): set<string>
  {
    set f | f in files :: GetExtension(f)
  }

  /** `any(v in current_extensions for v in extensions)`. */
  predicate Meets(exts: seq<string>, current: set<string>)
  {
    exists v :: v in exts && v in current
  }

  /** The first loop of `organize_files`: one folder per rule, in order, whose
      extensions meet the directory's; a rule that is not a list stops it with a
      TypeError. */
  function MakeDirs(dir: string, rules: Rules, current: set<string>): Effects
  {
    if |rules| == 0 then Effects([], None)
    else match rules[0].1
      case NotAList => Effects([], Some(TypeError))
      case Exts(exts) =>
        var head := if Meets(exts, current) then [MakeDir(PathJoin(dir, Lower(rules[0].0)))] else [];
        var rest := MakeDirs(dir, rules[1..], current);
        Effects(head + rest.done, rest.raised)
  }

  /** Whether a rule lists an extension. */
  predicate Lists(rule: (string, RuleValue), ext: string)
  {
    rule.1.Exts? && ext in rule.1.exts
  }

  /** The key of the first rule that lists the extension. */
  function Target(ext: string, rules: Rules): Option<string>
  {
    if |rules| == 0 then None
    else if Lists(rules[0], ext) then Some(rules[0].0)
    else Target(ext, rules[1..])
  }

  /** What the second loop does with one entry: nothing for an entry without
      extension or one no rule lists; otherwise a move to `dir/rule/file`, or a
      copy to `dir/rule/name`. */
  function FileAction(dir: string, file: string, rules: Rules, inplace: bool): seq<Action>
  {
    var ext := GetExtension(file);
    if ext == "" then []
    else match Target(ext, rules)
      case None => []
      case Some(rule) =>
        if inplace then [Move(PathJoin(dir, file), PathJoin(PathJoin(dir, rule), file))]
        else [Copy(PathJoin(dir, file), PathJoin(PathJoin(dir, rule), Paths.Name(file)))]
  }

  function Moves(dir: string, files: seq<string>, rules: Rules, inplace: bool): seq<Action>
  {
    if |files| == 0 then [] else FileAction(dir, files[0], rules, inplace) + Moves(dir, files[1..], rules, inplace)
  }

  /** `organize_files(dir, rules, inplace)` on the directory's entries `files`. */
  function OrganizeFilesSpec(dir: string, files: seq<string>, rules: Rules, inplace: bool): Effects
  {
    var m := MakeDirs(dir, rules, CurrentExtensions(files));
    if m.raised.Some? then m else Effects(m.done + Moves(dir, files, rules, inplace), None)
  }

  method OrganizeFiles(dir: string, files: seq<string>, rules: Rules, inplace: bool) returns (e: Effects)
    ensures e == OrganizeFilesSpec(dir, files, rules, inplace)
  {
    var current := set f | f in files :: GetExtension(f);
    e := MakeRuleDirs(dir, rules, current);
    if e.raised.Some? {
      return;
    }
    var moved := MoveEntries(dir, files, rules, inplace);
    return Effects(e.done + moved, None);
  }

  /** The first loop of `organize_files`. */
  method MakeRuleDirs(dir: string, rules: Rules, current: set<string>) returns (e: Effects)
    ensures e == MakeDirs(dir, rules, current)
  {
    var done: seq<Action> := [];
    for i := 0 to |rules|
      invariant After(done, MakeDirs(dir, rules[i..], current)) == MakeDirs(dir, rules, current)
    {
      MakeDirsAt(dir, rules, current, i, done);
      if rules[i].1.NotAList? {
        return Effects(done, Some(TypeError));
      }
      var head := RuleFolder(dir, rules[i], current);
      done := done + head;
    }
    assert rules[|rules|..] == [];
    return Effects(done, None);
  }

  /** The effects `e` of the later rules, after the folders `done` already created. */
  function After(done: seq<Action>, e: Effects): Effects
  {
    Effects(done + e.done, e.raised)
  }

  /** The folder the first loop creates for one rule that is a list: one when
      its extensions meet the directory's, none otherwise. */
  method RuleFolder(dir: string, rule: (string, RuleValue), current: set<string>) returns (head: seq<Action>)
    requires rule.1.Exts?
    ensures head == if Meets(rule.1.exts, current) then [MakeDir(PathJoin(dir, Lower(rule.0)))] else []
  {
    head := [];
    if exists v :: v in rule.1.exts && v in current {
      head := [MakeDir(PathJoin(dir, Lower(rule.0)))];
    }
  }

  /** One step of the first loop: rule `i` either stops it or adds its folder
      before those of the later rules. */
  lemma MakeDirsAt(dir: string, rules: Rules, current: set<string>, i: nat, done: seq<Action>)
    requires i < |rules|
    ensures rules[i].1.NotAList? ==> After(done, MakeDirs(dir, rules[i..], current)) == Effects(done, Some(TypeError))
    ensures rules[i].1.Exts? ==>
      var head := if Meets(rules[i].1.exts, current) then [MakeDir(PathJoin(dir, Lower(rules[i].0)))] else [];
      After(done, MakeDirs(dir, rules[i..], current)) == After(done + head, MakeDirs(dir, rules[i + 1..], current))
  {
    assert rules[i..][1..] == rules[i + 1..];
    if rules[i].1.Exts? {
      var head := if Meets(rules[i].1.exts, current) then [MakeDir(PathJoin(dir, Lower(rules[i].0)))] else [];
      var rest := MakeDirs(dir, rules[i + 1..], current).done;
      assert done + (head + rest) == (done + head) + rest;
    } else {
      assert done + [] == done;
    }
  }

  /** The second loop of `organize_files`. */
  method MoveEntries(dir: string, files: seq<string>, rules: Rules, inplace: bool) returns (done: seq<Action>)
    ensures done == Moves(dir, files, rules, inplace)
  {
    done := [];
    for k := 0 to |files|
      invariant done + Moves(dir, files[k..], rules, inplace) == Moves(dir, files, rules, inplace)
    {
      MovesAt(dir, files, rules, inplace, k, done);
      var a := Relocate(dir, files[k], rules, inplace);
      done := done + a;
    }
    assert files[|files|..] == [];
  }

  /** One step of the second loop: entry `k`'s action comes before those of the
      later entries. */
  lemma MovesAt(dir: string, files: seq<string>, rules: Rules, inplace: bool, k: nat, done: seq<Action>)
    requires k < |files|
    ensures done + Moves(dir, files[k..], rules, inplace)
         == (done + FileAction(dir, files[k], rules, inplace)) + Moves(dir, files[k + 1..], rules, inplace)
  {
    var a := FileAction(dir, files[k], rules, inplace);
    var rest := Moves(dir, files[k + 1..], rules, inplace);
    assert Moves(dir, files[k..], rules, inplace) == a + rest by {
      assert files[k..][1..] == files[k + 1..];
    }
    assert done + (a + rest) == (done + a) + rest;
  }

  /** The body of the second loop for one entry. */
  method Relocate(dir: string, file: string, rules: Rules, inplace: bool) returns (a: seq<Action>)
    ensures a == FileAction(dir, file, rules, inplace)
  {
    var ext := GetExtension(file);
    if ext == "" {
      return [];
    }
    var rule := FindRule(ext, rules);
    if rule.None? {
      return [];
    }
    if inplace {
      a := [Move(PathJoin(dir, file), PathJoin(PathJoin(dir, rule.value), file))];
    } else {
      a := [Copy(PathJoin(dir, file), PathJoin(PathJoin(dir, rule.value), Paths.Name(file)))];
    }
  }

  /** The inner rule loop, which stops at the first rule listing the extension. */
  method FindRule(ext: string, rules: Rules) returns (rule: Option<string>)
    ensures rule == Target(ext, rules)
  {
    for j := 0 to |rules|
      invariant Target(ext, rules[j..]) == Target(ext, rules)
    {
      assert rules[j..][1..] == rules[j + 1..];
      if rules[j].1.Exts? && ext in rules[j].1.exts {
        return Some(rules[j].0);
      }
    }
    assert rules[|rules|..] == [];
    return None;
  }

  /** A file goes to the first rule, in dictionary order, that lists its
      extension; when no rule lists it there is no target. */
  lemma {:induction false} TargetFirst(ext: string, rules: Rules)
    ensures Target(ext, rules).None? <==> forall i :: 0 <= i < |rules| ==> !Lists(rules[i], ext)
    ensures Target(ext, rules).Some? ==>
      exists i :: 0 <= i < |rules| && Lists(rules[i], ext) && rules[i].0 == Target(ext, rules).value
        && forall j :: 0 <= j < i ==> !Lists(rules[j], ext)
  {
    if |rules| > 0 && !Lists(rules[0], ext) {
      TargetFirst(ext, rules[1..]);
      if Target(ext, rules).Some? {
        var i :| 0 <= i < |rules[1..]| && Lists(rules[1..][i], ext) && rules[1..][i].0 == Target(ext, rules).value
          && forall j :: 0 <= j < i ==> !Lists(rules[1..][j], ext);
        assert Lists(rules[i + 1], ext) && forall j :: 0 <= j < i + 1 ==> !Lists(rules[j], ext);
      } else {
        forall i | 0 <= i < |rules|
          ensures !Lists(rules[i], ext)
        {
          if i > 0 {
            assert rules[i] == rules[1..][i - 1];
          }
        }
      }
    }
  }

  /** An entry is left alone exactly when it has no extension or no rule lists
      its extension. */
  lemma FileActionUntouched(dir: string, file: string, rules: Rules, inplace: bool)
    ensures FileAction(dir, file, rules, inplace) == [] <==>
      GetExtension(file) == "" || forall i :: 0 <= i < |rules| ==> !Lists(rules[i], GetExtension(file))
  {
    TargetFirst(GetExtension(file), rules);
  }

  /** Every move or copy starts from an entry of the directory, and an entry that
      is left alone is the source of none of them. */
  lemma {:induction false} MovesSources(dir: string, files: seq<string>, rules: Rules, inplace: bool, file: string)
    requires FileAction(dir, file, rules, inplace) == []
    ensures forall a :: a in Moves(dir, files, rules, inplace) ==>
      (a.Move? || a.Copy?) && (exists g :: g in files && a.src == PathJoin(dir, g)) && a.src != PathJoin(dir, file)
  {
    if |files| > 0 {
      var head := FileAction(dir, files[0], rules, inplace);
      assert Moves(dir, files, rules, inplace) == head + Moves(dir, files[1..], rules, inplace);
      MovesSources(dir, files[1..], rules, inplace, file);
      FileActionSource(dir, files[0], rules, inplace, file);
      forall a | a in Moves(dir, files, rules, inplace)
        ensures (a.Move? || a.Copy?) && (exists g :: g in files && a.src == PathJoin(dir, g)) && a.src != PathJoin(dir, file)
      {
        if a in head {
          assert files[0] in files;
        } else {
          var g :| g in files[1..] && a.src == PathJoin(dir, g);
          assert g in files;
        }
      }
    }
  }

  /** The action for one entry moves or copies that entry, which is not an
      entry that is left alone. */
  lemma FileActionSource(dir: string, f: string, rules: Rules, inplace: bool, file: string)
    requires FileAction(dir, file, rules, inplace) == []
    ensures forall a :: a in FileAction(dir, f, rules, inplace) ==>
      (a.Move? || a.Copy?) && a.src == PathJoin(dir, f) && a.src != PathJoin(dir, file)
  {
    if PathJoin(dir, f) == PathJoin(dir, file) {
      PathJoinInjective(dir, f, file);
    }
  }

  /** When every rule is a list, a folder `dir/rule.lower()` is created exactly
      when some entry's extension is listed by that rule, and nothing is raised. */
  lemma {:induction false} MakeDirsIff(dir: string, rules: Rules, current: set<string>, p: string)
    requires forall i :: 0 <= i < |rules| ==> rules[i].1.Exts?
    ensures MakeDirs(dir, rules, current).raised.None?
    ensures MakeDir(p) in MakeDirs(dir, rules, current).done <==>
      exists i :: 0 <= i < |rules| && p == PathJoin(dir, Lower(rules[i].0)) && Meets(rules[i].1.exts, current)
  {
    if |rules| > 0 {
      MakeDirsIff(dir, rules[1..], current, p);
      if exists i :: 0 <= i < |rules| && p == PathJoin(dir, Lower(rules[i].0)) && Meets(rules[i].1.exts, current) {
        var i :| 0 <= i < |rules| && p == PathJoin(dir, Lower(rules[i].0)) && Meets(rules[i].1.exts, current);
        if i > 0 {
          assert rules[i] == rules[1..][i - 1];
        }
      }
      if MakeDir(p) in MakeDirs(dir, rules[1..], current).done {
        var i :| 0 <= i < |rules[1..]| && p == PathJoin(dir, Lower(rules[1..][i].0)) && Meets(rules[1..][i].1.exts, current);
        assert rules[1..][i] == rules[i + 1];
      }
    }
  }

  /** A rule that is not a list raises TypeError in the first loop: only folders
      were created by then, so no entry is moved or copied. */
  lemma {:induction false} TypeErrorBeforeMoves(dir: string, rules: Rules, current: set<string>, i: nat)
    requires i < |rules| && rules[i].1.NotAList?
    ensures MakeDirs(dir, rules, current).raised == Some(TypeError)
    ensures forall a :: a in MakeDirs(dir, rules, current).done ==> a.MakeDir?
  {
    if i > 0 && rules[0].1.Exts? {
      TypeErrorBeforeMoves(dir, rules[1..], current, i - 1);
    }
  }

  lemma TypeErrorNoMoves(dir: string, files: seq<string>, rules: Rules, inplace: bool, i: nat)
    requires i < |rules| && rules[i].1.NotAList?
    ensures OrganizeFilesSpec(dir, files, rules, inplace).raised == Some(TypeError)
    ensures forall a :: a in OrganizeFilesSpec(dir, files, rules, inplace).done ==> a.MakeDir?
  {
    TypeErrorBeforeMoves(dir, rules, CurrentExtensions(files), i);
  }

  /** The folder is created lower-cased while the move target uses the rule key
      as written: for a key such as "RAW" the move asked for goes into `dir/RAW`, a
      folder that was not created. The move is recorded as asked for; whether the
      file system accepts it is not modelled. */
  lemma MoveTargetVerbatim(dir: string, file: string, rule: string, exts: seq<string>)
    requires GetExtension(file) != "" && GetExtension(file) in exts
    ensures OrganizeFilesSpec(dir, [file], [(rule, Exts(exts))], true)
         == Effects([MakeDir(PathJoin(dir, Lower(rule))), Move(PathJoin(dir, file), PathJoin(PathJoin(dir, rule), file))], None)
  {
    SingleRuleFolder(dir, file, rule, exts);
    SingleRuleMove(dir, file, rule, exts);
  }

  lemma SingleRuleFolder(dir: string, file: string, rule: string, exts: seq<string>)
    requires GetExtension(file) in exts
    ensures MakeDirs(dir, [(rule, Exts(exts))], CurrentExtensions([file])) == Effects([MakeDir(PathJoin(dir, Lower(rule)))], None)
  {
    var rules := [(rule, Exts(exts))];
    var current := CurrentExtensions([file]);
    assert GetExtension(file) in current;
    assert Meets(exts, current);
    assert MakeDirs(dir, rules[1..], current) == Effects([], None);
  }

  lemma SingleRuleMove(dir: string, file: string, rule: string, exts: seq<string>)
    requires GetExtension(file) != "" && GetExtension(file) in exts
    ensures Moves(dir, [file], [(rule, Exts(exts))], true) == [Move(PathJoin(dir, file), PathJoin(PathJoin(dir, rule), file))]
  {
    var rules := [(rule, Exts(exts))];
    assert Target(GetExtension(file), rules) == Some(rule);
    assert [file][1..] == [];
  }

  // ---------------------------------------------------------------- Organizer

  /** The immediate sub-folders of `directory`, given its entry names and the set
      of existing directories. */
  function SubdirsOf(directory: string, entries: seq<string>, dirs: set<string>): (r: seq<string>)
    ensures forall d :: d in r <==> exists e :: e in entries && d == PathJoin(directory, e) && d in dirs
  {
    if |entries| == 0 then []
    else
      var d := PathJoin(directory, entries[0]);
      (if d in dirs then [d] else []) + SubdirsOf(directory, entries[1..], dirs)
  }

  /** `organize_files` on each folder in turn, stopping at the first exception. */
  function OrganizeEach(folders: seq<string>, rules: Rules, inplace: bool, listdir: string -> seq<string>): Effects
  {
    RunAll(FolderEffects(folders, rules, inplace, listdir))
  }

  /** What `organize_files` does on each folder on its own, in order. */
  function FolderEffects(folders: seq<string>, rules: Rules, inplace: bool, listdir: string -> seq<string>)
    : (r: seq<Effects>)
    ensures |r| == |folders|
  {
    MapSteps(folders, f => OrganizeFilesSpec(f, listdir(f), rules, inplace))
  }

  /** The runs in turn, stopping at the first exception. */
  function RunAll(runs: seq<Effects>): Effects
  {
    if |runs| == 0 then Effects([], None)
    else if runs[0].raised.Some? then runs[0]
    else
      var rest := RunAll(runs[1..]);
      Effects(runs[0].done + rest.done, rest.raised)
  }

  /** `Organizer(rules, inplace, recursive).organize(directory)`. */
  function OrganizeSpec(rules: Rules, inplace: bool, recursive: bool, directory: string, dirs: set<string>,
                        listdir: string -> seq<string>): Effects
  {
    if directory !in dirs then Effects([], Some(ValueError))
    else if recursive then OrganizeEach(Sorting.Sort(SubdirsOf(directory, listdir(directory), dirs)), rules, inplace, listdir)
    else OrganizeFilesSpec(directory, listdir(directory), rules, inplace)
  }

  class Organizer {
    const rules: Rules
    const inplace: bool
    const recursive: bool

    constructor (rules: Rules, inplace: bool, recursive: bool)
      ensures this.rules == rules && this.inplace == inplace && this.recursive == recursive
    {
      this.rules := rules;
      this.inplace := inplace;
      this.recursive := recursive;
    }

    /** Returns the actions performed and True, or the exception raised. */
    method Organize(directory: string, dirs: set<string>, listdir: string -> seq<string>)
      returns (done: seq<Action>, r: Result<bool>)
      ensures var e := OrganizeSpec(rules, inplace, recursive, directory, dirs, listdir);
        done == e.done && (if e.raised.None? then r == Ok(true) else r == Raise(e.raised.value))
    {
      if directory !in dirs {
        return [], Raise(ValueError);
      }
      if recursive {
        var subfolders := Sorting.Sort(SubdirsOf(directory, listdir(directory), dirs));
        var e := OrganizeFolders(subfolders, rules, inplace, listdir);
        done := e.done;
        if e.raised.Some? {
          return done, Raise(e.raised.value);
        }
      } else {
        var e := OrganizeFiles(directory, listdir(directory), rules, inplace);
        done := e.done;
        if e.raised.Some? {
          return done, Raise(e.raised.value);
        }
      }
      return done, Ok(true);
    }
  }

  /** The loop over the sub-folders in recursive mode. */
  method OrganizeFolders(folders: seq<string>, rules: Rules, inplace: bool, listdir: string -> seq<string>)
    returns (e: Effects)
    ensures e == OrganizeEach(folders, rules, inplace, listdir)
  {
    ghost var runs := FolderEffects(folders, rules, inplace, listdir);
    ghost var all := RunAll(runs);
    var done: seq<Action> := [];
    assert runs[0..] == runs;
    for k := 0 to |folders|
      invariant done + RunAll(runs[k..]).done == all.done
      invariant RunAll(runs[k..]).raised == all.raised
    {
      var first := OrganizeFolder(folders, k, rules, inplace, listdir);
      assert runs[k..][0] == first && runs[k..][1..] == runs[k + 1..];
      ghost var rest := RunAll(runs[k + 1..]);
      if first.raised.Some? {
        return Effects(done + first.done, first.raised);
      }
      assert done + (first.done + rest.done) == (done + first.done) + rest.done;
      done := done + first.done;
    }
    assert runs[|folders|..] == [];
    return Effects(done, None);
  }

  /** `organize_files` on folder `k`, the body of that loop. */
  method OrganizeFolder(folders: seq<string>, k: nat, rules: Rules, inplace: bool, listdir: string -> seq<string>)
    returns (e: Effects)
    requires k < |folders|
    ensures e == FolderEffects(folders, rules, inplace, listdir)[k]
  {
    e := OrganizeFiles(folders[k], listdir(folders[k]), rules, inplace);
    MapStepsAt(folders, f => OrganizeFilesSpec(f, listdir(f), rules, inplace), k);
  }

  /** A path that is not a directory raises ValueError before anything is done. */
  lemma OrganizeNotADirectory(rules: Rules, inplace: bool, recursive: bool, directory: string, dirs: set<string>,
                              listdir: string -> seq<string>)
    requires directory !in dirs
    ensures OrganizeSpec(rules, inplace, recursive, directory, dirs, listdir) == Effects([], Some(ValueError))
  {}

  /** The actions of the runs, one run after the other. */
  function AllDone(runs: seq<Effects>): seq<Action>
  {
    if |runs| == 0 then [] else runs[0].done + AllDone(runs[1..])
  }

  /** Organizing several folders succeeds exactly when each folder does, and then
      its actions are those of the folders in turn. */
  lemma OrganizeEachOk(folders: seq<string>, rules: Rules, inplace: bool, listdir: string -> seq<string>)
    ensures OrganizeEach(folders, rules, inplace, listdir).raised.None? <==>
      forall k :: 0 <= k < |folders| ==> OrganizeFilesSpec(folders[k], listdir(folders[k]), rules, inplace).raised.None?
    ensures OrganizeEach(folders, rules, inplace, listdir).raised.None? ==>
      OrganizeEach(folders, rules, inplace, listdir).done == AllDone(FolderEffects(folders, rules, inplace, listdir))
    ensures forall k :: 0 <= k < |folders| ==>
      FolderEffects(folders, rules, inplace, listdir)[k] == OrganizeFilesSpec(folders[k], listdir(folders[k]), rules, inplace)
  {
    var runs := FolderEffects(folders, rules, inplace, listdir);
    RunAllOk(runs);
    forall k | 0 <= k < |folders|
      ensures runs[k] == OrganizeFilesSpec(folders[k], listdir(folders[k]), rules, inplace)
    {
      MapStepsAt(folders, f => OrganizeFilesSpec(f, listdir(f), rules, inplace), k);
    }
  }

  lemma {:induction false} RunAllOk(runs: seq<Effects>)
    ensures RunAll(runs).raised.None? <==> forall k :: 0 <= k < |runs| ==> runs[k].raised.None?
    ensures RunAll(runs).raised.None? ==> RunAll(runs).done == AllDone(runs)
  {
    if |runs| > 0 {
      RunAllOk(runs[1..]);
      assert forall k :: 1 <= k < |runs| ==> runs[k] == runs[1..][k - 1];
    }
  }

  /** In recursive mode the folders organized are the sub-folders of the
      directory, in sorted order; the directory itself is not among them. */
  lemma RecursiveFolders(rules: Rules, inplace: bool, directory: string, dirs: set<string>,
                         listdir: string -> seq<string>)
    requires directory in dirs
    ensures var folders := Sorting.Sort(SubdirsOf(directory, listdir(directory), dirs));
      && Sorting.Sorted(folders)
      && (forall d :: d in folders <==> exists e :: e in listdir(directory) && d == PathJoin(directory, e) && d in dirs)
      && directory !in folders
      && OrganizeSpec(rules, inplace, true, directory, dirs, listdir) == OrganizeEach(folders, rules, inplace, listdir)
  {
    var sub := SubdirsOf(directory, listdir(directory), dirs);
    SortMembers(sub);
    SubdirsNotSelf(directory, listdir(directory), dirs);
  }

  /** Sorting keeps exactly the names it is given. */
  lemma SortMembers(s: seq<string>)
    ensures forall d :: d in Sorting.Sort(s) <==> d in s
  {
    forall d
      ensures d in Sorting.Sort(s) <==> d in s
    {
      assert d in Sorting.Sort(s) <==> d in multiset(Sorting.Sort(s));
      assert d in s <==> d in multiset(s);
    }
  }

  /** A joined path is longer than the directory, so no sub-folder is the directory. */
  lemma SubdirsNotSelf(directory: string, entries: seq<string>, dirs: set<string>)
    ensures directory !in SubdirsOf(directory, entries, dirs)
  {
    forall e | e in entries
      ensures PathJoin(directory, e) != directory
    {
      assert |PathJoin(directory, e)| > |directory|;
    }
  }
}
