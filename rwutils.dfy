/** utils/rwutils.py: the survey-file readers of the older toolbox. The file system is
    the set of names that exist, a file's text is its list of lines, and numeric
    parsing (`float`, `int`, `np.float_`) is a parameter. */
module Rwutils {
  import opened Outcomes
  import opened Text
  import opened Values
  import Dji

  // ---------------------------------------------------------------- fileextchecker

  /** The `ext` argument: one extension or a list of them. */
  datatype ExtArg = OneExt(ext: string) | ExtList(exts: seq<string>)

  /** A string is wrapped into a one-element list. */
  function Exts(a: ExtArg): (es: seq<string>)
    ensures a.OneExt? ==> es == [a.ext]
  {
    match a
      case OneExt(e) => [e]
      case ExtList(es) => es
  }

  /** What `fileextchecker` returns: a name that exists, or -1. */
  datatype Located = Found(path: string) | Missing

  /** `fname[-(len(ext)+1):].lower() == '.' + ext`. */
  predicate EndsWithExt(fname: string, ext: string)
  {
    Lower(TakeLast(fname, |ext| + 1)) == "." + ext
  }

  /** The candidate loop: each extension whose file exists extends the name reached
      so far, so later candidates are tried on the already extended name. */
  function Extend(fname: string, exts: seq<string>, files: set<string>): string
    decreases |exts|
  {
    if |exts| == 0 then fname
    else Extend(if fname + "." + exts[0] in files then fname + "." + exts[0] else fname, exts[1..], files)
  }

  /** No extension of `exts` ends `fname` already. */
  predicate LacksExts(fname: string, exts: seq<string>)
  {
    forall i :: 0 <= i < |exts| ==> !EndsWithExt(fname, exts[i])
  }

  /** `fileextchecker(fname, ext)`. */
  function FileExtCheckerSpec(fname: string, ext: ExtArg, files: set<string>): (r: Located)
    ensures r.Found? ==> r.path in files
  {
    var exts := Exts(ext);
    var name := if fname !in files && LacksExts(fname, exts) then Extend(fname, exts, files) else fname;
    if name in files then Found(name) else Missing
  }

  /** An existing name is returned as is, and a missing name that already carries
      one of the extensions is not extended. */
  lemma FileExtCheckerNoExtend(fname: string, ext: ExtArg, files: set<string>)
    ensures fname in files ==> FileExtCheckerSpec(fname, ext, files) == Found(fname)
    ensures fname !in files && (exists i :: 0 <= i < |Exts(ext)| && EndsWithExt(fname, Exts(ext)[i])) ==>
      FileExtCheckerSpec(fname, ext, files) == Missing
  {
  }

  method FileExtChecker(fname: string, ext: ExtArg, files: set<string>) returns (r: Located)
    ensures r == FileExtCheckerSpec(fname, ext, files)
  {
    var exts := Exts(ext);
    var test := TestExts(fname, exts);
    var name := fname;
    if fname !in files && test {
      name := ExtendName(fname, exts, files);
    }
    if name in files {
      return Found(name);
    }
    return Missing;
  }

  lemma LacksExtsStep(fname: string, exts: seq<string>, i: nat)
    requires i < |exts|
    ensures LacksExts(fname, exts[..i + 1]) == (LacksExts(fname, exts[..i]) && !EndsWithExt(fname, exts[i]))
  {
    var longer, shorter := exts[..i + 1], exts[..i];
    if LacksExts(fname, longer) {
      forall j | 0 <= j < |shorter|
        ensures !EndsWithExt(fname, shorter[j])
      {
        assert shorter[j] == longer[j];
      }
      assert longer[i] == exts[i];
    }
    if LacksExts(fname, shorter) && !EndsWithExt(fname, exts[i]) {
      forall j | 0 <= j < |longer|
        ensures !EndsWithExt(fname, longer[j])
      {
        if j < i {
          assert longer[j] == shorter[j];
        }
      }
    }
  }

  /** One candidate of the loop: the name reached so far, extended when the
      candidate exists. */
  lemma ExtendStep(name: string, exts: seq<string>, i: nat, files: set<string>)
    requires i < |exts|
    ensures Extend(name, exts[i..], files) ==
      Extend(if name + "." + exts[i] in files then name + "." + exts[i] else name, exts[i + 1..], files)
  {
    assert exts[i..][0] == exts[i] && exts[i..][1..] == exts[i + 1..];
  }

  /** The loop of `fileextchecker` that checks whether the name already ends with
      one of the extensions. */
  method TestExts(fname: string, exts: seq<string>) returns (test: bool)
    ensures test == LacksExts(fname, exts)
  {
    test := true;
    var i := 0;
    while i < |exts|
      invariant 0 <= i <= |exts|
      invariant test == LacksExts(fname, exts[..i])
    {
      LacksExtsStep(fname, exts, i);
      test := test && !EndsWithExt(fname, exts[i]);
      i := i + 1;
    }
    assert exts[..i] == exts;
  }

  /** The candidate loop of `fileextchecker`. */
  method ExtendName(fname: string, exts: seq<string>, files: set<string>) returns (name: string)
    ensures name == Extend(fname, exts, files)
  {
    name := fname;
    var i := 0;
    while i < |exts|
      invariant 0 <= i <= |exts|
      invariant Extend(name, exts[i..], files) == Extend(fname, exts, files)
    {
      ExtendStep(name, exts, i, files);
      var candidate := name + "." + exts[i];
      if candidate in files {
        name := candidate;
      }
      i := i + 1;
    }
  }

  /** The candidates chain: when `fname.e0` exists it is kept even though `fname.e1`
      exists too, because the second candidate tried is `fname.e0.e1`. */
  lemma {:induction false} ExtendChains(fname: string, e0: string, e1: string, files: set<string>)
    requires fname !in files && fname + "." + e0 in files && fname + "." + e0 + "." + e1 !in files
    requires !EndsWithExt(fname, e0) && !EndsWithExt(fname, e1)
    ensures FileExtCheckerSpec(fname, ExtList([e0, e1]), files) == Found(fname + "." + e0)
  {
    var exts := [e0, e1];
    assert LacksExts(fname, exts);
    assert exts[1..] == [e1] && exts[1..][1..] == [];
    assert Extend(fname, exts, files) == Extend(fname + "." + e0, [e1], files);
    assert Extend(fname + "." + e0, [e1], files) == Extend(fname + "." + e0, [], files);
  }

  /** When the name is missing and has none of the extensions, the only candidate
      tried for a single extension is `fname.ext`. */
  lemma SingleCandidate(fname: string, e: string, files: set<string>)
    requires fname !in files && !EndsWithExt(fname, e)
    ensures FileExtCheckerSpec(fname, OneExt(e), files) ==
      if fname + "." + e in files then Found(fname + "." + e) else Missing
  {
    var exts := [e];
    assert exts[1..] == [];
    assert LacksExts(fname, exts);
    var next := if fname + "." + e in files then fname + "." + e else fname;
    assert Extend(fname, exts, files) == Extend(next, [], files) == next;
  }

  // ---------------------------------------------------------------- mrkread (lists)

  /** One line of the list-based MRK reader. Its dN and dE (and stdN and stdE) come
      from the positions the dict-based reader of dji.py uses for dE and dN (and
      stdE and stdN), and its Name is the three-digit text of the id, not a number. */
  datatype MrkRow = MrkRow(
    time: real, name: string, lat: real, lon: real, ellh: real,
    stdE: real, stdN: real, stdV: real, dE: real, dN: real, dV: real,
    qual: real, flag: string)

  /** The body of the loop for one split line, fields read in the order of the
      assignments. */
  function ParseMrkRow(line: seq<string>, parse: string -> Option<real>): Result<MrkRow>
  {
    var f0 :- Dji.Field(line, 0, parse);
    var time :- Dji.Field(line, 1, parse);
    var lat :- Dji.Field(line, 9, parse);
    var lon :- Dji.Field(line, 11, parse);
    var ellh :- Dji.Field(line, 13, parse);
    var stdN :- Dji.Field(line, 15, parse);
    var stdE :- Dji.Field(line, 16, parse);
    var stdV :- Dji.Field(line, 17, parse);
    var dN :- Dji.Field(line, 3, parse);
    var dE :- Dji.Field(line, 5, parse);
    var dV :- Dji.Field(line, 7, parse);
    var qual :- Dji.Field(line, 18, parse);
    var flag :- if 19 < |line| then Ok(line[19]) else Raise(IndexError);
    Ok(MrkRow(time, FormatInt(Trunc(f0), 3), lat, lon, ellh, stdE, stdN, stdV, dE, dN, dV, qual, flag))
  }

  /** The result of the loop body on each line. */
  function MrkLines(lines: seq<string>, parse: string -> Option<real>): (rs: seq<Result<MrkRow>>)
    ensures |rs| == |lines|
  {
    seq(|lines|, i requires 0 <= i < |lines| => ParseMrkRow(SplitOn(lines[i], Dji.MrkDelims), parse))
  }

  /** The rows of the first `n` lines, or the error of the first line that fails. */
  function MrkRows(lines: seq<string>, n: nat, parse: string -> Option<real>): (r: Result<seq<MrkRow>>)
    requires n <= |lines|
    ensures r.Ok? ==> |r.value| == n
  {
    Gather(MrkLines(lines, parse), n)
  }

  lemma MrkRowsStep(lines: seq<string>, i: nat, parse: string -> Option<real>, rows: seq<MrkRow>, row: MrkRow)
    requires i < |lines| && MrkRows(lines, i, parse) == Ok(rows)
    requires ParseMrkRow(SplitOn(lines[i], Dji.MrkDelims), parse) == Ok(row)
    ensures MrkRows(lines, i + 1, parse) == Ok(rows + [row])
  {}

  /** The first line that fails decides the error of the whole read. */
  lemma MrkRowsFails(lines: seq<string>, k: nat, n: nat, parse: string -> Option<real>)
    requires k <= n <= |lines| && MrkRows(lines, k, parse).Raise?
    ensures MrkRows(lines, n, parse) == MrkRows(lines, k, parse)
  {
    GatherFails(MrkLines(lines, parse), k, n);
  }

  /** The dict of parallel lists the reader returns, one entry per line. */
  datatype MrkColumns = MrkColumns(
    time: seq<real>, name: seq<string>, lat: seq<real>, lon: seq<real>, ellh: seq<real>,
    stdE: seq<real>, stdN: seq<real>, stdV: seq<real>, dE: seq<real>, dN: seq<real>, dV: seq<real>,
    qual: seq<real>, flag: seq<string>)

  function Columns(rows: seq<MrkRow>): MrkColumns
  {
    MrkColumns(
      seq(|rows|, i requires 0 <= i < |rows| => rows[i].time),
      seq(|rows|, i requires 0 <= i < |rows| => rows[i].name),
      seq(|rows|, i requires 0 <= i < |rows| => rows[i].lat),
      seq(|rows|, i requires 0 <= i < |rows| => rows[i].lon),
      seq(|rows|, i requires 0 <= i < |rows| => rows[i].ellh),
      seq(|rows|, i requires 0 <= i < |rows| => rows[i].stdE),
      seq(|rows|, i requires 0 <= i < |rows| => rows[i].stdN),
      seq(|rows|, i requires 0 <= i < |rows| => rows[i].stdV),
      seq(|rows|, i requires 0 <= i < |rows| => rows[i].dE),
      seq(|rows|, i requires 0 <= i < |rows| => rows[i].dN),
      seq(|rows|, i requires 0 <= i < |rows| => rows[i].dV),
      seq(|rows|, i requires 0 <= i < |rows| => rows[i].qual),
      seq(|rows|, i requires 0 <= i < |rows| => rows[i].flag))
  }

  /** `open(-1)`, reached when `fileextchecker` finds nothing, is a ValueError (a
      negative file descriptor). */
  function Open(located: Located, fs: map<string, seq<string>>): (r: Result<seq<string>>)
    ensures r.Ok? ==> located.Found? && located.path in fs && r.value == fs[located.path]
  {
    match located
      case Missing => Raise(ValueError)
      case Found(p) => if p in fs then Ok(fs[p]) else Raise(OSError)
  }

  /** `mrkread(fname)` of rwutils.py over a file system `fs` (existing names and
      their lines). */
  function RwMrkReadSpec(fname: string, fs: map<string, seq<string>>, parse: string -> Option<real>): Result<MrkColumns>
  {
    var lines :- Open(FileExtCheckerSpec(fname, OneExt("mrk"), fs.Keys), fs);
    var rows :- MrkRows(lines, |lines|, parse);
    Ok(Columns(rows))
  }

  method RwMrkRead(fname: string, fs: map<string, seq<string>>, parse: string -> Option<real>)
    returns (r: Result<MrkColumns>)
    ensures r == RwMrkReadSpec(fname, fs, parse)
  {
    var located := FileExtChecker(fname, OneExt("mrk"), fs.Keys);
    var content := Open(located, fs);
    if content.Raise? {
      return Raise(content.error);
    }
    var rows := ParseMrkRows(content.value, parse);
    if rows.Raise? {
      return Raise(rows.error);
    }
    return Ok(Columns(rows.value));
  }

  /** The loop of `mrkread`, filling the lists preallocated to one entry per line. */
  method ParseMrkRows(lines: seq<string>, parse: string -> Option<real>) returns (r: Result<seq<MrkRow>>)
    ensures r == MrkRows(lines, |lines|, parse)
  {
    var n := |lines|;
    var rows := new MrkRow[n](_ => MrkRow(0.0, "", 0.0, 0.0, 0.0, 0.0, 0.0, 0.0, 0.0, 0.0, 0.0, 0.0, ""));
    for i := 0 to n
      invariant MrkRows(lines, i, parse) == Ok(rows[..i])
    {
      var row := ParseMrkRow(SplitOn(lines[i], Dji.MrkDelims), parse);
      if row.Raise? {
        MrkRowsFails(lines, i + 1, n, parse);
        return Raise(row.error);
      }
      MrkRowsStep(lines, i, parse, rows[..i], row.value);
      rows[i] := row.value;
      assert rows[..i + 1] == rows[..i] + [row.value];
    }
    assert rows[..n] == rows[..];
    return Ok(rows[..]);
  }

  /** Row `i` of a successful read is line `i` of the file. */
  lemma MrkRowsAt(lines: seq<string>, n: nat, parse: string -> Option<real>, i: nat)
    requires n <= |lines| && i < n && MrkRows(lines, n, parse).Ok?
    ensures ParseMrkRow(SplitOn(lines[i], Dji.MrkDelims), parse) == Ok(MrkRows(lines, n, parse).value[i])
  {
    GatherAt(MrkLines(lines, parse), n, i);
  }

  /** The lists hold one entry per line of the file found: lines that share an id
      are not merged. */
  lemma RwMrkReadShape(fname: string, fs: map<string, seq<string>>, parse: string -> Option<real>)
    requires RwMrkReadSpec(fname, fs, parse).Ok?
    ensures var located := FileExtCheckerSpec(fname, OneExt("mrk"), fs.Keys);
      var c := RwMrkReadSpec(fname, fs, parse).value;
      && located.Found? && located.path in fs
      && |c.name| == |c.dN| == |c.dE| == |c.stdN| == |c.stdE| == |fs[located.path]|
  {
  }

  /** Entry `i` of the lists comes from line `i`, in file order. Name is the `'%03d'`
      text of field 0 (padded, never cut), and dN, dE, stdN and stdE come from fields
      3, 5, 15 and 16. */
  lemma RwMrkReadLines(fname: string, fs: map<string, seq<string>>, parse: string -> Option<real>, i: nat)
    requires RwMrkReadSpec(fname, fs, parse).Ok?
    requires var located := FileExtCheckerSpec(fname, OneExt("mrk"), fs.Keys);
      located.Found? && located.path in fs && i < |fs[located.path]|
    ensures var lines := fs[FileExtCheckerSpec(fname, OneExt("mrk"), fs.Keys).path];
      var c := RwMrkReadSpec(fname, fs, parse).value;
      var f := SplitOn(lines[i], Dji.MrkDelims);
      && i < |c.name| && i < |c.dN| && i < |c.dE| && i < |c.stdN| && i < |c.stdE|
      && |f| >= 20
      && parse(f[0]).Some? && c.name[i] == FormatInt(Trunc(parse(f[0]).value), 3)
      && parse(f[3]).Some? && c.dN[i] == parse(f[3]).value
      && parse(f[5]).Some? && c.dE[i] == parse(f[5]).value
      && parse(f[15]).Some? && c.stdN[i] == parse(f[15]).value
      && parse(f[16]).Some? && c.stdE[i] == parse(f[16]).value
  {
    var lines := fs[FileExtCheckerSpec(fname, OneExt("mrk"), fs.Keys).path];
    var rows := MrkRows(lines, |lines|, parse).value;
    assert RwMrkReadSpec(fname, fs, parse) == Ok(Columns(rows));
    MrkRowsAt(lines, |lines|, parse, i);
    ParseMrkRowFields(SplitOn(lines[i], Dji.MrkDelims), parse);
  }

  /** The fields a parsed row takes from its line. */
  lemma ParseMrkRowFields(f: seq<string>, parse: string -> Option<real>)
    requires ParseMrkRow(f, parse).Ok?
    ensures var row := ParseMrkRow(f, parse).value;
      && |f| >= 20
      && parse(f[0]).Some? && row.name == FormatInt(Trunc(parse(f[0]).value), 3)
      && parse(f[3]).Some? && row.dN == parse(f[3]).value
      && parse(f[5]).Some? && row.dE == parse(f[5]).value
      && parse(f[15]).Some? && row.stdN == parse(f[15]).value
      && parse(f[16]).Some? && row.stdE == parse(f[16]).value
  {
  }

  /** On the same line the two readers agree on everything but the east and north
      components, which they exchange: the list reader's dN is the dict reader's dE,
      and so on. */
  lemma ReadersSwapEastNorth(line: seq<string>, parse: string -> Option<real>)
    ensures ParseMrkRow(line, parse).Ok? <==> Dji.ParseMrkLine(line, parse).Ok?
    ensures ParseMrkRow(line, parse).Ok? ==>
      var a := ParseMrkRow(line, parse).value;
      var b := Dji.ParseMrkLine(line, parse).value;
      && a.dN == b.dE && a.dE == b.dN && a.stdN == b.stdE && a.stdE == b.stdN
      && a.lat == b.lat && a.lon == b.lon && a.ellh == b.ellh && a.dV == b.dV && a.stdV == b.stdV
      && a.time == b.clockTime && a.qual == b.qual && a.flag == b.flag
      && ParseInt(a.name) == Ok(b.id)
  {
    Dji.ParseMrkLineFields(line, parse);
    if |line| > 0 && parse(line[0]).Some? {
      ParseFormatInt(Trunc(parse(line[0]).value), 3);
    }
  }

  // ---------------------------------------------------------------- total-station surveys

  /** A number a reader may have stored as NaN. */
  datatype Float = NaN | Num(x: real)

  /** `float(tokens[i])` inside `try: … except: nan`: a missing token is NaN too. */
  function FloatOrNaN(tokens: seq<string>, i: nat, parse: string -> Option<real>): (f: Float)
    ensures f.Num? <==> i < |tokens| && parse(tokens[i]).Some?
    ensures f.Num? ==> f.x == parse(tokens[i]).value
  {
    if i < |tokens| && parse(tokens[i]).Some? then Num(parse(tokens[i]).value) else NaN
  }

  /** A row of `tsstn`: `[station number, station name, hs]`. */
  datatype Station = Station(index: int, name: string, hs: Float)

  /** A row of `tsobs`: `[station, point, hs, azimuth, zenith, slope distance, hp,
      code, station number]`. `station` and `hs` are None (Python's None) before the
      first station line of an MM2 file. */
  datatype Observation = Observation(
    station: Option<string>, point: string, hs: Option<Float>,
    az: Float, zen: Float, dist: Float, hp: Float, code: string, stationIndex: int)

  /** The loop variables of both readers: the station in force (`stni`, `hsi`) and
      the rows so far (their lengths are `nstn` and `nobs`). */
  datatype Survey = Survey(stni: Option<string>, hsi: Option<Float>, stations: seq<Station>, obs: seq<Observation>)

  const NoSurvey: Survey := Survey(None, None, [], [])

  /** A reader's loop over its rows, stopping at the first row that raises. */
  function SurveyLoop(rows: seq<seq<string>>, s: Survey, step: (Survey, seq<string>) -> Result<Survey>): Result<Survey>
  {
    if |rows| == 0 then Ok(s)
    else
      var next :- step(s, rows[0]);
      SurveyLoop(rows[1..], next, step)
  }

  lemma {:induction false} SurveyLoopAppend(p: seq<seq<string>>, q: seq<seq<string>>, s: Survey,
                                            step: (Survey, seq<string>) -> Result<Survey>)
    ensures SurveyLoop(p + q, s, step) ==
      (if SurveyLoop(p, s, step).Ok? then SurveyLoop(q, SurveyLoop(p, s, step).value, step) else SurveyLoop(p, s, step))
  {
    if |p| > 0 {
      assert (p + q)[0] == p[0] && (p + q)[1..] == p[1..] + q;
      if step(s, p[0]).Ok? {
        SurveyLoopAppend(p[1..], q, step(s, p[0]).value, step);
      }
    } else {
      assert p + q == q;
    }
  }

  /** Stations are numbered in order, and every observation carries the name and
      height of the station its number points at (None and -1 before any). */
  ghost predicate Numbered(obs: seq<Observation>, stations: seq<Station>)
  {
    && (forall k :: 0 <= k < |stations| ==> stations[k].index == k)
    && forall k :: 0 <= k < |obs| ==>
         var o := obs[k];
         && -1 <= o.stationIndex < |stations|
         && (o.stationIndex == -1 ==> o.station == None && o.hs == None)
         && (o.stationIndex >= 0 ==>
               o.station == Some(stations[o.stationIndex].name) && o.hs == Some(stations[o.stationIndex].hs))
  }

  /** The bookkeeping both readers keep: `Numbered`, and `stni` and `hsi` are the
      last station's. */
  ghost predicate Consistent(s: Survey)
  {
    && Numbered(s.obs, s.stations)
    && (|s.stations| == 0 ==> s.stni == None && s.hsi == None)
    && (|s.stations| > 0 ==>
          s.stni == Some(s.stations[|s.stations| - 1].name) && s.hsi == Some(s.stations[|s.stations| - 1].hs))
  }

  lemma NoSurveyConsistent()
    ensures Consistent(NoSurvey)
  {}

  lemma {:induction false} SurveyLoopConsistent(rows: seq<seq<string>>, s: Survey, step: (Survey, seq<string>) -> Result<Survey>)
    requires Consistent(s)
    requires forall t: Survey, row: seq<string> :: Consistent(t) && step(t, row).Ok? ==> Consistent(step(t, row).value)
    ensures SurveyLoop(rows, s, step).Ok? ==> Consistent(SurveyLoop(rows, s, step).value)
  {
    if |rows| > 0 && step(s, rows[0]).Ok? {
      SurveyLoopConsistent(rows[1..], step(s, rows[0]).value, step);
    }
  }

  /** Stations are appended and observations never rewritten: a loop only extends
      both lists. */
  lemma {:induction false} SurveyLoopExtends(rows: seq<seq<string>>, s: Survey, step: (Survey, seq<string>) -> Result<Survey>)
    requires forall t: Survey, row: seq<string> :: step(t, row).Ok? ==>
      && t.stations <= step(t, row).value.stations && t.obs <= step(t, row).value.obs
    ensures SurveyLoop(rows, s, step).Ok? ==>
      s.stations <= SurveyLoop(rows, s, step).value.stations && s.obs <= SurveyLoop(rows, s, step).value.obs
  {
    if |rows| > 0 && step(s, rows[0]).Ok? {
      SurveyLoopExtends(rows[1..], step(s, rows[0]).value, step);
    }
  }

  /** Number of rows whose first token is `kind` (`ltype.count(kind)`). */
  function CountKind(rows: seq<seq<string>>, kind: string): nat
  {
    if |rows| == 0 then 0
    else (if |rows[0]| > 0 && rows[0][0] == kind then 1 else 0) + CountKind(rows[1..], kind)
  }

  // ---------------------------------------------------------------- mm2read

  /** The field separator of MM2 files, ASCII 29. */
  const GroupSeparator: char := 29 as char

  /** The body of the `mm2read` loop for one line split on the group separator. */
  function Mm2Step(s: Survey, line: seq<string>, parse: string -> Option<real>): Result<Survey>
  {
    if |line| > 0 && line[0] == "S|" then
      var name :- if |line| > 1 then Ok(line[1]) else Raise(IndexError);
      var hs :- Dji.Field(line, 3, parse);
      Ok(Survey(Some(name), Some(Num(hs)), s.stations + [Station(|s.stations|, name, Num(hs))], s.obs))
    else if |line| > 0 && line[0] == "P|" then
      var point :- if |line| > 1 then Ok(line[1]) else Raise(IndexError);
      var code :- if |line| > 2 then Ok(line[2]) else Raise(IndexError);
      var hp :- Dji.Field(line, 3, parse);
      var o := Observation(s.stni, point, s.hsi, FloatOrNaN(line, 4, parse), FloatOrNaN(line, 5, parse),
                           FloatOrNaN(line, 6, parse), Num(hp), code, |s.stations| - 1);
      Ok(s.(obs := s.obs + [o]))
    else Ok(s)
  }

  /** The lines of a file split on the group separator. */
  function Mm2Fields(lines: seq<string>): (rows: seq<seq<string>>)
    ensures |rows| == |lines|
  {
    seq(|lines|, i requires 0 <= i < |lines| => SplitOn(lines[i], {GroupSeparator}))
  }

  /** The name opened: `.mm2` is appended to a missing name without that extension. */
  function Mm2Name(fname: string, fs: map<string, seq<string>>): string
  {
    if fname !in fs && Lower(TakeLast(fname, 4)) != ".mm2" then fname + ".mm2" else fname
  }

  /** `mm2read(fname)`, returning `(tsobs, tsstn)`. */
  function Mm2ReadSpec(fname: string, fs: map<string, seq<string>>, parse: string -> Option<real>)
    : Result<(seq<Observation>, seq<Station>)>
  {
    var name := Mm2Name(fname, fs);
    if name !in fs then Raise(OSError)
    else
      var s :- SurveyLoop(Mm2Fields(fs[name]), NoSurvey, (t, line) => Mm2Step(t, line, parse));
      Ok((s.obs, s.stations))
  }

  method Mm2Read(fname: string, fs: map<string, seq<string>>, parse: string -> Option<real>)
    returns (r: Result<(seq<Observation>, seq<Station>)>)
    ensures r == Mm2ReadSpec(fname, fs, parse)
  {
    var name := fname;
    if fname !in fs && Lower(TakeLast(fname, 4)) != ".mm2" {
      name := fname + ".mm2";
    }
    if name !in fs {
      return Raise(OSError);
    }
    var indata := Mm2Fields(fs[name]);
    r := Mm2Loop(indata, parse);
  }

  /** The counting and filling loop: both lists are preallocated to the number of
      station and observation lines and filled through the counters `nstn` and
      `nobs`. */
  method Mm2Loop(indata: seq<seq<string>>, parse: string -> Option<real>)
    returns (r: Result<(seq<Observation>, seq<Station>)>)
    ensures r == (var step := (t, line) => Mm2Step(t, line, parse);
                  var s :- SurveyLoop(indata, NoSurvey, step); Ok((s.obs, s.stations)))
  {
    var step := (t, line) => Mm2Step(t, line, parse);
    var tsstn := new Station[CountKind(indata, "S|")](_ => Station(0, "", NaN));
    var tsobs := new Observation[CountKind(indata, "P|")](_ => Observation(None, "", None, NaN, NaN, NaN, NaN, "", 0));
    var stni: Option<string> := None;
    var hsi: Option<Float> := None;
    var nstn, nobs := 0, 0;
    for i := 0 to |indata|
      invariant nstn + CountKind(indata[i..], "S|") == tsstn.Length
      invariant nobs + CountKind(indata[i..], "P|") == tsobs.Length
      invariant SurveyLoop(indata[i..], Survey(stni, hsi, tsstn[..nstn], tsobs[..nobs]), step)
             == SurveyLoop(indata, NoSurvey, step)
    {
      ghost var s := Survey(stni, hsi, tsstn[..nstn], tsobs[..nobs]);
      CountKindStep(indata, i, "S|");
      CountKindStep(indata, i, "P|");
      var error;
      error, stni, hsi, nstn, nobs := Mm2Line(indata[i], parse, tsstn, tsobs, stni, hsi, nstn, nobs);
      if error.Some? {
        Mm2Stops(indata, i, s, parse);
        return Raise(error.value);
      }
      Mm2Advance(indata, i, s, Survey(stni, hsi, tsstn[..nstn], tsobs[..nobs]), parse);
    }
    assert tsstn[..nstn] == tsstn[..] && tsobs[..nobs] == tsobs[..];
    return Ok((tsobs[..], tsstn[..]));
  }

  /** The body of the loop for one line: a station line fills the next station
      slot, an observation line the next observation slot, each with the station
      in force; any other line changes nothing. */
  method Mm2Line(line: seq<string>, parse: string -> Option<real>, tsstn: array<Station>, tsobs: array<Observation>,
                 stni: Option<string>, hsi: Option<Float>, nstn: nat, nobs: nat)
    returns (error: Option<Error>, stni': Option<string>, hsi': Option<Float>, nstn': nat, nobs': nat)
    requires nstn + (if |line| > 0 && line[0] == "S|" then 1 else 0) <= tsstn.Length
    requires nobs + (if |line| > 0 && line[0] == "P|" then 1 else 0) <= tsobs.Length
    modifies tsstn, tsobs
    ensures nstn' <= tsstn.Length && nobs' <= tsobs.Length
    ensures var r := Mm2Step(Survey(stni, hsi, old(tsstn[..nstn]), old(tsobs[..nobs])), line, parse);
      && (error.Some? ==> r == Raise(error.value))
      && (error.None? ==> r == Ok(Survey(stni', hsi', tsstn[..nstn'], tsobs[..nobs'])))
    ensures error.None? ==> nstn' == nstn + (if |line| > 0 && line[0] == "S|" then 1 else 0)
    ensures error.None? ==> nobs' == nobs + (if |line| > 0 && line[0] == "P|" then 1 else 0)
  {
    error, stni', hsi', nstn', nobs' := None, stni, hsi, nstn, nobs;
    if |line| > 0 && line[0] == "S|" {
      if |line| < 2 {
        error := Some(IndexError);
        return;
      }
      stni' := Some(line[1]);
      var hs := Dji.Field(line, 3, parse);
      if hs.Raise? {
        error := Some(hs.error);
        return;
      }
      hsi' := Some(Num(hs.value));
      tsstn[nstn] := Station(nstn, line[1], Num(hs.value));
      nstn' := nstn + 1;
      assert tsstn[..nstn'] == old(tsstn[..nstn]) + [Station(nstn, line[1], Num(hs.value))];
    } else if |line| > 0 && line[0] == "P|" {
      if |line| < 3 {
        error := Some(IndexError);
        return;
      }
      var hp := Dji.Field(line, 3, parse);
      if hp.Raise? {
        error := Some(hp.error);
        return;
      }
      tsobs[nobs] := Observation(stni, line[1], hsi, FloatOrNaN(line, 4, parse), FloatOrNaN(line, 5, parse),
                                 FloatOrNaN(line, 6, parse), Num(hp.value), line[2], nstn - 1);
      nobs' := nobs + 1;
      assert tsobs[..nobs'] == old(tsobs[..nobs]) + [tsobs[nobs]];
    }
  }

  lemma CountKindStep(rows: seq<seq<string>>, i: nat, kind: string)
    requires i < |rows|
    ensures CountKind(rows[i..], kind) == (if |rows[i]| > 0 && rows[i][0] == kind then 1 else 0) + CountKind(rows[i + 1..], kind)
  {
    assert rows[i..][0] == rows[i] && rows[i..][1..] == rows[i + 1..];
  }

  /** A line the step accepts moves the loop on to the next line. */
  lemma Mm2Advance(rows: seq<seq<string>>, i: nat, s: Survey, t: Survey, parse: string -> Option<real>)
    requires i < |rows| && Mm2Step(s, rows[i], parse) == Ok(t)
    ensures SurveyLoop(rows[i..], s, (u, line) => Mm2Step(u, line, parse))
         == SurveyLoop(rows[i + 1..], t, (u, line) => Mm2Step(u, line, parse))
  {
    assert rows[i..][0] == rows[i] && rows[i..][1..] == rows[i + 1..];
  }

  /** A line the step rejects ends the loop with its error. */
  lemma Mm2Stops(rows: seq<seq<string>>, i: nat, s: Survey, parse: string -> Option<real>)
    requires i < |rows| && Mm2Step(s, rows[i], parse).Raise?
    ensures SurveyLoop(rows[i..], s, (u, line) => Mm2Step(u, line, parse)) == Raise(Mm2Step(s, rows[i], parse).error)
  {
    assert rows[i..][0] == rows[i];
  }

  /** An observation takes the station in force, the last station line before it;
      unreadable angles and distances become NaN, while an unreadable target height
      raises, as does an unreadable station height. */
  lemma Mm2StepObservation(t: Survey, line: seq<string>, parse: string -> Option<real>)
    requires |line| >= 4 && line[0] in {"S|", "P|"}
    ensures parse(line[3]).None? ==> Mm2Step(t, line, parse) == Raise(ValueError)
    ensures line[0] == "P|" && parse(line[3]).Some? ==>
      var r := Mm2Step(t, line, parse);
      && r.Ok? && r.value.stations == t.stations && r.value.stni == t.stni
      && |r.value.obs| == |t.obs| + 1 && r.value.obs[..|t.obs|] == t.obs
      && var o := r.value.obs[|t.obs|];
      && o.stationIndex == |t.stations| - 1 && o.station == t.stni && o.hs == t.hsi
      && o.point == line[1] && o.code == line[2] && o.hp == Num(parse(line[3]).value)
      && (o.az == NaN <==> |line| <= 4 || parse(line[4]).None?)
      && (o.dist == NaN <==> |line| <= 6 || parse(line[6]).None?)
  {
    if line[0] == "P|" && parse(line[3]).Some? {
      var r := Mm2Step(t, line, parse);
      assert r.value.obs[..|t.obs|] == t.obs;
    }
  }

  lemma Mm2StepConsistent(t: Survey, line: seq<string>, parse: string -> Option<real>)
    requires Consistent(t) && Mm2Step(t, line, parse).Ok?
    ensures Consistent(Mm2Step(t, line, parse).value)
  {
    var u := Mm2Step(t, line, parse).value;
    if |line| > 0 && line[0] == "P|" {
      forall k | 0 <= k < |u.obs|
        ensures -1 <= u.obs[k].stationIndex < |u.stations|
      {
        if k < |t.obs| {
          assert u.obs[k] == t.obs[k];
        }
      }
    }
  }

  /** Each observation of a successful read names the station most recently
      defined before it, and station rows are numbered from 0 in file order. */
  lemma Mm2ReadNumbered(fname: string, fs: map<string, seq<string>>, parse: string -> Option<real>)
    requires Mm2ReadSpec(fname, fs, parse).Ok?
    ensures Numbered(Mm2ReadSpec(fname, fs, parse).value.0, Mm2ReadSpec(fname, fs, parse).value.1)
  {
    var step := (t, line) => Mm2Step(t, line, parse);
    forall t: Survey, row: seq<string> | Consistent(t) && step(t, row).Ok?
      ensures Consistent(step(t, row).value)
    {
      Mm2StepConsistent(t, row, parse);
    }
    NoSurveyConsistent();
    SurveyLoopConsistent(Mm2Fields(fs[Mm2Name(fname, fs)]), NoSurvey, step);
  }

  lemma {:induction false} Mm2LoopCounts(rows: seq<seq<string>>, s: Survey, parse: string -> Option<real>)
    ensures var r := SurveyLoop(rows, s, (t, line) => Mm2Step(t, line, parse));
      r.Ok? ==>
        |r.value.stations| == |s.stations| + CountKind(rows, "S|") && |r.value.obs| == |s.obs| + CountKind(rows, "P|")
  {
    if |rows| > 0 && Mm2Step(s, rows[0], parse).Ok? {
      Mm2LoopCounts(rows[1..], Mm2Step(s, rows[0], parse).value, parse);
    }
  }

  /** One station row per `S|` line and one observation row per `P|` line: the
      sizes the lists are preallocated to. */
  lemma Mm2ReadCounts(fname: string, fs: map<string, seq<string>>, parse: string -> Option<real>)
    requires Mm2ReadSpec(fname, fs, parse).Ok?
    ensures var rows := Mm2Fields(fs[Mm2Name(fname, fs)]);
      && |Mm2ReadSpec(fname, fs, parse).value.1| == CountKind(rows, "S|")
      && |Mm2ReadSpec(fname, fs, parse).value.0| == CountKind(rows, "P|")
  {
    Mm2LoopCounts(Mm2Fields(fs[Mm2Name(fname, fs)]), NoSurvey, parse);
  }

  /** A missing name gets `.mm2` appended only when it does not already end in it,
      in any letter case. */
  lemma Mm2NameFallback(fname: string, fs: map<string, seq<string>>, parse: string -> Option<real>)
    ensures fname in fs ==> Mm2Name(fname, fs) == fname
    ensures fname !in fs && Lower(TakeLast(fname, 4)) == ".mm2" ==> Mm2ReadSpec(fname, fs, parse) == Raise(OSError)
    ensures fname !in fs && fname + ".mm2" !in fs ==> Mm2ReadSpec(fname, fs, parse) == Raise(OSError)
  {}

  // ---------------------------------------------------------------- tabulaxlsread

  /** First tokens of the title and header rows of a Tabula export. */
  const HeaderWords: set<string> := {"stampe", "libretto", "gruppi", "tabula", "nome"}

  /** Whether the cleaning loop keeps a row. A row whose only token is `punto`
      raises, because its second token is read to recognise the column header. */
  function KeepRow(row: seq<string>): Result<bool>
  {
    if |row| == 0 then Ok(false)
    else if Lower(row[0]) in HeaderWords then Ok(false)
    else if Lower(row[0]) == "punto" then
      if |row| < 2 then Raise(IndexError) else Ok(Lower(row[1]) != "h.p.")
    else Ok(true)
  }

  /** The cleaning loop from index `i - 1` down to 0, `kept` being the rows above
      `i` that survived. */
  function DropDown(rows: seq<seq<string>>, i: nat, kept: seq<seq<string>>): Result<seq<seq<string>>>
    requires i <= |rows|
  {
    if i == 0 then Ok(kept)
    else
      var keep :- KeepRow(rows[i - 1]);
      DropDown(rows, i - 1, if keep then [rows[i - 1]] + kept else kept)
  }

  /** The rows kept, in order, for a sheet where no row raises. */
  function Kept(rows: seq<seq<string>>): seq<seq<string>>
  {
    if |rows| == 0 then []
    else Kept(rows[..|rows| - 1]) + (if KeepRow(rows[|rows| - 1]) == Ok(true) then [rows[|rows| - 1]] else [])
  }

  /** The cleaning loop, popping rows in place from the last to the first. */
  method DropHeaderRows(rows: seq<seq<string>>) returns (r: Result<seq<seq<string>>>)
    ensures r == DropDown(rows, |rows|, [])
  {
    var indata := rows;
    ghost var kept: seq<seq<string>> := [];
    var i := |rows|;
    while i > 0
      invariant 0 <= i <= |rows|
      invariant indata == rows[..i] + kept
      invariant DropDown(rows, i, kept) == DropDown(rows, |rows|, [])
    {
      i := i - 1;
      var keep := KeepRow(indata[i]);
      if keep.Raise? {
        return Raise(keep.error);
      }
      if keep.value {
        kept := [rows[i]] + kept;
        assert indata == rows[..i] + kept;
      } else {
        indata := indata[..i] + indata[i + 1..];
        assert indata == rows[..i] + kept;
      }
    }
    assert indata == kept;
    return Ok(indata);
  }

  lemma {:induction false} DropDownKept(rows: seq<seq<string>>, i: nat, kept: seq<seq<string>>)
    requires i <= |rows|
    ensures DropDown(rows, i, kept).Raise? <==> exists k :: 0 <= k < i && KeepRow(rows[k]).Raise?
    ensures DropDown(rows, i, kept).Ok? ==> DropDown(rows, i, kept).value == Kept(rows[..i]) + kept
  {
    if i > 0 {
      assert rows[..i][..i - 1] == rows[..i - 1];
      if KeepRow(rows[i - 1]).Ok? {
        DropDownKept(rows, i - 1, if KeepRow(rows[i - 1]).value then [rows[i - 1]] + kept else kept);
      }
    }
  }

  lemma {:induction false} KeptRows(rows: seq<seq<string>>)
    ensures forall r :: r in Kept(rows) ==> r in rows && KeepRow(r) == Ok(true)
  {
    if |rows| > 0 {
      KeptRows(rows[..|rows| - 1]);
    }
  }

  /** Cleaning raises exactly when some row is a lone `punto`; otherwise it keeps
      the rows, in order, that are not empty, not titles and not the column header. */
  lemma DropHeaderRowsKeeps(rows: seq<seq<string>>)
    ensures DropDown(rows, |rows|, []).Raise? <==> exists k :: 0 <= k < |rows| && KeepRow(rows[k]).Raise?
    ensures DropDown(rows, |rows|, []).Ok? ==>
      && DropDown(rows, |rows|, []).value == Kept(rows)
      && forall r :: r in DropDown(rows, |rows|, []).value ==>
           && |r| > 0 && Lower(r[0]) !in HeaderWords
           && (Lower(r[0]) == "punto" ==> |r| > 1 && Lower(r[1]) != "h.p.")
  {
    DropDownKept(rows, |rows|, []);
    assert rows[..|rows|] == rows;
    KeptRows(rows);
  }

  /** `float(tokens[i].replace(',', '.'))` inside `try: … except: nan`. */
  function DecimalOrNaN(tokens: seq<string>, i: nat, parse: string -> Option<real>): Float
  {
    if i < |tokens| then FloatOrNaN([ReplaceChar(tokens[i], ',', '.')], 0, parse) else NaN
  }

  /** The body of the parsing loop for one cleaned row. */
  function TabulaStep(s: Survey, row: seq<string>, parse: string -> Option<real>): Result<Survey>
  {
    if |row| == 0 then Raise(IndexError)
    else if Lower(row[0]) == "stazione" then
      var name :- if |row| > 1 then Ok(row[1]) else Raise(IndexError);
      var hs := FloatOrNaN(row, 4, parse);
      Ok(Survey(Some(name), Some(hs), s.stations + [Station(|s.stations|, name, hs)], s.obs))
    else if |s.stations| > 0 then
      var o := Observation(s.stni, row[0], s.hsi, DecimalOrNaN(row, 2, parse), DecimalOrNaN(row, 3, parse),
                           DecimalOrNaN(row, 4, parse), FloatOrNaN(row, 1, parse),
                           if |row| == 6 then row[5] else "", |s.stations| - 1);
      Ok(s.(obs := s.obs + [o]))
    else Ok(s)
  }

  /** `tabulaxlsread` after the sheet is read: `sheet` is the list of rows, each
      split on white space. */
  function TabulaXlsReadSpec(sheet: seq<seq<string>>, parse: string -> Option<real>)
    : Result<(seq<Observation>, seq<Station>)>
  {
    var rows := [[]] + sheet;
    var cleaned :- DropDown(rows, |rows|, []);
    var s :- SurveyLoop(cleaned, NoSurvey, (t, row) => TabulaStep(t, row, parse));
    Ok((s.obs, s.stations))
  }

  method TabulaXlsRead(sheet: seq<seq<string>>, parse: string -> Option<real>)
    returns (r: Result<(seq<Observation>, seq<Station>)>)
    ensures r == TabulaXlsReadSpec(sheet, parse)
  {
    var cleaned := DropHeaderRows([[]] + sheet);
    if cleaned.Raise? {
      return Raise(cleaned.error);
    }
    var indata := cleaned.value;
    ghost var step := (t, row) => TabulaStep(t, row, parse);
    var tsstn: seq<Station> := [];
    var tsobs: seq<Observation> := [];
    var stni: Option<string> := None;
    var hsi: Option<Float> := None;
    var nstn := 0;
    for i := 0 to |indata|
      invariant nstn == |tsstn|
      invariant SurveyLoop(indata[i..], Survey(stni, hsi, tsstn, tsobs), step) == SurveyLoop(indata, NoSurvey, step)
    {
      assert indata[i..][0] == indata[i] && indata[i..][1..] == indata[i + 1..];
      if |indata[i]| == 0 {
        return Raise(IndexError);
      }
      if Lower(indata[i][0]) == "stazione" {
        if |indata[i]| < 2 {
          return Raise(IndexError);
        }
        stni := Some(indata[i][1]);
        hsi := Some(FloatOrNaN(indata[i], 4, parse));
        tsstn := tsstn + [Station(nstn, indata[i][1], hsi.value)];
        nstn := nstn + 1;
      } else if nstn > 0 {
        var cdi := if |indata[i]| == 6 then indata[i][5] else "";
        tsobs := tsobs + [Observation(stni, indata[i][0], hsi, DecimalOrNaN(indata[i], 2, parse),
                                      DecimalOrNaN(indata[i], 3, parse), DecimalOrNaN(indata[i], 4, parse),
                                      FloatOrNaN(indata[i], 1, parse), cdi, nstn - 1)];
      }
    }
    return Ok((tsobs, tsstn));
  }

  lemma TabulaStepConsistent(t: Survey, row: seq<string>, parse: string -> Option<real>)
    requires Consistent(t) && TabulaStep(t, row, parse).Ok?
    ensures Consistent(TabulaStep(t, row, parse).value)
  {
    var u := TabulaStep(t, row, parse).value;
    if |row| > 0 && Lower(row[0]) != "stazione" && |t.stations| > 0 {
      forall k | 0 <= k < |u.obs|
        ensures -1 <= u.obs[k].stationIndex < |u.stations|
      {
        if k < |t.obs| {
          assert u.obs[k] == t.obs[k];
        }
      }
    }
  }

  /** Each observation of a successful read names the station most recently
      defined above it; station rows are numbered from 0 in sheet order. */
  lemma TabulaReadNumbered(sheet: seq<seq<string>>, parse: string -> Option<real>)
    requires TabulaXlsReadSpec(sheet, parse).Ok?
    ensures Numbered(TabulaXlsReadSpec(sheet, parse).value.0, TabulaXlsReadSpec(sheet, parse).value.1)
    ensures forall o :: o in TabulaXlsReadSpec(sheet, parse).value.0 ==> o.stationIndex >= 0
  {
    var step := (t, row) => TabulaStep(t, row, parse);
    forall t: Survey, row: seq<string> | Consistent(t) && step(t, row).Ok?
      ensures Consistent(step(t, row).value)
    {
      TabulaStepConsistent(t, row, parse);
    }
    forall t: Survey, row: seq<string> | step(t, row).Ok?
      ensures t.stations <= step(t, row).value.stations && t.obs <= step(t, row).value.obs
    {
    }
    NoSurveyConsistent();
    var rows := [[]] + sheet;
    var cleaned := DropDown(rows, |rows|, []).value;
    SurveyLoopConsistent(cleaned, NoSurvey, step);
    TabulaNoOrphans(cleaned, NoSurvey, parse);
  }

  lemma {:induction false} TabulaNoOrphans(rows: seq<seq<string>>, s: Survey, parse: string -> Option<real>)
    requires forall o :: o in s.obs ==> o.stationIndex >= 0
    ensures var r := SurveyLoop(rows, s, (t, row) => TabulaStep(t, row, parse));
      r.Ok? ==> forall o :: o in r.value.obs ==> o.stationIndex >= 0
  {
    if |rows| > 0 && TabulaStep(s, rows[0], parse).Ok? {
      TabulaNoOrphans(rows[1..], TabulaStep(s, rows[0], parse).value, parse);
    }
  }

  /** Rows above the first station row produce nothing: the reader starts as if
      they were not there. */
  lemma TabulaLeadingRowsIgnored(p: seq<seq<string>>, q: seq<seq<string>>, parse: string -> Option<real>)
    requires forall k :: 0 <= k < |p| ==> |p[k]| > 0 && Lower(p[k][0]) != "stazione"
    ensures SurveyLoop(p + q, NoSurvey, (t, row) => TabulaStep(t, row, parse))
         == SurveyLoop(q, NoSurvey, (t, row) => TabulaStep(t, row, parse))
  {
    var step := (t, row) => TabulaStep(t, row, parse);
    NoStationRows(p, parse);
    SurveyLoopAppend(p, q, NoSurvey, step);
  }

  lemma {:induction false} NoStationRows(p: seq<seq<string>>, parse: string -> Option<real>)
    requires forall k :: 0 <= k < |p| ==> |p[k]| > 0 && Lower(p[k][0]) != "stazione"
    ensures SurveyLoop(p, NoSurvey, (t, row) => TabulaStep(t, row, parse)) == Ok(NoSurvey)
  {
    if |p| > 0 {
      NoStationRows(p[1..], parse);
    }
  }

  /** The row with decimal commas in its azimuth, zenith and distance tokens
      turned into points. */
  function DotDecimals(row: seq<string>): (r: seq<string>)
    ensures |r| == |row|
  {
    seq(|row|, i requires 0 <= i < |row| => if 2 <= i <= 4 then ReplaceChar(row[i], ',', '.') else row[i])
  }

  lemma ReplaceTwice(t: string)
    ensures ReplaceChar(ReplaceChar(t, ',', '.'), ',', '.') == ReplaceChar(t, ',', '.')
  {}

  /** In an observation row, decimal commas in the angle and distance tokens read
      as decimal points (the station height of a station row is not normalised). */
  lemma TabulaDecimalComma(t: Survey, row: seq<string>, parse: string -> Option<real>)
    requires |row| > 0 && Lower(row[0]) != "stazione"
    ensures TabulaStep(t, DotDecimals(row), parse) == TabulaStep(t, row, parse)
  {
    var d := DotDecimals(row);
    assert d[0] == row[0];
    forall i | 2 <= i <= 4 && i < |row|
      ensures DecimalOrNaN(d, i, parse) == DecimalOrNaN(row, i, parse)
    {
      ReplaceTwice(row[i]);
    }
    assert |row| > 1 ==> d[1] == row[1];
    assert |row| == 6 ==> d[5] == row[5];
  }

  /** A row after a station row is an observation of that station and never
      raises: unreadable numbers become NaN, and the code is the sixth token only
      when the row has exactly six. */
  lemma TabulaStepObservation(t: Survey, row: seq<string>, parse: string -> Option<real>)
    requires |row| > 0 && Lower(row[0]) != "stazione" && |t.stations| > 0
    ensures var r := TabulaStep(t, row, parse);
      && r.Ok? && r.value.stations == t.stations && r.value.obs[..|t.obs|] == t.obs
      && |r.value.obs| == |t.obs| + 1
      && var o := r.value.obs[|t.obs|];
      && o.stationIndex == |t.stations| - 1 && o.station == t.stni && o.hs == t.hsi && o.point == row[0]
      && (o.code != "" ==> |row| == 6)
      && (|row| == 6 ==> o.code == row[5])
      && (o.hp == NaN <==> |row| < 2 || parse(row[1]).None?)
  {
    var r := TabulaStep(t, row, parse);
    assert r.value.obs[..|t.obs|] == t.obs;
  }
}
