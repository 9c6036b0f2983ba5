/** The DJI marker-log (MRK) pipeline: parsing the log, keying image files by the
    progressive id in their names, left-joining log records to image records,
    projecting the joined rows to UTM and preparing them for CSV export. */
module Dji {
  import opened Outcomes
  import opened Text
  import opened Paths
  import opened ODicts
  import opened Values

  // ------------------------------------------------------------ image ids

  /** `int(Path(fname).stem.split("_")[-1])`. */
  function GetDjiIdFromName(fname: string): (r: Result<int>)
    ensures r.Raise? ==> r.error == ValueError
  {
    ParseInt(Last(SplitOn(Stem(fname), {'_'})))
  }

  /** For a file name `prefix_digits.ext` the id is the value of `digits`: the text
      after the last underscore of the stem. */
  lemma DjiIdOfName(prefix: string, digits: string, ext: string)
    requires NoneIn(prefix, {'/', '.'}) && NoneIn(digits, {'/', '.', '_'}) && NoneIn(ext, {'/', '.'})
    requires |digits| >= 1 && AllDigits(digits) && |ext| >= 1
    ensures GetDjiIdFromName(prefix + "_" + digits + "." + ext) == Ok(DigitsValue(digits))
  {
    var base := prefix + "_" + digits;
    assert prefix + "_" + digits + "." + ext == base + "." + ext;
    StemSuffixOf(base, ext);
    SplitLastField(prefix, '_', digits, {'_'});
    ParseUnsigned(digits);
  }

  lemma Value0123()
    ensures AllDigits("0123") && DigitsValue("0123") == 123
    ensures NoneIn("0123", {'/', '.', '_'})
  {
    assert "0123"[..3] == "012" && "012"[..2] == "01" && "01"[..1] == "0" && "0"[..0] == "";
  }

  lemma Value0001()
    ensures AllDigits("0001") && DigitsValue("0001") == 1
    ensures NoneIn("0001", {'/', '.', '_'})
  {
    assert "0001"[..3] == "000" && "000"[..2] == "00" && "00"[..1] == "0" && "0"[..0] == "";
  }

  /** The names the test suite checks: `DJI_0001.JPG` gives 1, `DJI_0123.JPG` and
      `IMG_0123.JPG` give 123, `dji_0001.JPG` gives 1. */
  lemma DjiIdExampleDji0001()
    ensures GetDjiIdFromName("DJI_0001.JPG") == Ok(1)
  {
    Value0001();
    assert "DJI_0001.JPG" == "DJI" + "_" + "0001" + "." + "JPG";
    DjiIdOfName("DJI", "0001", "JPG");
  }

  lemma DjiIdExampleDji0123()
    ensures GetDjiIdFromName("DJI_0123.JPG") == Ok(123)
  {
    Value0123();
    assert "DJI_0123.JPG" == "DJI" + "_" + "0123" + "." + "JPG";
    DjiIdOfName("DJI", "0123", "JPG");
  }

  lemma DjiIdExampleImg0123()
    ensures GetDjiIdFromName("IMG_0123.JPG") == Ok(123)
  {
    Value0123();
    assert "IMG_0123.JPG" == "IMG" + "_" + "0123" + "." + "JPG";
    DjiIdOfName("IMG", "0123", "JPG");
  }

  lemma DjiIdExampleLower0001()
    ensures GetDjiIdFromName("dji_0001.JPG") == Ok(1)
  {
    Value0001();
    assert "dji_0001.JPG" == "dji" + "_" + "0001" + "." + "JPG";
    DjiIdOfName("dji", "0001", "JPG");
  }

  // ------------------------------------------------------------ MRK records

  /** The characters a log line is split on: comma, tab, bar and newline. */
  const MrkDelims: set<char> := {',', '\t', '|', '\n'}

  /** One parsed log line (the MrkData dict). */
  datatype MrkRecord = MrkRecord(
    id: int, clockTime: real, lat: real, lon: real, ellh: real,
    stdE: real, stdN: real, stdV: real, dE: real, dN: real, dV: real,
    qual: real, flag: string)

  /** `np.float_(line[i])`: an IndexError for a short line, a ValueError for text
      that is not a number. */
  function Field(line: seq<string>, i: nat, parse: string -> Option<real>): (r: Result<real>)
    ensures r.Ok? <==> i < |line| && parse(line[i]).Some?
    ensures r.Ok? ==> r.value == parse(line[i]).value
    ensures r.Raise? ==> r.error == (if i < |line| then ValueError else IndexError)
  {
    if i >= |line| then Raise(IndexError)
    else match parse(line[i])
      case None => Raise(ValueError)
      case Some(x) => Ok(x)
  }

  /** The body of the parsing loop for one split line, fields read in the order the
      `MrkData(...)` call evaluates them. */
  function ParseMrkLine(line: seq<string>, parse: string -> Option<real>): Result<MrkRecord>
  {
    var f0 :- Field(line, 0, parse);
    var id :- ParseInt(FormatInt(Trunc(f0), 3));
    var clockTime :- Field(line, 1, parse);
    var lat :- Field(line, 9, parse);
    var lon :- Field(line, 11, parse);
    var ellh :- Field(line, 13, parse);
    var stdE :- Field(line, 15, parse);
    var stdN :- Field(line, 16, parse);
    var stdV :- Field(line, 17, parse);
    var dE :- Field(line, 3, parse);
    var dN :- Field(line, 5, parse);
    var dV :- Field(line, 7, parse);
    var qual :- Field(line, 18, parse);
    var flag :- if 19 < |line| then Ok(line[19]) else Raise(IndexError);
    Ok(MrkRecord(id, clockTime, lat, lon, ellh, stdE, stdN, stdV, dE, dN, dV, qual, flag))
  }

  /** Fields are taken from fixed positions of the split line: dE/dN/dV from 3/5/7,
      lat/lon/ellh from 9/11/13, stdE/stdN/stdV from 15/16/17, Qual from 18 and the
      raw Flag text from 19; the id is field 0 truncated toward zero, never wrapped
      by the three-digit formatting. A line is accepted exactly when it has at least
      20 fields and those 13 numeric fields parse. */
  lemma ParseMrkLineFields(line: seq<string>, parse: string -> Option<real>)
    ensures ParseMrkLine(line, parse).Ok? <==>
      |line| >= 20 && forall i :: i in {0, 1, 3, 5, 7, 9, 11, 13, 15, 16, 17, 18} ==> parse(line[i]).Some?
    ensures ParseMrkLine(line, parse).Ok? ==>
      var m := ParseMrkLine(line, parse).value;
      && m.id == Trunc(parse(line[0]).value)
      && m.clockTime == parse(line[1]).value
      && m.dE == parse(line[3]).value && m.dN == parse(line[5]).value && m.dV == parse(line[7]).value
      && m.lat == parse(line[9]).value && m.lon == parse(line[11]).value && m.ellh == parse(line[13]).value
      && m.stdE == parse(line[15]).value && m.stdN == parse(line[16]).value && m.stdV == parse(line[17]).value
      && m.qual == parse(line[18]).value && m.flag == line[19]
  {
    if |line| > 0 && parse(line[0]).Some? {
      ParseFormatInt(Trunc(parse(line[0]).value), 3);
    }
  }

  // ------------------------------------------------------------ reading the log

  /** The parse result of one log line. */
  function LineRecord(line: string, parse: string -> Option<real>): Result<MrkRecord>
  {
    ParseMrkLine(SplitOn(line, MrkDelims), parse)
  }

  /** The per-line parse results, in file order. */
  function LineRecords(lines: seq<string>, parse: string -> Option<real>): (rs: seq<Result<MrkRecord>>)
    ensures |rs| == |lines|
  {
    if |lines| == 0 then []
    else LineRecords(lines[..|lines| - 1], parse) + [LineRecord(lines[|lines| - 1], parse)]
  }

  /** Entry `i` is the parse result of line `i`. */
  lemma {:induction false} LineRecordsAt(lines: seq<string>, parse: string -> Option<real>, i: nat)
    requires i < |lines|
    ensures LineRecords(lines, parse)[i] == LineRecord(lines[i], parse)
  {
    if i < |lines| - 1 {
      LineRecordsAt(lines[..|lines| - 1], parse, i);
    }
  }

  function RecordId(m: MrkRecord): int
  {
    m.id
  }

  /** `mrkread(fname)` on a file that `present` says is present, whose text lines are
      `lines`. */
  function MrkReadSpec(fname: string, present: bool, lines: seq<string>, parse: string -> Option<real>): Result<ODict<int, MrkRecord>>
  {
    if !present || Lower(Suffix(fname)) != ".mrk" then Raise(AssertionError)
    else PutAll(LineRecords(lines, parse), RecordId, Empty())
  }

  method MrkRead(fname: string, present: bool, lines: seq<string>, parse: string -> Option<real>)
    returns (r: Result<ODict<int, MrkRecord>>)
    ensures r == MrkReadSpec(fname, present, lines, parse)
  {
    if !present || Lower(Suffix(fname)) != ".mrk" {
      return Raise(AssertionError);
    }
    ghost var entries := LineRecords(lines, parse);
    var outdata: ODict<int, MrkRecord> := Empty();
    var i := 0;
    while i < |lines|
      invariant 0 <= i <= |lines|
      invariant outdata.Valid()
      invariant PutAll(entries[i..], RecordId, outdata) == PutAll(entries, RecordId, Empty())
    {
      var line := SplitOn(lines[i], MrkDelims);
      var data := ParseMrkLine(line, parse);
      LineRecordsAt(lines, parse, i);
      assert entries[i..][0] == data;
      if data.Raise? {
        return Raise(data.error);
      }
      assert entries[i..][1..] == entries[i + 1..];
      outdata := outdata.Put(data.value.id, data.value);
      i := i + 1;
    }
    return Ok(outdata);
  }

  /** A log is read exactly when the file exists, has a `.mrk` suffix in any case and
      every line parses; otherwise the first failure is the error. */
  lemma MrkReadOk(fname: string, present: bool, lines: seq<string>, parse: string -> Option<real>)
    ensures MrkReadSpec(fname, present, lines, parse).Ok? <==>
      present && Lower(Suffix(fname)) == ".mrk" && AllOk(LineRecords(lines, parse))
    ensures !present || Lower(Suffix(fname)) != ".mrk" ==> MrkReadSpec(fname, present, lines, parse) == Raise(AssertionError)
    ensures present && Lower(Suffix(fname)) == ".mrk" && MrkReadSpec(fname, present, lines, parse).Raise? ==>
      exists i :: 0 <= i < |lines| && LineRecord(lines[i], parse) == Raise(MrkReadSpec(fname, present, lines, parse).error)
        && forall j :: 0 <= j < i ==> LineRecord(lines[j], parse).Ok?
  {
    var rs := LineRecords(lines, parse);
    PutAllOk(rs, RecordId, Empty());
    if present && Lower(Suffix(fname)) == ".mrk" && MrkReadSpec(fname, present, lines, parse).Raise? {
      var i :| 0 <= i < |rs| && rs[i].Raise? && MrkReadSpec(fname, present, lines, parse).error == rs[i].error
        && forall j :: 0 <= j < i ==> rs[j].Ok?;
      LineRecordsAt(lines, parse, i);
      forall j | 0 <= j < i
        ensures LineRecord(lines[j], parse).Ok?
      {
        LineRecordsAt(lines, parse, j);
      }
    }
  }

  /** The dict holds one entry per distinct id, and the record of an id is that of
      the last line carrying it. */
  lemma MrkReadLastWins(fname: string, present: bool, lines: seq<string>, parse: string -> Option<real>)
    requires MrkReadSpec(fname, present, lines, parse).Ok?
    ensures var d := MrkReadSpec(fname, present, lines, parse).value;
      var rs := LineRecords(lines, parse);
      && AllOk(rs)
      && (forall k :: k in d.items <==> exists i :: 0 <= i < |rs| && rs[i].value.id == k)
      && (forall i :: 0 <= i < |rs| && (forall j :: i < j < |rs| ==> rs[j].value.id != rs[i].value.id) ==>
            d.items[rs[i].value.id] == rs[i].value)
  {
    var rs := LineRecords(lines, parse);
    assert MrkReadSpec(fname, present, lines, parse) == PutAll(rs, RecordId, Empty());
    PutAllFresh(rs, RecordId);
  }

  // ------------------------------------------------------------ image records

  /** What opening an image yields: the read raises, or its capture date and time
      and, when the GPS tags can be decoded, latitude, longitude and height. */
  datatype ImageRead = Unreadable | Readable(date: Value, time: Value, gps: Option<(Value, Value, Value)>)

  /** One image record (the ExifData dict). */
  datatype ExifRecord = ExifRecord(id: int, name: string, path: string, date: Value, time: Value, lat: Value, lon: Value, ellh: Value)

  /** The variables the loop of `get_images` carries: the last id assigned (None
      while `id` is still unbound) and the dict built so far. */
  datatype ImagesState = ImagesState(lastId: Option<int>, exif: ODict<int, Option<ExifRecord>>)

  /** One pass of the `try` body and its `except`: reading the image, taking the id
      from the name, decoding the GPS tags; any failure stores None under the id
      last assigned, which may still be that of an earlier file. */
  function ImageStep(st: ImagesState, file: string, read: string -> ImageRead): (r: Result<ImagesState>)
    requires st.exif.Valid()
    ensures r.Ok? ==> r.value.exif.Valid()
  {
    var img := read(file);
    var id := if img.Readable? then GetDjiIdFromName(file) else Raise(ValueError);
    if img.Readable? && id.Ok? && img.gps.Some? then
      var (lat, lon, ellh) := img.gps.value;
      var rec := ExifRecord(id.value, Stem(file), file, img.date, img.time, lat, lon, ellh);
      Ok(ImagesState(Some(id.value), st.exif.Put(id.value, Some(rec))))
    else if img.Readable? && id.Ok? then
      Ok(ImagesState(Some(id.value), st.exif.Put(id.value, None)))
    else if st.lastId.Some? then
      Ok(ImagesState(st.lastId, st.exif.Put(st.lastId.value, None)))
    else
      Raise(UnboundLocalError)
  }

  function ImagesLoop(files: seq<string>, st: ImagesState, read: string -> ImageRead): (r: Result<ImagesState>)
    requires st.exif.Valid()
    ensures r.Ok? ==> r.value.exif.Valid()
    decreases |files|
  {
    if |files| == 0 then Ok(st)
    else
      var st' :- ImageStep(st, files[0], read);
      ImagesLoop(files[1..], st', read)
  }

  /** `get_images` over the listed image files. */
  function GetImagesSpec(files: seq<string>, read: string -> ImageRead): Result<ODict<int, Option<ExifRecord>>>
  {
    var st :- ImagesLoop(files, ImagesState(None, Empty()), read);
    Ok(st.exif)
  }

  method GetImages(files: seq<string>, read: string -> ImageRead) returns (r: Result<ODict<int, Option<ExifRecord>>>)
    ensures r == GetImagesSpec(files, read)
  {
    var exifdata: ODict<int, Option<ExifRecord>> := Empty();
    var id: Option<int> := None;
    var i := 0;
    while i < |files|
      invariant 0 <= i <= |files| && exifdata.Valid()
      invariant ImagesLoop(files[i..], ImagesState(id, exifdata), read) == ImagesLoop(files, ImagesState(None, Empty()), read)
    {
      assert files[i..][0] == files[i] && files[i..][1..] == files[i + 1..];
      var step := ReadImage(id, exifdata, files[i], read);
      if step.Raise? {
        return Raise(step.error);
      }
      id, exifdata := step.value.lastId, step.value.exif;
      i := i + 1;
    }
    return Ok(exifdata);
  }

  /** The `try` body for one file and its `except` branch. */
  method ReadImage(id: Option<int>, exifdata: ODict<int, Option<ExifRecord>>, file: string, read: string -> ImageRead)
    returns (r: Result<ImagesState>)
    requires exifdata.Valid()
    ensures r == ImageStep(ImagesState(id, exifdata), file, read)
  {
    var img := read(file);
    if img.Readable? {
      var newId := GetDjiIdFromName(file);
      if newId.Ok? {
        if img.gps.Some? {
          var (lat, lon, ellh) := img.gps.value;
          var data := ExifRecord(newId.value, Stem(file), file, img.date, img.time, lat, lon, ellh);
          return Ok(ImagesState(Some(newId.value), exifdata.Put(newId.value, Some(data))));
        }
        return Ok(ImagesState(Some(newId.value), exifdata.Put(newId.value, None)));
      }
    }
    if id.None? {
      return Raise(UnboundLocalError);
    }
    return Ok(ImagesState(id, exifdata.Put(id.value, None)));
  }

  /** The record `get_images` builds for a file that reads completely. */
  function RecordOf(file: string, read: string -> ImageRead): Option<ExifRecord>
  {
    var img := read(file);
    var id := GetDjiIdFromName(file);
    if img.Readable? && id.Ok? && img.gps.Some? then
      Some(ExifRecord(id.value, Stem(file), file, img.date, img.time, img.gps.value.0, img.gps.value.1, img.gps.value.2))
    else None
  }

  /** Every entry is keyed by the id of some listed file, and every stored record is
      the record of a listed file with that id. */
  predicate Witnessed(exif: ODict<int, Option<ExifRecord>>, files: seq<string>, read: string -> ImageRead)
  {
    forall k :: k in exif.items ==>
      (exists i :: 0 <= i < |files| && GetDjiIdFromName(files[i]) == Ok(k) && read(files[i]).Readable?) &&
      (exif.items[k].Some? ==> exists i :: 0 <= i < |files| && GetDjiIdFromName(files[i]) == Ok(k) && RecordOf(files[i], read) == exif.items[k])
  }

  lemma {:induction false} ImagesLoopWitnessed(all: seq<string>, n: nat, st: ImagesState, read: string -> ImageRead)
    requires n <= |all| && st.exif.Valid()
    requires Witnessed(st.exif, all, read)
    requires st.lastId.Some? ==> exists i :: 0 <= i < |all| && GetDjiIdFromName(all[i]) == Ok(st.lastId.value) && read(all[i]).Readable?
    ensures ImagesLoop(all[n..], st, read).Ok? ==> Witnessed(ImagesLoop(all[n..], st, read).value.exif, all, read)
    decreases |all| - n
  {
    if n < |all| {
      var file := all[n];
      assert all[n..][0] == file && all[n..][1..] == all[n + 1..];
      var step := ImageStep(st, file, read);
      if step.Ok? {
        ImageStepWitnessed(all, n, st, read);
        ImagesLoopWitnessed(all, n + 1, step.value, read);
      }
    }
  }

  /** One iteration keeps every key and record witnessed by a listed file. */
  lemma ImageStepWitnessed(all: seq<string>, n: nat, st: ImagesState, read: string -> ImageRead)
    requires n < |all| && st.exif.Valid()
    requires Witnessed(st.exif, all, read)
    requires st.lastId.Some? ==> exists i :: 0 <= i < |all| && GetDjiIdFromName(all[i]) == Ok(st.lastId.value) && read(all[i]).Readable?
    requires ImageStep(st, all[n], read).Ok?
    ensures var st' := ImageStep(st, all[n], read).value;
      && Witnessed(st'.exif, all, read)
      && (st'.lastId.Some? ==> exists i :: 0 <= i < |all| && GetDjiIdFromName(all[i]) == Ok(st'.lastId.value) && read(all[i]).Readable?)
  {
    var file := all[n];
    var st' := ImageStep(st, file, read).value;
    var img := read(file);
    var id := GetDjiIdFromName(file);
    if img.Readable? && id.Ok? {
      assert st'.exif.items == st.exif.items[id.value := RecordOf(file, read)];
      assert st'.lastId == Some(id.value);
    } else {
      var last := st.lastId.value;
      assert st'.exif.items == st.exif.items[last := None];
      assert st'.lastId == st.lastId;
    }
  }

  /** Keys of `get_images` are ids of readable files, and each record stored is the
      record of a file carrying that id. */
  lemma GetImagesKeys(files: seq<string>, read: string -> ImageRead)
    ensures GetImagesSpec(files, read).Ok? ==> Witnessed(GetImagesSpec(files, read).value, files, read)
  {
    assert files[0..] == files;
    ImagesLoopWitnessed(files, 0, ImagesState(None, Empty()), read);
  }

  /** A failed read stores None under the id last assigned: when the image after a
      good one cannot be opened, the good record is overwritten by None. */
  lemma GetImagesStaleId(good: string, bad: string, read: string -> ImageRead)
    requires RecordOf(good, read).Some? && read(bad).Unreadable?
    ensures GetImagesSpec([good, bad], read).Ok?
    ensures GetImagesSpec([good, bad], read).value.items == map[RecordOf(good, read).value.id := None]
  {
    var st0 := ImagesState(None, Empty<int, Option<ExifRecord>>());
    var rec := RecordOf(good, read).value;
    var st1 := ImagesState(Some(rec.id), st0.exif.Put(rec.id, Some(rec)));
    assert ImageStep(st0, good, read) == Ok(st1);
    var st2 := ImagesState(Some(rec.id), st1.exif.Put(rec.id, None));
    assert ImageStep(st1, bad, read) == Ok(st2);
    assert [good, bad][1..] == [bad] && [bad][1..] == [];
    assert ImagesLoop([bad], st1, read) == Ok(st2);
    assert ImagesLoop([good, bad], st0, read) == Ok(st2);
  }

  /** When the first image cannot be opened no id has been assigned yet, and the
      `except` branch itself raises. */
  lemma GetImagesFirstUnreadable(files: seq<string>, read: string -> ImageRead)
    requires |files| > 0 && read(files[0]).Unreadable?
    ensures GetImagesSpec(files, read) == Raise(UnboundLocalError)
  {
  }

  // ------------------------------------------------------------ joining

  /** The joined row for a log record and the image record with the same id. */
  function MergedRow(m: MrkRecord, e: ExifRecord): Row
  {
    map[
      "id" := Int(m.id),
      "clock_time_mrk" := Real(m.clockTime),
      "lat_mrk" := Real(m.lat),
      "lon_mrk" := Real(m.lon),
      "ellh_mrk" := Real(m.ellh),
      "stdE_mrk" := Real(m.stdE),
      "stdN_mrk" := Real(m.stdN),
      "stdV_mrk" := Real(m.stdV),
      "dE_mrk" := Real(m.dE),
      "dN_mrk" := Real(m.dN),
      "dV_mrk" := Real(m.dV),
      "Qual_mrk" := Real(m.qual),
      "Flag_mrk" := Text(m.flag),
      "name_exif" := Text(e.name),
      "path_exif" := Text(e.path),
      "date_exif" := e.date,
      "time_exif" := e.time,
      "lat_exif" := e.lat,
      "lon_exif" := e.lon,
      "ellh_exif" := e.ellh
    ]
  }

  /** The value the join stores under a log key: None when the images have no entry,
      a TypeError when their entry is None. */
  function MergeEntry(mrk: ODict<int, MrkRecord>, exif: ODict<int, Option<ExifRecord>>, key: int): Result<Option<Row>>
  {
    if key !in mrk.items then Raise(KeyError)
    else if key in exif.items then
      match exif.items[key]
        case None => Raise(TypeError)
        case Some(e) => Ok(Some(MergedRow(mrk.items[key], e)))
    else Ok(None)
  }

  function MergeEntries(mrk: ODict<int, MrkRecord>, exif: ODict<int, Option<ExifRecord>>): int -> Result<Option<Row>>
  {
    k => MergeEntry(mrk, exif, k)
  }

  /** Which log keys make the join raise, and with what. */
  lemma MergeEntryFails(mrk: ODict<int, MrkRecord>, exif: ODict<int, Option<ExifRecord>>, key: int)
    requires key in mrk.items
    ensures MergeEntries(mrk, exif)(key).Raise? <==> key in exif.items && exif.items[key].None?
    ensures MergeEntries(mrk, exif)(key).Raise? ==> MergeEntries(mrk, exif)(key).error == TypeError
  {
  }

  /** `merge_mrk_exif_data(mrk_dict, exif_dict)`. */
  function MergeSpec(mrk: ODict<int, MrkRecord>, exif: ODict<int, Option<ExifRecord>>): Result<Table>
  {
    PutEach(mrk.keys, MergeEntries(mrk, exif), Empty())
  }

  method MergeMrkExifData(mrk: ODict<int, MrkRecord>, exif: ODict<int, Option<ExifRecord>>) returns (r: Result<Table>)
    requires mrk.Valid()
    ensures r == MergeSpec(mrk, exif)
  {
    var merged: Table := Empty();
    var i := 0;
    while i < |mrk.keys|
      invariant 0 <= i <= |mrk.keys| && merged.Valid()
      invariant PutEach(mrk.keys[i..], MergeEntries(mrk, exif), merged) == MergeSpec(mrk, exif)
    {
      var key := mrk.keys[i];
      var entry := JoinEntry(mrk, exif, key);
      if entry.Raise? {
        PutEachStops(mrk.keys, i, MergeEntries(mrk, exif), merged);
        return Raise(entry.error);
      }
      PutEachStep(mrk.keys, i, MergeEntries(mrk, exif), merged, entry.value);
      merged := merged.Put(key, entry.value);
      i := i + 1;
    }
    assert mrk.keys[i..] == [];
    return Ok(merged);
  }

  /** The body of the join loop for one log key: None for a key the images lack,
      TypeError for an image entry that is None, else the joined row. */
  method JoinEntry(mrk: ODict<int, MrkRecord>, exif: ODict<int, Option<ExifRecord>>, key: int)
    returns (entry: Result<Option<Row>>)
    requires key in mrk.items
    ensures entry == MergeEntries(mrk, exif)(key)
  {
    if key in exif.items {
      if exif.items[key].None? {
        return Raise(TypeError);
      }
      return Ok(Some(MergedRow(mrk.items[key], exif.items[key].value)));
    }
    return Ok(None);
  }

  /** The join fails, with TypeError, exactly when a log key's image entry is None. */
  lemma MergeFails(mrk: ODict<int, MrkRecord>, exif: ODict<int, Option<ExifRecord>>)
    requires mrk.Valid()
    ensures MergeSpec(mrk, exif).Raise? <==> exists k :: k in mrk.items && k in exif.items && exif.items[k].None?
    ensures MergeSpec(mrk, exif).Raise? ==> MergeSpec(mrk, exif).error == TypeError
  {
    var f := MergeEntries(mrk, exif);
    PutEachOk(mrk.keys, f, Empty());
    if MergeSpec(mrk, exif).Raise? {
      var i :| 0 <= i < |mrk.keys| && f(mrk.keys[i]).Raise? && MergeSpec(mrk, exif).error == f(mrk.keys[i]).error;
      MergeEntryFails(mrk, exif, mrk.keys[i]);
    }
    if exists k :: k in mrk.items && k in exif.items && exif.items[k].None? {
      var k :| k in mrk.items && k in exif.items && exif.items[k].None?;
      var i :| 0 <= i < |mrk.keys| && mrk.keys[i] == k;
      MergeEntryFails(mrk, exif, k);
    }
  }

  /** The entry the join stores under one log key. */
  lemma MergeAt(mrk: ODict<int, MrkRecord>, exif: ODict<int, Option<ExifRecord>>, k: int)
    requires mrk.Valid() && MergeSpec(mrk, exif).Ok? && k in mrk.items
    ensures k in MergeSpec(mrk, exif).value.items
    ensures k !in exif.items ==> MergeSpec(mrk, exif).value.items[k].None?
    ensures k in exif.items ==>
      exif.items[k].Some? && MergeSpec(mrk, exif).value.items[k] == Some(MergedRow(mrk.items[k], exif.items[k].value))
  {
    var i :| 0 <= i < |mrk.keys| && mrk.keys[i] == k;
    PutEachAt(mrk.keys, MergeEntries(mrk, exif), Empty(), i);
  }

  /** The join keeps the log's keys in the log's order: a key missing from the images
      maps to None, image-only keys are dropped, and a matched key holds the joined row. */
  lemma MergeKeys(mrk: ODict<int, MrkRecord>, exif: ODict<int, Option<ExifRecord>>)
    requires mrk.Valid() && MergeSpec(mrk, exif).Ok?
    ensures var d := MergeSpec(mrk, exif).value;
      && d.keys == mrk.keys
      && (forall k :: k in d.items <==> k in mrk.items)
      && (forall k :: k in mrk.items && k !in exif.items ==> d.items[k].None?)
      && (forall k :: k in mrk.items && k in exif.items ==> exif.items[k].Some? && d.items[k] == Some(MergedRow(mrk.items[k], exif.items[k].value)))
  {
    PutEachOrder(mrk.keys, MergeEntries(mrk, exif), Empty());
    assert Empty<int, Option<Row>>().keys + mrk.keys == mrk.keys;
    forall k | k in mrk.items
      ensures k in MergeSpec(mrk, exif).value.items
      ensures k !in exif.items ==> MergeSpec(mrk, exif).value.items[k].None?
      ensures k in exif.items ==>
        exif.items[k].Some? && MergeSpec(mrk, exif).value.items[k] == Some(MergedRow(mrk.items[k], exif.items[k].value))
    {
      MergeAt(mrk, exif, k);
    }
  }
}
