/** `get_epsg_from_utm_zone` and `dji2csv` of dji.py: the UTM zone name becomes an
    EPSG code, and the joined dict is prepared for the CSV export (coordinate source,
    optional projection, standard deviations scaled by quality) and written row by row. */
module DjiCsv {
  import opened Outcomes
  import opened Text
  import opened Paths
  import opened ODicts
  import opened Values
  import opened Projection
  import opened Dji

  // ------------------------------------------------------------ EPSG codes

  /** `get_epsg_from_utm_zone(utm_zone)`: the number before the last character plus
      32600 when that character is 'N', 32700 for any other character. */
  function GetEpsgFromUtmZone(zone: string): (r: Result<int>)
    ensures |zone| == 0 ==> r == Raise(IndexError)
    ensures |zone| > 0 ==> r.Ok? == ParseInt(zone[..|zone| - 1]).Ok?
  {
    if |zone| == 0 then Raise(IndexError)
    else
      var n :- ParseInt(zone[..|zone| - 1]);
      Ok((if zone[|zone| - 1] == 'N' then 32600 else 32700) + n)
  }

  /** A zone written as a number and a hemisphere letter maps to the WGS 84 / UTM code of
      the EPSG registry: 326zz for 'N', 327zz otherwise, with no range check on zz. */
  lemma EpsgOfZone(n: int, hemisphere: char)
    ensures GetEpsgFromUtmZone(FormatInt(n, 0) + [hemisphere]) ==
      Ok(if hemisphere == 'N' then 32600 + n else 32700 + n)
  {
    var z := FormatInt(n, 0) + [hemisphere];
    assert z[..|z| - 1] == FormatInt(n, 0);
    ParseFormatInt(n, 0);
  }

  lemma Digits32()
    ensures FormatInt(32, 0) == "32"
  {
    assert Digits(32) == Digits(3) + [DigitChar(2)];
  }

  /** The default zone "32N" is EPSG:32632 (WGS 84 / UTM zone 32N). */
  lemma EpsgExampleNorth()
    ensures GetEpsgFromUtmZone("32N") == Ok(32632)
  {
    Digits32();
    EpsgOfZone(32, 'N');
    assert "32N" == FormatInt(32, 0) + ['N'];
  }

  /** Only a capital 'N' selects the northern hemisphere: "32n" is EPSG:32732. */
  lemma EpsgExampleLowerCase()
    ensures GetEpsgFromUtmZone("32n") == Ok(32732)
  {
    Digits32();
    EpsgOfZone(32, 'n');
    assert "32n" == FormatInt(32, 0) + ['n'];
  }

  /** A zone without a number is a ValueError, an empty zone an IndexError. */
  lemma EpsgExampleNoNumber()
    ensures GetEpsgFromUtmZone("N") == Raise(ValueError)
    ensures GetEpsgFromUtmZone("") == Raise(IndexError)
  {
    assert "N"[..0] == "";
  }

  // ------------------------------------------------------------ coordinate source

  /** The suffix of the fields the CSV coordinates are taken from. */
  function Source(useImageCoord: bool): string
  {
    if useImageCoord then "_exif" else "_mrk"
  }

  /** `v["lat"] = v["lat{src}"]; v["lon"] = v["lon{src}"]; v["ellh"] = v["ellh{src}"]`,
      each assignment done before the next lookup can raise. */
  function SelectStep(useImageCoord: bool, row: Row): Step
  {
    var src := Source(useImageCoord);
    if "lat" + src !in row then Step(row, Some(KeyError))
    else
      var r1 := row["lat" := row["lat" + src]];
      if "lon" + src !in r1 then Step(r1, Some(KeyError))
      else
        var r2 := r1["lon" := r1["lon" + src]];
        if "ellh" + src !in r2 then Step(r2, Some(KeyError))
        else Step(r2["ellh" := r2["ellh" + src]], None)
  }

  function SelectRows(useImageCoord: bool): Row -> Step
  {
    row => SelectStep(useImageCoord, row)
  }

  /** A row with the three source fields gets `lat`, `lon` and `ellh` copied from them
      and nothing else changes; a row without one of them raises KeyError. */
  lemma SelectStepShape(useImageCoord: bool, row: Row)
    ensures var src := Source(useImageCoord);
      var s := SelectStep(useImageCoord, row);
      && (s.error.None? <==> "lat" + src in row && "lon" + src in row && "ellh" + src in row)
      && (s.error.Some? ==> s.error == Some(KeyError))
      && (s.error.None? ==>
           && s.row.Keys == row.Keys + {"lat", "lon", "ellh"}
           && s.row["lat"] == row["lat" + src] && s.row["lon"] == row["lon" + src] && s.row["ellh"] == row["ellh" + src]
           && forall f :: f in row && f !in {"lat", "lon", "ellh"} ==> s.row[f] == row[f])
  {
    var src := Source(useImageCoord);
    assert ("lat" + src)[..4] == "lat_" && ("lon" + src)[..4] == "lon_" && ("ellh" + src)[..5] == "ellh_";
    assert "lat" + src != "lon" && "lat" + src != "ellh" && "lon" + src != "lat" && "lon" + src != "ellh";
    assert "ellh" + src != "lat" && "ellh" + src != "lon";
  }

  // ------------------------------------------------------------ std scaling

  /** `v["stdE"] = k * v["stdE_mrk"]` and the same for N and V, with `k` the factor at
      position `j`; each assignment is done before the next lookup can raise. */
  function ScaleStd(scales: seq<real>, j: nat, row: Row): Step
  {
    if j >= |scales| then Step(row, Some(IndexError))
    else if "stdE_mrk" !in row then Step(row, Some(KeyError))
    else if Scale(scales[j], row["stdE_mrk"]).Raise? then Step(row, Some(TypeError))
    else
      var r1 := row["stdE" := Scale(scales[j], row["stdE_mrk"]).value];
      if "stdN_mrk" !in r1 then Step(r1, Some(KeyError))
      else if Scale(scales[j], r1["stdN_mrk"]).Raise? then Step(r1, Some(TypeError))
      else
        var r2 := r1["stdN" := Scale(scales[j], r1["stdN_mrk"]).value];
        if "stdV_mrk" !in r2 then Step(r2, Some(KeyError))
        else if Scale(scales[j], r2["stdV_mrk"]).Raise? then Step(r2, Some(TypeError))
        else Step(r2["stdV" := Scale(scales[j], r2["stdV_mrk"]).value], None)
  }

  /** The `if`/`elif` chain on `v["Qual_mrk"]` against the three quality flags. */
  function ScaleStep(flagQual: seq<int>, scales: seq<real>, row: Row): Step
  {
    if "Qual_mrk" !in row then Step(row, Some(KeyError))
    else
      var q := row["Qual_mrk"];
      if |flagQual| < 1 then Step(row, Some(IndexError))
      else if NumEq(q, flagQual[0]) then ScaleStd(scales, 0, row)
      else if |flagQual| < 2 then Step(row, Some(IndexError))
      else if NumEq(q, flagQual[1]) then ScaleStd(scales, 1, row)
      else if |flagQual| < 3 then Step(row, Some(IndexError))
      else if NumEq(q, flagQual[2]) then ScaleStd(scales, 2, row)
      else Step(row, None)
  }

  function ScaleRows(flagQual: seq<int>, scales: seq<real>): Row -> Step
  {
    row => ScaleStep(flagQual, scales, row)
  }

  /** The position of the first of the three flags equal to the quality, if any. */
  function FirstMatch(q: Value, flagQual: seq<int>): (j: Option<nat>)
    requires |flagQual| >= 3
    ensures j.Some? ==> j.value < 3 && NumEq(q, flagQual[j.value]) && forall i :: 0 <= i < j.value ==> !NumEq(q, flagQual[i])
    ensures j.None? ==> forall i :: 0 <= i < 3 ==> !NumEq(q, flagQual[i])
  {
    if NumEq(q, flagQual[0]) then Some(0)
    else if NumEq(q, flagQual[1]) then Some(1)
    else if NumEq(q, flagQual[2]) then Some(2)
    else None
  }

  /** The standard deviations are scaled by the factor of the first matching flag; a
      quality matching none of them leaves the row as it was. */
  lemma ScaleStepShape(flagQual: seq<int>, scales: seq<real>, row: Row)
    requires |flagQual| >= 3 && |scales| >= 3 && "Qual_mrk" in row
    requires forall f :: f in ["stdE_mrk", "stdN_mrk", "stdV_mrk"] ==> f in row && (row[f].Real? || row[f].Int?)
    ensures var s := ScaleStep(flagQual, scales, row);
      var m := FirstMatch(row["Qual_mrk"], flagQual);
      && s.error.None?
      && (m.None? ==> s.row == row)
      && (m.Some? ==>
           && s.row.Keys == row.Keys + {"stdE", "stdN", "stdV"}
           && s.row["stdE"] == Scale(scales[m.value], row["stdE_mrk"]).value
           && s.row["stdN"] == Scale(scales[m.value], row["stdN_mrk"]).value
           && s.row["stdV"] == Scale(scales[m.value], row["stdV_mrk"]).value
           && forall f :: f in row && f !in {"stdE", "stdN", "stdV"} ==> s.row[f] == row[f])
  {
    assert "stdE_mrk" in ["stdE_mrk", "stdN_mrk", "stdV_mrk"];
    assert "stdN_mrk" in ["stdE_mrk", "stdN_mrk", "stdV_mrk"];
    assert "stdV_mrk" in ["stdE_mrk", "stdN_mrk", "stdV_mrk"];
    var m := FirstMatch(row["Qual_mrk"], flagQual);
    if m.Some? {
      ScaleStdShape(scales, m.value, row);
      assert ScaleStep(flagQual, scales, row) == ScaleStd(scales, m.value, row);
    }
  }

  /** With the three numeric fields present, scaling by factor `j` writes the three
      scaled values and nothing else. */
  lemma ScaleStdShape(scales: seq<real>, j: nat, row: Row)
    requires j < |scales| && "stdE_mrk" in row && "stdN_mrk" in row && "stdV_mrk" in row
    requires (row["stdE_mrk"].Real? || row["stdE_mrk"].Int?) && (row["stdN_mrk"].Real? || row["stdN_mrk"].Int?)
    requires row["stdV_mrk"].Real? || row["stdV_mrk"].Int?
    ensures var s := ScaleStd(scales, j, row);
      && s.error.None?
      && s.row.Keys == row.Keys + {"stdE", "stdN", "stdV"}
      && s.row["stdE"] == Scale(scales[j], row["stdE_mrk"]).value
      && s.row["stdN"] == Scale(scales[j], row["stdN_mrk"]).value
      && s.row["stdV"] == Scale(scales[j], row["stdV_mrk"]).value
      && forall f :: f in row && f !in {"stdE", "stdN", "stdV"} ==> s.row[f] == row[f]
  {
    assert "stdE" != "stdN_mrk" && "stdE" != "stdV_mrk" && "stdN" != "stdV_mrk";
  }

  // ------------------------------------------------------------ the CSV file

  /** The header row; the UTM columns are there only when projecting. */
  function Header(flagUtm: bool, zone: string): seq<string>
  {
    ["ID", "Image Name", "Image Path", "Date [yyyy:mm:dd]", "Time [hh:mm:ss]", "Lon [deg]", "Lat [deg]", "h [m]"]
    + (if flagUtm then ["East UTM" + zone + " [m]", "North UTM" + zone + " [m]", "h UTM" + zone + " [m]"] else [])
    + ["stdE [m]", "stdN [m]", "stdV [m]"]
  }

  /** The values of one CSV line, looked up in the order the list literal evaluates
      them; the file name is taken from the image path. */
  function CsvLine(row: Row, flagUtm: bool): (r: Result<seq<Value>>)
    ensures r.Raise? ==> r.error == KeyError || r.error == TypeError
    ensures r.Ok? ==> |r.value| == if flagUtm then 14 else 11
  {
    var id :- Get(row, "id");
    var path :- Get(row, "path_exif");
    var name :- if path.Text? then Ok(Text(Name(path.s))) else Raise(TypeError);
    var date :- Get(row, "date_exif");
    var time :- Get(row, "time_exif");
    var lon :- Get(row, "lon");
    var lat :- Get(row, "lat");
    var ellh :- Get(row, "ellh");
    var utm :- if flagUtm then
        var e :- Get(row, "E");
        var n :- Get(row, "N");
        var h :- Get(row, "h");
        Ok([e, n, h])
      else Ok([]);
    var stdE :- Get(row, "stdE");
    var stdN :- Get(row, "stdN");
    var stdV :- Get(row, "stdV");
    Ok([id, name, path, date, time, lon, lat, ellh] + utm + [stdE, stdN, stdV])
  }

  /** Every line has one value per header column. */
  lemma CsvLineWidth(row: Row, flagUtm: bool, zone: string)
    requires CsvLine(row, flagUtm).Ok?
    ensures |CsvLine(row, flagUtm).value| == |Header(flagUtm, zone)|
  {
  }

  /** A row without its scaled standard deviation cannot be written. */
  lemma CsvLineNeedsStd(row: Row, flagUtm: bool)
    requires "stdE" !in row
    ensures CsvLine(row, flagUtm).Raise?
  {
  }

  /** The lines for the rows from position `i` on, None rows skipped. */
  function CsvLines(t: Table, i: nat, flagUtm: bool): (r: Result<seq<seq<Value>>>)
    requires t.Valid() && i <= |t.keys|
    decreases |t.keys| - i
  {
    if i == |t.keys| then Ok([])
    else match t.items[t.keys[i]]
      case None => CsvLines(t, i + 1, flagUtm)
      case Some(row) =>
        var line :- CsvLine(row, flagUtm);
        var rest :- CsvLines(t, i + 1, flagUtm);
        Ok([line] + rest)
  }

  /** Writing fails as soon as one row that is not None lacks a field it needs. */
  lemma {:induction false} CsvLinesFail(t: Table, i: nat, flagUtm: bool, j: nat)
    requires t.Valid() && i <= j < |t.keys| && t.items[t.keys[j]].Some? && CsvLine(t.items[t.keys[j]].value, flagUtm).Raise?
    ensures CsvLines(t, i, flagUtm).Raise?
    decreases |t.keys| - i
  {
    CsvLinesAt(t, i, flagUtm, []);
    if i < j {
      CsvLinesFail(t, i + 1, flagUtm, j);
    }
  }

  /** `lines` followed by the lines of a result, or its exception. */
  function Prefixed(lines: seq<seq<Value>>, r: Result<seq<seq<Value>>>): Result<seq<seq<Value>>>
  {
    if r.Ok? then Ok(lines + r.value) else r
  }

  /** One row's worth of `CsvLines`. */
  lemma CsvLinesAt(t: Table, i: nat, flagUtm: bool, lines: seq<seq<Value>>)
    requires t.Valid() && i < |t.keys|
    ensures t.items[t.keys[i]].None? ==> Prefixed(lines, CsvLines(t, i, flagUtm)) == Prefixed(lines, CsvLines(t, i + 1, flagUtm))
    ensures t.items[t.keys[i]].Some? && CsvLine(t.items[t.keys[i]].value, flagUtm).Raise? ==>
      Prefixed(lines, CsvLines(t, i, flagUtm)) == Raise(CsvLine(t.items[t.keys[i]].value, flagUtm).error)
    ensures t.items[t.keys[i]].Some? && CsvLine(t.items[t.keys[i]].value, flagUtm).Ok? ==>
      Prefixed(lines, CsvLines(t, i, flagUtm)) == Prefixed(lines + [CsvLine(t.items[t.keys[i]].value, flagUtm).value], CsvLines(t, i + 1, flagUtm))
  {
    var rest := CsvLines(t, i + 1, flagUtm);
    if t.items[t.keys[i]].Some? && CsvLine(t.items[t.keys[i]].value, flagUtm).Ok? && rest.Ok? {
      var line := CsvLine(t.items[t.keys[i]].value, flagUtm).value;
      assert lines + ([line] + rest.value) == lines + [line] + rest.value;
    }
  }

  /** `with open(foutname, "w") as fout: ...` for the rows: the header line, then one
      line per row that is not None, in dict order. */
  method WriteCsv(t: Table, flagUtm: bool) returns (r: Result<seq<seq<Value>>>)
    requires t.Valid()
    ensures r == CsvLines(t, 0, flagUtm)
  {
    var lines: seq<seq<Value>> := [];
    assert CsvLines(t, 0, flagUtm).Ok? ==> [] + CsvLines(t, 0, flagUtm).value == CsvLines(t, 0, flagUtm).value;
    var i := 0;
    while i < |t.keys|
      invariant 0 <= i <= |t.keys|
      invariant CsvLines(t, 0, flagUtm) == Prefixed(lines, CsvLines(t, i, flagUtm))
    {
      CsvLinesAt(t, i, flagUtm, lines);
      var entry := t.items[t.keys[i]];
      if entry.Some? {
        var line := CsvLine(entry.value, flagUtm);
        if line.Raise? {
          return Raise(line.error);
        }
        lines := lines + [line.value];
      }
      i := i + 1;
    }
    assert lines + [] == lines;
    return Ok(lines);
  }

  // ------------------------------------------------------------ dji2csv

  /** The file `dji2csv` writes: the header and the values of each line. */
  datatype Csv = Csv(header: seq<string>, lines: seq<seq<Value>>)

  /** The dict the CSV is written from: coordinates selected, projected when asked,
      standard deviations scaled. The return value of the projection is not looked at. */
  function PreparedSpec(d: Table, flagUtm: bool, zone: string, useImageCoord: bool, flagQual: seq<int>,
                        scales: seq<real>, reg: Registry, tf: Transform): (r: Result<Table>)
    requires d.Valid()
    ensures r.Ok? ==> r.value.Valid() && r.value.keys == d.keys
  {
    var p1 := RowPass(0, d, SelectRows(useImageCoord));
    if p1.error.Some? then Raise(p1.error.value)
    else
      var t1 :- if flagUtm then
          var epsg :- GetEpsgFromUtmZone(zone);
          var pr := ProjectSpec(p1.table, 4326, epsg, ["lat", "lon", "ellh"], "", true, reg, tf);
          if pr.result.Raise? then Raise(pr.result.error) else Ok(pr.data)
        else Ok(p1.table);
      var p2 := RowPass(0, t1, ScaleRows(flagQual, scales));
      if p2.error.Some? then Raise(p2.error.value) else Ok(p2.table)
  }

  /** `dji2csv(data_dict, foutname, flag_utm, utm_zone, flag_useImageCoord, flag_qual,
      scale_factors)`: the file it writes (it then returns True). */
  function Dji2CsvSpec(d: Table, flagUtm: bool, zone: string, useImageCoord: bool, flagQual: seq<int>,
                       scales: seq<real>, reg: Registry, tf: Transform): (r: Result<Csv>)
    requires d.Valid()
    ensures r.Ok? ==> r.value.header == Header(flagUtm, zone)
  {
    var t :- PreparedSpec(d, flagUtm, zone, useImageCoord, flagQual, scales, reg, tf);
    var lines :- CsvLines(t, 0, flagUtm);
    Ok(Csv(Header(flagUtm, zone), lines))
  }

  method Dji2Csv(d: Table, flagUtm: bool, zone: string, useImageCoord: bool, flagQual: seq<int>,
                 scales: seq<real>, reg: Registry, tf: Transform) returns (r: Result<Csv>)
    requires d.Valid()
    ensures r == Dji2CsvSpec(d, flagUtm, zone, useImageCoord, flagQual, scales, reg, tf)
  {
    var data4csv := Prepare(d, flagUtm, zone, useImageCoord, flagQual, scales, reg, tf);
    if data4csv.Raise? {
      return Raise(data4csv.error);
    }
    var header := Header(flagUtm, zone);
    var lines := WriteCsv(data4csv.value, flagUtm);
    if lines.Raise? {
      return Raise(lines.error);
    }
    return Ok(Csv(header, lines.value));
  }

  /** The three loops of `dji2csv` over a copy of the dict, before the file is
      written. */
  method Prepare(d: Table, flagUtm: bool, zone: string, useImageCoord: bool, flagQual: seq<int>,
                 scales: seq<real>, reg: Registry, tf: Transform) returns (r: Result<Table>)
    requires d.Valid()
    ensures r == PreparedSpec(d, flagUtm, zone, useImageCoord, flagQual, scales, reg, tf)
  {
    var data4csv := new RowStore(d);
    var error := data4csv.ForEachRow(SelectRows(useImageCoord));
    if error.Some? {
      return Raise(error.value);
    }
    if flagUtm {
      var epsg := GetEpsgFromUtmZone(zone);
      if epsg.Raise? {
        return Raise(epsg.error);
      }
      var projected := ProjectToUtm(4326, epsg.value, data4csv, ["lat", "lon", "ellh"], "", true, reg, tf);
      if projected.Raise? {
        return Raise(projected.error);
      }
    }
    error := data4csv.ForEachRow(ScaleRows(flagQual, scales));
    if error.Some? {
      return Raise(error.value);
    }
    return Ok(data4csv.data);
  }

  // ------------------------------------------------------------ properties

  /** After the selection loop every row that is not None carries the coordinates of
      the chosen source: the log's by default, the image's with `flag_useImageCoord`. */
  lemma SelectPass(d: Table, useImageCoord: bool, k: int)
    requires d.Valid() && k in d.items && d.items[k].Some?
    requires RowPass(0, d, SelectRows(useImageCoord)).error.None?
    ensures var src := Source(useImageCoord);
      var row := d.items[k].value;
      var t := RowPass(0, d, SelectRows(useImageCoord)).table;
      && "lat" + src in row && "lon" + src in row && "ellh" + src in row
      && k in t.items && t.items[k].Some?
      && t.items[k].value.Keys == row.Keys + {"lat", "lon", "ellh"}
      && t.items[k].value["lat"] == row["lat" + src]
      && t.items[k].value["lon"] == row["lon" + src]
      && t.items[k].value["ellh"] == row["ellh" + src]
      && forall f :: f in row && f !in {"lat", "lon", "ellh"} ==> t.items[k].value[f] == row[f]
  {
    var f := SelectRows(useImageCoord);
    RowPassFinishes(0, d, f);
    RowPassResult(0, d, f);
    var j :| 0 <= j < |d.keys| && d.keys[j] == k;
    SelectStepShape(useImageCoord, d.items[k].value);
  }

  /** A row whose quality matches none of the three flags and that holds no `stdE`
      field still holds none after the three loops, with its quality unchanged. */
  predicate StdMissing(q: Value, row: Row)
  {
    "stdE" !in row && "Qual_mrk" in row && row["Qual_mrk"] == q
  }

  lemma SelectKeepsStdMissing(d: Table, useImageCoord: bool, k: int, q: Value)
    requires d.Valid() && k in d.items && d.items[k].Some? && StdMissing(q, d.items[k].value)
    requires RowPass(0, d, SelectRows(useImageCoord)).error.None?
    ensures var t := RowPass(0, d, SelectRows(useImageCoord)).table;
      k in t.items && t.items[k].Some? && StdMissing(q, t.items[k].value)
  {
    var f := SelectRows(useImageCoord);
    RowPassResult(0, d, f);
    var j :| 0 <= j < |d.keys| && d.keys[j] == k;
    var s := SelectStep(useImageCoord, d.items[k].value);
    assert RowPass(0, d, f).table.items[k] == Some(s.row);
    SelectStepKeeps(useImageCoord, d.items[k].value, q);
  }

  lemma SelectStepKeeps(useImageCoord: bool, row: Row, q: Value)
    requires StdMissing(q, row)
    ensures StdMissing(q, SelectStep(useImageCoord, row).row)
  {
    var src := Source(useImageCoord);
    assert ("lat" + src)[..4] == "lat_" && ("lon" + src)[..4] == "lon_" && ("ellh" + src)[..5] == "ellh_";
  }

  lemma ProjectKeepsStdMissing(d: Table, epsg: int, reg: Registry, tf: Transform, k: int, q: Value)
    requires d.Valid() && k in d.items && d.items[k].Some? && StdMissing(q, d.items[k].value)
    requires ProjectSpec(d, 4326, epsg, ["lat", "lon", "ellh"], "", true, reg, tf).result.Ok?
    ensures var t := ProjectSpec(d, 4326, epsg, ["lat", "lon", "ellh"], "", true, reg, tf).data;
      k in t.items && t.items[k].Some? && StdMissing(q, t.items[k].value)
  {
    var fields := ["lat", "lon", "ellh"];
    if TransformerOk(reg, 4326, epsg) {
      ProjectInPlaceRows(d, 4326, epsg, fields, "", reg, tf, k);
      InPlaceStepShape(fields, "", tf, d.items[k].value);
      assert "E" + "" == "E" && "N" + "" == "N" && "h" + "" == "h";
    }
  }

  lemma ScaleKeepsStdMissing(d: Table, flagQual: seq<int>, scales: seq<real>, k: int, q: Value)
    requires d.Valid() && |flagQual| >= 3 && FirstMatch(q, flagQual).None?
    requires k in d.items && d.items[k].Some? && StdMissing(q, d.items[k].value)
    requires RowPass(0, d, ScaleRows(flagQual, scales)).error.None?
    ensures var t := RowPass(0, d, ScaleRows(flagQual, scales)).table;
      k in t.items && t.items[k].Some? && StdMissing(q, t.items[k].value)
  {
    RowPassResult(0, d, ScaleRows(flagQual, scales));
    var j :| 0 <= j < |d.keys| && d.keys[j] == k;
  }

  /** A joined row whose quality matches none of the three flags gets no scaled
      standard deviations, so writing its line raises: `dji2csv` never returns True
      for such a dict. */
  lemma UnmatchedQualityFails(d: Table, flagUtm: bool, zone: string, useImageCoord: bool, flagQual: seq<int>,
                              scales: seq<real>, reg: Registry, tf: Transform, k: int)
    requires d.Valid() && |flagQual| >= 3 && k in d.items && d.items[k].Some?
    requires "stdE" !in d.items[k].value && "Qual_mrk" in d.items[k].value
    requires FirstMatch(d.items[k].value["Qual_mrk"], flagQual).None?
    ensures Dji2CsvSpec(d, flagUtm, zone, useImageCoord, flagQual, scales, reg, tf).Raise?
  {
    var q := d.items[k].value["Qual_mrk"];
    var prepared := PreparedSpec(d, flagUtm, zone, useImageCoord, flagQual, scales, reg, tf);
    if prepared.Ok? {
      PreparedKeepsStdMissing(d, flagUtm, zone, useImageCoord, flagQual, scales, reg, tf, k, q);
      var t := prepared.value;
      var j :| 0 <= j < |t.keys| && t.keys[j] == k;
      CsvLineNeedsStd(t.items[k].value, flagUtm);
      CsvLinesFail(t, 0, flagUtm, j);
    }
  }

  /** The three loops keep such a row without `stdE` and with its quality. */
  lemma PreparedKeepsStdMissing(d: Table, flagUtm: bool, zone: string, useImageCoord: bool, flagQual: seq<int>,
                                scales: seq<real>, reg: Registry, tf: Transform, k: int, q: Value)
    requires d.Valid() && |flagQual| >= 3 && FirstMatch(q, flagQual).None?
    requires k in d.items && d.items[k].Some? && StdMissing(q, d.items[k].value)
    requires PreparedSpec(d, flagUtm, zone, useImageCoord, flagQual, scales, reg, tf).Ok?
    ensures var t := PreparedSpec(d, flagUtm, zone, useImageCoord, flagQual, scales, reg, tf).value;
      k in t.items && t.items[k].Some? && StdMissing(q, t.items[k].value)
  {
    var p1 := RowPass(0, d, SelectRows(useImageCoord));
    SelectKeepsStdMissing(d, useImageCoord, k, q);
    var t1 := p1.table;
    if flagUtm {
      var epsg := GetEpsgFromUtmZone(zone).value;
      ProjectKeepsStdMissing(p1.table, epsg, reg, tf, k, q);
      t1 := ProjectSpec(p1.table, 4326, epsg, ["lat", "lon", "ellh"], "", true, reg, tf).data;
    }
    ScaleKeepsStdMissing(t1, flagQual, scales, k, q);
    assert PreparedSpec(d, flagUtm, zone, useImageCoord, flagQual, scales, reg, tf).value
        == RowPass(0, t1, ScaleRows(flagQual, scales)).table;
  }
}
