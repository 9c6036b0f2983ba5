/** `project_to_utm` of dji.py: geographic coordinates of every row of the merged
    dict become easting and northing, written into the rows themselves or into a
    deep copy. */
module Projection {
  import opened Outcomes
  import opened ODicts
  import opened Values


  /** One in-place iteration: the coordinates go to `E{suffix}` and `N{suffix}`; with
      three fields the height field is then copied to `h{suffix}`. */
  function InPlaceStep(fields: seq<string>, suffix: string, tf: Transform, row: Row): Step
  {
    if |fields| < 2 then Step(row, Some(IndexError))
    else if fields[0] !in row || fields[1] !in row then Step(row, Some(KeyError))
    else
      var xy := tf(row[fields[0]], row[fields[1]]);
      var r1 := row["E" + suffix := xy.0]["N" + suffix := xy.1];
      if |fields| != 3 then Step(r1, None)
      else if fields[2] in r1 then Step(r1["h" + suffix := r1[fields[2]]], None)
      else Step(r1, Some(KeyError))
  }

  /** What one copying iteration does to the input row: after the coordinates are read,
      only the height field is copied to `h{suffix}`, in the input row itself. */
  function CopyInputStep(fields: seq<string>, suffix: string, row: Row): Step
  {
    if |fields| < 2 then Step(row, Some(IndexError))
    else if fields[0] !in row || fields[1] !in row then Step(row, Some(KeyError))
    else if |fields| != 3 then Step(row, None)
    else if fields[2] in row then Step(row["h" + suffix := row[fields[2]]], None)
    else Step(row, Some(KeyError))
  }

  /** What one copying iteration does to the row of the deep copy: `E{suffix}` and
      `N{suffix}`. */
  function CopyOutStep(fields: seq<string>, suffix: string, tf: Transform, row: Row): Step
  {
    if |fields| < 2 then Step(row, Some(IndexError))
    else if fields[0] !in row || fields[1] !in row then Step(row, Some(KeyError))
    else
      var xy := tf(row[fields[0]], row[fields[1]]);
      Step(row["E" + suffix := xy.0]["N" + suffix := xy.1], None)
  }

  /** What an iteration does to the input row in either mode. */
  function InputStep(fields: seq<string>, suffix: string, tf: Transform, inPlace: bool, row: Row): Step
  {
    if inPlace then InPlaceStep(fields, suffix, tf, row) else CopyInputStep(fields, suffix, row)
  }

  function InputRows(fields: seq<string>, suffix: string, tf: Transform, inPlace: bool): Row -> Step
  {
    row => InputStep(fields, suffix, tf, inPlace, row)
  }

  function CopyOutRows(fields: seq<string>, suffix: string, tf: Transform): Row -> Step
  {
    row => CopyOutStep(fields, suffix, tf, row)
  }

  /** The input dict after a call, and what the call returned or raised. */
  datatype Projection = Projection(data: Table, result: Result<Returned>)

  /** `project_to_utm(epsg_from, epsg_to, data_dict, fields, suffix, in_place)`. */
  function ProjectSpec(d: Table, epsgFrom: int, epsgTo: int, fields: seq<string>, suffix: string,
                       inPlace: bool, reg: Registry, tf: Transform): (p: Projection)
    requires d.Valid()
    ensures p.data.Valid() && p.data.keys == d.keys
    ensures epsgFrom == epsgTo || !(|fields| == 2 || |fields| == 3) ==> p == Projection(d, Raise(AssertionError))
    ensures epsgFrom != epsgTo && (|fields| == 2 || |fields| == 3) && !TransformerOk(reg, epsgFrom, epsgTo) ==>
      p == Projection(d, Ok(ReturnedNone))
    ensures inPlace && p.result.Ok? ==> p.result == Ok(ReturnedNone)
    ensures !inPlace && p.result.Ok? && TransformerOk(reg, epsgFrom, epsgTo) ==> p.result.value.ReturnedDict?
  {
    if epsgFrom == epsgTo || !(|fields| == 2 || |fields| == 3) then Projection(d, Raise(AssertionError))
    else if !TransformerOk(reg, epsgFrom, epsgTo) then Projection(d, Ok(ReturnedNone))
    else
      var pin := RowPass(0, d, InputRows(fields, suffix, tf, inPlace));
      var pout := RowPass(0, d, CopyOutRows(fields, suffix, tf));
      Projection(pin.table,
        if pin.error.Some? then Raise(pin.error.value)
        else if inPlace then Ok(ReturnedNone)
        else Ok(ReturnedDict(pout.table)))
  }

  /** The body of the loop for one row that is not None: the input row after the
      iteration with what it raised, and the row of the copy (copy mode only). */
  method ProjectRow(fields: seq<string>, suffix: string, tf: Transform, inPlace: bool, row: Row)
    returns (s: Step, outRow: Row)
    requires |fields| == 2 || |fields| == 3
    ensures s == InputStep(fields, suffix, tf, inPlace, row)
    ensures !inPlace && s.error.None? ==> CopyOutStep(fields, suffix, tf, row) == Step(outRow, None)
  {
    outRow := row;
    if fields[0] !in row || fields[1] !in row {
      return Step(row, Some(KeyError)), outRow;
    }
    var xy := tf(row[fields[0]], row[fields[1]]);
    var r := row;
    if inPlace {
      r := r["E" + suffix := xy.0];
      r := r["N" + suffix := xy.1];
    } else {
      outRow := outRow["E" + suffix := xy.0];
      outRow := outRow["N" + suffix := xy.1];
    }
    if |fields| == 3 {
      if fields[2] !in r {
        return Step(r, Some(KeyError)), outRow;
      }
      r := r["h" + suffix := r[fields[2]]];
    }
    s := Step(r, None);
  }

  /** `project_to_utm` (dji.py): the checks, then the loop over the rows. */
  method ProjectToUtm(epsgFrom: int, epsgTo: int, store: RowStore, fields: seq<string>, suffix: string,
                      inPlace: bool, reg: Registry, tf: Transform) returns (r: Result<Returned>)
    requires store.data.Valid()
    modifies store
    ensures store.data == ProjectSpec(old(store.data), epsgFrom, epsgTo, fields, suffix, inPlace, reg, tf).data
    ensures r == ProjectSpec(old(store.data), epsgFrom, epsgTo, fields, suffix, inPlace, reg, tf).result
  {
    if epsgFrom == epsgTo || !(|fields| == 2 || |fields| == 3) {
      return Raise(AssertionError);
    }
    if !TransformerOk(reg, epsgFrom, epsgTo) {
      return Ok(ReturnedNone);
    }
    var error, out := ProjectRows(store, fields, suffix, inPlace, tf);
    if error.Some? {
      return Raise(error.value);
    }
    if inPlace {
      return Ok(ReturnedNone);
    }
    return Ok(ReturnedDict(out));
  }

  /** The loop of `project_to_utm` over the rows of the dict, in order; `out` is the
      deep copy the copy mode fills. */
  method ProjectRows(store: RowStore, fields: seq<string>, suffix: string, inPlace: bool, tf: Transform)
    returns (error: Option<Error>, out: Table)
    requires store.data.Valid() && (|fields| == 2 || |fields| == 3)
    modifies store
    ensures Stopped(store.data, error) == RowPass(0, old(store.data), InputRows(fields, suffix, tf, inPlace))
    ensures !inPlace && error.None? ==> Stopped(out, None) == RowPass(0, old(store.data), CopyOutRows(fields, suffix, tf))
  {
    ghost var d0 := store.data;
    out := store.data;
    var i := 0;
    while i < |store.data.keys|
      invariant store.data.Valid() && out.Valid() && store.data.keys == out.keys == d0.keys
      invariant 0 <= i <= |store.data.keys|
      invariant RowPass(i, store.data, InputRows(fields, suffix, tf, inPlace)) == RowPass(0, d0, InputRows(fields, suffix, tf, inPlace))
      invariant !inPlace ==> RowPass(i, out, CopyOutRows(fields, suffix, tf)) == RowPass(0, d0, CopyOutRows(fields, suffix, tf))
      invariant !inPlace ==> AgreeFrom(i, out, store.data)
    {
      error, out := ProjectKey(store, out, i, fields, suffix, inPlace, tf);
      if error.Some? {
        return error, out;
      }
      i := i + 1;
    }
    return None, out;
  }

  /** One iteration of the loop: the row at position `i`, when it is not None, is
      projected; the loop goes on with the next position unless it raised. */
  method ProjectKey(store: RowStore, out: Table, i: nat, fields: seq<string>, suffix: string,
                    inPlace: bool, tf: Transform)
    returns (error: Option<Error>, out': Table)
    requires store.data.Valid() && out.Valid() && out.keys == store.data.keys && i < |out.keys|
    requires |fields| == 2 || |fields| == 3
    requires !inPlace ==> AgreeFrom(i, out, store.data)
    modifies store
    ensures store.data.Valid() && out'.Valid() && store.data.keys == out'.keys == out.keys
    ensures error.Some? ==> RowPass(i, old(store.data), InputRows(fields, suffix, tf, inPlace)) == Stopped(store.data, error)
    ensures error.None? ==>
      RowPass(i, old(store.data), InputRows(fields, suffix, tf, inPlace)) == RowPass(i + 1, store.data, InputRows(fields, suffix, tf, inPlace))
    ensures !inPlace && error.None? ==>
      RowPass(i, out, CopyOutRows(fields, suffix, tf)) == RowPass(i + 1, out', CopyOutRows(fields, suffix, tf))
    ensures !inPlace && error.None? ==> AgreeFrom(i + 1, out', store.data)
  {
    var key := store.data.keys[i];
    var entry := store.data.items[key];
    out' := out;
    if entry.None? {
      return None, out';
    }
    var s, outRow := ProjectRow(fields, suffix, tf, inPlace, entry.value);
    if s.error.None? && !inPlace {
      AgreeAfterPut(i, out, store.data, Some(outRow), Some(s.row));
      out' := out.Put(key, Some(outRow));
    }
    store.data := store.data.Put(key, Some(s.row));
    return s.error, out';
  }

  // ------------------------------------------------------------ properties

  /** A row the loop gets through: both coordinate fields are present and, with three
      fields, so is the height field; in place it may also name a field just written. */
  predicate Projectable(fields: seq<string>, suffix: string, inPlace: bool, row: Row)
    requires |fields| == 2 || |fields| == 3
  {
    && fields[0] in row && fields[1] in row
    && (|fields| == 3 ==> fields[2] in row || (inPlace && (fields[2] == "E" + suffix || fields[2] == "N" + suffix)))
  }

  /** The three names written are pairwise distinct whatever the suffix. */
  lemma NewNamesDistinct(suffix: string)
    ensures "E" + suffix != "N" + suffix && "E" + suffix != "h" + suffix && "N" + suffix != "h" + suffix
  {
    assert ("E" + suffix)[0] == 'E' && ("N" + suffix)[0] == 'N' && ("h" + suffix)[0] == 'h';
  }

  /** `row2` is `row` with the projected coordinates of `row` added as `E{suffix}` and
      `N{suffix}`, and nothing else changed. */
  predicate CoordinatesAdded(fields: seq<string>, suffix: string, tf: Transform, row: Row, row2: Row)
    requires |fields| >= 2 && fields[0] in row && fields[1] in row
  {
    var xy := tf(row[fields[0]], row[fields[1]]);
    && row2.Keys == row.Keys + {"E" + suffix, "N" + suffix}
    && row2["E" + suffix] == xy.0 && row2["N" + suffix] == xy.1
    && forall f :: f in row && f != "E" + suffix && f != "N" + suffix ==> row2[f] == row[f]
  }

  /** `row2` is `row` with `h{suffix}` holding the value `v`, and nothing else changed. */
  predicate HeightAdded(suffix: string, row: Row, v: Value, row2: Row)
  {
    && row2.Keys == row.Keys + {"h" + suffix}
    && row2["h" + suffix] == v
    && forall f :: f in row && f != "h" + suffix ==> row2[f] == row[f]
  }

  /** Whether an iteration gets through a row, and the only exception it raises. */
  lemma InputStepOk(fields: seq<string>, suffix: string, tf: Transform, inPlace: bool, row: Row)
    requires |fields| == 2 || |fields| == 3
    ensures InputStep(fields, suffix, tf, inPlace, row).error.None? <==> Projectable(fields, suffix, inPlace, row)
    ensures InputStep(fields, suffix, tf, inPlace, row).error.Some? ==> InputStep(fields, suffix, tf, inPlace, row).error == Some(KeyError)
  {
    NewNamesDistinct(suffix);
  }

  /** An in-place iteration adds the coordinates, then, with three fields, the height
      read back from the row that already holds them. */
  lemma InPlaceStepShape(fields: seq<string>, suffix: string, tf: Transform, row: Row)
    requires (|fields| == 2 || |fields| == 3) && Projectable(fields, suffix, true, row)
    ensures var r1 := InPlaceStep(fields, suffix, tf, row).row;
      var xy := tf(row[fields[0]], row[fields[1]]);
      var r0 := row["E" + suffix := xy.0]["N" + suffix := xy.1];
      && CoordinatesAdded(fields, suffix, tf, row, r0)
      && (|fields| == 2 ==> r1 == r0)
      && (|fields| == 3 ==> fields[2] in r0 && HeightAdded(suffix, r0, r0[fields[2]], r1))
  {
    NewNamesDistinct(suffix);
  }

  /** A run that stops raises KeyError, and with usable arguments a run completes exactly
      when every row that is not None can be projected. */
  lemma {:induction false} ProjectCompletes(d: Table, epsgFrom: int, epsgTo: int, fields: seq<string>, suffix: string,
                                            inPlace: bool, reg: Registry, tf: Transform)
    requires d.Valid() && epsgFrom != epsgTo && (|fields| == 2 || |fields| == 3) && TransformerOk(reg, epsgFrom, epsgTo)
    ensures ProjectSpec(d, epsgFrom, epsgTo, fields, suffix, inPlace, reg, tf).result.Ok? <==>
      forall k :: k in d.items && d.items[k].Some? ==> Projectable(fields, suffix, inPlace, d.items[k].value)
    ensures ProjectSpec(d, epsgFrom, epsgTo, fields, suffix, inPlace, reg, tf).result.Raise? ==>
      ProjectSpec(d, epsgFrom, epsgTo, fields, suffix, inPlace, reg, tf).result.error == KeyError
  {
    var f := InputRows(fields, suffix, tf, inPlace);
    forall row | true
      ensures f(row).error.None? <==> Projectable(fields, suffix, inPlace, row)
      ensures f(row).error.Some? ==> f(row).error == Some(KeyError)
    {
      InputStepOk(fields, suffix, tf, inPlace, row);
    }
    RowPassFinishes(0, d, f);
    RowPassError(0, d, f, KeyError);
    if RowsPass(0, d, f) {
      forall k | k in d.items && d.items[k].Some?
        ensures Projectable(fields, suffix, inPlace, d.items[k].value)
      {
        var j :| 0 <= j < |d.keys| && d.keys[j] == k;
      }
    }
  }

  /** In-place success: every row that is not None holds its projected coordinates
      (and, with three fields, the height) and nothing else of it changes; None rows stay. */
  lemma ProjectInPlaceRows(d: Table, epsgFrom: int, epsgTo: int, fields: seq<string>, suffix: string,
                           reg: Registry, tf: Transform, k: int)
    requires d.Valid() && epsgFrom != epsgTo && (|fields| == 2 || |fields| == 3) && TransformerOk(reg, epsgFrom, epsgTo)
    requires ProjectSpec(d, epsgFrom, epsgTo, fields, suffix, true, reg, tf).result.Ok?
    requires k in d.items
    ensures var p := ProjectSpec(d, epsgFrom, epsgTo, fields, suffix, true, reg, tf);
      && p.result == Ok(ReturnedNone)
      && k in p.data.items
      && (d.items[k].None? ==> p.data.items[k].None?)
      && (d.items[k].Some? ==> Projectable(fields, suffix, true, d.items[k].value) && p.data.items[k] == Some(InPlaceStep(fields, suffix, tf, d.items[k].value).row))
  {
    ProjectCompletes(d, epsgFrom, epsgTo, fields, suffix, true, reg, tf);
    RowPassResult(0, d, InputRows(fields, suffix, tf, true));
  }

  /** Copy mode success: the returned copy holds the coordinates, while the input rows
      get only the height field (with three fields) and keep no coordinates. */
  lemma ProjectCopyRows(d: Table, epsgFrom: int, epsgTo: int, fields: seq<string>, suffix: string,
                        reg: Registry, tf: Transform, k: int)
    requires d.Valid() && epsgFrom != epsgTo && (|fields| == 2 || |fields| == 3) && TransformerOk(reg, epsgFrom, epsgTo)
    requires ProjectSpec(d, epsgFrom, epsgTo, fields, suffix, false, reg, tf).result.Ok?
    requires k in d.items && d.items[k].Some?
    ensures var p := ProjectSpec(d, epsgFrom, epsgTo, fields, suffix, false, reg, tf);
      var row := d.items[k].value;
      && p.result.value.ReturnedDict? && k in p.result.value.table.items && k in p.data.items
      && fields[0] in row && fields[1] in row
      && p.result.value.table.items[k].Some? && CoordinatesAdded(fields, suffix, tf, row, p.result.value.table.items[k].value)
      && p.data.items[k].Some?
      && (|fields| == 2 ==> p.data.items[k].value == row)
      && (|fields| == 3 ==> fields[2] in row && HeightAdded(suffix, row, row[fields[2]], p.data.items[k].value))
  {
    ProjectCompletes(d, epsgFrom, epsgTo, fields, suffix, false, reg, tf);
    var row := d.items[k].value;
    CopyStepsShape(fields, suffix, tf, row);
    var fin := InputRows(fields, suffix, tf, false);
    var fout := CopyOutRows(fields, suffix, tf);
    RowPassResult(0, d, fin);
    RowPassFinishes(0, d, fin);
    RowPassFinishes(0, d, fout);
    forall j | 0 <= j < |d.keys| && d.items[d.keys[j]].Some?
      ensures fout(d.items[d.keys[j]].value).error.None?
    {
      CopyStepsShape(fields, suffix, tf, d.items[d.keys[j]].value);
    }
    RowPassResult(0, d, fout);
    assert RowPass(0, d, fout).table.items[k] == Some(CopyOutStep(fields, suffix, tf, row).row);
    assert RowPass(0, d, fin).table.items[k] == Some(CopyInputStep(fields, suffix, row).row);
  }

  /** What a copying iteration does to a row it gets through, in the copy and in the input. */
  lemma CopyStepsShape(fields: seq<string>, suffix: string, tf: Transform, row: Row)
    requires (|fields| == 2 || |fields| == 3) && Projectable(fields, suffix, false, row)
    ensures CopyOutStep(fields, suffix, tf, row).error.None?
    ensures CoordinatesAdded(fields, suffix, tf, row, CopyOutStep(fields, suffix, tf, row).row)
    ensures |fields| == 2 ==> CopyInputStep(fields, suffix, row).row == row
    ensures |fields| == 3 ==> HeightAdded(suffix, row, row[fields[2]], CopyInputStep(fields, suffix, row).row)
  {
    NewNamesDistinct(suffix);
  }

  /** A usable transformer never touches a None row, in either mode and whether or not
      the run completes. */
  lemma ProjectKeepsNoneRows(d: Table, epsgFrom: int, epsgTo: int, fields: seq<string>, suffix: string,
                             inPlace: bool, reg: Registry, tf: Transform, k: int)
    requires d.Valid() && k in d.items && d.items[k].None?
    ensures k in ProjectSpec(d, epsgFrom, epsgTo, fields, suffix, inPlace, reg, tf).data.items
    ensures ProjectSpec(d, epsgFrom, epsgTo, fields, suffix, inPlace, reg, tf).data.items[k].None?
  {
    RowPassKeeps(0, d, InputRows(fields, suffix, tf, inPlace), k);
  }

  /** The failure sentinel of a transformer that cannot be built is the very value a
      completed in-place run returns: a caller cannot tell the two apart. */
  lemma CrsFailureLooksLikeInPlaceSuccess(d: Table, epsgFrom: int, epsgTo: int, fields: seq<string>, suffix: string,
                                          good: Registry, bad: Registry, tf: Transform)
    requires d.Valid() && epsgFrom != epsgTo && (|fields| == 2 || |fields| == 3)
    requires TransformerOk(good, epsgFrom, epsgTo) && !TransformerOk(bad, epsgFrom, epsgTo)
    requires ProjectSpec(d, epsgFrom, epsgTo, fields, suffix, true, good, tf).result.Ok?
    ensures ProjectSpec(d, epsgFrom, epsgTo, fields, suffix, true, good, tf).result ==
            ProjectSpec(d, epsgFrom, epsgTo, fields, suffix, true, bad, tf).result
    ensures ProjectSpec(d, epsgFrom, epsgTo, fields, suffix, true, bad, tf).data == d
  {
  }
}
