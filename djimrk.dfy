/** `project_to_utm` of djimrk.py, the older projection driver: exactly two fields,
    `False` when the transformer cannot be built, and a loop that returns as soon as it
    has projected the first row that is not None. The other functions of djimrk.py are
    line-for-line copies of those in dji.py and are modelled once, in module Dji. */
module DjiMrk {
  import opened Outcomes
  import opened ODicts
  import opened Values
  import opened Projection

  /** Position of the first row from position `i` on that is not None. */
  function FirstRow(t: Table, i: nat): (j: Option<nat>)
    requires t.Valid() && i <= |t.keys|
    ensures j.Some? ==> i <= j.value < |t.keys| && t.items[t.keys[j.value]].Some?
    ensures j.Some? ==> forall m :: i <= m < j.value ==> t.items[t.keys[m]].None?
    ensures j.None? ==> forall m :: i <= m < |t.keys| ==> t.items[t.keys[m]].None?
    decreases |t.keys| - i
  {
    if i == |t.keys| then None
    else if t.items[t.keys[i]].Some? then Some(i)
    else FirstRow(t, i + 1)
  }

  /** `project_to_utm(epsg_from, epsg_to, data_dict, fields, in_place)` of djimrk.py. The
      row it projects gets `E` and `N` exactly as a copying iteration of the dji.py driver
      writes them into its copy, with no suffix. */
  function MrkProjectSpec(d: Table, epsgFrom: int, epsgTo: int, fields: seq<string>, inPlace: bool,
                          reg: Registry, tf: Transform): (p: Projection)
    requires d.Valid()
    ensures p.data.Valid() && p.data.keys == d.keys
    ensures epsgFrom == epsgTo || |fields| != 2 ==> p == Projection(d, Raise(AssertionError))
    ensures epsgFrom != epsgTo && |fields| == 2 && !TransformerOk(reg, epsgFrom, epsgTo) ==>
      p == Projection(d, Ok(ReturnedFalse))
    ensures !inPlace ==> p.data == d
    ensures p.result.Raise? ==> p.data == d
  {
    if epsgFrom == epsgTo || |fields| != 2 then Projection(d, Raise(AssertionError))
    else if !TransformerOk(reg, epsgFrom, epsgTo) then Projection(d, Ok(ReturnedFalse))
    else match FirstRow(d, 0)
      case None => Projection(d, Ok(ReturnedNone))
      case Some(j) =>
        var key := d.keys[j];
        var s := CopyOutStep(fields, "", tf, d.items[key].value);
        if s.error.Some? then Projection(d, Raise(s.error.value))
        else if inPlace then Projection(d.Put(key, Some(s.row)), Ok(ReturnedNone))
        else Projection(d, Ok(ReturnedDict(d.Put(key, Some(s.row)))))
  }

  /** The driver: the assertions, the transformer check, then the loop that skips None
      rows and returns from inside the first iteration that reaches a row. */
  method MrkProjectToUtm(epsgFrom: int, epsgTo: int, store: RowStore, fields: seq<string>, inPlace: bool,
                         reg: Registry, tf: Transform) returns (r: Result<Returned>)
    requires store.data.Valid()
    modifies store
    ensures store.data == MrkProjectSpec(old(store.data), epsgFrom, epsgTo, fields, inPlace, reg, tf).data
    ensures r == MrkProjectSpec(old(store.data), epsgFrom, epsgTo, fields, inPlace, reg, tf).result
  {
    if epsgFrom == epsgTo || |fields| != 2 {
      return Raise(AssertionError);
    }
    if !TransformerOk(reg, epsgFrom, epsgTo) {
      return Ok(ReturnedFalse);
    }
    var i := 0;
    while i < |store.data.keys|
      invariant store.data == old(store.data) && 0 <= i <= |store.data.keys|
      invariant FirstRow(store.data, i) == FirstRow(store.data, 0)
    {
      var key := store.data.keys[i];
      var entry := store.data.items[key];
      if entry.None? {
        i := i + 1;
        continue;
      }
      var row := entry.value;
      if fields[0] !in row || fields[1] !in row {
        return Raise(KeyError);
      }
      var xy := tf(row[fields[0]], row[fields[1]]);
      assert FirstRow(store.data, i) == Some(i);
      assert "E" + "" == "E" && "N" + "" == "N";
      if inPlace {
        store.data := store.data.Put(key, Some(row["E" := xy.0]["N" := xy.1]));
        return Ok(ReturnedNone);
      } else {
        var out := store.data;
        out := out.Put(key, Some(out.items[key].value["E" := xy.0]["N" := xy.1]));
        return Ok(ReturnedDict(out));
      }
    }
    return Ok(ReturnedNone);
  }

  // ------------------------------------------------------------ properties

  /** The three-field call `project_to_utm(4326, 32632, d, ["lat", "lon", "ellh"])` of the
      preprocessing script fails the two-field assertion, leaving the dict as it was. */
  lemma ThreeFieldsRejected(d: Table, epsgFrom: int, epsgTo: int, fields: seq<string>, inPlace: bool,
                            reg: Registry, tf: Transform)
    requires d.Valid() && epsgFrom != epsgTo && |fields| == 3
    ensures MrkProjectSpec(d, epsgFrom, epsgTo, fields, inPlace, reg, tf) == Projection(d, Raise(AssertionError))
    ensures ProjectSpec(d, epsgFrom, epsgTo, fields, "", inPlace, reg, tf).result != Raise(AssertionError)
  {
    var f := InputRows(fields, "", tf, inPlace);
    forall row | true
      ensures f(row).error.Some? ==> f(row).error == Some(KeyError)
    {
      InputStepOk(fields, "", tf, inPlace, row);
    }
    RowPassError(0, d, f, KeyError);
  }

  /** Nothing but the first row that is not None is ever projected: every later row,
      in the input and in a returned copy, is what it was. */
  lemma {:induction false} LaterRowsUntouched(d: Table, epsgFrom: int, epsgTo: int, fields: seq<string>,
                                              inPlace: bool, reg: Registry, tf: Transform, j: nat, m: nat)
    requires d.Valid() && j < m < |d.keys| && d.items[d.keys[j]].Some?
    ensures var p := MrkProjectSpec(d, epsgFrom, epsgTo, fields, inPlace, reg, tf);
      && d.keys[m] in p.data.items && p.data.items[d.keys[m]] == d.items[d.keys[m]]
      && (p.result.Ok? && p.result.value.ReturnedDict? ==>
            d.keys[m] in p.result.value.table.items && p.result.value.table.items[d.keys[m]] == d.items[d.keys[m]])
  {
    var first := FirstRow(d, 0);
    assert first.Some? && first.value <= j;
    assert d.keys[first.value] != d.keys[m];
  }

  /** When a usable transformer reaches the first row that is not None, the call succeeds
      exactly when that row holds both fields, and that row alone gets its coordinates:
      in the input dict in place, in the returned copy otherwise. */
  lemma FirstRowProjected(d: Table, epsgFrom: int, epsgTo: int, fields: seq<string>, inPlace: bool,
                          reg: Registry, tf: Transform, j: nat)
    requires d.Valid() && epsgFrom != epsgTo && |fields| == 2 && TransformerOk(reg, epsgFrom, epsgTo)
    requires j < |d.keys| && d.items[d.keys[j]].Some?
    requires forall m :: 0 <= m < j ==> d.items[d.keys[m]].None?
    ensures var p := MrkProjectSpec(d, epsgFrom, epsgTo, fields, inPlace, reg, tf);
      var row := d.items[d.keys[j]].value;
      && (p.result.Ok? <==> fields[0] in row && fields[1] in row)
      && (p.result.Raise? ==> p.result.error == KeyError && p.data == d)
      && (p.result.Ok? && inPlace ==>
            p.result == Ok(ReturnedNone) && p.data.items[d.keys[j]].Some?
            && CoordinatesAdded(fields, "", tf, row, p.data.items[d.keys[j]].value))
      && (p.result.Ok? && !inPlace ==>
            p.data == d && p.result.value.ReturnedDict? && p.result.value.table.keys == d.keys
            && p.result.value.table.items[d.keys[j]].Some?
            && CoordinatesAdded(fields, "", tf, row, p.result.value.table.items[d.keys[j]].value))
  {
    var first := FirstRow(d, 0);
    assert first == Some(j);
    var row := d.items[d.keys[j]].value;
    if fields[0] in row && fields[1] in row {
      CopyStepsShape(fields, "", tf, row);
    }
  }

  /** A dict with no row to project, empty or all None, comes back unchanged with `None`. */
  lemma NoRowToProject(d: Table, epsgFrom: int, epsgTo: int, fields: seq<string>, inPlace: bool,
                       reg: Registry, tf: Transform)
    requires d.Valid() && epsgFrom != epsgTo && |fields| == 2 && TransformerOk(reg, epsgFrom, epsgTo)
    requires forall k :: k in d.items ==> d.items[k].None?
    ensures MrkProjectSpec(d, epsgFrom, epsgTo, fields, inPlace, reg, tf) == Projection(d, Ok(ReturnedNone))
  {
    var first := FirstRow(d, 0);
    if first.Some? {
      assert d.keys[first.value] in d.items;
    }
  }

  /** Unlike the dji.py driver, a transformer that cannot be built is reported with
      `False`, which a caller can tell from every successful outcome. */
  lemma CrsFailureIsFalse(d: Table, epsgFrom: int, epsgTo: int, fields: seq<string>, inPlace: bool,
                          good: Registry, bad: Registry, tf: Transform)
    requires d.Valid() && epsgFrom != epsgTo && |fields| == 2
    requires TransformerOk(good, epsgFrom, epsgTo) && !TransformerOk(bad, epsgFrom, epsgTo)
    ensures MrkProjectSpec(d, epsgFrom, epsgTo, fields, inPlace, bad, tf).result == Ok(ReturnedFalse)
    ensures MrkProjectSpec(d, epsgFrom, epsgTo, fields, inPlace, good, tf).result != Ok(ReturnedFalse)
  {
  }
}
