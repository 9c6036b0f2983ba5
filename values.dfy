/** The dynamic values the marker-log pipeline stores in its dicts, the dict of rows
    keyed by image id, and the coordinate-reference-system lookup that the three
    projection drivers consult. */
module Values {
  import opened Outcomes
  import opened ODicts

  /** A Python value stored in a row: a float, an int, a str or None. */
  datatype Value = Real(r: real) | Int(i: int) | Text(s: string) | Nil

  /** One joined record: field name to value. */
  type Row = map<string, Value>

  /** The merged dict: image id to a row, or to None when the image is missing. */
  type Table = ODict<int, Option<Row>>

  /** `row[f]`. */
  function Get(row: Row, f: string): (r: Result<Value>)
    ensures r.Ok? <==> f in row
    ensures r.Ok? ==> r.value == row[f]
    ensures r.Raise? ==> r.error == KeyError
  {
    if f in row then Ok(row[f]) else Raise(KeyError)
  }

  /** What the EPSG registry says about a code. */
  datatype CrsKind = Geographic | Projected | OtherKind

  /** The part of the EPSG registry a run can see: codes absent from the map fail to
      resolve (`CRS.from_epsg` raises). */
  type Registry = map<int, CrsKind>

  /** The coordinate transformation from latitude/longitude to easting/northing. */
  type Transform = (Value, Value) -> (Value, Value)

  /** A transformer can be built, its source CRS is geographic and its target CRS is
      projected. */
  predicate TransformerOk(reg: Registry, epsgFrom: int, epsgTo: int)
  {
    epsgFrom in reg && epsgTo in reg && reg[epsgFrom] == Geographic && reg[epsgTo] == Projected
  }

  /** The value a Python function hands back: `None`, `False`, `True` or a dict. */
  datatype Returned = ReturnedNone | ReturnedFalse | ReturnedTrue | ReturnedDict(table: Table)
  {
    /** Python truthiness, as read by `if not result:`. */
    predicate Truthy()
    {
      ReturnedTrue? || (ReturnedDict? && |table.keys| > 0)
    }
  }

  /** What one iteration leaves in a row, and the exception it raised, if any: a
      row may already carry some new fields when a later statement raises. */
  datatype Step = Step(row: Row, error: Option<Error>)

  /** The state a loop over a dict of rows stops in. */
  datatype Pass = Stopped(table: Table, error: Option<Error>)

  /** The loop `for key, row in t.items(): if row is None: continue; <f on row>` from
      position `i` of the insertion order on: it updates rows in place and stops at the
      first exception. Writing to existing keys keeps the order, so positions stay put. */
  function RowPass(i: nat, t: Table, f: Row -> Step): (p: Pass)
    requires t.Valid() && i <= |t.keys|
    ensures p.table.Valid() && p.table.keys == t.keys
    decreases |t.keys| - i
  {
    if i == |t.keys| then Stopped(t, None)
    else match t.items[t.keys[i]]
      case None => RowPass(i + 1, t, f)
      case Some(row) =>
        var s := f(row);
        var t' := t.Put(t.keys[i], Some(s.row));
        if s.error.Some? then Stopped(t', s.error) else RowPass(i + 1, t', f)
  }

  /** No row from position `i` on makes `f` raise. */
  predicate RowsPass(i: nat, t: Table, f: Row -> Step)
    requires t.Valid()
  {
    forall j :: i <= j < |t.keys| && t.items[t.keys[j]].Some? ==> f(t.items[t.keys[j]].value).error.None?
  }

  /** What a loop from position `i` that ran to the end leaves under key `k`. */
  function Updated(i: nat, t: Table, f: Row -> Step, k: int): Option<Row>
    requires t.Valid() && i <= |t.keys| && k in t.items
  {
    if k in t.keys[i..] && t.items[k].Some? then Some(f(t.items[k].value).row) else t.items[k]
  }

  /** Writing at position `i` leaves every later position as it was. */
  lemma PutKeepsLater(t: Table, i: nat, v: Option<Row>)
    requires t.Valid() && i < |t.keys|
    ensures forall j :: i < j < |t.keys| ==> t.Put(t.keys[i], v).items[t.keys[j]] == t.items[t.keys[j]]
    ensures forall k :: k in t.keys[i + 1..] ==> k in t.keys[i..] && k != t.keys[i]
    ensures forall k :: k in t.keys[i..] && k != t.keys[i] ==> k in t.keys[i + 1..]
  {
    assert t.keys[i..] == [t.keys[i]] + t.keys[i + 1..];
  }

  /** The loop finishes exactly when no row from position `i` on raises. */
  lemma {:induction false} RowPassFinishes(i: nat, t: Table, f: Row -> Step)
    requires t.Valid() && i <= |t.keys|
    ensures RowPass(i, t, f).error.None? <==> RowsPass(i, t, f)
    decreases |t.keys| - i
  {
    if i < |t.keys| {
      var key := t.keys[i];
      match t.items[key]
      case None =>
        RowPassFinishes(i + 1, t, f);
      case Some(row) =>
        if f(row).error.None? {
          var t' := t.Put(key, Some(f(row).row));
          PutKeepsLater(t, i, Some(f(row).row));
          RowPassFinishes(i + 1, t', f);
          assert RowsPass(i + 1, t', f) <==> RowsPass(i + 1, t, f);
        }
    }
  }

  /** One position's worth of `Updated`: the row at position `i` is settled by the
      write, every other key is settled by the loop from `i + 1` on. */
  lemma UpdatedStep(i: nat, t: Table, f: Row -> Step, k: int)
    requires t.Valid() && i < |t.keys| && k in t.items && t.items[t.keys[i]].Some?
    ensures Updated(i + 1, t.Put(t.keys[i], Some(f(t.items[t.keys[i]].value).row)), f, k) == Updated(i, t, f, k)
  {
    PutKeepsLater(t, i, Some(f(t.items[t.keys[i]].value).row));
  }

  lemma UpdatedSkip(i: nat, t: Table, f: Row -> Step, k: int)
    requires t.Valid() && i < |t.keys| && k in t.items && t.items[t.keys[i]].None?
    ensures Updated(i + 1, t, f, k) == Updated(i, t, f, k)
  {
    PutKeepsLater(t, i, None);
  }

  /** A loop that finishes leaves every visited row as `f` of its old value, and None
      rows and earlier positions as they were. */
  lemma {:induction false} RowPassResult(i: nat, t: Table, f: Row -> Step)
    requires t.Valid() && i <= |t.keys| && RowPass(i, t, f).error.None?
    ensures forall k :: k in t.items ==> k in RowPass(i, t, f).table.items && RowPass(i, t, f).table.items[k] == Updated(i, t, f, k)
    decreases |t.keys| - i
  {
    if i < |t.keys| {
      var key := t.keys[i];
      match t.items[key]
      case None =>
        RowPassResult(i + 1, t, f);
        forall k | k in t.items {
          UpdatedSkip(i, t, f, k);
        }
      case Some(row) =>
        var t' := t.Put(key, Some(f(row).row));
        RowPassResult(i + 1, t', f);
        forall k | k in t.items {
          UpdatedStep(i, t, f, k);
        }
    }
  }

  /** A row that is None is never touched, whether or not the loop finishes. */
  lemma {:induction false} RowPassKeeps(i: nat, t: Table, f: Row -> Step, k: int)
    requires t.Valid() && i <= |t.keys| && k in t.items && t.items[k].None?
    ensures k in RowPass(i, t, f).table.items && RowPass(i, t, f).table.items[k].None?
    decreases |t.keys| - i
  {
    if i < |t.keys| {
      var t', stops := RowPassVisit(i, t, f, k);
      if !stops {
        RowPassKeeps(i + 1, t', f, k);
      }
    }
  }

  /** Visiting position `i` writes at most that position's key, which is not a key whose
      row is None: the loop either stops on the written dict or goes on from it. */
  lemma RowPassVisit(i: nat, t: Table, f: Row -> Step, k: int) returns (t': Table, stops: bool)
    requires t.Valid() && i < |t.keys| && k in t.items && t.items[k].None?
    ensures t'.Valid() && t'.keys == t.keys && k in t'.items && t'.items[k].None?
    ensures stops ==> RowPass(i, t, f) == Stopped(t', RowPass(i, t, f).error)
    ensures !stops ==> RowPass(i, t, f) == RowPass(i + 1, t', f)
  {
    match t.items[t.keys[i]]
    case None =>
      t', stops := t, false;
    case Some(row) =>
      var s := f(row);
      t' := t.Put(t.keys[i], Some(s.row));
      stops := s.error.Some?;
  }

  /** When every exception a row can raise is `e`, a loop that stops raises `e`. */
  lemma {:induction false} RowPassError(i: nat, t: Table, f: Row -> Step, e: Error)
    requires t.Valid() && i <= |t.keys|
    requires forall row :: f(row).error.Some? ==> f(row).error == Some(e)
    ensures RowPass(i, t, f).error.Some? ==> RowPass(i, t, f).error == Some(e)
    decreases |t.keys| - i
  {
    if i < |t.keys| {
      match t.items[t.keys[i]]
      case None =>
        RowPassError(i + 1, t, f, e);
      case Some(row) =>
        if f(row).error.None? {
          RowPassError(i + 1, t.Put(t.keys[i], Some(f(row).row)), f, e);
        }
    }
  }

  /** Two dicts over the same order that agree on the rows from position `i` on still
      agree from `i + 1` on after each writes its row at position `i`. */
  /** `a` and `b` hold the same rows at every position from `i` on. */
  predicate AgreeFrom(i: nat, a: Table, b: Table)
    requires a.Valid() && b.Valid() && a.keys == b.keys
  {
    forall j :: i <= j < |a.keys| ==> a.items[a.keys[j]] == b.items[a.keys[j]]
  }

  lemma AgreeAfterPut(i: nat, a: Table, b: Table, va: Option<Row>, vb: Option<Row>)
    requires a.Valid() && b.Valid() && a.keys == b.keys && i < |a.keys|
    requires AgreeFrom(i, a, b)
    ensures a.Put(a.keys[i], va).keys == b.Put(a.keys[i], vb).keys == a.keys
    ensures AgreeFrom(i + 1, a.Put(a.keys[i], va), b.Put(a.keys[i], vb))
  {
    var a', b' := a.Put(a.keys[i], va), b.Put(a.keys[i], vb);
    forall j | i + 1 <= j < |a'.keys|
      ensures a'.items[a'.keys[j]] == b'.items[a'.keys[j]]
    {
      assert a.keys[j] != a.keys[i];
    }
  }

  /** Python `==` between a stored value and an integer constant: numbers compare by
      value (`50.0 == 50`), anything else is unequal. */
  predicate NumEq(v: Value, c: int)
  {
    match v
      case Real(r) => r == c as real
      case Int(n) => n == c
      case _ => false
  }

  /** Python `s * v` for a float factor `s`: a number gives a float, anything else is a
      TypeError. */
  function Scale(s: real, v: Value): (p: Result<Value>)
    ensures p.Ok? <==> v.Real? || v.Int?
    ensures v.Real? ==> p == Ok(Real(s * v.r))
    ensures v.Int? ==> p == Ok(Real(s * v.i as real))
    ensures p.Raise? ==> p.error == TypeError
  {
    if v.Real? then Ok(Real(s * v.r))
    else if v.Int? then Ok(Real(s * v.i as real))
    else Raise(TypeError)
  }

  /** The dict object of rows that the projection drivers update in place. */
  class RowStore {
    var data: Table

    constructor (d: Table)
      ensures data == d
    {
      data := d;
    }

    /** `for key, row in self.data.items(): if row is None: continue; <f on row>`,
        stopping at the first exception, which it hands back. */
    method ForEachRow(f: Row -> Step) returns (error: Option<Error>)
      requires data.Valid()
      modifies this
      ensures Stopped(data, error) == RowPass(0, old(data), f)
    {
      ghost var d0 := data;
      var i := 0;
      while i < |data.keys|
        invariant data.Valid() && data.keys == d0.keys && 0 <= i <= |data.keys|
        invariant RowPass(i, data, f) == RowPass(0, d0, f)
      {
        var key := data.keys[i];
        var entry := data.items[key];
        if entry.Some? {
          var s := f(entry.value);
          data := data.Put(key, Some(s.row));
          if s.error.Some? {
            return s.error;
          }
        }
        i := i + 1;
      }
      return None;
    }
  }
}
