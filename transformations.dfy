/** transformations.py: the third, in-place projection driver, the affine maps between
    world coordinates and raster row/column, and bilinear interpolation on a raster. */
module Transformations {
  import opened Outcomes
  import opened ODicts
  import opened Values
  import opened Projection

  // ------------------------------------------------------------ projection

  /** One iteration: latitude, longitude and height are read, in that order (a missing
      one is a KeyError before anything is written), then `E` and `N` are written. The
      height is never written. */
  function TfStep(fields: seq<string>, tf: Transform, row: Row): Step
  {
    if |fields| < 3 then Step(row, Some(IndexError))
    else if fields[0] !in row || fields[1] !in row || fields[2] !in row then Step(row, Some(KeyError))
    else
      var xy := tf(row[fields[0]], row[fields[1]]);
      Step(row["E" := xy.0]["N" := xy.1], None)
  }

  function TfRows(fields: seq<string>, tf: Transform): Row -> Step
  {
    row => TfStep(fields, tf, row)
  }

  /** `project_to_utm(epsg_from, epsg_to, data_dict, fields)` of transformations.py. */
  function TfProjectSpec(d: Table, epsgFrom: int, epsgTo: int, fields: seq<string>,
                         reg: Registry, tf: Transform): (p: Projection)
    requires d.Valid()
    ensures p.data.Valid() && p.data.keys == d.keys
    ensures epsgFrom == epsgTo || |fields| != 3 ==> p == Projection(d, Raise(AssertionError))
    ensures epsgFrom != epsgTo && |fields| == 3 && !TransformerOk(reg, epsgFrom, epsgTo) ==>
      p == Projection(d, Ok(ReturnedFalse))
    ensures p.result.Ok? ==> p.result.value == ReturnedTrue || p.result.value == ReturnedFalse
  {
    if epsgFrom == epsgTo || |fields| != 3 then Projection(d, Raise(AssertionError))
    else if !TransformerOk(reg, epsgFrom, epsgTo) then Projection(d, Ok(ReturnedFalse))
    else
      var pass := RowPass(0, d, TfRows(fields, tf));
      Projection(pass.table, if pass.error.Some? then Raise(pass.error.value) else Ok(ReturnedTrue))
  }

  /** The driver: the assertions, the CRS checks, then the loop over the rows. */
  method TfProjectToUtm(epsgFrom: int, epsgTo: int, store: RowStore, fields: seq<string>,
                        reg: Registry, tf: Transform) returns (r: Result<Returned>)
    requires store.data.Valid()
    modifies store
    ensures store.data == TfProjectSpec(old(store.data), epsgFrom, epsgTo, fields, reg, tf).data
    ensures r == TfProjectSpec(old(store.data), epsgFrom, epsgTo, fields, reg, tf).result
  {
    if epsgFrom == epsgTo || |fields| != 3 {
      return Raise(AssertionError);
    }
    if !TransformerOk(reg, epsgFrom, epsgTo) {
      return Ok(ReturnedFalse);
    }
    var error := store.ForEachRow(TfRows(fields, tf));
    if error.Some? {
      return Raise(error.value);
    }
    return Ok(ReturnedTrue);
  }

  /** A row the loop gets through holds all three fields. */
  predicate HasFields(fields: seq<string>, row: Row)
  {
    forall i :: 0 <= i < |fields| ==> fields[i] in row
  }

  lemma TfStepShape(fields: seq<string>, tf: Transform, row: Row)
    requires |fields| == 3
    ensures TfStep(fields, tf, row).error.None? <==> HasFields(fields, row)
    ensures TfStep(fields, tf, row).error.Some? ==> TfStep(fields, tf, row).error == Some(KeyError)
    ensures HasFields(fields, row) ==> CoordinatesAdded(fields, "", tf, row, TfStep(fields, tf, row).row)
  {
    assert "E" + "" == "E" && "N" + "" == "N";
    if !HasFields(fields, row) {
      var i :| 0 <= i < |fields| && fields[i] !in row;
      assert i == 0 || i == 1 || i == 2;
    }
  }

  /** A run with a usable transformer returns True exactly when every row that is not
      None holds the three fields; otherwise it raises KeyError. */
  lemma {:induction false} TfProjectCompletes(d: Table, epsgFrom: int, epsgTo: int, fields: seq<string>,
                                              reg: Registry, tf: Transform)
    requires d.Valid() && epsgFrom != epsgTo && |fields| == 3 && TransformerOk(reg, epsgFrom, epsgTo)
    ensures var p := TfProjectSpec(d, epsgFrom, epsgTo, fields, reg, tf);
      && (p.result == Ok(ReturnedTrue) <==> forall k :: k in d.items && d.items[k].Some? ==> HasFields(fields, d.items[k].value))
      && (p.result.Raise? ==> p.result.error == KeyError)
  {
    var f := TfRows(fields, tf);
    forall row | true
      ensures f(row).error.None? <==> HasFields(fields, row)
      ensures f(row).error.Some? ==> f(row).error == Some(KeyError)
    {
      TfStepShape(fields, tf, row);
    }
    RowPassFinishes(0, d, f);
    RowPassError(0, d, f, KeyError);
    if RowsPass(0, d, f) {
      forall k | k in d.items && d.items[k].Some?
        ensures HasFields(fields, d.items[k].value)
      {
        var j :| 0 <= j < |d.keys| && d.keys[j] == k;
      }
    }
  }

  /** On success every row that is not None holds its projected `E` and `N` and nothing
      else of it changes (in particular no height is written); None rows stay None. */
  lemma TfProjectRows(d: Table, epsgFrom: int, epsgTo: int, fields: seq<string>,
                      reg: Registry, tf: Transform, k: int)
    requires d.Valid() && epsgFrom != epsgTo && |fields| == 3 && TransformerOk(reg, epsgFrom, epsgTo)
    requires TfProjectSpec(d, epsgFrom, epsgTo, fields, reg, tf).result.Ok?
    requires k in d.items
    ensures var p := TfProjectSpec(d, epsgFrom, epsgTo, fields, reg, tf);
      && p.result == Ok(ReturnedTrue) && k in p.data.items
      && (d.items[k].None? ==> p.data.items[k].None?)
      && (d.items[k].Some? ==>
            HasFields(fields, d.items[k].value) && p.data.items[k].Some?
            && CoordinatesAdded(fields, "", tf, d.items[k].value, p.data.items[k].value))
  {
    TfProjectCompletes(d, epsgFrom, epsgTo, fields, reg, tf);
    RowPassResult(0, d, TfRows(fields, tf));
    if d.items[k].Some? {
      TfStepShape(fields, tf, d.items[k].value);
    }
  }

  /** A failed CRS check reports False before any row is touched, and that value differs
      from the True of every completed run. */
  lemma TfCrsFailure(d: Table, epsgFrom: int, epsgTo: int, fields: seq<string>,
                     good: Registry, bad: Registry, tf: Transform)
    requires d.Valid() && epsgFrom != epsgTo && |fields| == 3
    requires TransformerOk(good, epsgFrom, epsgTo) && !TransformerOk(bad, epsgFrom, epsgTo)
    ensures TfProjectSpec(d, epsgFrom, epsgTo, fields, bad, tf) == Projection(d, Ok(ReturnedFalse))
    ensures TfProjectSpec(d, epsgFrom, epsgTo, fields, good, tf).result != Ok(ReturnedFalse)
  {
  }

  // ------------------------------------------------------------ affine maps

  /** An affine map `(x, y) -> (a x + b y + c, d x + e y + f)`, as the affine package
      stores the first two rows of its 3x3 matrix. */
  datatype Affine = Affine(a: real, b: real, c: real, d: real, e: real, f: real)

  function Determinant(t: Affine): real
  {
    t.a * t.e - t.b * t.d
  }

  /** `t * (x, y)`. */
  function Apply(t: Affine, x: real, y: real): (real, real)
  {
    (t.a * x + t.b * y + t.c, t.d * x + t.e * y + t.f)
  }

  /** `~t`: a degenerate map (determinant zero) cannot be inverted; otherwise the inverse
      is built from the reciprocal of the determinant. */
  function Invert(t: Affine): (r: Result<Affine>)
    ensures r.Ok? <==> Determinant(t) != 0.0
    ensures r.Raise? ==> r.error == TransformNotInvertibleError
  {
    if Determinant(t) == 0.0 then Raise(TransformNotInvertibleError)
    else
      var idet := 1.0 / Determinant(t);
      var ra := t.e * idet;
      var rb := -t.b * idet;
      var rd := -t.d * idet;
      var re := t.a * idet;
      Ok(Affine(ra, rb, -t.c * ra - t.f * rb, rd, re, -t.c * rd - t.f * re))
  }

  /** `xy2rc(tform, x, y)`: the inverse map applied to `(x, y)`, returned as
      (row, column) = (second, first) component. */
  function Xy2Rc(t: Affine, x: real, y: real): (r: Result<(real, real)>)
    ensures r.Ok? <==> Determinant(t) != 0.0
  {
    var inv :- Invert(t);
    var p := Apply(inv, x, y);
    Ok((p.1, p.0))
  }

  /** `rc2xy(tform, row, col)`: the map applied to `(col, row)`. */
  function Rc2Xy(t: Affine, row: real, col: real): (real, real)
  {
    Apply(t, col, row)
  }

  /** The inverse map, written around the translation of `t`. */
  lemma InverseOffset(t: Affine, x: real, y: real)
    requires Determinant(t) != 0.0
    ensures var i := 1.0 / Determinant(t);
      && Apply(Invert(t).value, x, y).0 == i * (t.e * (x - t.c) - t.b * (y - t.f))
      && Apply(Invert(t).value, x, y).1 == i * (t.a * (y - t.f) - t.d * (x - t.c))
  {
  }

  /** `i * (det * z) == z` when `i` is the reciprocal of `det`. */
  lemma Cancel(det: real, z: real)
    requires det != 0.0
    ensures (1.0 / det) * (det * z) == z
  {
    var i := 1.0 / det;
    assert det * i == 1.0;
    assert i * (det * z) == (det * i) * z;
  }

  /** The inverse undoes the map: `t * (~t * (x, y)) == (x, y)`. */
  lemma InverseRight(t: Affine, x: real, y: real)
    requires Determinant(t) != 0.0
    ensures Apply(t, Apply(Invert(t).value, x, y).0, Apply(Invert(t).value, x, y).1) == (x, y)
  {
    var det := Determinant(t);
    var i := 1.0 / det;
    var X, Y := x - t.c, y - t.f;
    var u := Apply(Invert(t).value, x, y).0;
    var v := Apply(Invert(t).value, x, y).1;
    InverseOffset(t, x, y);
    assert t.a * u + t.b * v == i * (det * X);
    assert t.d * u + t.e * v == i * (det * Y);
    Cancel(det, X);
    Cancel(det, Y);
    assert Apply(t, u, v).0 == x && Apply(t, u, v).1 == y;
  }

  /** And the map is undone by the inverse: `~t * (t * (x, y)) == (x, y)`. */
  lemma InverseLeft(t: Affine, x: real, y: real)
    requires Determinant(t) != 0.0
    ensures Apply(Invert(t).value, Apply(t, x, y).0, Apply(t, x, y).1) == (x, y)
  {
    var det := Determinant(t);
    var p := Apply(t, x, y);
    InverseOffset(t, p.0, p.1);
    assert p.0 - t.c == t.a * x + t.b * y && p.1 - t.f == t.d * x + t.e * y;
    assert t.e * (p.0 - t.c) - t.b * (p.1 - t.f) == det * x;
    assert t.a * (p.1 - t.f) - t.d * (p.0 - t.c) == det * y;
    Cancel(det, x);
    Cancel(det, y);
    var q := Apply(Invert(t).value, p.0, p.1);
    assert q.0 == x && q.1 == y;
  }

  /** `rc2xy(t, *xy2rc(t, x, y)) == (x, y)` for every invertible map. */
  lemma WorldRoundTrip(t: Affine, x: real, y: real)
    requires Determinant(t) != 0.0
    ensures Xy2Rc(t, x, y).Ok?
    ensures Rc2Xy(t, Xy2Rc(t, x, y).value.0, Xy2Rc(t, x, y).value.1) == (x, y)
  {
    InverseRight(t, x, y);
  }

  /** `xy2rc(t, *rc2xy(t, row, col)) == (row, col)` for every invertible map. */
  lemma PixelRoundTrip(t: Affine, row: real, col: real)
    requires Determinant(t) != 0.0
    ensures Xy2Rc(t, Rc2Xy(t, row, col).0, Rc2Xy(t, row, col).1) == Ok((row, col))
  {
    InverseLeft(t, col, row);
  }

  function Abs(r: real): real
  {
    if r < 0.0 then -r else r
  }

  /** `np.isclose(a, b, rtol=1e-9)` with numpy's default absolute tolerance 1e-8. */
  predicate IsClose(a: real, b: real)
  {
    Abs(a - b) <= 0.00000001 + 0.000000001 * Abs(b)
  }

  /** The geotransform of the unit tests: 1/30 degree cells from (4.9833, 48.0167). */
  const TestTransform := Affine(0.033333333333333326, 0.0, 4.983333333333333, 0.0, -0.033333333333333326, 48.016666666666666)

  /** The `xy2rc` expectation of the unit tests, in exact arithmetic. */
  lemma Xy2RcTestCase()
    ensures Xy2Rc(TestTransform, 9.190653, 45.463873).Ok?
    ensures IsClose(Xy2Rc(TestTransform, 9.190653, 45.463873).value.0, 76.58381000000008)
    ensures IsClose(Xy2Rc(TestTransform, 9.190653, 45.463873).value.1, 126.21959000000001)
  {
    var a := 0.033333333333333326;
    var t := TestTransform;
    assert Determinant(t) == -(a * a);
    var inv := Invert(t).value;
    assert inv.a == 1.0 / a && inv.b == 0.0 && inv.d == 0.0 && inv.e == -1.0 / a;
    assert inv.c == -4.983333333333333 / a && inv.f == 48.016666666666666 / a;
    assert Xy2Rc(t, 9.190653, 45.463873) == Ok(((48.016666666666666 - 45.463873) / a, (9.190653 - 4.983333333333333) / a));
  }

  /** The `rc2xy` expectation of the unit tests, in exact arithmetic. */
  lemma Rc2XyTestCase()
    ensures IsClose(Rc2Xy(TestTransform, 76.0, 126.0).0, 9.183333333333334)
    ensures IsClose(Rc2Xy(TestTransform, 76.0, 126.0).1, 45.483333333333334)
  {
  }

  // ------------------------------------------------------------ bilinear interpolation

  /** A single-channel raster of `|im|` rows of `w` values each. */
  predicate Rectangular(im: seq<seq<real>>, w: nat)
  {
    forall i :: 0 <= i < |im| ==> |im[i]| == w
  }

  /** `np.clip(v, lo, hi)`: `min(max(v, lo), hi)`, so `hi` wins when `hi < lo`. */
  function Clip(v: int, lo: int, hi: int): int
  {
    if v < lo then (if lo <= hi then lo else hi) else if v > hi then hi else v
  }

  /** The four clamped indices around a query point. */
  datatype Cell = Cell(x0: int, x1: int, y0: int, y1: int)

  /** Floor of each coordinate and its successor, each clamped to the raster. On a
      non-empty raster every index is in range and the pair is at most one apart. */
  function ClampedCell(h: nat, w: nat, x: real, y: real): (c: Cell)
    ensures h > 0 && w > 0 ==> 0 <= c.x0 <= c.x1 < w && 0 <= c.y0 <= c.y1 < h
    ensures c.x1 - c.x0 <= 1 && c.y1 - c.y0 <= 1
  {
    Cell(Clip(x.Floor, 0, w - 1), Clip(x.Floor + 1, 0, w - 1), Clip(y.Floor, 0, h - 1), Clip(y.Floor + 1, 0, h - 1))
  }

  /** The four weights, computed from the clamped indices. */
  datatype Weights = Weights(wa: real, wb: real, wc: real, wd: real)

  function CellWeights(c: Cell, x: real, y: real): Weights
  {
    Weights((c.x1 as real - x) * (c.y1 as real - y), (c.x1 as real - x) * (y - c.y0 as real),
            (x - c.x0 as real) * (c.y1 as real - y), (x - c.x0 as real) * (y - c.y0 as real))
  }

  /** The interpolated value at one query point of a non-empty raster. */
  function BilinearAt(im: seq<seq<real>>, w: nat, x: real, y: real): real
    requires Rectangular(im, w) && |im| > 0 && w > 0
  {
    var c := ClampedCell(|im|, w, x, y);
    var k := CellWeights(c, x, y);
    k.wa * im[c.y0][c.x0] + k.wb * im[c.y1][c.x0] + k.wc * im[c.y0][c.x1] + k.wd * im[c.y1][c.x1]
  }

  /** `bilinear_interpolate(im, x, y)` on equally long coordinate arrays, element by
      element. With no query point nothing is indexed; otherwise an empty raster has
      no index to clamp to and indexing it raises IndexError. */
  function BilinearInterpolate(im: seq<seq<real>>, w: nat, xs: seq<real>, ys: seq<real>): (r: Result<seq<real>>)
    requires Rectangular(im, w) && |xs| == |ys|
    ensures r.Raise? <==> |xs| > 0 && (|im| == 0 || w == 0)
    ensures r.Raise? ==> r.error == IndexError
    ensures r.Ok? ==> |r.value| == |xs|
    ensures r.Ok? ==> forall i :: 0 <= i < |xs| ==> r.value[i] == BilinearAt(im, w, xs[i], ys[i])
  {
    if |xs| == 0 then Ok([])
    else if |im| == 0 || w == 0 then Raise(IndexError)
    else Ok(seq(|xs|, i requires 0 <= i < |xs| => BilinearAt(im, w, xs[i], ys[i])))
  }

  function Sum(k: Weights): real
  {
    k.wa + k.wb + k.wc + k.wd
  }

  /** The weights always sum to the area spanned by the clamped indices. */
  lemma WeightSum(c: Cell, x: real, y: real)
    ensures Sum(CellWeights(c, x, y)) == (c.x1 - c.x0) as real * (c.y1 - c.y0) as real
  {
    var X0, X1, Y0, Y1 := c.x0 as real, c.x1 as real, c.y0 as real, c.y1 as real;
    calc {
      Sum(CellWeights(c, x, y));
      (X1 - x) * (Y1 - y) + (X1 - x) * (y - Y0) + (x - X0) * (Y1 - y) + (x - X0) * (y - Y0);
      { assert (X1 - x) * (Y1 - y) + (X1 - x) * (y - Y0) == (X1 - x) * (Y1 - Y0);
        assert (x - X0) * (Y1 - y) + (x - X0) * (y - Y0) == (x - X0) * (Y1 - Y0); }
      (X1 - x) * (Y1 - Y0) + (x - X0) * (Y1 - Y0);
      (X1 - X0) * (Y1 - Y0);
    }
  }

  /** Strictly inside the last row and column the clamping changes nothing, and the
      weights sum to 1. */
  lemma InteriorWeights(h: nat, w: nat, x: real, y: real)
    requires 0.0 <= x < (w - 1) as real && 0.0 <= y < (h - 1) as real
    ensures var c := ClampedCell(h, w, x, y);
      && c == Cell(x.Floor, x.Floor + 1, y.Floor, y.Floor + 1)
      && Sum(CellWeights(c, x, y)) == 1.0
  {
    var c := ClampedCell(h, w, x, y);
    assert c.x1 - c.x0 == 1 && c.y1 - c.y0 == 1;
    WeightSum(c, x, y);
  }

  /** Where the clamped column indices coincide (the last column and everything left
      or right of the raster) the value is 0. */
  lemma ZeroOutsideColumns(im: seq<seq<real>>, w: nat, x: real, y: real)
    requires Rectangular(im, w) && |im| > 0 && w > 0
    requires x < 0.0 || x >= (w - 1) as real
    ensures BilinearAt(im, w, x, y) == 0.0
  {
    var c := ClampedCell(|im|, w, x, y);
    assert c.x0 == c.x1;
    var k := CellWeights(c, x, y);
    var X := c.x0 as real;
    assert k.wa + k.wc == (X - x + (x - X)) * (c.y1 as real - y);
    assert k.wb + k.wd == (X - x + (x - X)) * (y - c.y0 as real);
    assert k.wa * im[c.y0][c.x0] + k.wc * im[c.y0][c.x1] == (k.wa + k.wc) * im[c.y0][c.x0];
    assert k.wb * im[c.y1][c.x0] + k.wd * im[c.y1][c.x1] == (k.wb + k.wd) * im[c.y1][c.x0];
  }

  /** The same for rows: on the last row and above or below the raster the value is 0. */
  lemma ZeroOutsideRows(im: seq<seq<real>>, w: nat, x: real, y: real)
    requires Rectangular(im, w) && |im| > 0 && w > 0
    requires y < 0.0 || y >= (|im| - 1) as real
    ensures BilinearAt(im, w, x, y) == 0.0
  {
    var c := ClampedCell(|im|, w, x, y);
    assert c.y0 == c.y1;
    var k := CellWeights(c, x, y);
    var Y := c.y0 as real;
    assert k.wa + k.wb == (c.x1 as real - x) * (Y - y + (y - Y));
    assert k.wc + k.wd == (x - c.x0 as real) * (Y - y + (y - Y));
    assert k.wa * im[c.y0][c.x0] + k.wb * im[c.y1][c.x0] == (k.wa + k.wb) * im[c.y0][c.x0];
    assert k.wc * im[c.y0][c.x1] + k.wd * im[c.y1][c.x1] == (k.wc + k.wd) * im[c.y0][c.x1];
  }

  /** At a grid node away from the last row and column the raster value comes back. */
  lemma GridNode(im: seq<seq<real>>, w: nat, col: nat, row: nat)
    requires Rectangular(im, w) && col + 2 <= w && row + 2 <= |im|
    ensures BilinearAt(im, w, col as real, row as real) == im[row][col]
  {
    var c := ClampedCell(|im|, w, col as real, row as real);
    assert (col as real).Floor == col && (row as real).Floor == row;
    assert c == Cell(col, col + 1, row, row + 1);
    var k := CellWeights(c, col as real, row as real);
    assert k == Weights(1.0, 0.0, 0.0, 0.0);
  }
}
