/** utils/rwutils.py, continued: the reader of Stonex RW5 logs, `rw5readline` and the
    line-dispatch loop of `rw5read`. Geodetic conversions (`sex2dec`, and the
    `geo2cart` / shift / `cart2geo` chain) are parameters. */
module Rw5 {
  import opened Outcomes
  import opened Text
  import opened Values
  import Rwutils

  // ---------------------------------------------------------------- rw5readline

  /** A `fieldtype` entry: the name of the cast applied to a matched token. */
  datatype Cast = AsStr | AsFloat | AsInt

  /** The cast of the text after a key: `str` drops newlines, `float` and `int`
      raise on text that is not a number. */
  function CastField(c: Cast, rest: string, parse: string -> Option<real>): (r: Result<Value>)
    ensures c == AsStr ==> r == Ok(Text(RemoveChar(rest, '\n')))
    ensures c == AsFloat ==> r == if parse(rest).Some? then Ok(Real(parse(rest).value)) else Raise(ValueError)
    ensures r.Raise? ==> r.error == ValueError
  {
    match c
      case AsStr => Ok(Text(RemoveChar(rest, '\n')))
      case AsFloat => if parse(rest).Some? then Ok(Real(parse(rest).value)) else Raise(ValueError)
      case AsInt => var n :- ParseInt(rest); Ok(Int(n))
  }

  /** The dict every reading starts from: each key mapped to None. */
  function Blank(keys: seq<string>): (m: map<string, Value>)
    ensures m.Keys == set k | k in keys
    ensures forall k :: k in m ==> m[k] == Nil
  {
    map k | k in keys :: Nil
  }

  /** The inner loop over the keys for one token, from key `j` on. A key whose
      `fieldtype` entry is missing raises only when it matches. */
  function ScanKeys(token: string, keys: seq<string>, types: seq<Cast>, j: nat, out: map<string, Value>,
                    parse: string -> Option<real>): (r: Result<map<string, Value>>)
    requires j <= |keys| && forall k :: k in keys ==> k in out
    ensures r.Ok? ==> r.value.Keys == out.Keys
    ensures r.Raise? ==> r.error == ValueError || r.error == IndexError
    decreases |keys| - j
  {
    if j == |keys| then Ok(out)
    else if StartsWith(token, keys[j]) then
      var c :- if j < |types| then Ok(types[j]) else Raise(IndexError);
      var v :- CastField(c, token[|keys[j]|..], parse);
      ScanKeys(token, keys, types, j + 1, out[keys[j] := v], parse)
    else ScanKeys(token, keys, types, j + 1, out, parse)
  }

  /** The outer loop over the tokens, from token `i` on. */
  function ScanTokens(tokens: seq<string>, keys: seq<string>, types: seq<Cast>, i: nat, out: map<string, Value>,
                      parse: string -> Option<real>): (r: Result<map<string, Value>>)
    requires i <= |tokens| && forall k :: k in keys ==> k in out
    ensures r.Ok? ==> r.value.Keys == out.Keys
    ensures r.Raise? ==> r.error == ValueError || r.error == IndexError
    decreases |tokens| - i
  {
    if i == |tokens| then Ok(out)
    else
      var next :- ScanKeys(tokens[i], keys, types, 0, out, parse);
      ScanTokens(tokens, keys, types, i + 1, next, parse)
  }

  /** `rw5readline(indata, strlist, fieldtype)`: a dict holding exactly the keys. */
  function ReadLineSpec(tokens: seq<string>, keys: seq<string>, types: seq<Cast>, parse: string -> Option<real>)
    : (r: Result<map<string, Value>>)
    ensures r.Ok? ==> r.value.Keys == set k | k in keys
    ensures r.Raise? ==> r.error == ValueError || r.error == IndexError
  {
    ScanTokens(tokens, keys, types, 0, Blank(keys), parse)
  }

  method ReadLine(tokens: seq<string>, keys: seq<string>, types: seq<Cast>, parse: string -> Option<real>)
    returns (r: Result<map<string, Value>>)
    ensures r == ReadLineSpec(tokens, keys, types, parse)
  {
    var outdata := Blank(keys);
    for i := 0 to |tokens|
      invariant forall k :: k in keys ==> k in outdata
      invariant ScanTokens(tokens, keys, types, i, outdata, parse) == ReadLineSpec(tokens, keys, types, parse)
    {
      ghost var before := outdata;
      for j := 0 to |keys|
        invariant forall k :: k in keys ==> k in outdata
        invariant ScanKeys(tokens[i], keys, types, j, outdata, parse) == ScanKeys(tokens[i], keys, types, 0, before, parse)
      {
        if tokens[i][..Min(|keys[j]|, |tokens[i]|)] == keys[j] {
          if j >= |types| {
            return Raise(IndexError);
          }
          var v := CastField(types[j], tokens[i][|keys[j]|..], parse);
          if v.Raise? {
            return Raise(v.error);
          }
          outdata := outdata[keys[j] := v.value];
        }
      }
    }
    return Ok(outdata);
  }

  function Min(a: int, b: int): int
  {
    if a <= b then a else b
  }

  /** The last of the first `n` tokens that starts with `k`. */
  function LastMatch(tokens: seq<string>, k: string, n: nat): (m: Option<nat>)
    requires n <= |tokens|
    ensures m.Some? ==> m.value < n && StartsWith(tokens[m.value], k)
                        && forall i :: m.value < i < n ==> !StartsWith(tokens[i], k)
    ensures m.None? ==> forall i :: 0 <= i < n ==> !StartsWith(tokens[i], k)
  {
    if n == 0 then None
    else if StartsWith(tokens[n - 1], k) then Some(n - 1)
    else LastMatch(tokens, k, n - 1)
  }

  predicate Distinct(keys: seq<string>)
  {
    forall a, b :: 0 <= a < b < |keys| ==> keys[a] != keys[b]
  }

  lemma {:induction false} ScanKeysAt(token: string, keys: seq<string>, types: seq<Cast>, j: nat,
                                      out: map<string, Value>, parse: string -> Option<real>, p: nat)
    requires j <= |keys| && (forall k :: k in keys ==> k in out) && Distinct(keys) && p < |keys|
    requires ScanKeys(token, keys, types, j, out, parse).Ok?
    ensures var r := ScanKeys(token, keys, types, j, out, parse).value;
      if j <= p && StartsWith(token, keys[p])
      then p < |types| && CastField(types[p], token[|keys[p]|..], parse) == Ok(r[keys[p]])
      else r[keys[p]] == out[keys[p]]
    decreases |keys| - j
  {
    if j < |keys| {
      if StartsWith(token, keys[j]) {
        var v := CastField(types[j], token[|keys[j]|..], parse).value;
        ScanKeysAt(token, keys, types, j + 1, out[keys[j] := v], parse, p);
      } else {
        ScanKeysAt(token, keys, types, j + 1, out, parse, p);
      }
    }
  }

  lemma {:induction false} ScanTokensAt(tokens: seq<string>, keys: seq<string>, types: seq<Cast>, i: nat,
                                        out: map<string, Value>, parse: string -> Option<real>, p: nat)
    requires i <= |tokens| && (forall k :: k in keys ==> k in out) && Distinct(keys) && p < |keys|
    requires ScanTokens(tokens, keys, types, i, out, parse).Ok?
    ensures var r := ScanTokens(tokens, keys, types, i, out, parse).value;
      var m := LastMatch(tokens, keys[p], |tokens|);
      if m.Some? && m.value >= i
      then p < |types| && CastField(types[p], tokens[m.value][|keys[p]|..], parse) == Ok(r[keys[p]])
      else r[keys[p]] == out[keys[p]]
    decreases |tokens| - i
  {
    if i < |tokens| {
      var next := ScanKeys(tokens[i], keys, types, 0, out, parse).value;
      ScanKeysAt(tokens[i], keys, types, 0, out, parse, p);
      ScanTokensAt(tokens, keys, types, i + 1, next, parse, p);
    }
  }

  /** For distinct keys, a key keeps None when no token starts with it, and otherwise
      holds the cast of what follows it in the LAST token that starts with it. */
  lemma ReadLineLastWins(tokens: seq<string>, keys: seq<string>, types: seq<Cast>, parse: string -> Option<real>, p: nat)
    requires Distinct(keys) && p < |keys| && ReadLineSpec(tokens, keys, types, parse).Ok?
    ensures var r := ReadLineSpec(tokens, keys, types, parse).value;
      var m := LastMatch(tokens, keys[p], |tokens|);
      && (m.None? ==> r[keys[p]] == Nil)
      && (m.Some? ==> p < |types| && CastField(types[p], tokens[m.value][|keys[p]|..], parse) == Ok(r[keys[p]]))
  {
    ScanTokensAt(tokens, keys, types, 0, Blank(keys), parse, p);
  }

  // ---------------------------------------------------------------- rw5read

  /** The geodetic helpers the reader calls: `sex2dec` on a dd.mmss value, and the
      datum shift of a point (`geo2cart`, minus the correction, `cart2geo`, back to
      degrees) on latitude, longitude and height. */
  datatype Geodesy = Geodesy(sex2dec: Value -> Result<real>, shift: (real, real, real) -> (real, real, real))

  /** A rover record. Fields still `None` hold the NaN `addgpsline` put there. */
  datatype GpsPoint = GpsPoint(
    name: Value, phi: real, lam: real, h: real, hr: Value, code: Value, rtkDev: Value,
    eastL: Option<Value>, northL: Option<Value>, hl: Option<Value>,
    bpId: Option<Value>, bpRow: Option<int>, gpsTime: Option<seq<real>>,
    bpNameRaw: Value, dxRaw: Option<Value>, dyRaw: Option<Value>, dzRaw: Option<Value>)

  /** A base-point record. Fields still `None` hold the NaN `addbpline` put there. */
  datatype BasePoint = BasePoint(
    name: Value, id: Option<int>, phi: Option<real>, lam: Option<real>, h: Option<real>,
    ag: Option<Value>, pa: Option<Value>, rtkProt: Value, rtkDev: Value, rtkNet: Value)

  const NewBasePoint: BasePoint :=
    BasePoint(Text(""), None, None, None, None, None, None, Text(""), Text(""), Text(""))

  /** The loop variables: the kind of the last dispatched line, the rover height
      `hr`, the RTK device in force and the two lists. */
  datatype Rw5State = Rw5State(last: string, hr: Value, rtkDev: Value, gps: seq<GpsPoint>, bp: seq<BasePoint>)

  const Start: Rw5State := Rw5State("", Int(0), Text(""), [], [])

  /** `a - b` on Python numbers; None or text raises TypeError. */
  function Sub(a: Value, b: Value): (r: Result<real>)
    ensures r.Ok? <==> (a.Real? || a.Int?) && (b.Real? || b.Int?)
  {
    var x :- Number(a);
    var y :- Number(b);
    Ok(x - y)
  }

  function Number(a: Value): (r: Result<real>)
    ensures r.Ok? <==> a.Real? || a.Int?
  {
    match a
      case Real(x) => Ok(x)
      case Int(n) => Ok(n as real)
      case _ => Raise(TypeError)
  }

  /** `'UHF' in dev`, which raises when the device is None. */
  function HasUhf(dev: Value): (r: Result<bool>)
    ensures r.Raise? <==> !dev.Text?
  {
    if dev.Text? then Ok(Contains(dev.s, "UHF")) else Raise(TypeError)
  }

  const GpsKeys: seq<string> := ["PN", "LA", "LN", "EL", "--"]
  const GpsTypes: seq<Cast> := [AsStr, AsFloat, AsFloat, AsFloat, AsStr]
  const MethodKeys: seq<string> := ["--RTK Method: ", " Device: ", " Network: "]
  const BpKeys: seq<string> := ["PN", "LA", "LN", "EL", "AG", "PA"]
  const BpTypes: seq<Cast> := [AsStr, AsFloat, AsFloat, AsFloat, AsFloat, AsFloat]
  const GsKeys: seq<string> := ["E ", "N ", "EL"]
  const G0Keys: seq<string> := ["Base ID read at rover: ", "(Average) - Base ID read at rover: "]
  const G1Keys: seq<string> := ["BP", "DX", "DY", "DZ"]

  /** A `GPS` line: a new rover record whose height is the ellipsoidal height less
      the rover height in force, shifted when the device is UHF or unknown. */
  function GpsLine(line: seq<string>, hr: Value, dev: Value, geo: Geodesy, parse: string -> Option<real>): Result<GpsPoint>
  {
    var ri :- ReadLineSpec(line, GpsKeys, GpsTypes, parse);
    var phi :- geo.sex2dec(ri["LA"]);
    var lam :- geo.sex2dec(ri["LN"]);
    var h :- Sub(ri["EL"], hr);
    var uhf :- HasUhf(dev);
    var shifted := uhf || dev == Text("");
    var pos := if shifted then geo.shift(phi, lam, h) else (phi, lam, h);
    Ok(GpsPoint(ri["PN"], pos.0, pos.1, pos.2, hr, ri["--"], dev, None, None, None, None, None, None,
                Text(""), None, None, None))
  }

  /** The RTK method, device and network of a `--RTK Method:` line, on a base record. */
  function MethodFields(line: seq<string>, b: BasePoint, parse: string -> Option<real>): BasePoint
  {
    var ri := ReadLineSpec(line, MethodKeys, [AsStr, AsStr, AsStr], parse);
    if ri.Raise? then b   // string casts never raise
    else b.(rtkDev := ri.value[" Device: "], rtkNet := ri.value[" Network: "], rtkProt := ri.value["--RTK Method: "])
  }

  /** The last run of ASCII digits in `s` (`re.findall('\d+', s)[-1]`). */
  function LastDigits(s: string): (r: Option<string>)
    ensures r.Some? ==> |r.value| > 0 && AllDigits(r.value)
  {
    if |s| == 0 then None
    else if IsDigit(s[|s| - 1]) then Some(TrailingDigits(s))
    else LastDigits(s[..|s| - 1])
  }

  function TrailingDigits(s: string): (r: string)
    requires |s| > 0 && IsDigit(s[|s| - 1])
    ensures |r| > 0 && AllDigits(r)
  {
    if |s| > 1 && IsDigit(s[|s| - 2]) then TrailingDigits(s[..|s| - 1]) + [s[|s| - 1]] else [s[|s| - 1]]
  }

  /** `int(re.findall('\d+', pn)[-1])`: None raises TypeError, a name without digits
      IndexError. */
  function PointId(pn: Value): Result<int>
  {
    if !pn.Text? then Raise(TypeError)
    else match LastDigits(pn.s)
      case None => Raise(IndexError)
      case Some(d) => Ok(DigitsValue(d))
  }

  /** A `BP` line, filling the last base record: position, id, antenna height and
      phase-centre offset, height reduced by both, shifted for UHF surveys. */
  function BpFields(line: seq<string>, bp: seq<BasePoint>, dev: Value, geo: Geodesy, parse: string -> Option<real>)
    : (r: Result<seq<BasePoint>>)
    ensures |bp| == 0 ==> r.Raise?
    ensures r.Ok? ==> |r.value| == |bp| && r.value[..|bp| - 1] == bp[..|bp| - 1]
  {
    var ri :- ReadLineSpec(line, BpKeys, BpTypes, parse);
    var b :- if |bp| > 0 then Ok(bp[|bp| - 1]) else Raise(IndexError);
    var b' :- BpRecord(ri, b, dev, geo);
    Ok(ReplaceLast(bp, b'))
  }

  /** The last base record filled from the fields of a `BP` line. */
  function BpRecord(ri: map<string, Value>, b: BasePoint, dev: Value, geo: Geodesy): Result<BasePoint>
    requires "PN" in ri && "LA" in ri && "LN" in ri && "EL" in ri && "AG" in ri && "PA" in ri
  {
    var id :- PointId(ri["PN"]);
    var phi :- geo.sex2dec(ri["LA"]);
    var lam :- geo.sex2dec(ri["LN"]);
    var el :- Sub(ri["EL"], ri["AG"]);
    var h :- Sub(Real(el), ri["PA"]);
    var uhf :- HasUhf(dev);
    var pos := if uhf then geo.shift(phi, lam, h) else (phi, lam, h);
    Ok(b.(name := ri["PN"], id := Some(id), phi := Some(pos.0), lam := Some(pos.1), h := Some(pos.2),
          ag := Some(ri["AG"]), pa := Some(ri["PA"])))
  }

  /** The base id of a `G0` line: the one key present, converted by `int()` (left
      as it was when the conversion fails); '' when both or neither are present. */
  function BaseId(b0: Value, b1: Value, prev: Option<Value>): Option<Value>
  {
    if b0 == Nil && b1 != Nil then
      (if b1.Text? && ParseInt(b1.s).Ok? then Some(Int(ParseInt(b1.s).value)) else prev)
    else if b1 == Nil && b0 != Nil then
      (if b0.Text? && ParseInt(b0.s).Ok? then Some(Int(ParseInt(b0.s).value)) else prev)
    else Some(Text(""))
  }

  /** The numbers of a `G0` line's GPS time, split on '/', ':' and ' '. */
  function TimeFields(t: string, parse: string -> Option<real>): Result<seq<real>>
  {
    var parts := SplitOn(t, {'/', ':', ' '});
    if forall k :: 0 <= k < |parts| ==> parse(parts[k]).Some?
    then Ok(seq(|parts|, k requires 0 <= k < |parts| => parse(parts[k]).value))
    else Raise(ValueError)
  }

  /** The list with its last record replaced by `x`. */
  function ReplaceLast<T>(xs: seq<T>, x: T): (r: seq<T>)
    requires |xs| > 0
    ensures |r| == |xs| && r[..|xs| - 1] == xs[..|xs| - 1] && r[|xs| - 1] == x
  {
    xs[..|xs| - 1] + [x]
  }

  /** `s[n:]`: empty when `s` is shorter than `n`. */
  function Drop(s: string, n: nat): (r: string)
    ensures |r| == if n <= |s| then |s| - n else 0
  {
    if n <= |s| then s[n..] else ""
  }

  /** `float(parts[n])`: IndexError past the end, ValueError on text that is not a number. */
  function FloatAt(parts: seq<string>, n: nat, parse: string -> Option<real>): (r: Result<real>)
    ensures r.Ok? <==> n < |parts| && parse(parts[n]).Some?
    ensures r.Ok? ==> r.value == parse(parts[n]).value
    ensures n >= |parts| ==> r == Raise(IndexError)
    ensures r.Raise? && n < |parts| ==> r == Raise(ValueError)
  {
    if n >= |parts| then Raise(IndexError)
    else if parse(parts[n]).Some? then Ok(parse(parts[n]).value)
    else Raise(ValueError)
  }

  /** `int(parts[n])`: IndexError past the end, ValueError on text that is not an integer. */
  function IntAt(parts: seq<string>, n: nat): (r: Result<int>)
    ensures n >= |parts| ==> r == Raise(IndexError)
    ensures n < |parts| ==> r == ParseInt(parts[n])
  {
    if n >= |parts| then Raise(IndexError) else ParseInt(parts[n])
  }

  /** A `--DT` line: the text after the tag split on '-', read as day, month and
      year from the third, second and first field, in that order. */
  function DateFields(tok: string, parse: string -> Option<real>): (r: Result<seq<real>>)
    ensures var date := SplitOn(RemoveChar(Drop(tok, 4), '\n'), {'-'});
      && (r.Ok? <==> |date| >= 3 && parse(date[0]).Some? && parse(date[1]).Some? && parse(date[2]).Some?)
      && (|date| < 3 ==> r == Raise(IndexError))
  {
    var date := SplitOn(RemoveChar(Drop(tok, 4), '\n'), {'-'});
    var day :- FloatAt(date, 2, parse);
    var month :- FloatAt(date, 1, parse);
    var year :- FloatAt(date, 0, parse);
    Ok([day, month, year])
  }

  /** A `--TM` line: the text after the tag split on ':', read as hours, minutes and
      seconds from the first three fields. */
  function ClockFields(tok: string, parse: string -> Option<real>): (r: Result<seq<real>>)
    ensures var tm := SplitOn(RemoveChar(Drop(tok, 4), '\n'), {':'});
      && (r.Ok? <==> |tm| >= 3 && parse(tm[0]).Some? && parse(tm[1]).Some? && parse(tm[2]).Some?)
      && (r.Ok? ==> |r.value| == 3)
      && (|tm| >= 1 && parse(tm[0]).None? ==> r == Raise(ValueError))
  {
    var tm := SplitOn(RemoveChar(Drop(tok, 4), '\n'), {':'});
    var hours :- FloatAt(tm, 0, parse);
    var minutes :- FloatAt(tm, 1, parse);
    var seconds :- FloatAt(tm, 2, parse);
    Ok([hours, minutes, seconds])
  }

  const HsdvKeys: seq<string> :=
    [" ESDV:", " NSDV:", " VSDV:", " STATUS:", " SATS:", " HDOP:", " VDOP:", " PDOP:", " TDOP:", " GDOP:"]
  const HsdvTypes: seq<Cast> :=
    [AsFloat, AsFloat, AsFloat, AsStr, AsInt, AsFloat, AsFloat, AsFloat, AsFloat, AsFloat]

  /** A `G2` or `G3` line: three covariance terms stored into a float array, where a
      term the line lacks (None) is a TypeError. */
  function Covariance(line: seq<string>, keys: seq<string>, parse: string -> Option<real>): (r: Result<seq<Value>>)
    requires |keys| == 3
    ensures r.Ok? ==> |r.value| == 3 && forall k :: 0 <= k < 3 ==> r.value[k] != Nil
    ensures ReadLineSpec(line, keys, [AsFloat, AsFloat, AsFloat], parse).Raise? ==> r.Raise?
    ensures r.Raise? ==> r.error == ValueError || r.error == IndexError || r.error == TypeError
  {
    var ri :- ReadLineSpec(line, keys, [AsFloat, AsFloat, AsFloat], parse);
    if ri[keys[0]] == Nil || ri[keys[1]] == Nil || ri[keys[2]] == Nil then Raise(TypeError)
    else Ok([ri[keys[0]], ri[keys[1]], ri[keys[2]]])
  }

  /** The detail lines from `G2` on, whose values the rover record here does not
      keep: only whether reading them raises. */
  function UnkeptDetail(line: seq<string>, parse: string -> Option<real>): (r: Result<()>)
    requires |line| > 0
    ensures r.Raise? ==> r.error == IndexError || r.error == ValueError || r.error == TypeError
  {
    var tok := line[0];
    if tok == "G2" then var c :- Covariance(line, ["VX", "VY", "VZ"], parse); Ok(())
    else if tok == "G3" then var c :- Covariance(line, ["XY", "XZ", "YZ"], parse); Ok(())
    else if Contains(tok, "--GT") then
      var ri :- ReadLineSpec(line, ["SW", "ST", "EW", "ET"], [AsFloat, AsFloat, AsFloat, AsFloat], parse); Ok(())
    else if Contains(tok, "--HSDV:") then var ri :- ReadLineSpec(line, HsdvKeys, HsdvTypes, parse); Ok(())
    else if Contains(tok, "--ERMS") || Contains(tok, "--NRMS") || Contains(tok, "--VSDV") then
      var x :- FloatAt(Words(tok), 2, parse); Ok(())
    else if Contains(tok, "--Fixed Readings") then Ok(())
    else if Contains(tok, "--Number of Satellites") then var n :- IntAt(Words(tok), 4); Ok(())
    else if Contains(tok, "--HDOP") || Contains(tok, "--VDOP") || Contains(tok, "--PDOP") then
      var x :- FloatAt(Words(tok), 2, parse); Ok(())
    else if Contains(tok, "--Depth Measurement Quality:") then var x :- FloatAt(Words(tok), 3, parse); Ok(())
    else Ok(())
  }

  /** A detail line after a `GPS` line, updating the last rover record: nothing
      but that record changes. */
  function DetailLine(line: seq<string>, s: Rw5State, parse: string -> Option<real>): (r: Result<Rw5State>)
    requires |line| > 0 && |s.gps| > 0
    ensures r.Ok? ==> r.value == s.(gps := r.value.gps)
    ensures r.Ok? ==> |r.value.gps| == |s.gps| && r.value.gps[..|s.gps| - 1] == s.gps[..|s.gps| - 1]
  {
    var g := s.gps[|s.gps| - 1];
    if line[0] == "--GS" then
      var g' :- GsFields(line, g, parse);
      Ok(s.(gps := ReplaceLast(s.gps, g')))
    else if Contains(line[0], "--DT") then var date :- DateFields(line[0], parse); Ok(s)
    else if Contains(line[0], "--TM") then var time :- ClockFields(line[0], parse); Ok(s)
    else if line[0] == "G0" then
      var g' :- G0Fields(line, g, |s.bp| - 1, parse);
      Ok(s.(gps := ReplaceLast(s.gps, g')))
    else if line[0] == "G1" then
      var g' :- G1Fields(line, g, parse);
      Ok(s.(gps := ReplaceLast(s.gps, g')))
    else var checked :- UnkeptDetail(line, parse); Ok(s)
  }

  /** A `--GS` line: the local east, north and elevation of the rover record. */
  function GsFields(line: seq<string>, g: GpsPoint, parse: string -> Option<real>): Result<GpsPoint>
  {
    var ri :- ReadLineSpec(line, GsKeys, [AsFloat, AsFloat, AsFloat], parse);
    Ok(g.(eastL := Some(ri["E "]), northL := Some(ri["N "]), hl := Some(ri["EL"])))
  }

  /** A `G0` line: the base id, the row of the last base read and the GPS time. */
  function G0Fields(line: seq<string>, g: GpsPoint, bpRow: int, parse: string -> Option<real>): Result<GpsPoint>
    requires |line| > 0
  {
    var ri :- ReadLineSpec(line, G0Keys, [AsStr, AsStr], parse);
    var id := BaseId(ri[G0Keys[0]], ri[G0Keys[1]], g.bpId);
    var t :- if |line| > 1 then TimeFields(line[1], parse) else Raise(IndexError);
    Ok(g.(bpId := id, bpRow := Some(bpRow), gpsTime := Some(t)))
  }

  /** A `G1` line: the base name and the raw baseline components. */
  function G1Fields(line: seq<string>, g: GpsPoint, parse: string -> Option<real>): Result<GpsPoint>
  {
    var ri :- ReadLineSpec(line, G1Keys, [AsStr, AsFloat, AsFloat, AsFloat], parse);
    Ok(g.(bpNameRaw := ri["BP"], dxRaw := Some(ri["DX"]), dyRaw := Some(ri["DY"]), dzRaw := Some(ri["DZ"])))
  }

  /** Whether a line is dispatched on its own kind rather than as a detail line. */
  predicate Dispatched(tok: string)
  {
    tok == "GPS" || tok == "MO" || Contains(tok, "--RTK Method:") || tok == "BP" || tok == "LS"
  }

  /** One pass of the dispatch loop, on line `i`. */
  function Rw5Step(indata: seq<seq<string>>, i: nat, s: Rw5State, geo: Geodesy, parse: string -> Option<real>)
    : Result<Rw5State>
    requires i < |indata| && forall k :: 0 <= k < |indata| ==> |indata[k]| > 0
  {
    var line := indata[i];
    if line[0] == "GPS" then
      var g :- GpsLine(line, s.hr, s.rtkDev, geo, parse);
      Ok(s.(gps := s.gps + [g], last := "GPS"))
    else if line[0] == "MO" then Ok(s.(last := "MO"))
    else if Contains(line[0], "--RTK Method:") then
      var bp :-
        if s.last != "BP" then
          if i + 1 >= |indata| then Raise(IndexError)
          else if indata[i + 1][0] == "BP" then Ok(s.bp + [MethodFields(line, NewBasePoint, parse)])
          else Ok(s.bp)
        else if |s.bp| > 0 then Ok(s.bp[..|s.bp| - 1] + [MethodFields(line, s.bp[|s.bp| - 1], parse)])
        else Raise(IndexError);
      var dev := ReadLineSpec(line, [" Device: "], [AsStr], parse);
      Ok(s.(bp := bp, last := "Method", rtkDev := if dev.Ok? then dev.value[" Device: "] else Nil))
    else if line[0] == "BP" then
      var bp := if s.last != "Method" then s.bp + [NewBasePoint] else s.bp;
      var filled :- BpFields(line, bp, s.rtkDev, geo, parse);
      Ok(s.(bp := filled, last := "BP"))
    else if line[0] == "LS" then
      var ri :- ReadLineSpec(line, ["HR"], [AsFloat], parse);
      Ok(s.(hr := ri["HR"], last := "LS"))
    else if s.last == "GPS" && |s.gps| > 0 then DetailLine(line, s, parse)
    else Ok(s)
  }

  /** The dispatch loop from line `i` on. */
  function Rw5Loop(indata: seq<seq<string>>, i: nat, s: Rw5State, geo: Geodesy, parse: string -> Option<real>)
    : Result<Rw5State>
    requires i <= |indata| && forall k :: 0 <= k < |indata| ==> |indata[k]| > 0
    decreases |indata| - i
  {
    if i == |indata| then Ok(s)
    else
      var next :- Rw5Step(indata, i, s, geo, parse);
      Rw5Loop(indata, i + 1, next, geo, parse)
  }

  /** The file's lines split on commas. */
  function CommaFields(lines: seq<string>): (rows: seq<seq<string>>)
    ensures |rows| == |lines| && forall k :: 0 <= k < |rows| ==> |rows[k]| > 0
  {
    seq(|lines|, i requires 0 <= i < |lines| => SplitOn(lines[i], {','}))
  }

  /** `rw5read(fname)` up to the end of the dispatch loop, returning `(gps, bp)`. */
  function Rw5ReadSpec(fname: string, fs: map<string, seq<string>>, geo: Geodesy, parse: string -> Option<real>)
    : Result<(seq<GpsPoint>, seq<BasePoint>)>
  {
    var lines :- Rwutils.Open(Rwutils.FileExtCheckerSpec(fname, Rwutils.OneExt("rw5"), fs.Keys), fs);
    var s :- Rw5Loop(CommaFields(lines), 0, Start, geo, parse);
    Ok((s.gps, s.bp))
  }

  method Rw5Read(fname: string, fs: map<string, seq<string>>, geo: Geodesy, parse: string -> Option<real>)
    returns (r: Result<(seq<GpsPoint>, seq<BasePoint>)>)
    ensures r == Rw5ReadSpec(fname, fs, geo, parse)
  {
    var located := Rwutils.FileExtChecker(fname, Rwutils.OneExt("rw5"), fs.Keys);
    var content := Rwutils.Open(located, fs);
    if content.Raise? {
      return Raise(content.error);
    }
    var indata := CommaFields(content.value);
    var gps: seq<GpsPoint> := [];
    var bp: seq<BasePoint> := [];
    var hr: Value := Int(0);
    var last := "";
    var rtkDev: Value := Text("");
    for i := 0 to |indata|
      invariant Rw5Loop(indata, i, Rw5State(last, hr, rtkDev, gps, bp), geo, parse) == Rw5Loop(indata, 0, Start, geo, parse)
    {
      var next := Dispatch(indata, i, Rw5State(last, hr, rtkDev, gps, bp), geo, parse);
      if next.Raise? {
        return Raise(next.error);
      }
      last, hr, rtkDev, gps, bp := next.value.last, next.value.hr, next.value.rtkDev, next.value.gps, next.value.bp;
    }
    return Ok((gps, bp));
  }

  /** The body of the loop: the branch on the line's first token. */
  method Dispatch(indata: seq<seq<string>>, i: nat, s: Rw5State, geo: Geodesy, parse: string -> Option<real>)
    returns (r: Result<Rw5State>)
    requires i < |indata| && forall k :: 0 <= k < |indata| ==> |indata[k]| > 0
    ensures r == Rw5Step(indata, i, s, geo, parse)
  {
    var tok := indata[i][0];
    var last, hr, rtkDev, gps, bp := s.last, s.hr, s.rtkDev, s.gps, s.bp;
    if tok == "GPS" {
      var g := GpsLine(indata[i], hr, rtkDev, geo, parse);
      if g.Raise? {
        return Raise(g.error);
      }
      gps := gps + [g.value];
      last := "GPS";
    } else if tok == "MO" {
      last := "MO";
    } else if Contains(tok, "--RTK Method:") {
      if last != "BP" {
        if i + 1 >= |indata| {
          return Raise(IndexError);
        }
        if indata[i + 1][0] == "BP" {
          bp := bp + [MethodFields(indata[i], NewBasePoint, parse)];
        }
      } else {
        if |bp| == 0 {
          return Raise(IndexError);
        }
        bp := bp[..|bp| - 1] + [MethodFields(indata[i], bp[|bp| - 1], parse)];
      }
      last := "Method";
      var dev := ReadLine(indata[i], [" Device: "], [AsStr], parse);
      rtkDev := if dev.Ok? then dev.value[" Device: "] else Nil;
    } else if tok == "BP" {
      if last != "Method" {
        bp := bp + [NewBasePoint];
      }
      var filled := BpFields(indata[i], bp, rtkDev, geo, parse);
      if filled.Raise? {
        return Raise(filled.error);
      }
      bp := filled.value;
      last := "BP";
    } else if tok == "LS" {
      var ri := ReadLine(indata[i], ["HR"], [AsFloat], parse);
      if ri.Raise? {
        return Raise(ri.error);
      }
      hr := ri.value["HR"];
      last := "LS";
    } else if last == "GPS" && |gps| > 0 {
      var detail := DetailLine(indata[i], s, parse);
      if detail.Raise? {
        return Raise(detail.error);
      }
      gps := detail.value.gps;
    }
    return Ok(Rw5State(last, hr, rtkDev, gps, bp));
  }

  // ---------------------------------------------------------------- properties of the dispatch

  lemma {:induction false} ContainsShorter(s: string, sub: string)
    requires |s| < |sub|
    ensures !Contains(s, sub)
  {
    if |s| > 0 {
      ContainsShorter(s[1..], sub);
    }
  }

  /** Exactly one rover record per `GPS` line: detail lines only rewrite the last
      record, and no other line touches the list's length. */
  lemma {:induction false} Rw5LoopGpsCount(indata: seq<seq<string>>, i: nat, s: Rw5State, geo: Geodesy, parse: string -> Option<real>)
    requires i <= |indata| && forall k :: 0 <= k < |indata| ==> |indata[k]| > 0
    ensures var r := Rw5Loop(indata, i, s, geo, parse);
      r.Ok? ==> |r.value.gps| == |s.gps| + Rwutils.CountKind(indata[i..], "GPS")
    decreases |indata| - i
  {
    if i < |indata| && Rw5Step(indata, i, s, geo, parse).Ok? {
      var next := Rw5Step(indata, i, s, geo, parse).value;
      assert indata[i..][0] == indata[i] && indata[i..][1..] == indata[i + 1..];
      assert |next.gps| == |s.gps| + (if indata[i][0] == "GPS" then 1 else 0);
      Rw5LoopGpsCount(indata, i + 1, next, geo, parse);
    }
  }

  lemma Rw5ReadGpsCount(fname: string, fs: map<string, seq<string>>, geo: Geodesy, parse: string -> Option<real>)
    requires Rw5ReadSpec(fname, fs, geo, parse).Ok?
    ensures var lines := Rwutils.Open(Rwutils.FileExtCheckerSpec(fname, Rwutils.OneExt("rw5"), fs.Keys), fs).value;
      |Rw5ReadSpec(fname, fs, geo, parse).value.0| == Rwutils.CountKind(CommaFields(lines), "GPS")
  {
    var lines := Rwutils.Open(Rwutils.FileExtCheckerSpec(fname, Rwutils.OneExt("rw5"), fs.Keys), fs).value;
    Rw5LoopGpsCount(CommaFields(lines), 0, Start, geo, parse);
    assert CommaFields(lines)[0..] == CommaFields(lines);
  }

  /** A `GPS` line appends a record carrying the rover height in force, whose
      height is the ellipsoidal height less that rover height unless the datum
      shift applies (device unknown or UHF). */
  lemma Rw5GpsLine(indata: seq<seq<string>>, i: nat, s: Rw5State, geo: Geodesy, parse: string -> Option<real>)
    requires i < |indata| && (forall k :: 0 <= k < |indata| ==> |indata[k]| > 0) && indata[i][0] == "GPS"
    requires Rw5Step(indata, i, s, geo, parse).Ok?
    ensures var t := Rw5Step(indata, i, s, geo, parse).value;
      var ri := ReadLineSpec(indata[i], GpsKeys, GpsTypes, parse).value;
      && t.last == "GPS" && t.bp == s.bp && t.hr == s.hr && |t.gps| == |s.gps| + 1 && t.gps[..|s.gps|] == s.gps
      && var g := t.gps[|s.gps|];
      && g.hr == s.hr && g.rtkDev == s.rtkDev && g.name == ri["PN"]
      && Sub(ri["EL"], s.hr).Ok?
      && (s.rtkDev.Text? && s.rtkDev.s != "" && !Contains(s.rtkDev.s, "UHF") ==> g.h == Sub(ri["EL"], s.hr).value)
  {
    var t := Rw5Step(indata, i, s, geo, parse).value;
    assert t.gps[..|s.gps|] == s.gps;
  }

  /** An `LS` line without an `HR` field leaves the rover height None, and the next
      `GPS` line then raises, since its height cannot be reduced. */
  lemma LsWithoutHrBreaksGps(indata: seq<seq<string>>, i: nat, s: Rw5State, geo: Geodesy, parse: string -> Option<real>)
    requires i + 1 < |indata| && forall k :: 0 <= k < |indata| ==> |indata[k]| > 0
    requires indata[i][0] == "LS" && indata[i + 1][0] == "GPS"
    requires forall k :: 0 <= k < |indata[i]| ==> !StartsWith(indata[i][k], "HR")
    ensures Rw5Step(indata, i, s, geo, parse).Ok?
    ensures Rw5Step(indata, i, s, geo, parse).value.hr == Nil
    ensures Rw5Step(indata, i + 1, Rw5Step(indata, i, s, geo, parse).value, geo, parse).Raise?
  {
    assert !Contains("LS", "--RTK Method:") by { ContainsShorter("LS", "--RTK Method:"); }
    ReadLineNoHr(indata[i], parse);
  }

  lemma ReadLineNoHr(line: seq<string>, parse: string -> Option<real>)
    requires forall k :: 0 <= k < |line| ==> !StartsWith(line[k], "HR")
    ensures ReadLineSpec(line, ["HR"], [AsFloat], parse) == Ok(map["HR" := Nil])
  {
    NoHrTokens(line, 0, Blank(["HR"]), parse);
    assert Blank(["HR"]) == map["HR" := Nil];
  }

  lemma {:induction false} NoHrTokens(line: seq<string>, i: nat, out: map<string, Value>, parse: string -> Option<real>)
    requires i <= |line| && "HR" in out
    requires forall k :: 0 <= k < |line| ==> !StartsWith(line[k], "HR")
    ensures ScanTokens(line, ["HR"], [AsFloat], i, out, parse) == Ok(out)
    decreases |line| - i
  {
    if i < |line| {
      assert ScanKeys(line[i], ["HR"], [AsFloat], 1, out, parse) == Ok(out);
      assert ScanKeys(line[i], ["HR"], [AsFloat], 0, out, parse) == Ok(out);
      NoHrTokens(line, i + 1, out, parse);
    }
  }

  /** A `BP` line adds a base record unless it follows a `--RTK Method:` line,
      whose record it fills instead. */
  lemma Rw5BpLine(indata: seq<seq<string>>, i: nat, s: Rw5State, geo: Geodesy, parse: string -> Option<real>)
    requires i < |indata| && (forall k :: 0 <= k < |indata| ==> |indata[k]| > 0) && indata[i][0] == "BP"
    requires Rw5Step(indata, i, s, geo, parse).Ok?
    ensures var t := Rw5Step(indata, i, s, geo, parse).value;
      && t.last == "BP" && t.gps == s.gps
      && |t.bp| == |s.bp| + (if s.last == "Method" then 0 else 1)
      && t.bp[..|t.bp| - 1] == s.bp[..|t.bp| - 1]
  {
    assert !Contains("BP", "--RTK Method:") by { ContainsShorter("BP", "--RTK Method:"); }
    var bp := if s.last != "Method" then s.bp + [NewBasePoint] else s.bp;
    assert Rw5Step(indata, i, s, geo, parse) ==
      (var filled :- BpFields(indata[i], bp, s.rtkDev, geo, parse); Ok(s.(bp := filled, last := "BP")));
  }

  /** A `G0` line in a rover block records the row of the last base read (-1 when
      there is none) on the last rover record, and touches no other record. */
  lemma Rw5G0Line(indata: seq<seq<string>>, i: nat, s: Rw5State, geo: Geodesy, parse: string -> Option<real>)
    requires i < |indata| && (forall k :: 0 <= k < |indata| ==> |indata[k]| > 0) && indata[i][0] == "G0"
    requires s.last == "GPS" && |s.gps| > 0 && Rw5Step(indata, i, s, geo, parse).Ok?
    ensures var t := Rw5Step(indata, i, s, geo, parse).value;
      && t.bp == s.bp && t.last == "GPS" && |t.gps| == |s.gps| && t.gps[..|s.gps| - 1] == s.gps[..|s.gps| - 1]
      && t.gps[|s.gps| - 1].bpRow == Some(|s.bp| - 1)
      && t.gps[|s.gps| - 1].name == s.gps[|s.gps| - 1].name
  {
    assert !Contains("G0", "--RTK Method:") by { ContainsShorter("G0", "--RTK Method:"); }
    assert !Contains("G0", "--DT") && !Contains("G0", "--TM") by {
      ContainsShorter("G0", "--DT"); ContainsShorter("G0", "--TM");
    }
  }

  /** Lines of no dispatched kind are read only inside a rover block; anywhere else
      they change nothing. */
  lemma Rw5DetailOutsideGps(indata: seq<seq<string>>, i: nat, s: Rw5State, geo: Geodesy, parse: string -> Option<real>)
    requires i < |indata| && (forall k :: 0 <= k < |indata| ==> |indata[k]| > 0)
    requires !Dispatched(indata[i][0]) && s.last != "GPS"
    ensures Rw5Step(indata, i, s, geo, parse) == Ok(s)
  {}

  /** A `--DT` line in a rover block whose date holds fewer than two '-' (such as
      `--DT 2023`) raises IndexError: the reader takes the day from the third field
      before anything else. */
  lemma DateWithoutDay(line: seq<string>, s: Rw5State, parse: string -> Option<real>)
    requires |line| > 0 && |s.gps| > 0 && line[0] != "--GS" && Contains(line[0], "--DT")
    requires CountIn(Drop(line[0], 4), {'-'}) < 2
    ensures DetailLine(line, s, parse) == Raise(IndexError)
  {
    RemoveCharCount(Drop(line[0], 4), '\n', {'-'});
  }

  /** A `G2` line in a rover block with no `VX` term raises TypeError: the reader
      stores the None it finds into the float covariance array. */
  lemma CovarianceMissingTerm(line: seq<string>, s: Rw5State, parse: string -> Option<real>)
    requires |line| > 0 && |s.gps| > 0 && line[0] == "G2"
    requires ReadLineSpec(line, ["VX", "VY", "VZ"], [AsFloat, AsFloat, AsFloat], parse).Ok?
    requires forall i :: 0 <= i < |line| ==> !StartsWith(line[i], "VX")
    ensures DetailLine(line, s, parse) == Raise(TypeError)
  {
    assert !Contains("G2", "--DT") && !Contains("G2", "--TM") by {
      ContainsShorter("G2", "--DT"); ContainsShorter("G2", "--TM");
    }
    ReadLineLastWins(line, ["VX", "VY", "VZ"], [AsFloat, AsFloat, AsFloat], parse, 0);
  }

  /** An `--ERMS` line in a rover block with fewer than three words raises
      IndexError when the reader takes the third word, unless a tag tested before
      it (`--DT`, `--TM`, `--GT`, `--HSDV:`) claimed the line first. */
  lemma RmsWithoutValue(line: seq<string>, s: Rw5State, parse: string -> Option<real>)
    requires |line| > 0 && |s.gps| > 0 && Contains(line[0], "--ERMS") && |Words(line[0])| < 3
    requires !Contains(line[0], "--DT") && !Contains(line[0], "--TM")
    requires !Contains(line[0], "--GT") && !Contains(line[0], "--HSDV:")
    ensures DetailLine(line, s, parse) == Raise(IndexError)
  {
    var tok := line[0];
    if tok == "--GS" || tok == "G0" || tok == "G1" || tok == "G2" || tok == "G3" {
      ContainsShorter(tok, "--ERMS");
    }
  }

  /** A `--RTK Method:` line that ends the file, outside a base block, raises
      IndexError when the reader looks at the following line. */
  lemma MethodLastLine(indata: seq<seq<string>>, s: Rw5State, geo: Geodesy, parse: string -> Option<real>)
    requires |indata| > 0 && (forall k :: 0 <= k < |indata| ==> |indata[k]| > 0)
    requires Contains(indata[|indata| - 1][0], "--RTK Method:") && s.last != "BP"
    ensures Rw5Step(indata, |indata| - 1, s, geo, parse) == Raise(IndexError)
  {
    var tok := indata[|indata| - 1][0];
    if tok == "GPS" || tok == "MO" {
      ContainsShorter(tok, "--RTK Method:");
    }
  }

  /** A `--RTK Method:` line opens a new base record only when the very next line is
      a `BP` line. With any other line in between, the `BP` line that follows finds
      `last == 'Method'` and fills the previous base record instead of a new one. */
  lemma MethodGapOverwritesBase(indata: seq<seq<string>>, i: nat, s: Rw5State, geo: Geodesy, parse: string -> Option<real>)
    requires i + 2 < |indata| && forall k :: 0 <= k < |indata| ==> |indata[k]| > 0
    requires Contains(indata[i][0], "--RTK Method:") && s.last != "BP"
    requires !Dispatched(indata[i + 1][0]) && indata[i + 2][0] == "BP"
    ensures var s1 := Rw5Step(indata, i, s, geo, parse);
      && s1.Ok? && s1.value.bp == s.bp && s1.value.last == "Method"
      && Rw5Step(indata, i + 1, s1.value, geo, parse) == s1
      && var s3 := Rw5Step(indata, i + 2, s1.value, geo, parse);
      && (|s.bp| == 0 ==> s3.Raise?)
      && (s3.Ok? ==> |s3.value.bp| == |s.bp| && s3.value.bp[..|s.bp| - 1] == s.bp[..|s.bp| - 1])
  {
    var tok := indata[i][0];
    if tok == "GPS" || tok == "MO" {
      ContainsShorter(tok, "--RTK Method:");
    }
    assert indata[i + 1][0] != "BP";
    var s1 := Rw5Step(indata, i, s, geo, parse).value;
    Rw5DetailOutsideGps(indata, i + 1, s1, geo, parse);
    assert !Contains("BP", "--RTK Method:") by { ContainsShorter("BP", "--RTK Method:"); }
  }
}
