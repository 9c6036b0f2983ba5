/** The fields of an `Image` that the renaming code reads: the capture
    date-time parsed from EXIF, the camera-model tag, the focal length and the
    GPS position. Decoding the EXIF block is not modelled: the decoded `Exif`
    value of an image is an input. */
module ExifData {
  import opened Outcomes
  import opened Text

  /** A `datetime` as `strptime` builds it from the EXIF date-time text. */
  datatype DateTime = DateTime(year: int, month: int, day: int, hour: int, minute: int, second: int)

  /** The ranges a `datetime` object always satisfies. */
  predicate ValidDateTime(dt: DateTime)
  {
    && 1 <= dt.year <= 9999 && 1 <= dt.month <= 12 && 1 <= dt.day <= 31
    && 0 <= dt.hour < 24 && 0 <= dt.minute < 60 && 0 <= dt.second < 60
  }

  /** What reading an image's EXIF yields: `_date_time` (None when neither date
      tag is present), the `Image Model` tag, the focal length and the GPS
      position, each None when it cannot be read. */
  datatype Exif = Exif(dateTime: Option<DateTime>, model: Option<string>, focal: Option<real>,
                       gps: Option<(real, real, real)>)

  /** `date_time.strftime("%Y%m%d_%H%M%S")`. */
  function Stamp(dt: DateTime): string
  {
    FormatInt(dt.year, 4) + FormatInt(dt.month, 2) + FormatInt(dt.day, 2) + "_"
      + FormatInt(dt.hour, 2) + FormatInt(dt.minute, 2) + FormatInt(dt.second, 2)
  }

  /** `Image.date`: `strftime("%Y:%m:%d")`, or None without a date-time. */
  function Date(e: Exif): Option<string>
  {
    match e.dateTime
      case None => None
      case Some(dt) => Some(FormatInt(dt.year, 4) + ":" + FormatInt(dt.month, 2) + ":" + FormatInt(dt.day, 2))
  }

  /** `Image.time`: `strftime("%H:%M:%S")`, or None without a date-time. */
  function Time(e: Exif): Option<string>
  {
    match e.dateTime
      case None => None
      case Some(dt) => Some(FormatInt(dt.hour, 2) + ":" + FormatInt(dt.minute, 2) + ":" + FormatInt(dt.second, 2))
  }

  /** The camera model written into new names: the `Image Model` tag with spaces
      turned into `_`, or "" when the tag cannot be read. */
  function CameraModel(model: Option<string>): (m: string)
    ensures forall i :: 0 <= i < |m| ==> m[i] != ' '
    ensures model.None? ==> m == ""
    ensures model.Some? ==>
      |m| == |model.value| && forall i :: 0 <= i < |m| ==> m[i] == if model.value[i] == ' ' then '_' else model.value[i]
  {
    match model
      case None => ""
      case Some(s) => ReplaceChar(s, ' ', '_')
  }

  lemma StampLength(dt: DateTime)
    requires ValidDateTime(dt)
    ensures |Stamp(dt)| == 15
  {
    FormatIntWidth(dt.year, 4);
    FormatIntWidth(dt.month, 2);
    FormatIntWidth(dt.day, 2);
    FormatIntWidth(dt.hour, 2);
    FormatIntWidth(dt.minute, 2);
    FormatIntWidth(dt.second, 2);
  }

  /** The stamp is 15 characters: four digits of year, two each of month and
      day, `_`, then two each of hour, minute and second; reading each group back
      gives the date-time it was written from. */
  lemma StampFields(dt: DateTime)
    requires ValidDateTime(dt)
    ensures var s := Stamp(dt);
      && |s| == 15 && s[8] == '_'
      && ParseInt(s[..4]) == Ok(dt.year) && ParseInt(s[4..6]) == Ok(dt.month) && ParseInt(s[6..8]) == Ok(dt.day)
      && ParseInt(s[9..11]) == Ok(dt.hour) && ParseInt(s[11..13]) == Ok(dt.minute) && ParseInt(s[13..]) == Ok(dt.second)
  {
    StampGroups(dt);
    ParseFormatInt(dt.year, 4);
    ParseFormatInt(dt.month, 2);
    ParseFormatInt(dt.day, 2);
    ParseFormatInt(dt.hour, 2);
    ParseFormatInt(dt.minute, 2);
    ParseFormatInt(dt.second, 2);
  }

  /** Where each field's digits sit in the stamp. */
  lemma StampGroups(dt: DateTime)
    requires ValidDateTime(dt)
    ensures var s := Stamp(dt);
      && |s| == 15 && s[8] == '_'
      && s[..4] == FormatInt(dt.year, 4) && s[4..6] == FormatInt(dt.month, 2) && s[6..8] == FormatInt(dt.day, 2)
      && s[9..11] == FormatInt(dt.hour, 2) && s[11..13] == FormatInt(dt.minute, 2) && s[13..] == FormatInt(dt.second, 2)
  {
    var y, mo, d := FormatInt(dt.year, 4), FormatInt(dt.month, 2), FormatInt(dt.day, 2);
    var h, mi, se := FormatInt(dt.hour, 2), FormatInt(dt.minute, 2), FormatInt(dt.second, 2);
    FormatIntWidth(dt.year, 4);
    FormatIntWidth(dt.month, 2);
    FormatIntWidth(dt.day, 2);
    FormatIntWidth(dt.hour, 2);
    FormatIntWidth(dt.minute, 2);
    FormatIntWidth(dt.second, 2);
    var p2 := y + mo;
    var p3 := p2 + d;
    var p4 := p3 + "_";
    var p5 := p4 + h;
    var p6 := p5 + mi;
    var s := Stamp(dt);
    assert s == p6 + se;
    assert s[..13] == p6 && s[13..] == se;
    assert s[11..13] == p6[11..] == mi && p6[..11] == p5;
    assert s[9..11] == p5[9..] == h && p5[..9] == p4;
    assert s[8] == p4[8] == '_' && p4[..8] == p3;
    assert s[6..8] == p3[6..] == d && p3[..6] == p2;
    assert s[4..6] == p2[4..] == mo && s[..4] == p2[..4] == y;
  }
}
