/** String operations of Python's `str` and `re` that the modelled code relies on:
    splitting on a set of delimiter characters, ASCII case mapping, character
    replacement, `int()` parsing and `"%0Nd"` / `zfill` formatting. */
module Text {
  import opened Outcomes

  // ---------------------------------------------------------------- splitting

  /** Number of positions of `s` holding a delimiter. */
  function CountIn(s: string, delims: set<char>): nat
  {
    if |s| == 0 then 0
    else (if s[0] in delims then 1 else 0) + CountIn(s[1..], delims)
  }

  predicate NoneIn(s: string, delims: set<char>)
  {
    forall j :: 0 <= j < |s| ==> s[j] !in delims
  }

  /** `re.split("[D]", s)` for a set D of single characters, and `s.split(c)` for D = {c}:
      every delimiter ends a field, so neighbouring delimiters give an empty field. */
  function SplitOn(s: string, delims: set<char>): (fields: seq<string>)
    ensures |fields| == CountIn(s, delims) + 1
    ensures forall i :: 0 <= i < |fields| ==> NoneIn(fields[i], delims)
  {
    if |s| == 0 then [""]
    else
      var rest := SplitOn(s[1..], delims);
      if s[0] in delims then [""] + rest
      else [[s[0]] + rest[0]] + rest[1..]
  }

  /** `c.join(fields)`. */
  function Join(fields: seq<string>, c: char): string
    requires |fields| >= 1
  {
    if |fields| == 1 then fields[0] else fields[0] + [c] + Join(fields[1..], c)
  }

  /** `s` with every delimiter replaced by `c`. */
  function Canonical(s: string, delims: set<char>, c: char): (r: string)
    ensures |r| == |s|
  {
    if |s| == 0 then [] else [if s[0] in delims then c else s[0]] + Canonical(s[1..], delims, c)
  }

  /** Splitting loses nothing but the identity of the delimiters: joining the fields
      again with any one separator gives back the text with each delimiter replaced. */
  lemma {:induction false} JoinSplit(s: string, delims: set<char>, c: char)
    ensures Join(SplitOn(s, delims), c) == Canonical(s, delims, c)
  {
    if |s| > 0 {
      JoinSplit(s[1..], delims, c);
      var rest := SplitOn(s[1..], delims);
      if s[0] !in delims && |rest| > 1 {
        assert Join(rest, c) == rest[0] + [c] + Join(rest[1..], c);
      }
    }
  }

  lemma {:induction false} CanonicalSingle(s: string, c: char)
    ensures Canonical(s, {c}, c) == s
  {
    if |s| > 0 {
      CanonicalSingle(s[1..], c);
    }
  }

  /** With one separator the split is undone exactly by the join. */
  lemma SplitJoinRoundTrip(s: string, c: char)
    ensures Join(SplitOn(s, {c}), c) == s
  {
    JoinSplit(s, {c}, c);
    CanonicalSingle(s, c);
  }

  lemma {:induction false} SplitNoDelims(s: string, delims: set<char>)
    requires NoneIn(s, delims)
    ensures SplitOn(s, delims) == [s]
  {
    if |s| > 0 {
      SplitNoDelims(s[1..], delims);
      assert s == [s[0]] + s[1..];
    }
  }

  /** The last field is the text after the last delimiter. */
  lemma {:induction false} SplitLastField(a: string, d: char, b: string, delims: set<char>)
    requires d in delims && NoneIn(b, delims)
    ensures |SplitOn(a + [d] + b, delims)| >= 2
    ensures Last(SplitOn(a + [d] + b, delims)) == b
  {
    var s := a + [d] + b;
    if |a| == 0 {
      assert s[1..] == b;
      SplitNoDelims(b, delims);
    } else {
      assert s[1..] == a[1..] + [d] + b;
      SplitLastField(a[1..], d, b, delims);
    }
  }

  /** The ASCII whitespace `str.split()` with no argument separates words on. */
  const Whitespace: set<char> := {' ', '\t', '\n', '\r', '\U{000B}', '\U{000C}'}

  /** The fields that are not empty, in order. */
  function NonEmpty(fields: seq<string>): (r: seq<string>)
    ensures forall k :: 0 <= k < |r| ==> |r[k]| > 0 && r[k] in fields
  {
    if |fields| == 0 then []
    else (if |fields[0]| == 0 then [] else [fields[0]]) + NonEmpty(fields[1..])
  }

  /** `s.split()`: the maximal runs of non-whitespace characters. */
  function Words(s: string): (ws: seq<string>)
    ensures forall k :: 0 <= k < |ws| ==> |ws[k]| > 0 && NoneIn(ws[k], Whitespace)
  {
    NonEmpty(SplitOn(s, Whitespace))
  }

  /** `"".join(fields)`. */
  function Concat(fields: seq<string>): string
  {
    if |fields| == 0 then "" else fields[0] + Concat(fields[1..])
  }

  /** `s` with every delimiter dropped. */
  function Without(s: string, delims: set<char>): (r: string)
    ensures NoneIn(r, delims)
  {
    if |s| == 0 then "" else (if s[0] in delims then "" else [s[0]]) + Without(s[1..], delims)
  }

  lemma {:induction false} ConcatSplit(s: string, delims: set<char>)
    ensures Concat(SplitOn(s, delims)) == Without(s, delims)
  {
    if |s| > 0 {
      ConcatSplit(s[1..], delims);
      var rest := SplitOn(s[1..], delims);
      if s[0] !in delims {
        assert ([[s[0]] + rest[0]] + rest[1..])[1..] == rest[1..];
      } else {
        assert ([""] + rest)[1..] == rest;
      }
    }
  }

  lemma {:induction false} ConcatNonEmpty(fields: seq<string>)
    ensures Concat(NonEmpty(fields)) == Concat(fields)
  {
    if |fields| > 0 {
      ConcatNonEmpty(fields[1..]);
      var head := if |fields[0]| == 0 then [] else [fields[0]];
      assert NonEmpty(fields) == head + NonEmpty(fields[1..]);
      if |fields[0]| > 0 {
        assert (head + NonEmpty(fields[1..]))[1..] == NonEmpty(fields[1..]);
      } else {
        assert NonEmpty(fields) == NonEmpty(fields[1..]);
        assert fields[0] + Concat(fields[1..]) == Concat(fields[1..]);
      }
    }
  }

  /** Splitting into words loses nothing but the whitespace: the words, put back
      together, are the text with its whitespace taken out. */
  lemma WordsKeepText(s: string)
    ensures Concat(Words(s)) == Without(s, Whitespace)
  {
    ConcatNonEmpty(SplitOn(s, Whitespace));
    ConcatSplit(s, Whitespace);
  }

  function Last<T>(s: seq<T>): T
    requires |s| > 0
  {
    s[|s| - 1]
  }

  // ---------------------------------------------------------------- characters

  predicate IsDigit(c: char)
  {
    '0' <= c <= '9'
  }

  predicate AllDigits(s: string)
  {
    forall i :: 0 <= i < |s| ==> IsDigit(s[i])
  }

  /** ASCII `str.lower()` on one character. */
  function LowerChar(c: char): char
  {
    if 'A' <= c <= 'Z' then (c as int + 32) as char else c
  }

  function UpperChar(c: char): char
  {
    if 'a' <= c <= 'z' then (c as int - 32) as char else c
  }

  function Lower(s: string): (r: string)
    ensures |r| == |s|
    ensures forall i :: 0 <= i < |s| ==> r[i] == LowerChar(s[i])
  {
    seq(|s|, i requires 0 <= i < |s| => LowerChar(s[i]))
  }

  function Upper(s: string): (r: string)
    ensures |r| == |s|
    ensures forall i :: 0 <= i < |s| ==> r[i] == UpperChar(s[i])
  {
    seq(|s|, i requires 0 <= i < |s| => UpperChar(s[i]))
  }

  /** `s.replace(a, b)` for single characters. */
  function ReplaceChar(s: string, a: char, b: char): (r: string)
    ensures |r| == |s|
    ensures forall i :: 0 <= i < |s| ==> r[i] == (if s[i] == a then b else s[i])
  {
    seq(|s|, i requires 0 <= i < |s| => if s[i] == a then b else s[i])
  }

  /** `s.replace(c, "")`. */
  function RemoveChar(s: string, c: char): (r: string)
    ensures |r| <= |s|
    ensures forall i :: 0 <= i < |r| ==> r[i] != c
  {
    if |s| == 0 then [] else (if s[0] == c then [] else [s[0]]) + RemoveChar(s[1..], c)
  }

  /** Removing a character that is not a delimiter keeps every delimiter. */
  lemma {:induction false} RemoveCharCount(s: string, c: char, delims: set<char>)
    requires c !in delims
    ensures CountIn(RemoveChar(s, c), delims) == CountIn(s, delims)
  {
    if |s| > 0 {
      RemoveCharCount(s[1..], c, delims);
      var tail := RemoveChar(s[1..], c);
      if s[0] == c {
        assert RemoveChar(s, c) == tail;
      } else {
        assert ([s[0]] + tail)[1..] == tail;
      }
    }
  }

  predicate StartsWith(s: string, prefix: string)
  {
    |prefix| <= |s| && s[..|prefix|] == prefix
  }

  /** Python's `sub in s`. */
  predicate Contains(s: string, sub: string)
  {
    StartsWith(s, sub) || (|s| > 0 && Contains(s[1..], sub))
  }

  /** Python's `s[-n:]` for n >= 1: the last n characters, or all of `s` when shorter. */
  function TakeLast(s: string, n: nat): (r: string)
    ensures |r| == if n <= |s| then n else |s|
  {
    if n <= |s| then s[|s| - n..] else s
  }

  // ---------------------------------------------------------------- integers

  function DigitValue(c: char): nat
    requires IsDigit(c)
  {
    c as int - '0' as int
  }

  function DigitChar(d: nat): (c: char)
    requires d < 10
    ensures IsDigit(c) && DigitValue(c) == d
  {
    ('0' as int + d) as char
  }

  /** Value of a string of decimal digits (leading zeros allowed). */
  function DigitsValue(s: string): nat
    requires AllDigits(s)
  {
    if |s| == 0 then 0 else DigitsValue(s[..|s| - 1]) * 10 + DigitValue(s[|s| - 1])
  }

  /** `str(n)` for a natural number: no leading zeros. */
  function Digits(n: nat): (s: string)
    ensures |s| >= 1 && AllDigits(s)
  {
    if n < 10 then [DigitChar(n)] else Digits(n / 10) + [DigitChar(n % 10)]
  }

  lemma {:induction false} DigitsRoundTrip(n: nat)
    ensures DigitsValue(Digits(n)) == n
  {
    if n >= 10 {
      DigitsRoundTrip(n / 10);
      var s := Digits(n);
      assert s[..|s| - 1] == Digits(n / 10);
    }
  }

  function Zeros(k: nat): (z: string)
    ensures |z| == k && AllDigits(z)
    ensures forall i :: 0 <= i < k ==> z[i] == '0'
  {
    seq(k, _ => '0')
  }

  /** `s.zfill(width)` for a digit string: left-pad with '0' to at least `width`. */
  function ZeroPad(s: string, width: nat): (r: string)
    ensures |r| == if |s| < width then width else |s|
  {
    if |s| < width then Zeros(width - |s|) + s else s
  }

  lemma {:induction false} LeadingZeroValue(s: string)
    requires AllDigits(s)
    ensures AllDigits("0" + s) && DigitsValue("0" + s) == DigitsValue(s)
  {
    if |s| > 0 {
      LeadingZeroValue(s[..|s| - 1]);
      assert ("0" + s)[..|s|] == "0" + s[..|s| - 1];
    }
  }

  lemma {:induction false} ZerosValue(k: nat, s: string)
    requires AllDigits(s)
    ensures AllDigits(Zeros(k) + s) && DigitsValue(Zeros(k) + s) == DigitsValue(s)
  {
    if k > 0 {
      ZerosValue(k - 1, s);
      assert Zeros(k) == "0" + Zeros(k - 1);
      assert Zeros(k) + s == "0" + (Zeros(k - 1) + s);
      LeadingZeroValue(Zeros(k - 1) + s);
    } else {
      assert Zeros(k) + s == s;
    }
  }

  /** Zero padding never changes the number a digit string denotes. */
  lemma ZeroPadValue(n: nat, width: nat)
    ensures AllDigits(ZeroPad(Digits(n), width))
    ensures DigitsValue(ZeroPad(Digits(n), width)) == n
  {
    DigitsRoundTrip(n);
    if |Digits(n)| < width {
      ZerosValue(width - |Digits(n)|, Digits(n));
    }
  }

  /** Python `"%0{width}d" % i` for an integer `i`: the sign counts towards the width. */
  function FormatInt(i: int, width: nat): (s: string)
    ensures |s| >= width
  {
    if i < 0 then "-" + ZeroPad(Digits(-i), if width > 0 then width - 1 else 0)
    else ZeroPad(Digits(i), width)
  }

  function Pow10(k: nat): (p: nat)
    ensures p >= 1
  {
    if k == 0 then 1 else 10 * Pow10(k - 1)
  }

  /** A number below 10^k has at most k digits. */
  lemma {:induction false} DigitsShort(n: nat, k: nat)
    requires 1 <= k && n < Pow10(k)
    ensures |Digits(n)| <= k
  {
    if n >= 10 {
      DigitsShort(n / 10, k - 1);
    }
  }

  /** `"%0kd"` of a number with at most k digits is exactly k characters long. */
  lemma FormatIntWidth(n: nat, k: nat)
    requires 1 <= k && n < Pow10(k)
    ensures |FormatInt(n, k)| == k && AllDigits(FormatInt(n, k))
  {
    DigitsShort(n, k);
    ZeroPadValue(n, k);
  }

  /** Python `int(s)` for a plain literal: an optional sign and at least one digit;
      anything else is a ValueError. */
  function ParseInt(s: string): (r: Result<int>)
    ensures r.Raise? ==> r.error == ValueError
  {
    if |s| >= 2 && (s[0] == '-' || s[0] == '+') && AllDigits(s[1..]) then
      Ok(if s[0] == '-' then -(DigitsValue(s[1..]) as int) else DigitsValue(s[1..]))
    else if |s| >= 1 && AllDigits(s) then Ok(DigitsValue(s))
    else Raise(ValueError)
  }

  lemma ParseUnsigned(s: string)
    requires |s| >= 1 && AllDigits(s)
    ensures ParseInt(s) == Ok(DigitsValue(s))
  {
    assert IsDigit(s[0]);
  }

  lemma ParseNegative(pad: string)
    requires |pad| >= 1 && AllDigits(pad)
    ensures ParseInt("-" + pad) == Ok(-(DigitsValue(pad) as int))
  {
    assert ("-" + pad)[1..] == pad;
  }

  /** `int("%0Nd" % i) == i` for every integer: formatting pads but never wraps. */
  lemma ParseFormatInt(i: int, width: nat)
    ensures ParseInt(FormatInt(i, width)) == Ok(i)
  {
    if i < 0 {
      var w := if width > 0 then width - 1 else 0;
      var pad := ZeroPad(Digits(-i), w);
      ZeroPadValue(-i, w);
      ParseNegative(pad);
      assert FormatInt(i, width) == "-" + pad;
    } else {
      var pad := ZeroPad(Digits(i), width);
      ZeroPadValue(i, width);
      ParseUnsigned(pad);
      assert FormatInt(i, width) == pad;
    }
  }

  /** Python `int(x)` / `"%d" % x` on a float: truncation toward zero. */
  function Trunc(x: real): (n: int)
    ensures x >= 0.0 ==> n as real <= x < n as real + 1.0
    ensures x < 0.0 ==> n as real - 1.0 < x <= n as real
  {
    if x >= 0.0 then x.Floor else -((-x).Floor)
  }
}
