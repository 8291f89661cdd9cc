/**
 * The JavaScript string operations the components rely on, over `seq<char>`
 * (one Unicode scalar value per char, where JavaScript counts UTF-16 code
 * units, so lengths differ for characters outside the Basic Multilingual
 * Plane): `toLowerCase`, `trim`, `includes`, `startsWith`,
 * `join` and `split` with a one-character separator, `parseInt` and the date
 * part of an ISO timestamp (`toISOString().split('T')[0]`).
 */
module Text {
  import opened Types
  import opened Seqs

  /**
   * `toLowerCase` on one character, for the Basic Latin and Latin-1 letters
   * (A-Z and À-Þ except ×), which cover the Spanish alphabet; every other
   * character is left as it is.
   */
  function LowerChar(c: char): char
  {
    if 'A' <= c <= 'Z' || ('\U{00C0}' <= c <= '\U{00DE}' && c != '\U{00D7}') then (c as int + 32) as char
    else c
  }

  function ToLower(s: string): (r: string)
    ensures |r| == |s|
    ensures forall i :: 0 <= i < |s| ==> r[i] == LowerChar(s[i])
  {
    if |s| == 0 then [] else [LowerChar(s[0])] + ToLower(s[1..])
  }

  /** Lowering is idempotent: a lowered string has no upper-case letter left. */
  lemma ToLowerIdempotent(s: string)
    ensures ToLower(ToLower(s)) == ToLower(s)
  {
  }

  /** The white space and line terminators that `String.prototype.trim` removes. */
  predicate IsWhitespace(c: char)
  {
    c == '\t' || c == '\n' || c == '\U{000B}' || c == '\U{000C}' || c == '\r' || c == ' ' ||
    c == '\U{00A0}' || c == '\U{1680}' || ('\U{2000}' <= c <= '\U{200A}') ||
    c == '\U{2028}' || c == '\U{2029}' || c == '\U{202F}' || c == '\U{205F}' ||
    c == '\U{3000}' || c == '\U{FEFF}'
  }

  function TrimStart(s: string): (r: string)
    ensures |r| <= |s| && r == s[|s| - |r|..]
    ensures |r| > 0 ==> !IsWhitespace(r[0])
    ensures forall i :: 0 <= i < |s| - |r| ==> IsWhitespace(s[i])
  {
    if |s| > 0 && IsWhitespace(s[0]) then TrimStart(s[1..]) else s
  }

  function TrimEnd(s: string): (r: string)
    ensures |r| <= |s| && r == s[..|r|]
    ensures |r| > 0 ==> !IsWhitespace(r[|r| - 1])
    ensures forall i :: |r| <= i < |s| ==> IsWhitespace(s[i])
  {
    if |s| > 0 && IsWhitespace(s[|s| - 1]) then TrimEnd(s[..|s| - 1]) else s
  }

  /** `s.trim()`: `s` without its leading and trailing white space. */
  function Trim(s: string): string
  {
    TrimEnd(TrimStart(s))
  }

  lemma TrimProperties(s: string)
    ensures exists i, j :: 0 <= i <= j <= |s| && Trim(s) == s[i..j] &&
                           (forall k :: 0 <= k < i ==> IsWhitespace(s[k])) &&
                           (forall k :: j <= k < |s| ==> IsWhitespace(s[k]))
    ensures |Trim(s)| > 0 ==> !IsWhitespace(Trim(s)[0]) && !IsWhitespace(Trim(s)[|Trim(s)| - 1])
  {
    var t := TrimStart(s);
    var i := |s| - |t|;
    var j := i + |TrimEnd(t)|;
    assert Trim(s) == s[i..j];
  }

  predicate StartsWith(s: string, prefix: string)
  {
    |prefix| <= |s| && s[..|prefix|] == prefix
  }

  /** `hay.includes(needle)` */
  predicate Contains(hay: string, needle: string)
  {
    StartsWith(hay, needle) || (|hay| > 0 && Contains(hay[1..], needle))
  }

  /** Every string includes the empty string. */
  lemma ContainsEmpty(hay: string)
    ensures Contains(hay, "")
  {
    assert StartsWith(hay, "");
  }

  /** `xs.join(sep)` */
  function Join(xs: seq<string>, sep: char): string
  {
    if |xs| == 0 then ""
    else if |xs| == 1 then xs[0]
    else xs[0] + [sep] + Join(xs[1..], sep)
  }

  /** `s.split(sep)`: always at least one piece; `"".split(sep)` is `[""]`. */
  function Split(s: string, sep: char): (r: seq<string>)
    ensures |r| >= 1
  {
    if |s| == 0 then [""]
    else
      var rest := Split(s[1..], sep);
      if s[0] == sep then [""] + rest
      else [[s[0]] + rest[0]] + rest[1..]
  }

  lemma {:induction false} SplitNoSeparator(x: string, sep: char)
    requires sep !in x
    ensures Split(x, sep) == [x]
  {
    if |x| > 0 {
      SplitNoSeparator(x[1..], sep);
      assert [x[0]] + x[1..] == x;
    }
  }

  lemma {:induction false} SplitAfterPiece(x: string, rest: string, sep: char)
    requires sep !in x
    ensures Split(x + [sep] + rest, sep) == [x] + Split(rest, sep)
  {
    var s := x + [sep] + rest;
    if |x| == 0 {
      assert s[1..] == rest;
    } else {
      assert s[1..] == x[1..] + [sep] + rest;
      SplitAfterPiece(x[1..], rest, sep);
      assert [x[0]] + x[1..] == x;
    }
  }

  /**
   * Splitting a join recovers the pieces when no piece contains the
   * separator and there is at least one piece.
   */
  lemma {:induction false} SplitJoin(xs: seq<string>, sep: char)
    requires |xs| >= 1
    requires forall i :: 0 <= i < |xs| ==> sep !in xs[i]
    ensures Split(Join(xs, sep), sep) == xs
  {
    if |xs| == 1 {
      SplitNoSeparator(xs[0], sep);
    } else {
      SplitJoin(xs[1..], sep);
      SplitAfterPiece(xs[0], Join(xs[1..], sep), sep);
    }
  }

  /** The value of one digit character in bases up to 36; 36 when it is no digit. */
  function DigitValue(c: char): (v: nat)
    ensures v <= 36
  {
    if '0' <= c <= '9' then c as int - '0' as int
    else if 'a' <= c <= 'z' then c as int - 'a' as int + 10
    else if 'A' <= c <= 'Z' then c as int - 'A' as int + 10
    else 36
  }

  /** The longest prefix of `s` made of digits of the given base. */
  function DigitPrefix(s: string, radix: nat): (r: string)
    ensures |r| <= |s| && r == s[..|r|]
    ensures forall i :: 0 <= i < |r| ==> DigitValue(r[i]) < radix
    ensures |r| < |s| ==> DigitValue(s[|r|]) >= radix
  {
    if |s| > 0 && DigitValue(s[0]) < radix then [s[0]] + DigitPrefix(s[1..], radix) else ""
  }

  /** The number the digits spell in the given base, most significant first. */
  function DigitsValue(ds: string, radix: nat): nat
  {
    if |ds| == 0 then 0
    else DigitsValue(ds[..|ds| - 1], radix) * radix + DigitValue(ds[|ds| - 1])
  }

  /**
   * The unsigned part of `parseInt`: a `0x`/`0X` prefix selects base 16,
   * otherwise base 10, and the longest run of digits that follows is read.
   * No digit at all is `None`.
   */
  function ParseMagnitude(u: string): Option<nat>
  {
    var hex := |u| >= 2 && u[0] == '0' && (u[1] == 'x' || u[1] == 'X');
    var radix := if hex then 16 else 10;
    var ds := DigitPrefix(if hex then u[2..] else u, radix);
    if |ds| == 0 then None else Some(DigitsValue(ds, radix))
  }

  /** A sign, if any, then the magnitude. */
  function ParseSigned(t: string): Option<int>
  {
    if |t| > 0 && t[0] == '-' then
      match ParseMagnitude(t[1..])
      case None => None
      case Some(v) => Some(-(v as int))
    else
      match ParseMagnitude(if |t| > 0 && t[0] == '+' then t[1..] else t)
      case None => None
      case Some(v) => Some(v as int)
  }

  /**
   * `parseInt(s)` with no radix argument: leading white space is skipped, one
   * sign is read, then the magnitude. No digit at all is `NaN`, here `None`.
   */
  function ParseInt(s: string): Option<int>
  {
    ParseSigned(TrimStart(s))
  }

  /** The decimal rendering of a natural number, as `String(n)` gives it. */
  function NatToDecimal(n: nat): (r: string)
    ensures |r| >= 1
    ensures forall i :: 0 <= i < |r| ==> '0' <= r[i] <= '9'
    ensures |r| > 1 ==> r[0] != '0'
  {
    if n < 10 then [('0' as int + n) as char]
    else NatToDecimal(n / 10) + [('0' as int + n % 10) as char]
  }

  lemma {:induction false} DecimalValue(n: nat)
    ensures DigitsValue(NatToDecimal(n), 10) == n
  {
    if n >= 10 {
      DecimalValue(n / 10);
      var r := NatToDecimal(n);
      assert r[..|r| - 1] == NatToDecimal(n / 10);
    }
  }

  lemma {:induction false} DigitPrefixAll(s: string, radix: nat)
    requires forall i :: 0 <= i < |s| ==> DigitValue(s[i]) < radix
    ensures DigitPrefix(s, radix) == s
  {
    if |s| > 0 {
      DigitPrefixAll(s[1..], radix);
      assert [s[0]] + s[1..] == s;
    }
  }

  lemma ParseMagnitudeDigits(d: string)
    requires |d| >= 1 && forall i :: 0 <= i < |d| ==> '0' <= d[i] <= '9'
    ensures ParseMagnitude(d) == Some(DigitsValue(d, 10))
  {
    assert !('x' == d[|d| - 1]) && (|d| >= 2 ==> d[1] != 'x' && d[1] != 'X');
    DigitPrefixAll(d, 10);
  }

  lemma TrimStartKeeps(s: string)
    requires |s| > 0 && !IsWhitespace(s[0])
    ensures TrimStart(s) == s
  {
  }

  lemma ParseIntDigits(d: string)
    requires |d| >= 1 && forall i :: 0 <= i < |d| ==> '0' <= d[i] <= '9'
    ensures ParseInt(d) == Some(DigitsValue(d, 10) as int)
  {
    assert !IsWhitespace(d[0]) && d[0] != '-' && d[0] != '+';
    TrimStartKeeps(d);
    ParseMagnitudeDigits(d);
    assert ParseSigned(d) == Some(DigitsValue(d, 10) as int);
  }

  lemma ParseIntNegativeDigits(d: string, n: nat)
    requires |d| >= 1 && forall i :: 0 <= i < |d| ==> '0' <= d[i] <= '9'
    requires DigitsValue(d, 10) == n
    ensures ParseInt("-" + d) == Some(-(n as int))
  {
    var m := "-" + d;
    TrimStartKeeps(m);
    assert m[1..] == d;
    ParseMagnitudeDigits(d);
  }

  /** `parseInt` reads back what `String` writes for a natural number... */
  lemma ParseIntDecimal(n: nat)
    ensures ParseInt(NatToDecimal(n)) == Some(n)
  {
    DecimalValue(n);
    ParseIntDigits(NatToDecimal(n));
  }

  /** ... and for its negation. */
  lemma ParseIntNegativeDecimal(n: nat)
    ensures ParseInt("-" + NatToDecimal(n)) == Some(-(n as int))
  {
    DecimalValue(n);
    ParseIntNegativeDigits(NatToDecimal(n), n);
  }

  /** `iso.split('T')[0]`: the date part of an ISO timestamp. */
  function DatePart(iso: string): string
  {
    Split(iso, 'T')[0]
  }

  /** For `YYYY-MM-DDTHH:mm:ss.sssZ` the date part is the first ten characters. */
  lemma DatePartOfTimestamp(iso: string)
    requires |iso| > 10 && iso[10] == 'T' && 'T' !in iso[..10]
    ensures DatePart(iso) == iso[..10]
  {
    assert iso == iso[..10] + ['T'] + iso[11..];
    SplitAfterPiece(iso[..10], iso[11..], 'T');
  }

  predicate IsDecimalDigit(c: char)
  {
    '0' <= c <= '9'
  }

  /**
   * The ordering key of a `YYYY-MM-DD` date: its digits read as one number
   * (`20240522`), which orders such dates as their timestamps do.
   */
  function DateKey(date: string): real
  {
    DigitsValue(Filter(date, IsDecimalDigit), 10) as real
  }
}
