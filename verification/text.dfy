/**
 * The string operations the converter relies on: `String.Split(char)`,
 * joining with a separator, and `int.Parse` / `byte.Parse` with the default
 * `NumberStyles.Integer` (surrounding white space, an optional sign, decimal
 * digits, range check).
 */
module Text {
  import opened Wrappers

  // ---------------------------------------------------------------------
  // Splitting and joining
  // ---------------------------------------------------------------------

  /** `s.Split(sep)`: every separator ends a part; empty parts are kept. */
  function Split(s: string, sep: char): (parts: seq<string>)
    ensures |parts| >= 1
    decreases |s|
  {
    if |s| == 0 then [""]
    else
      var rest := Split(s[1..], sep);
      if s[0] == sep then [""] + rest
      else [[s[0]] + rest[0]] + rest[1..]
  }

  /** The parts written one after another with `sep` between neighbours. */
  function Join(parts: seq<string>, sep: char): string
  {
    if |parts| == 0 then ""
    else if |parts| == 1 then parts[0]
    else parts[0] + [sep] + Join(parts[1..], sep)
  }

  /** No part contains the separator. */
  predicate FreeOf(parts: seq<string>, sep: char)
  {
    forall i :: 0 <= i < |parts| ==> sep !in parts[i]
  }

  /** A string without the separator is a single part. */
  lemma {:induction false} SplitWithoutSeparator(s: string, sep: char)
    requires sep !in s
    ensures Split(s, sep) == [s]
    decreases |s|
  {
    if |s| > 0 {
      SplitWithoutSeparator(s[1..], sep);
      assert [s[0]] + s[1..] == s;
    }
  }

  /** Splitting distributes over a separator placed between two strings. */
  lemma {:induction false} SplitAtSeparator(a: string, b: string, sep: char)
    ensures Split(a + [sep] + b, sep) == Split(a, sep) + Split(b, sep)
    decreases |a|
  {
    var s := a + [sep] + b;
    if |a| == 0 {
      assert s[0] == sep && s[1..] == b;
      assert Split(a, sep) == [""];
    } else {
      assert s[0] == a[0];
      assert s[1..] == a[1..] + [sep] + b;
      SplitAtSeparator(a[1..], b, sep);
    }
  }

  /** Splitting undoes joining when no part contains the separator. */
  lemma {:induction false} SplitJoin(parts: seq<string>, sep: char)
    requires |parts| >= 1
    requires FreeOf(parts, sep)
    ensures Split(Join(parts, sep), sep) == parts
    decreases |parts|
  {
    if |parts| == 1 {
      SplitWithoutSeparator(parts[0], sep);
    } else {
      SplitJoin(parts[1..], sep);
      SplitAtSeparator(parts[0], Join(parts[1..], sep), sep);
      SplitWithoutSeparator(parts[0], sep);
      assert [parts[0]] + parts[1..] == parts;
    }
  }

  /** Appending one more part adds the separator and the part at the end. */
  lemma {:induction false} JoinSnoc(parts: seq<string>, last: string, sep: char)
    requires |parts| >= 1
    ensures Join(parts + [last], sep) == Join(parts, sep) + [sep] + last
    decreases |parts|
  {
    if |parts| == 1 {
      assert parts + [last] == [parts[0], last];
      assert [parts[0], last][1..] == [last];
    } else {
      assert (parts + [last])[1..] == parts[1..] + [last];
      JoinSnoc(parts[1..], last, sep);
    }
  }

  /** Every character of a join is the separator or a character of a part. */
  lemma {:induction false} JoinCharacters(parts: seq<string>, sep: char, c: char)
    requires c in Join(parts, sep)
    ensures c == sep || exists i :: 0 <= i < |parts| && c in parts[i]
    decreases |parts|
  {
    if |parts| > 1 {
      var rest := Join(parts[1..], sep);
      if c !in parts[0] && c != sep {
        assert c in rest;
        JoinCharacters(parts[1..], sep, c);
        var i :| 0 <= i < |parts[1..]| && c in parts[1..][i];
        assert c in parts[i + 1];
      }
    }
  }

  /** A join of parts free of a character other than the separator is free of it. */
  lemma JoinFreeOf(parts: seq<string>, sep: char, c: char)
    requires c != sep && FreeOf(parts, c)
    ensures c !in Join(parts, sep)
  {
    if c in Join(parts, sep) {
      JoinCharacters(parts, sep, c);
    }
  }

  // ---------------------------------------------------------------------
  // Decimal integers
  // ---------------------------------------------------------------------

  const Int32Min: int := -0x8000_0000
  const Int32Max: int := 0x7FFF_FFFF

  predicate IsDigit(c: char) { '0' <= c <= '9' }

  predicate AllDigits(s: string) { forall i :: 0 <= i < |s| ==> IsDigit(s[i]) }

  /** The white space `NumberStyles.AllowLeadingWhite`/`AllowTrailingWhite` skip. */
  predicate IsWhite(c: char)
  {
    c == ' ' || c == '\t' || c == '\n' || c == '\r' || c == '\U{B}' || c == '\U{C}'
  }

  function TrimStart(s: string): (r: string)
    ensures |r| <= |s| && r == s[|s| - |r|..]
    ensures |r| > 0 ==> !IsWhite(r[0])
    decreases |s|
  {
    if |s| > 0 && IsWhite(s[0]) then TrimStart(s[1..]) else s
  }

  function TrimEnd(s: string): (r: string)
    ensures |r| <= |s| && r == s[..|r|]
    ensures |r| > 0 ==> !IsWhite(r[|r| - 1])
    decreases |s|
  {
    if |s| > 0 && IsWhite(s[|s| - 1]) then TrimEnd(s[..|s| - 1]) else s
  }

  function DigitValue(c: char): nat
    requires IsDigit(c)
  {
    c as int - '0' as int
  }

  function DigitChar(d: nat): (c: char)
    requires d < 10
    ensures IsDigit(c) && DigitValue(c) == d
  {
    ('0' as int + d) as char
  }

  /** The value of a string of decimal digits, most significant first. */
  function DigitsValue(s: string): nat
    requires AllDigits(s)
  {
    if |s| == 0 then 0 else 10 * DigitsValue(s[..|s| - 1]) + DigitValue(s[|s| - 1])
  }

  /** The shortest decimal numeral of `n`. */
  function NatToDigits(n: nat): (s: string)
    ensures |s| >= 1 && AllDigits(s)
  {
    if n < 10 then [DigitChar(n)] else NatToDigits(n / 10) + [DigitChar(n % 10)]
  }

  lemma {:induction false} DigitsRoundTrip(n: nat)
    ensures DigitsValue(NatToDigits(n)) == n
  {
    var s := NatToDigits(n);
    if n >= 10 {
      DigitsRoundTrip(n / 10);
      assert s[..|s| - 1] == NatToDigits(n / 10);
    }
  }

  /** `n.ToString()` under the invariant culture. */
  function FormatInt(n: int): (s: string)
    ensures |s| >= 1 && IsDigit(s[|s| - 1])
    ensures forall i :: 0 <= i < |s| ==> IsDigit(s[i]) || (i == 0 && s[i] == '-')
  {
    if n < 0 then "-" + NatToDigits(-n) else NatToDigits(n)
  }

  /** `int.Parse(s)`: None where the C# call throws (format or overflow). */
  function ParseInt(s: string): (r: Option<int>)
    ensures r.Some? ==> Int32Min <= r.value <= Int32Max
  {
    ParseSigned(TrimEnd(TrimStart(s)))
  }

  /** An optional leading sign followed by the digits. */
  function ParseSigned(t: string): (r: Option<int>)
    ensures r.Some? ==> Int32Min <= r.value <= Int32Max
  {
    if |t| > 0 && t[0] == '-' then ParseMagnitude(true, t[1..])
    else if |t| > 0 && t[0] == '+' then ParseMagnitude(false, t[1..])
    else ParseMagnitude(false, t)
  }

  /** At least one digit, and the signed value within the 32-bit range. */
  function ParseMagnitude(negative: bool, digits: string): (r: Option<int>)
    ensures r.Some? ==> Int32Min <= r.value <= Int32Max
  {
    if |digits| == 0 || !AllDigits(digits) then None
    else
      var v: int := if negative then -(DigitsValue(digits) as int) else DigitsValue(digits);
      if Int32Min <= v <= Int32Max then Some(v) else None
  }

  /** `byte.Parse(s)`: an `int.Parse` followed by a 0..255 range check. */
  function ParseByte(s: string): (r: Option<int>)
    ensures r.Some? ==> 0 <= r.value < 256
  {
    match ParseInt(s)
    case Some(v) => if 0 <= v < 256 then Some(v) else None
    case None => None
  }

  lemma FormatIntIsTrimmed(n: int)
    ensures TrimEnd(TrimStart(FormatInt(n))) == FormatInt(n)
  {
    var s := FormatInt(n);
    assert !IsWhite(s[0]);
    assert TrimStart(s) == s;
    assert !IsWhite(s[|s| - 1]);
  }

  /** `int.Parse` reads back what `ToString` wrote, for every 32-bit value. */
  lemma ParseFormatInt(n: int)
    requires Int32Min <= n <= Int32Max
    ensures ParseInt(FormatInt(n)) == Some(n)
  {
    var s := FormatInt(n);
    FormatIntIsTrimmed(n);
    assert ParseInt(s) == ParseSigned(s);
    if n < 0 {
      var d := NatToDigits(-n);
      assert s[0] == '-' && s[1..] == d;
      DigitsRoundTrip(-n);
      assert ParseSigned(s) == ParseMagnitude(true, d);
    } else {
      var d := NatToDigits(n);
      assert s == d;
      assert IsDigit(s[0]);
      DigitsRoundTrip(n);
      assert ParseSigned(s) == ParseMagnitude(false, d);
    }
  }

  lemma ParseFormatByte(n: int)
    requires 0 <= n < 256
    ensures ParseByte(FormatInt(n)) == Some(n)
  {
    ParseFormatInt(n);
  }
}
