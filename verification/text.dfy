/** Character classes, decimal numerals and JavaScript's `parseInt` over Dafny
    strings. A Dafny string is a sequence of Unicode scalar values, while
    JavaScript counts UTF-16 code units; the two lengths differ only for
    characters outside the Basic Multilingual Plane. */
module Text {
  import opened Wrappers

  predicate IsDigit(c: char) { '0' <= c <= '9' }

  predicate IsUpperLatin(c: char) { 'A' <= c <= 'Z' }

  /** The ECMAScript WhiteSpace and LineTerminator code points: what the regular
      expression class `\s` matches and what `parseInt` skips at the front. */
  predicate IsJsSpace(c: char) {
    || c == '\t' || c == '\n' || c == '\U{B}' || c == '\U{C}' || c == '\r' || c == ' '
    || c == '\U{A0}' || c == '\U{1680}' || ('\U{2000}' <= c <= '\U{200A}')
    || c == '\U{2028}' || c == '\U{2029}' || c == '\U{202F}' || c == '\U{205F}'
    || c == '\U{3000}' || c == '\U{FEFF}'
  }

  predicate AllDigits(s: string) {
    forall i :: 0 <= i < |s| ==> IsDigit(s[i])
  }

  function DigitValue(c: char): nat
    requires IsDigit(c)
  {
    (c as int) - ('0' as int)
  }

  function DigitChar(d: nat): (c: char)
    requires d < 10
    ensures IsDigit(c) && DigitValue(c) == d
  {
    (('0' as int) + d) as char
  }

  /** The number a string of decimal digits denotes (most significant first). */
  function DecimalValue(s: string): nat
    requires AllDigits(s)
  {
    if |s| == 0 then 0 else 10 * DecimalValue(s[..|s| - 1]) + DigitValue(s[|s| - 1])
  }

  /** `String(n)` for a non-negative integer: the shortest decimal numeral. */
  function NatToDecimal(n: nat): (r: string)
    ensures |r| > 0 && AllDigits(r)
    ensures DecimalValue(r) == n
    ensures |r| > 1 ==> r[0] != '0'
  {
    if n < 10 then [DigitChar(n)]
    else
      var front := NatToDecimal(n / 10);
      var r := front + [DigitChar(n % 10)];
      assert r[..|r| - 1] == front;
      r
  }

  /** `String(n)` for any integer: a minus sign in front of a negative one. */
  function IntToDecimal(n: int): (r: string)
    ensures n >= 0 ==> AllDigits(r) && |r| > 0
    ensures n < 0 ==> |r| > 1 && r[0] == '-' && AllDigits(r[1..])
  {
    if n < 0 then "-" + NatToDecimal(-n) else NatToDecimal(n)
  }

  /** 10^21: from this magnitude on, `String(n)` writes a number in exponent notation. */
  const ExponentThreshold: int := 1_000_000_000_000_000_000_000

  /** `String(n)` writes `n` as plain decimal digits. */
  predicate PrintsPlain(n: int) {
    -ExponentThreshold < n < ExponentThreshold
  }

  /** The first decimal digit of `m`. */
  function LeadingDigit(m: nat): (d: nat)
    ensures d < 10
    ensures m > 0 ==> d > 0
  {
    if m < 10 then m else LeadingDigit(m / 10)
  }

  function Pow10(k: nat): (p: nat)
    ensures p > 0
  {
    if k == 0 then 1 else 10 * Pow10(k - 1)
  }

  /** Every power of ten leads with a 1. */
  lemma {:induction false} LeadingDigitOfPow10(k: nat)
    ensures LeadingDigit(Pow10(k)) == 1
  {
    if k > 0 {
      assert Pow10(k) / 10 == Pow10(k - 1);
      LeadingDigitOfPow10(k - 1);
    }
  }

  /** The leading digit with the sign of `n`. */
  function SignedLeadingDigit(n: int): (d: int)
    ensures n > 0 ==> d == LeadingDigit(n)
    ensures n < 0 ==> d == 0 - LeadingDigit(-n)
    ensures -10 < d < 10 && (d == 0 <==> n == 0)
  {
    if n < 0 then 0 - LeadingDigit(-n) else LeadingDigit(n)
  }

  /** The numeral with its trailing zeros removed; a numeral that does not start
      with '0' keeps at least its first digit. */
  function DropTrailingZeros(s: string): (r: string)
    ensures |r| <= |s| && r == s[..|r|]
    ensures |s| > 0 && s[0] != '0' ==> |r| > 0
  {
    if |s| > 0 && s[|s| - 1] == '0' then DropTrailingZeros(s[..|s| - 1]) else s
  }

  /** `String(n)` for an integer-valued number, as ECMAScript's Number::toString
      writes it: plain digits below 10^21 in magnitude, otherwise in exponent
      notation. */
  function NumberToString(n: int): (r: string)
    ensures PrintsPlain(n) ==> r == IntToDecimal(n)
    ensures !PrintsPlain(n) ==> 'e' in r && '+' in r
  {
    if PrintsPlain(n) then IntToDecimal(n)
    else ExponentForm(n < 0, NatToDecimal(if n < 0 then -n else n))
  }

  /** The exponent notation of the magnitude whose numeral is `digits`: the
      first digit, then "." and the other significant digits when there are any,
      then "e+" and the exponent. */
  function ExponentForm(negative: bool, digits: string): (r: string)
    requires |digits| > 0
    ensures 'e' in r && '+' in r
  {
    (if negative then "-" else "") + [digits[0]] + ExponentTail(digits)
  }

  /** What follows the first digit in exponent notation; it starts with "." or "e". */
  function ExponentTail(digits: string): (r: string)
    requires |digits| > 0
    ensures |r| > 0 && (r[0] == '.' || r[0] == 'e')
    ensures 'e' in r && '+' in r
  {
    var significant := DropTrailingZeros(digits);
    var fraction := if |significant| <= 1 then "" else "." + significant[1..];
    var r := fraction + "e+" + NatToDecimal(|digits| - 1);
    assert r[|fraction|] == 'e' && r[|fraction| + 1] == '+';
    r
  }

  /** A JavaScript number as far as this model needs one: NaN or an integer.
      Fractions, infinities and precision beyond 2^53 are not represented. */
  datatype Num = NaN | Int(value: int)

  /** JavaScript truthiness of a number: NaN and 0 (also -0) are falsy. */
  predicate NumTruthy(n: Num) { n.Int? && n.value != 0 }

  /** The string with its leading JavaScript whitespace removed. */
  function TrimStart(s: string): (r: string)
    ensures |r| <= |s| && r == s[|s| - |r|..]
    ensures |r| > 0 ==> !IsJsSpace(r[0])
    ensures forall i :: 0 <= i < |s| - |r| ==> IsJsSpace(s[i])
  {
    if |s| > 0 && IsJsSpace(s[0]) then TrimStart(s[1..]) else s
  }

  /** Length of the longest prefix of decimal digits. */
  function DigitPrefixLength(s: string): (k: nat)
    ensures k <= |s| && AllDigits(s[..k])
    ensures k < |s| ==> !IsDigit(s[k])
  {
    if |s| > 0 && IsDigit(s[0]) then
      var k := 1 + DigitPrefixLength(s[1..]);
      assert forall i :: 1 <= i < k ==> s[..k][i] == s[1..][..k - 1][i - 1];
      k
    else 0
  }

  /** `parseInt(s, 10)`: skip leading whitespace, read an optional sign, then the
      longest run of digits; NaN when that run is empty. Trailing text is ignored. */
  function ParseInt(s: string): Num {
    var t := TrimStart(s);
    var negative := |t| > 0 && t[0] == '-';
    var body := if |t| > 0 && (t[0] == '-' || t[0] == '+') then t[1..] else t;
    var k := DigitPrefixLength(body);
    if k == 0 then NaN
    else if negative then Int(0 - DecimalValue(body[..k]))
    else Int(DecimalValue(body[..k]))
  }

  lemma DigitPrefixOfDigits(s: string)
    requires AllDigits(s)
    ensures DigitPrefixLength(s) == |s|
  {
  }

  /** A string that starts with a digit is read from its first character on. */
  lemma ParseIntFromDigit(s: string)
    requires |s| > 0 && IsDigit(s[0])
    ensures ParseInt(s) == Int(DecimalValue(s[..DigitPrefixLength(s)]))
  {
    assert !IsJsSpace(s[0]);
    assert TrimStart(s) == s;
  }

  /** A non-empty string of digits parses to the number it denotes. */
  lemma ParseIntOfDigits(s: string)
    requires |s| > 0 && AllDigits(s)
    ensures ParseInt(s) == Int(DecimalValue(s))
  {
    ParseIntFromDigit(s);
    DigitPrefixOfDigits(s);
    assert s[..|s|] == s;
  }

  /** Reading back the text `String(n)` produces gives `n`: `parseInt` inverts `IntToDecimal`. */
  lemma ParseIntOfDecimal(n: int)
    ensures ParseInt(IntToDecimal(n)) == Int(n)
  {
    var r := IntToDecimal(n);
    if n >= 0 {
      ParseIntOfDigits(r);
    } else {
      var digits := NatToDecimal(-n);
      assert r == "-" + digits;
      assert !IsJsSpace(r[0]);
      assert TrimStart(r) == r;
      assert r[1..] == digits;
      DigitPrefixOfDigits(digits);
      assert digits[..|digits|] == digits;
    }
  }

  /** `parseInt` stops at the first non-digit: "12abc" reads as 12. */
  lemma ParseIntIgnoresTrailing(digits: string, rest: string)
    requires |digits| > 0 && AllDigits(digits)
    requires |rest| > 0 && !IsDigit(rest[0])
    ensures ParseInt(digits + rest) == Int(DecimalValue(digits))
  {
    var s := digits + rest;
    assert s[0] == digits[0];
    ParseIntFromDigit(s);
    DigitPrefixAppend(digits, rest);
    assert s[..|digits|] == digits;
  }

  lemma {:induction false} DigitPrefixAppend(digits: string, rest: string)
    requires AllDigits(digits)
    requires |rest| > 0 && !IsDigit(rest[0])
    ensures DigitPrefixLength(digits + rest) == |digits|
  {
    if |digits| > 0 {
      assert (digits + rest)[1..] == digits[1..] + rest;
      DigitPrefixAppend(digits[1..], rest);
    } else {
      assert digits + rest == rest;
    }
  }

  // ---------------------------------------------------------------------------
  // `parseInt(s)` without a radix: after the sign, "0x" or "0X" switches to
  // base 16; anything else is read in base 10.

  predicate IsHexDigit(c: char) { IsDigit(c) || 'a' <= c <= 'f' || 'A' <= c <= 'F' }

  predicate AllHex(s: string) {
    forall i :: 0 <= i < |s| ==> IsHexDigit(s[i])
  }

  function HexDigitValue(c: char): (d: nat)
    requires IsHexDigit(c)
    ensures d < 16
  {
    if IsDigit(c) then DigitValue(c)
    else if 'a' <= c <= 'f' then (c as int) - ('a' as int) + 10
    else (c as int) - ('A' as int) + 10
  }

  /** The number a string of hexadecimal digits denotes (most significant first). */
  function HexValue(s: string): nat
    requires AllHex(s)
  {
    if |s| == 0 then 0 else 16 * HexValue(s[..|s| - 1]) + HexDigitValue(s[|s| - 1])
  }

  /** Length of the longest prefix of hexadecimal digits. */
  function HexPrefixLength(s: string): (k: nat)
    ensures k <= |s| && AllHex(s[..k])
    ensures k < |s| ==> !IsHexDigit(s[k])
  {
    if |s| > 0 && IsHexDigit(s[0]) then
      var k := 1 + HexPrefixLength(s[1..]);
      assert forall i :: 1 <= i < k ==> s[..k][i] == s[1..][..k - 1][i - 1];
      k
    else 0
  }

  /** What follows the leading whitespace and the optional sign. */
  function Unsigned(s: string): string {
    var t := TrimStart(s);
    if |t| > 0 && (t[0] == '-' || t[0] == '+') then t[1..] else t
  }

  predicate HexPrefixed(s: string) {
    var body := Unsigned(s);
    |body| >= 2 && body[0] == '0' && (body[1] == 'x' || body[1] == 'X')
  }

  /** `parseInt(s)` with no radix: base 16 after a "0x" or "0X" prefix (NaN when
      no hexadecimal digit follows it), otherwise `parseInt(s, 10)`. */
  function ParseIntNoRadix(s: string): Num {
    if !HexPrefixed(s) then ParseInt(s)
    else
      var t := TrimStart(s);
      var negative := |t| > 0 && t[0] == '-';
      var digits := Unsigned(s)[2..];
      var k := HexPrefixLength(digits);
      if k == 0 then NaN
      else if negative then Int(0 - HexValue(digits[..k]))
      else Int(HexValue(digits[..k]))
  }

  lemma HexPrefixOfHex(s: string)
    requires AllHex(s)
    ensures HexPrefixLength(s) == |s|
  {
  }

  /** "0x" followed by hexadecimal digits reads as the number they denote. */
  lemma NoRadixReadsHex(h: string)
    requires |h| > 0 && AllHex(h)
    ensures ParseIntNoRadix("0x" + h) == Int(HexValue(h))
  {
    var s := "0x" + h;
    assert !IsJsSpace(s[0]);
    assert TrimStart(s) == s;
    assert Unsigned(s) == s;
    assert s[2..] == h;
    HexPrefixOfHex(h);
    assert h[..|h|] == h;
  }

  /** A number's decimal text never carries the hexadecimal prefix, so reading it
      without a radix gives the number back. */
  lemma NoRadixOfDecimal(n: int)
    ensures ParseIntNoRadix(IntToDecimal(n)) == Int(n)
  {
    var r := IntToDecimal(n);
    assert !IsJsSpace(r[0]);
    assert TrimStart(r) == r;
    if n >= 0 {
      assert Unsigned(r) == r;
      assert |r| >= 2 ==> IsDigit(r[1]);
    } else {
      assert Unsigned(r) == r[1..];
      assert |r| >= 3 ==> IsDigit(r[2]);
    }
    assert !HexPrefixed(r);
    ParseIntOfDecimal(n);
  }

  /** The numeral of a positive integer starts with its leading digit. */
  lemma {:induction false} NatToDecimalLeads(m: nat)
    requires m > 0
    ensures NatToDecimal(m)[0] == DigitChar(LeadingDigit(m))
  {
    if m >= 10 {
      NatToDecimalLeads(m / 10);
    }
  }

  /** After an optional minus sign, a non-zero digit followed by a non-digit
      reads as that digit. */
  lemma NoRadixOfLeadingDigit(negative: bool, d: char, rest: string)
    requires IsDigit(d) && d != '0'
    requires |rest| > 0 && !IsDigit(rest[0])
    ensures ParseIntNoRadix((if negative then "-" else "") + [d] + rest)
         == Int(if negative then 0 - DigitValue(d) else DigitValue(d))
  {
    var s := (if negative then "-" else "") + [d] + rest;
    var tail := [d] + rest;
    assert !IsJsSpace(s[0]);
    assert TrimStart(s) == s;
    assert Unsigned(s) == tail by {
      if negative { assert s[1..] == tail; } else { assert s == tail; }
    }
    assert !HexPrefixed(s);
    DigitPrefixAppend([d], rest);
    assert tail[..1] == [d];
    assert [d][..0] == [];
    assert DecimalValue([d]) == DigitValue(d);
  }

  /** `parseInt` without a radix reading back what `String(n)` wrote: `n` itself
      below 10^21 in magnitude; from 10^21 on only the sign and the leading
      digit, because the reading stops at the "." or the "e". */
  lemma NoRadixOfNumber(n: int)
    ensures PrintsPlain(n) ==> ParseIntNoRadix(NumberToString(n)) == Int(n)
    ensures !PrintsPlain(n) ==> ParseIntNoRadix(NumberToString(n)) == Int(SignedLeadingDigit(n))
  {
    if PrintsPlain(n) {
      NoRadixOfDecimal(n);
    } else {
      NoRadixOfExponent(n);
    }
  }

  lemma NoRadixOfExponent(n: int)
    requires !PrintsPlain(n)
    ensures ParseIntNoRadix(NumberToString(n)) == Int(SignedLeadingDigit(n))
  {
    var m: nat := if n < 0 then -n else n;
    var digits := NatToDecimal(m);
    NatToDecimalLeads(m);
    var d := digits[0];
    assert IsDigit(d) && d != '0' && DigitValue(d) == LeadingDigit(m);
    assert NumberToString(n) == ExponentForm(n < 0, digits);
    NoRadixOfLeadingDigit(n < 0, d, ExponentTail(digits));
  }

  /** A string of decimal digits reads the same with or without the radix. */
  lemma NoRadixOfDigits(s: string)
    requires |s| > 0 && AllDigits(s)
    ensures ParseIntNoRadix(s) == Int(DecimalValue(s))
  {
    assert !IsJsSpace(s[0]);
    assert TrimStart(s) == s;
    assert Unsigned(s) == s;
    assert |s| >= 2 ==> IsDigit(s[1]);
    ParseIntOfDigits(s);
  }

  /** The position of the first `c` in `s`, if any. */
  function IndexOf(s: string, c: char): (r: Option<nat>)
    ensures r.None? ==> c !in s
    ensures r.Some? ==> r.value < |s| && s[r.value] == c && c !in s[..r.value]
  {
    if |s| == 0 then None
    else if s[0] == c then Some(0)
    else
      match IndexOf(s[1..], c)
      case None => None
      case Some(i) =>
        assert s[..i + 1] == [s[0]] + s[1..][..i];
        Some(i + 1)
  }

  lemma IndexOfAbsent(s: string, c: char)
    requires c !in s
    ensures IndexOf(s, c) == None
  {
    assert forall i :: 0 <= i < |s| ==> s[i] != c;
  }

  lemma IndexOfAfterPrefix(a: string, c: char, b: string)
    requires c !in a
    ensures IndexOf(a + [c] + b, c) == Some(|a|)
  {
    var s := a + [c] + b;
    assert s[|a|] == c;
    assert forall j :: 0 <= j < |a| ==> s[j] == a[j];
    assert forall i :: |a| < i <= |s| ==> s[..i][|a|] == c;
  }

  /** The parts joined with `sep` between neighbours (`Array.prototype.join`). */
  function Join(parts: seq<string>, sep: char): string {
    if |parts| == 0 then ""
    else if |parts| == 1 then parts[0]
    else parts[0] + [sep] + Join(parts[1..], sep)
  }

  /** Joining two non-empty lists is joining each and putting one `sep` between. */
  lemma {:induction false} JoinAppend(x: seq<string>, y: seq<string>, sep: char)
    requires |x| > 0 && |y| > 0
    ensures Join(x + y, sep) == Join(x, sep) + [sep] + Join(y, sep)
  {
    if |x| == 1 {
      assert (x + y)[1..] == y;
    } else {
      assert (x + y)[1..] == x[1..] + y;
      JoinAppend(x[1..], y, sep);
    }
  }

  /** The text cut at every `sep` (`String.prototype.split` with a one-character
      separator); always at least one piece. */
  function Split(s: string, sep: char): (r: seq<string>)
    ensures |r| > 0
    decreases |s|
  {
    match IndexOf(s, sep)
    case None => [s]
    case Some(i) => [s[..i]] + Split(s[i + 1..], sep)
  }

  /** A character that is neither the separator nor in any part is not in the joined text. */
  lemma {:induction false} JoinExcludes(parts: seq<string>, sep: char, c: char)
    requires c != sep
    requires forall i :: 0 <= i < |parts| ==> c !in parts[i]
    ensures c !in Join(parts, sep)
  {
    if |parts| > 1 {
      JoinExcludes(parts[1..], sep, c);
    }
  }

  /** Splitting undoes joining when no part contains the separator. */
  lemma {:induction false} SplitJoin(parts: seq<string>, sep: char)
    requires |parts| > 0
    requires forall i :: 0 <= i < |parts| ==> sep !in parts[i]
    ensures Split(Join(parts, sep), sep) == parts
  {
    if |parts| == 1 {
      assert Join(parts, sep) == parts[0];
    } else {
      var tail := Join(parts[1..], sep);
      var s := parts[0] + [sep] + tail;
      IndexOfAfterPrefix(parts[0], sep, tail);
      assert s[..|parts[0]|] == parts[0];
      assert s[|parts[0]| + 1..] == tail;
      SplitJoin(parts[1..], sep);
      assert parts == [parts[0]] + parts[1..];
    }
  }
}
