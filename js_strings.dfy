/**
 * The JavaScript string primitives the core relies on: `parseInt(s, 10)`,
 * `String.prototype.trim` and `String.prototype.split` on one character.
 */
module JsStrings {
  import opened Wrappers

  predicate IsDigit(c: char) {
    '0' <= c <= '9'
  }

  /**
   * The characters `parseInt` and `trim` skip: ECMAScript's WhiteSpace (tab,
   * vertical tab, form feed, the byte order mark and the space separators
   * of Unicode category Zs) and LineTerminator (LF, CR, U+2028, U+2029).
   */
  predicate IsSpace(c: char) {
    var n := c as int;
    || 0x09 <= n <= 0x0D || n == 0x20 || n == 0xA0 || n == 0x1680
    || 0x2000 <= n <= 0x200A || n == 0x2028 || n == 0x2029 || n == 0x202F || n == 0x205F
    || n == 0x3000 || n == 0xFEFF
  }

  function DigitValue(c: char): (d: nat)
    requires IsDigit(c)
    ensures d < 10
  {
    (c as int) - ('0' as int)
  }

  function DigitChar(d: nat): (c: char)
    requires d < 10
    ensures IsDigit(c) && DigitValue(c) == d
  {
    (('0' as int) + d) as char
  }

  /** The number of white-space characters `s` starts with. */
  function LeadingSpaces(s: string): (k: nat)
    ensures k <= |s|
    ensures forall i :: 0 <= i < k ==> IsSpace(s[i])
    ensures k < |s| ==> !IsSpace(s[k])
  {
    if s != [] && IsSpace(s[0]) then 1 + LeadingSpaces(s[1..]) else 0
  }

  /** The number of white-space characters `s` ends with. */
  function TrailingSpaces(s: string): (k: nat)
    ensures k <= |s|
    ensures forall i :: |s| - k <= i < |s| ==> IsSpace(s[i])
    ensures k < |s| ==> !IsSpace(s[|s| - k - 1])
  {
    if s != [] && IsSpace(s[|s| - 1]) then 1 + TrailingSpaces(s[..|s| - 1]) else 0
  }

  /**
   * `s.trim()`: what lies between the leading and the trailing white space.
   * Only white space is dropped on either side, and neither end of the result
   * is white space, so the result is empty exactly for a blank string.
   */
  function Trim(s: string): (r: string)
    ensures r == [] <==> forall i :: 0 <= i < |s| ==> IsSpace(s[i])
    ensures var start := LeadingSpaces(s);
      && start + |r| <= |s| && r == s[start..start + |r|]
      && (forall i :: 0 <= i < start ==> IsSpace(s[i]))
      && (forall i :: start + |r| <= i < |s| ==> IsSpace(s[i]))
    ensures r != [] ==> !IsSpace(r[0]) && !IsSpace(r[|r| - 1])
  {
    var start := LeadingSpaces(s);
    if start == |s| then []
    else
      var end := |s| - TrailingSpaces(s);
      s[start..end]
  }

  /** Length of the longest prefix of decimal digits. */
  function DigitPrefix(s: string): (k: nat)
    ensures k <= |s|
    ensures forall i :: 0 <= i < k ==> IsDigit(s[i])
    ensures k < |s| ==> !IsDigit(s[k])
  {
    if s != [] && IsDigit(s[0]) then 1 + DigitPrefix(s[1..]) else 0
  }

  /** The number a string of decimal digits denotes. */
  function DigitsValue(s: string): nat
    requires forall i :: 0 <= i < |s| ==> IsDigit(s[i])
  {
    if s == [] then 0 else DigitsValue(s[..|s| - 1]) * 10 + DigitValue(s[|s| - 1])
  }

  /**
   * `parseInt(s, 10)`: skip leading white space, read an optional sign and
   * then as many decimal digits as follow; `None` is NaN (no digit at all).
   * Whatever follows the digits is ignored.
   */
  function ParseInt(s: string): (r: Option<int>)
    ensures r.None? <==>
      var t := s[LeadingSpaces(s)..];
      var body := if t != [] && (t[0] == '-' || t[0] == '+') then t[1..] else t;
      body == [] || !IsDigit(body[0])
  {
    SignedNumber(s[LeadingSpaces(s)..])
  }

  /** An optional sign, then the leading decimal digits; `None` when no digit follows the sign. */
  function SignedNumber(t: string): (r: Option<int>)
    ensures r.None? <==>
      var body := if t != [] && (t[0] == '-' || t[0] == '+') then t[1..] else t;
      body == [] || !IsDigit(body[0])
  {
    if t != [] && t[0] == '-' then
      match LeadingNumber(t[1..])
      case None => None
      case Some(n) => Some(-(n as int))
    else if t != [] && t[0] == '+' then
      match LeadingNumber(t[1..])
      case None => None
      case Some(n) => Some(n as int)
    else
      match LeadingNumber(t)
      case None => None
      case Some(n) => Some(n as int)
  }

  /** The number the leading decimal digits of `s` denote; none when `s` does not start with a digit. */
  function LeadingNumber(s: string): (r: Option<nat>)
    ensures r.None? <==> s == [] || !IsDigit(s[0])
  {
    var k := DigitPrefix(s);
    if k == 0 then None
    else
      var digits := s[..k];
      assert forall i :: 0 <= i < |digits| ==> IsDigit(digits[i]) by {
        assert forall i :: 0 <= i < |digits| ==> digits[i] == s[i];
      }
      Some(DigitsValue(digits))
  }

  /** Decimal rendering of a natural number, without leading zeros. */
  function NatToString(n: nat): (s: string)
    ensures s != [] && forall i :: 0 <= i < |s| ==> IsDigit(s[i])
  {
    if n < 10 then [DigitChar(n)] else NatToString(n / 10) + [DigitChar(n % 10)]
  }

  /** Decimal rendering of an integer, `-` for negative numbers (`String(n)`). */
  function IntToString(n: int): (s: string)
    ensures s != []
  {
    if n < 0 then "-" + NatToString(-n) else NatToString(n)
  }

  lemma {:induction false} DigitsValueOfNatToString(n: nat)
    ensures DigitsValue(NatToString(n)) == n
  {
    var s := NatToString(n);
    if n >= 10 {
      DigitsValueOfNatToString(n / 10);
      assert s[..|s| - 1] == NatToString(n / 10);
    }
  }

  /** `parseInt` reads back what `String` writes: the round trip of a decimal id. */
  lemma ParseIntOfIntToString(n: int)
    ensures ParseInt(IntToString(n)) == Some(n)
  {
    ParseIntIgnoresTrailingText(n, "");
    assert IntToString(n) + "" == IntToString(n);
  }

  /** Text after the number that does not start with a digit is ignored: `parseInt("12abc")` is 12. */
  lemma ParseIntIgnoresTrailingText(n: int, rest: string)
    requires rest == [] || !IsDigit(rest[0])
    ensures ParseInt(IntToString(n) + rest) == Some(n)
  {
    if n < 0 {
      ParseIntOfNegativeNat(-n, rest);
      assert IntToString(n) + rest == ['-'] + (NatToString(-n) + rest);
    } else {
      ParseIntOfNat(n, rest);
    }
  }

  lemma ParseIntOfNat(m: nat, rest: string)
    requires rest == [] || !IsDigit(rest[0])
    ensures ParseInt(NatToString(m) + rest) == Some(m)
  {
    LeadingNumberOfNat(m, rest);
    ParseIntOfUnspaced(NatToString(m) + rest);
  }

  lemma ParseIntOfNegativeNat(m: nat, rest: string)
    requires rest == [] || !IsDigit(rest[0])
    ensures ParseInt(['-'] + (NatToString(m) + rest)) == Some(-(m as int))
  {
    LeadingNumberOfNat(m, rest);
    NegativeNumber(NatToString(m) + rest);
  }

  /** The decimal rendering of `m`, followed by a non-digit, is read back as `m`. */
  lemma LeadingNumberOfNat(m: nat, rest: string)
    requires rest == [] || !IsDigit(rest[0])
    ensures LeadingNumber(NatToString(m) + rest) == Some(m)
  {
    DigitsValueOfNatToString(m);
    LeadingNumberOfDigits(NatToString(m), rest);
  }

  /** After a minus sign, `parseInt` negates the leading number. */
  lemma NegativeNumber(t: string)
    ensures ParseInt(['-'] + t) ==
      match LeadingNumber(t)
      case None => None
      case Some(n) => Some(-(n as int))
  {
    var s := ['-'] + t;
    assert s[0] == '-' && s[1..] == t;
    ParseIntOfUnspaced(s);
  }

  /** Without leading white space, `parseInt` goes straight to the sign and digits. */
  lemma ParseIntOfUnspaced(s: string)
    requires s != [] && !IsSpace(s[0])
    ensures ParseInt(s) == SignedNumber(s)
  {
    assert LeadingSpaces(s) == 0;
    assert s[0..] == s;
  }

  /** A non-empty string of digits is read whole, up to the first non-digit. */
  lemma LeadingNumberOfDigits(digits: string, rest: string)
    requires digits != [] && forall i :: 0 <= i < |digits| ==> IsDigit(digits[i])
    requires rest == [] || !IsDigit(rest[0])
    ensures LeadingNumber(digits + rest) == Some(DigitsValue(digits))
  {
    DigitsThenPrefix(digits, rest);
    assert (digits + rest)[..|digits|] == digits;
  }

  lemma {:induction false} DigitsThenPrefix(digits: string, rest: string)
    requires forall i :: 0 <= i < |digits| ==> IsDigit(digits[i])
    requires rest == [] || !IsDigit(rest[0])
    ensures DigitPrefix(digits + rest) == |digits|
  {
    if digits != [] {
      assert (digits + rest)[1..] == digits[1..] + rest;
      DigitsThenPrefix(digits[1..], rest);
    } else {
      assert digits + rest == rest;
    }
  }

  /** `s.split(sep)`: the pieces between occurrences of `sep`, empty pieces included. */
  function Split(s: string, sep: char): (r: seq<string>)
    ensures |r| >= 1
    ensures forall i :: 0 <= i < |r| ==> sep !in r[i]
    ensures Join(r, sep) == s
  {
    if s == [] then [""]
    else
      var rest := Split(s[1..], sep);
      if s[0] == sep then
        assert s == [sep] + s[1..];
        [""] + rest
      else
        var r := [[s[0]] + rest[0]] + rest[1..];
        assert r[1..] == rest[1..];
        assert |rest| > 1 ==> Join(rest, sep) == rest[0] + [sep] + Join(rest[1..], sep);
        assert s == [s[0]] + s[1..];
        r
  }

  /** `pieces.join(sep)`. */
  function Join(pieces: seq<string>, sep: char): string
    requires |pieces| >= 1
  {
    if |pieces| == 1 then pieces[0] else pieces[0] + [sep] + Join(pieces[1..], sep)
  }

  /** Splitting what was joined gives the pieces back, when no piece holds the separator. */
  lemma {:induction false} SplitJoin(pieces: seq<string>, sep: char)
    requires |pieces| >= 1
    requires forall i :: 0 <= i < |pieces| ==> sep !in pieces[i]
    ensures Split(Join(pieces, sep), sep) == pieces
  {
    if |pieces| == 1 {
      SplitNoSeparator(pieces[0], sep);
    } else {
      var tail := Join(pieces[1..], sep);
      SplitJoin(pieces[1..], sep);
      SplitPrefix(pieces[0], tail, sep);
    }
  }

  lemma {:induction false} SplitNoSeparator(s: string, sep: char)
    requires sep !in s
    ensures Split(s, sep) == [s]
  {
    if s != [] {
      SplitNoSeparator(s[1..], sep);
    }
  }

  /** A separator-free word in front of `sep` becomes the first piece of the split. */
  lemma {:induction false} SplitPrefix(w: string, tail: string, sep: char)
    requires sep !in w
    ensures Split(w + [sep] + tail, sep) == [w] + Split(tail, sep)
  {
    var s := w + [sep] + tail;
    if w == [] {
      assert s[1..] == tail;
    } else {
      assert s[1..] == w[1..] + [sep] + tail;
      SplitPrefix(w[1..], tail, sep);
      assert [w[0]] + w[1..] == w;
    }
  }
}
