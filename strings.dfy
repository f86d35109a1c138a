/**
 * Character classes, the `Unescape` string extension and decimal
 * conversions between integers and text (`int.ToString`, `long.Parse`).
 */
module Strings {

  import opened Wrappers

  /** `char.IsDigit`, restricted to the ASCII digits. */
  predicate IsDigit(c: char) { '0' <= c <= '9' }

  /** `char.IsLetter`, restricted to the ASCII letters. */
  predicate IsLetter(c: char) { 'a' <= c <= 'z' || 'A' <= c <= 'Z' }

  /**
   * `char.IsWhiteSpace`: the Unicode separator characters (category Zs,
   * Zl, Zp) and the controls U+0009 to U+000D, U+0085.
   */
  predicate IsWhiteSpace(c: char) {
    '\t' <= c <= '\r' || c == ' ' || c == '\U{0085}' || c == '\U{00A0}' || c == '\U{1680}'
    || '\U{2000}' <= c <= '\U{200A}' || c == '\U{2028}' || c == '\U{2029}' || c == '\U{202F}'
    || c == '\U{205F}' || c == '\U{3000}'
  }

  predicate AllDigits(s: string) { forall i :: 0 <= i < |s| ==> IsDigit(s[i]) }

  // ---------------------------------------------------------------------
  // Replace and Unescape
  // ---------------------------------------------------------------------

  /** `string.Replace` of the one-character string [c] by `rep`. */
  function ReplaceChar(s: string, c: char, rep: string): (r: string)
    ensures forall x :: x !in s && x !in rep ==> x !in r
    ensures c !in rep ==> c !in r
    ensures c !in s ==> r == s
  {
    if s == [] then []
    else (if s[0] == c then rep else [s[0]]) + ReplaceChar(s[1..], c, rep)
  }

  lemma {:induction false} ReplaceCharAppend(a: string, b: string, c: char, rep: string)
    ensures ReplaceChar(a + b, c, rep) == ReplaceChar(a, c, rep) + ReplaceChar(b, c, rep)
  {
    if a == [] {
      assert a + b == b;
    } else {
      assert (a + b)[1..] == a[1..] + b;
      ReplaceCharAppend(a[1..], b, c, rep);
    }
  }

  /**
   * Makes line breaks and tabs visible: `\n`, `\r` and `\t` become the two
   * characters backslash-n, backslash-r and backslash-t, replaced in that order.
   */
  function Unescape(s: string): (r: string)
    ensures '\n' !in r && '\r' !in r && '\t' !in r
  {
    ReplaceChar(ReplaceChar(ReplaceChar(s, '\n', "\\n"), '\r', "\\r"), '\t', "\\t")
  }

  /** The reference definition: what `Unescape` does to a single character. */
  function EscapeOf(c: char): string {
    if c == '\n' then "\\n" else if c == '\r' then "\\r" else if c == '\t' then "\\t" else [c]
  }

  /** The reference definition applied character by character. */
  function EscapeEach(s: string): string {
    if s == [] then [] else EscapeOf(s[0]) + EscapeEach(s[1..])
  }

  /** Is `c` one of the three characters that `Unescape` rewrites? */
  predicate IsControl(c: char) { c == '\n' || c == '\r' || c == '\t' }

  function ControlCount(s: string): nat {
    if s == [] then 0 else (if IsControl(s[0]) then 1 else 0) + ControlCount(s[1..])
  }

  lemma UnescapeAppend(a: string, b: string)
    ensures Unescape(a + b) == Unescape(a) + Unescape(b)
  {
    ReplaceCharAppend(a, b, '\n', "\\n");
    var a1, b1 := ReplaceChar(a, '\n', "\\n"), ReplaceChar(b, '\n', "\\n");
    ReplaceCharAppend(a1, b1, '\r', "\\r");
    var a2, b2 := ReplaceChar(a1, '\r', "\\r"), ReplaceChar(b1, '\r', "\\r");
    ReplaceCharAppend(a2, b2, '\t', "\\t");
  }

  lemma UnescapeOneCharacter(c: char)
    ensures Unescape([c]) == EscapeOf(c)
  {
    var one := [c];
    assert one[1..] == [];
    if c == '\n' {
      assert ReplaceChar(one, '\n', "\\n") == "\\n";
    } else if c == '\r' {
      assert ReplaceChar(one, '\n', "\\n") == one;
      assert ReplaceChar(one, '\r', "\\r") == "\\r";
    } else if c == '\t' {
      assert ReplaceChar(one, '\n', "\\n") == one;
      assert ReplaceChar(one, '\r', "\\r") == one;
      assert ReplaceChar(one, '\t', "\\t") == "\\t";
    } else {
      assert ReplaceChar(one, '\n', "\\n") == one;
      assert ReplaceChar(one, '\r', "\\r") == one;
      assert ReplaceChar(one, '\t', "\\t") == one;
    }
  }

  /** The three chained replacements act character by character. */
  lemma {:induction false} UnescapeIsPerCharacter(s: string)
    ensures Unescape(s) == EscapeEach(s)
  {
    if s != [] {
      assert s == [s[0]] + s[1..];
      UnescapeAppend([s[0]], s[1..]);
      UnescapeOneCharacter(s[0]);
      UnescapeIsPerCharacter(s[1..]);
    }
  }

  /** Every rewritten character grows by exactly one. */
  lemma {:induction false} UnescapeLength(s: string)
    ensures |Unescape(s)| == |s| + ControlCount(s)
  {
    EachLength(s);
    UnescapeIsPerCharacter(s);
  }

  lemma {:induction false} EachLength(s: string)
    ensures |EscapeEach(s)| == |s| + ControlCount(s)
  {
    if s != [] { EachLength(s[1..]); }
  }

  /** Text without line breaks and tabs is left as it is. */
  lemma UnescapeKeepsPlainText(s: string)
    requires '\n' !in s && '\r' !in s && '\t' !in s
    ensures Unescape(s) == s
  {
  }

  /** Unescaping twice is the same as unescaping once. */
  lemma UnescapeIdempotent(s: string)
    ensures Unescape(Unescape(s)) == Unescape(s)
  {
    UnescapeKeepsPlainText(Unescape(s));
  }

  // ---------------------------------------------------------------------
  // Decimal text
  // ---------------------------------------------------------------------

  function DigitChar(d: nat): (c: char)
    requires d < 10
    ensures IsDigit(c) && DigitValue(c) == d
  {
    ('0' as int + d) as char
  }

  function DigitValue(c: char): nat
    requires IsDigit(c)
  {
    c as int - '0' as int
  }

  /** The value of a string of decimal digits (0 for the empty string). */
  function DigitsValue(s: string): nat
    requires AllDigits(s)
  {
    if s == [] then 0 else 10 * DigitsValue(s[..|s| - 1]) + DigitValue(s[|s| - 1])
  }

  /** `n.ToString()` in the invariant culture. */
  function NatToString(n: nat): (r: string)
    ensures |r| > 0 && AllDigits(r)
    decreases n
  {
    if n < 10 then [DigitChar(n)] else NatToString(n / 10) + [DigitChar(n % 10)]
  }

  lemma {:induction false} NatToStringRoundTrip(n: nat)
    ensures DigitsValue(NatToString(n)) == n
    decreases n
  {
    if n >= 10 {
      var s := NatToString(n);
      assert s[..|s| - 1] == NatToString(n / 10);
      NatToStringRoundTrip(n / 10);
    }
  }

  /** `i.ToString()` in the invariant culture: a minus sign and the digits of |i|. */
  function IntToString(i: int): (r: string)
    ensures |r| > 0
  {
    if i < 0 then "-" + NatToString(-i) else NatToString(i)
  }

  /** Reads back the text `IntToString` produces; `None` for anything else. */
  function ParseIntText(s: string): Option<int> {
    if |s| > 1 && s[0] == '-' && AllDigits(s[1..]) then Some(-(DigitsValue(s[1..]) as int))
    else if |s| > 0 && AllDigits(s) then Some(DigitsValue(s))
    else None
  }

  lemma IntToStringRoundTrip(i: int)
    ensures ParseIntText(IntToString(i)) == Some(i)
  {
    if i < 0 {
      var s := IntToString(i);
      assert s[1..] == NatToString(-i);
      NatToStringRoundTrip(-i);
    } else {
      NatToStringRoundTrip(i);
    }
  }

  // ---------------------------------------------------------------------
  // long.Parse
  // ---------------------------------------------------------------------

  const Int64Min: int := -0x8000_0000_0000_0000
  const Int64Max: int := 0x7FFF_FFFF_FFFF_FFFF

  /** The three ways `long.Parse` ends: a value, `OverflowException`, `FormatException`. */
  datatype Int64Parse = Parsed(value: int) | Overflow | BadFormat

  /** `long.Parse` on an optional sign followed by decimal digits. */
  function ParseInt64(s: string): (r: Int64Parse)
    ensures r.Parsed? ==> Int64Min <= r.value <= Int64Max
  {
    var negative := |s| > 0 && s[0] == '-';
    var digits := if |s| > 0 && (s[0] == '-' || s[0] == '+') then s[1..] else s;
    if digits == [] || !AllDigits(digits) then BadFormat
    else
      var v: int := if negative then -(DigitsValue(digits) as int) else DigitsValue(digits);
      if Int64Min <= v <= Int64Max then Parsed(v) else Overflow
  }

  /** Every 64-bit value is read back from its decimal text. */
  lemma ParseInt64RoundTrip(i: int)
    requires Int64Min <= i <= Int64Max
    ensures ParseInt64(IntToString(i)) == Parsed(i)
  {
    var s := IntToString(i);
    if i < 0 {
      assert s[1..] == NatToString(-i);
      NatToStringRoundTrip(-i);
    } else {
      NatToStringRoundTrip(i);
    }
  }

  /** Digit strings whose value exceeds `long.MaxValue` overflow. */
  lemma ParseInt64Overflow(s: string)
    requires s != [] && AllDigits(s) && DigitsValue(s) > Int64Max
    ensures ParseInt64(s) == Overflow
  {
  }
}
