/**
 * The string primitives the modelled Java and TypeScript code relies on. Java's `trim`, `isBlank`
 * and JavaScript's `trim` treat different characters as white space, so each is written out.
 */
module Strings {

  /** Strips the longest prefix whose characters all satisfy `p`. */
  function TrimStart(s: string, p: char -> bool): (r: string)
    ensures |r| <= |s| && r == s[|s| - |r|..]
    ensures r == [] || !p(r[0])
    ensures forall i :: 0 <= i < |s| - |r| ==> p(s[i])
  {
    if s != [] && p(s[0]) then TrimStart(s[1..], p) else s
  }

  /** Strips the longest suffix whose characters all satisfy `p`. */
  function TrimEnd(s: string, p: char -> bool): (r: string)
    ensures |r| <= |s| && r == s[..|r|]
    ensures r == [] || !p(r[|r| - 1])
    ensures forall i :: |r| <= i < |s| ==> p(s[i])
  {
    if s != [] && p(s[|s| - 1]) then TrimEnd(s[..|s| - 1], p) else s
  }

  function Trim(s: string, p: char -> bool): string {
    TrimEnd(TrimStart(s, p), p)
  }

  /** `String.trim()` in Java removes every character up to and including U+0020. */
  predicate IsJavaTrimmed(c: char) { c <= ' ' }

  function JavaTrim(s: string): string {
    Trim(s, IsJavaTrimmed)
  }

  /** `Character.isWhitespace`: space, line and paragraph separators other than the
      no-break spaces, plus U+0009..U+000D and U+001C..U+001F. */
  predicate IsJavaWhitespace(c: char) {
    var n := c as int;
    (0x09 <= n <= 0x0D) || (0x1C <= n <= 0x20) || n == 0x1680 ||
    (0x2000 <= n <= 0x200A && n != 0x2007) || n == 0x2028 || n == 0x2029 ||
    n == 0x205F || n == 0x3000
  }

  /** `String.isBlank()` in Java. */
  predicate JavaIsBlank(s: string) {
    forall i :: 0 <= i < |s| ==> IsJavaWhitespace(s[i])
  }

  /** The characters `String.prototype.trim` removes in JavaScript: WhiteSpace and LineTerminator. */
  predicate IsJsWhitespace(c: char) {
    var n := c as int;
    (0x09 <= n <= 0x0D) || n == 0x20 || n == 0xA0 || n == 0x1680 ||
    (0x2000 <= n <= 0x200A) || n == 0x2028 || n == 0x2029 || n == 0x202F ||
    n == 0x205F || n == 0x3000 || n == 0xFEFF
  }

  function JsTrim(s: string): string {
    Trim(s, IsJsWhitespace)
  }

  /** A JavaScript string is "blank" for the screens when its trimmed value is falsy, i.e. empty. */
  predicate JsBlank(s: string) {
    JsTrim(s) == []
  }

  lemma {:induction false} JsBlankIffAllWhitespace(s: string)
    ensures JsBlank(s) <==> forall i :: 0 <= i < |s| ==> IsJsWhitespace(s[i])
  {
    var t := TrimStart(s, IsJsWhitespace);
    if !forall i :: 0 <= i < |s| ==> IsJsWhitespace(s[i]) {
      var k :| 0 <= k < |s| && !IsJsWhitespace(s[k]);
      assert |s| - |t| <= k;
      assert t[k - (|s| - |t|)] == s[k];
      var r := TrimEnd(t, IsJsWhitespace);
      assert k - (|s| - |t|) < |r|;
    }
  }

  /** Surrounding white space is what `trim` removes: padding both ends changes nothing. */
  lemma JsTrimPadding(s: string, pad: string)
    requires forall i :: 0 <= i < |pad| ==> IsJsWhitespace(pad[i])
    ensures JsTrim(pad + s + pad) == JsTrim(s)
  {
    TrimStartPadding(s + pad, pad, IsJsWhitespace);
    assert pad + s + pad == pad + (s + pad);
    TrimEndPadding(TrimStart(s, IsJsWhitespace), pad, IsJsWhitespace);
    TrimStartAppend(s, pad);
  }

  /** Trimming twice is trimming once. */
  lemma JsTrimIdempotent(s: string)
    ensures JsTrim(JsTrim(s)) == JsTrim(s)
  {
    var t := TrimStart(s, IsJsWhitespace);
    var r := TrimEnd(t, IsJsWhitespace);
    if r != [] {
      assert r[0] == t[0];
    }
  }

  lemma {:induction false} TrimStartPadding(s: string, pad: string, p: char -> bool)
    requires forall i :: 0 <= i < |pad| ==> p(pad[i])
    ensures TrimStart(pad + s, p) == TrimStart(s, p)
  {
    if pad != [] {
      assert (pad + s)[1..] == pad[1..] + s;
      TrimStartPadding(s, pad[1..], p);
    } else {
      assert pad + s == s;
    }
  }

  lemma {:induction false} TrimEndPadding(s: string, pad: string, p: char -> bool)
    requires forall i :: 0 <= i < |pad| ==> p(pad[i])
    ensures TrimEnd(s + pad, p) == TrimEnd(s, p)
  {
    if pad != [] {
      var init := pad[..|pad| - 1];
      assert (s + pad)[..|s + pad| - 1] == s + init;
      TrimEndPadding(s, init, p);
    } else {
      assert s + pad == s;
    }
  }

  /** Stripping the front of `s + pad` strips the front of `s`, unless all of `s` is white space. */
  lemma {:induction false} TrimStartAppend(s: string, pad: string)
    requires forall i :: 0 <= i < |pad| ==> IsJsWhitespace(pad[i])
    ensures TrimEnd(TrimStart(s + pad, IsJsWhitespace), IsJsWhitespace) ==
            TrimEnd(TrimStart(s, IsJsWhitespace) + pad, IsJsWhitespace)
  {
    if s != [] {
      assert (s + pad)[0] == s[0];
      assert (s + pad)[1..] == s[1..] + pad;
      if IsJsWhitespace(s[0]) {
        TrimStartAppend(s[1..], pad);
      }
    } else {
      assert s + pad == pad;
      TrimStartPadding([], pad, IsJsWhitespace);
      assert pad + [] == pad;
      TrimEndPadding([], pad, IsJsWhitespace);
    }
  }

  /** `String.contains` / `String.prototype.includes`: `t` occurs somewhere in `s`. */
  predicate Contains(s: string, t: string)
    decreases |s|
  {
    |t| <= |s| && (s[..|t|] == t || (s != [] && Contains(s[1..], t)))
  }

  lemma {:induction false} ContainsAt(s: string, t: string, i: nat)
    requires i + |t| <= |s| && s[i..i + |t|] == t
    ensures Contains(s, t)
    decreases i
  {
    if i > 0 {
      ContainsAt(s[1..], t, i - 1);
      assert s[1..][i - 1..i - 1 + |t|] == s[i..i + |t|];
    }
  }

  /** A string lacking the first character of `t` does not contain `t`. */
  lemma {:induction false} NotContainsWithoutFirstChar(s: string, t: string)
    requires t != [] && t[0] !in s
    ensures !Contains(s, t)
    decreases |s|
  {
    if s != [] && |t| <= |s| {
      assert s[..|t|][0] == s[0];
      NotContainsWithoutFirstChar(s[1..], t);
    }
  }

  /** Length as JavaScript counts it: UTF-16 code units, two for characters above U+FFFF. */
  function Utf16Length(s: string): (n: nat)
    ensures |s| <= n <= 2 * |s|
  {
    if s == [] then 0 else (if s[0] as int > 0xFFFF then 2 else 1) + Utf16Length(s[1..])
  }

  predicate IsDigit(c: char) { '0' <= c <= '9' }

  predicate AllDigits(s: string) {
    forall i :: 0 <= i < |s| ==> IsDigit(s[i])
  }

  function DigitChar(d: nat): (c: char)
    requires d < 10
    ensures IsDigit(c) && (c as int) - ('0' as int) == d
  {
    ['0', '1', '2', '3', '4', '5', '6', '7', '8', '9'][d]
  }

  /** Decimal digits of a natural number, without leading zeros. */
  function NatString(n: nat): (s: string)
    ensures s != [] && AllDigits(s)
    ensures |s| > 1 ==> s[0] != '0'
  {
    if n < 10 then [DigitChar(n)] else NatString(n / 10) + [DigitChar(n % 10)]
  }

  /** `String.valueOf(int)` in Java and `String(number)` for integers in JavaScript. */
  function DecimalString(n: int): (s: string)
    ensures s != [] && (n < 0 <==> s[0] == '-')
  {
    if n < 0 then "-" + NatString(-n) else NatString(n)
  }

  /** Value of a string of decimal digits. */
  function DigitsValue(s: string): nat
    requires AllDigits(s)
  {
    if s == [] then 0 else 10 * DigitsValue(s[..|s| - 1]) + ((s[|s| - 1] as int) - ('0' as int))
  }

  lemma {:induction false} NatStringRoundTrip(n: nat)
    ensures DigitsValue(NatString(n)) == n
  {
    if n >= 10 {
      NatStringRoundTrip(n / 10);
      var s := NatString(n);
      assert s[..|s| - 1] == NatString(n / 10);
    }
  }

  /** `DecimalString` reads back as its number: digits only when it is non-negative, otherwise a
      '-' followed by the digits of its magnitude. */
  lemma DecimalStringRoundTrip(n: int)
    ensures n >= 0 ==> AllDigits(DecimalString(n)) && DigitsValue(DecimalString(n)) == n
    ensures n < 0 ==> DecimalString(n)[0] == '-' && AllDigits(DecimalString(n)[1..]) &&
                      DigitsValue(DecimalString(n)[1..]) == -n
  {
    if n >= 0 {
      NatStringRoundTrip(n);
    } else {
      NatStringRoundTrip(-n);
      assert DecimalString(n)[1..] == NatString(-n);
    }
  }
}
