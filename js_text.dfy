/**
 * The JavaScript string behaviour the pages and controllers depend on:
 * `\s` and `trim()`, ASCII `toLowerCase()`, `includes`, `split`, the
 * validation regexes, `isNaN` on a string and `String(n)` for integers.
 * Strings are sequences of Unicode scalar values.
 */
module JsText {

  /** ECMAScript WhiteSpace and LineTerminator: the characters `\s` matches and `trim()` removes. */
  predicate IsWhiteSpace(c: char) {
    || c == '\t' || c == '\n' || c == '\U{000B}' || c == '\U{000C}' || c == '\r' || c == ' '
    || c == '\U{00A0}' || c == '\U{1680}' || ('\U{2000}' <= c <= '\U{200A}')
    || c == '\U{2028}' || c == '\U{2029}' || c == '\U{202F}' || c == '\U{205F}'
    || c == '\U{3000}' || c == '\U{FEFF}'
  }

  predicate NoWhiteSpace(s: string) {
    forall i :: 0 <= i < |s| ==> !IsWhiteSpace(s[i])
  }

  predicate AllWhiteSpace(s: string) {
    forall i :: 0 <= i < |s| ==> IsWhiteSpace(s[i])
  }

  /** Leading white space removed: the result is a suffix of `s`. */
  function TrimStart(s: string): (r: string)
    ensures |r| <= |s| && r == s[|s| - |r|..]
    ensures r == [] || !IsWhiteSpace(r[0])
    ensures AllWhiteSpace(s[..|s| - |r|])
  {
    if s != [] && IsWhiteSpace(s[0]) then
      var r := TrimStart(s[1..]);
      assert s[1..][..|s| - 1 - |r|] == s[1..|s| - |r|];
      r
    else s
  }

  /** Trailing white space removed: the result is a prefix of `s`. */
  function TrimEnd(s: string): (r: string)
    ensures |r| <= |s| && r == s[..|r|]
    ensures r == [] || !IsWhiteSpace(r[|r| - 1])
    ensures AllWhiteSpace(s[|r|..])
  {
    if s != [] && IsWhiteSpace(s[|s| - 1]) then
      var r := TrimEnd(s[..|s| - 1]);
      assert s[..|s| - 1][|r|..] + [s[|s| - 1]] == s[|r|..];
      r
    else s
  }

  /** `s.trim()`. */
  function Trim(s: string): string {
    TrimEnd(TrimStart(s))
  }

  /** `!s.trim()`: nothing is left once the string is trimmed. */
  predicate IsBlank(s: string) {
    Trim(s) == []
  }

  /** A string is blank exactly when every character of it is white space. */
  lemma {:induction false} BlankIffAllWhiteSpace(s: string)
    ensures IsBlank(s) <==> AllWhiteSpace(s)
  {
    var t := TrimStart(s);
    if IsBlank(s) {
      assert AllWhiteSpace(t[0..]);
      assert s == s[..|s| - |t|] + t;
    }
  }

  /** A string with a character that is not white space is not blank. */
  lemma NotBlankWhenSomeNonSpace(s: string, i: int)
    requires 0 <= i < |s| && !IsWhiteSpace(s[i])
    ensures !IsBlank(s)
  {
    BlankIffAllWhiteSpace(s);
  }

  /** ASCII `toLowerCase()` of one character. */
  function LowerChar(c: char): char {
    if 'A' <= c <= 'Z' then (c as int + 32) as char else c
  }

  /** `s.toLowerCase()`, on the ASCII letters. */
  function ToLower(s: string): (r: string)
    ensures |r| == |s|
    ensures forall i :: 0 <= i < |s| ==> r[i] == LowerChar(s[i])
  {
    seq(|s|, i requires 0 <= i < |s| => LowerChar(s[i]))
  }

  /** Lower-casing commutes with concatenation. */
  lemma ToLowerAppend(a: string, b: string)
    ensures ToLower(a + b) == ToLower(a) + ToLower(b)
  {
  }

  /** Lower-casing is idempotent. */
  lemma ToLowerIdempotent(s: string)
    ensures ToLower(ToLower(s)) == ToLower(s)
  {
  }

  /** `needle` occurs in `hay` starting at index `i`. */
  predicate OccursAt(hay: string, needle: string, i: int) {
    0 <= i <= |hay| - |needle| && hay[i..i + |needle|] == needle
  }

  /** `hay.includes(needle)`: `needle` occurs at some position of `hay`. */
  predicate Includes(hay: string, needle: string) {
    exists i :: 0 <= i <= |hay| && OccursAt(hay, needle, i)
  }

  /** Every string includes the empty string. */
  lemma IncludesEmpty(hay: string)
    ensures Includes(hay, "")
  {
    assert OccursAt(hay, "", 0);
  }

  /** Every string includes itself. */
  lemma IncludesSelf(s: string)
    ensures Includes(s, s)
  {
    assert OccursAt(s, s, 0);
  }

  /** A string found in one part of a concatenation is found in the whole. */
  lemma IncludesInLeft(a: string, b: string, needle: string)
    requires Includes(a, needle)
    ensures Includes(a + b, needle)
  {
    var i :| 0 <= i <= |a| && OccursAt(a, needle, i);
    assert (a + b)[i..i + |needle|] == a[i..i + |needle|];
    assert OccursAt(a + b, needle, i);
  }

  lemma IncludesInRight(a: string, b: string, needle: string)
    requires Includes(b, needle)
    ensures Includes(a + b, needle)
  {
    var i :| 0 <= i <= |b| && OccursAt(b, needle, i);
    assert (a + b)[|a| + i..|a| + i + |needle|] == b[i..i + |needle|];
    assert OccursAt(a + b, needle, |a| + i);
  }

  /** `\d` without the `u` flag: an ASCII digit. */
  predicate IsDigit(c: char) {
    '0' <= c <= '9'
  }

  predicate AllDigits(s: string) {
    forall i :: 0 <= i < |s| ==> IsDigit(s[i])
  }

  /** `[A-Z]`. */
  predicate IsUpper(c: char) {
    'A' <= c <= 'Z'
  }

  /** `/[A-Z]/.test(s)`. */
  predicate HasUpper(s: string) {
    exists i :: 0 <= i < |s| && IsUpper(s[i])
  }

  /** `/\d/.test(s)`. */
  predicate HasDigit(s: string) {
    exists i :: 0 <= i < |s| && IsDigit(s[i])
  }

  /** `/^\d{10}$/.test(s)`: exactly ten ASCII digits and nothing else. */
  predicate IsTenDigits(s: string) {
    |s| == 10 && AllDigits(s)
  }

  /**
   * `/\S+@\S+\.\S+/.test(s)`. The pattern is not anchored, and each `\S+`
   * may shrink to one character, so it matches exactly when some '@' has a
   * non-space character before it and is followed by non-space characters
   * running up to a '.' (at least one between them) and one more after it.
   */
  predicate IsEmailLike(s: string) {
    exists at, dot :: 0 < at < dot < |s| && EmailMatchAt(s, at, dot)
  }

  /** The pattern matches with its '@' at `at` and its '.' at `dot`. */
  predicate EmailMatchAt(s: string, at: int, dot: int) {
    && 1 <= at && at + 1 < dot && dot + 1 < |s|
    && s[at] == '@' && s[dot] == '.' && !IsWhiteSpace(s[at - 1])
    && NoWhiteSpace(s[at + 1..dot + 2])
  }

  /** Whatever passes the e-mail test is not blank, so the "required" branch never hides it. */
  lemma EmailLikeIsNotBlank(s: string)
    ensures IsEmailLike(s) ==> !IsBlank(s)
  {
    if IsEmailLike(s) {
      var at, dot :| 0 < at < dot < |s| && EmailMatchAt(s, at, dot);
      NotBlankWhenSomeNonSpace(s, at - 1);
    }
  }

  /** A string with an upper-case letter is not blank. */
  lemma UpperIsNotBlank(s: string)
    ensures HasUpper(s) ==> !IsBlank(s)
  {
    if HasUpper(s) {
      var i :| 0 <= i < |s| && IsUpper(s[i]);
      NotBlankWhenSomeNonSpace(s, i);
    }
  }

  /** Ten digits are never blank. */
  lemma TenDigitsIsNotBlank(s: string)
    ensures IsTenDigits(s) ==> !IsBlank(s)
  {
    if IsTenDigits(s) {
      NotBlankWhenSomeNonSpace(s, 0);
    }
  }

  /** The index of the first `c` in `s`, or `|s|` when there is none (`indexOf` with -1 read as the length). */
  function IndexOf(s: string, c: char): (k: nat)
    ensures k <= |s|
    ensures k < |s| ==> s[k] == c
    ensures forall i :: 0 <= i < k ==> s[i] != c
  {
    if s == [] then 0
    else if s[0] == c then 0
    else 1 + IndexOf(s[1..], c)
  }

  /** `s.split(sep)` for a one-character separator. */
  function Split(s: string, sep: char): (parts: seq<string>)
    ensures |parts| >= 1
    ensures forall p :: p in parts ==> sep !in p
    decreases |s|
  {
    var k := IndexOf(s, sep);
    if k == |s| then
      assert sep !in s;
      [s]
    else
      assert sep !in s[..k];
      [s[..k]] + Split(s[k + 1..], sep)
  }

  /** `parts.join(sep)`. */
  function Join(parts: seq<string>, sep: char): string {
    if parts == [] then ""
    else if |parts| == 1 then parts[0]
    else parts[0] + [sep] + Join(parts[1..], sep)
  }

  /** Splitting and joining again on the same separator gives back the string. */
  lemma {:induction false} JoinSplit(s: string, sep: char)
    ensures Join(Split(s, sep), sep) == s
    decreases |s|
  {
    var k := IndexOf(s, sep);
    if k < |s| {
      var tail := Split(s[k + 1..], sep);
      var parts := Split(s, sep);
      assert parts == [s[..k]] + tail;
      assert parts[0] == s[..k] && parts[1..] == tail && |parts| >= 2;
      JoinSplit(s[k + 1..], sep);
      assert Join(parts, sep) == s[..k] + [sep] + s[k + 1..];
      assert s == s[..k] + [sep] + s[k + 1..];
    }
  }

  predicate IsHexDigit(c: char) {
    IsDigit(c) || 'a' <= c <= 'f' || 'A' <= c <= 'F'
  }

  /** The index of the first 'e' or 'E', or `|s|`. */
  function IndexOfExponent(s: string): (k: nat)
    ensures k <= |s|
    ensures k < |s| ==> s[k] == 'e' || s[k] == 'E'
  {
    var lower := IndexOf(s, 'e');
    var upper := IndexOf(s, 'E');
    if lower < upper then lower else upper
  }

  /** StrUnsignedDecimalLiteral without "Infinity" and the exponent: digits with at most one '.', at least one digit. */
  predicate IsDecimalMantissa(m: string) {
    var d := IndexOf(m, '.');
    if d == |m| then m != [] && AllDigits(m)
    else |m| > 1 && AllDigits(m[..d]) && AllDigits(m[d + 1..])
  }

  /** What follows the 'e' of an ExponentPart: an optional sign and at least one digit. */
  predicate IsExponentDigits(x: string) {
    if x != [] && (x[0] == '+' || x[0] == '-') then |x| > 1 && AllDigits(x[1..])
    else x != [] && AllDigits(x)
  }

  predicate IsUnsignedDecimal(u: string) {
    || u == "Infinity"
    || (var e := IndexOfExponent(u);
        IsDecimalMantissa(u[..e]) && (e == |u| || IsExponentDigits(u[e + 1..])))
  }

  /** StrDecimalLiteral: an optional sign before an unsigned decimal. */
  predicate IsDecimalLiteral(t: string) {
    if t != [] && (t[0] == '+' || t[0] == '-') then IsUnsignedDecimal(t[1..])
    else IsUnsignedDecimal(t)
  }

  /** NonDecimalIntegerLiteral: `0x`, `0o` or `0b` (either case) and at least one digit of that base. */
  predicate IsNonDecimalInteger(t: string) {
    && |t| > 2 && t[0] == '0'
    && (|| ((t[1] == 'x' || t[1] == 'X') && forall i :: 2 <= i < |t| ==> IsHexDigit(t[i]))
        || ((t[1] == 'o' || t[1] == 'O') && forall i :: 2 <= i < |t| ==> '0' <= t[i] <= '7')
        || ((t[1] == 'b' || t[1] == 'B') && forall i :: 2 <= i < |t| ==> t[i] == '0' || t[i] == '1'))
  }

  /**
   * `!isNaN(s)` for a string: `Number(s)` is a number. Surrounding white
   * space is ignored and an empty or all-white-space string reads as 0.
   */
  predicate IsNumericString(s: string) {
    var t := Trim(s);
    t == [] || IsDecimalLiteral(t) || IsNonDecimalInteger(t)
  }

  /** A string that neither starts nor ends with white space is its own trim. */
  lemma TrimOfTight(s: string)
    requires s != [] ==> !IsWhiteSpace(s[0]) && !IsWhiteSpace(s[|s| - 1])
    ensures Trim(s) == s
  {
  }

  /** A non-empty run of digits is an unsigned decimal literal. */
  lemma DigitsAreUnsignedDecimal(d: string)
    requires d != [] && AllDigits(d)
    ensures IsUnsignedDecimal(d)
  {
    assert IndexOf(d, 'e') == |d| && IndexOf(d, 'E') == |d| && IndexOf(d, '.') == |d|;
    assert d[..|d|] == d;
  }

  /** A non-empty run of digits is numeric. */
  lemma DigitsAreNumeric(s: string)
    requires s != [] && AllDigits(s)
    ensures IsNumericString(s)
  {
    assert !IsWhiteSpace(s[0]) && !IsWhiteSpace(s[|s| - 1]);
    TrimOfTight(s);
    DigitsAreUnsignedDecimal(s);
  }

  function DigitChar(d: nat): (c: char)
    requires d < 10
    ensures IsDigit(c)
  {
    ('0' as int + d) as char
  }

  /** The decimal digits of `n`, most significant first. */
  function NatToString(n: nat): (r: string)
    ensures r != [] && AllDigits(r)
  {
    if n < 10 then [DigitChar(n)] else NatToString(n / 10) + [DigitChar(n % 10)]
  }

  /** `String(n)` for an integer (below 10^21 in magnitude, where JavaScript switches to exponent notation). */
  function IntToString(n: int): string {
    if n < 0 then "-" + NatToString(-n) else NatToString(n)
  }

  /** The value of a string of decimal digits. */
  function DigitsValue(s: string): nat
    requires AllDigits(s)
  {
    if s == [] then 0 else 10 * DigitsValue(s[..|s| - 1]) + (s[|s| - 1] as int - '0' as int)
  }

  /** Printing a natural number and reading its digits back gives the number. */
  lemma {:induction false} NatToStringRoundTrip(n: nat)
    ensures DigitsValue(NatToString(n)) == n
  {
    if n >= 10 {
      NatToStringRoundTrip(n / 10);
      var r := NatToString(n);
      assert r[..|r| - 1] == NatToString(n / 10);
    }
  }

  /** Every printed integer passes the `isNaN` test. */
  lemma IntToStringIsNumeric(n: int)
    ensures IsNumericString(IntToString(n))
  {
    if n < 0 {
      var d := NatToString(-n);
      var s := "-" + d;
      assert !IsWhiteSpace(s[0]) && !IsWhiteSpace(s[|s| - 1]);
      TrimOfTight(s);
      assert s[1..] == d;
      DigitsAreUnsignedDecimal(d);
    } else {
      DigitsAreNumeric(NatToString(n));
    }
  }
}
