/** Character classes and string operations of the JavaScript runtime that
    the stores and adapters rely on, restricted to what they need. */
module Text {

  /** What JavaScript's `\s` and `String.prototype.trim` treat as white
      space: the WhiteSpace and LineTerminator code points. */
  predicate IsWhitespace(c: char) {
    || c == ' ' || c == '\t' || c == '\n' || c == '\r'
    || c == '\U{B}' || c == '\U{C}' || c == '\U{A0}' || c == '\U{1680}'
    || ('\U{2000}' <= c <= '\U{200A}')
    || c == '\U{2028}' || c == '\U{2029}' || c == '\U{202F}' || c == '\U{205F}'
    || c == '\U{3000}' || c == '\U{FEFF}'
  }

  predicate IsAsciiLower(c: char) { 'a' <= c <= 'z' }

  predicate IsAsciiUpper(c: char) { 'A' <= c <= 'Z' }

  /** Upper-casing of one character, on the ASCII letters. */
  function ToUpperAscii(c: char): (u: char)
    ensures IsAsciiLower(c) ==> IsAsciiUpper(u) && u != c
    ensures !IsAsciiLower(c) ==> u == c
  {
    if IsAsciiLower(c) then (c as int - 'a' as int + 'A' as int) as char else c
  }

  /** Lower-casing of one character, on the ASCII letters. */
  function ToLowerAscii(c: char): (l: char)
    ensures IsAsciiUpper(c) ==> IsAsciiLower(l) && l != c
    ensures !IsAsciiUpper(c) ==> l == c
  {
    if IsAsciiUpper(c) then (c as int - 'A' as int + 'a' as int) as char else c
  }

  /** `s.toLowerCase()`, on the ASCII letters. */
  function LowerCase(s: string): string {
    seq(|s|, i requires 0 <= i < |s| => ToLowerAscii(s[i]))
  }

  /** Drops the leading characters that satisfy `p`. */
  function DropLeading(s: string, p: char -> bool): (r: string)
    ensures |r| <= |s| && r == s[|s| - |r|..]
    ensures forall i :: 0 <= i < |s| - |r| ==> p(s[i])
    ensures r != [] ==> !p(r[0])
  {
    if s != [] && p(s[0]) then DropLeading(s[1..], p) else s
  }

  /** Drops the trailing characters that satisfy `p`. */
  function DropTrailing(s: string, p: char -> bool): (r: string)
    ensures |r| <= |s| && r == s[..|r|]
    ensures forall i :: |r| <= i < |s| ==> p(s[i])
    ensures r != [] ==> !p(r[|r| - 1])
  {
    if s != [] && p(s[|s| - 1]) then DropTrailing(s[..|s| - 1], p) else s
  }

  /** `s.trim()`: drops the white space at both ends. */
  function Trim(s: string): (r: string)
    ensures |r| <= |s|
    ensures r != [] ==> !IsWhitespace(r[0]) && !IsWhitespace(r[|r| - 1])
  {
    var t := DropLeading(s, IsWhitespace);
    var r := DropTrailing(t, IsWhitespace);
    assert r != [] ==> r[0] == t[0];
    r
  }

  /** What `Trim` drops is white space: the result is the infix of `s` at
      `k` between a white-space prefix and a white-space suffix. */
  lemma TrimSpec(s: string) returns (k: nat)
    ensures k + |Trim(s)| <= |s| && Trim(s) == s[k..k + |Trim(s)|]
    ensures forall i :: 0 <= i < k ==> IsWhitespace(s[i])
    ensures forall i :: k + |Trim(s)| <= i < |s| ==> IsWhitespace(s[i])
  {
    var t := DropLeading(s, IsWhitespace);
    var r := DropTrailing(t, IsWhitespace);
    k := |s| - |t|;
    assert r == Trim(s);
    assert t == s[k..] && r == t[..|r|];
    assert r == s[k..k + |r|] by {
      forall j | 0 <= j < |r|
        ensures r[j] == s[k + j]
      {
        assert r[j] == t[j];
      }
    }
    forall i | k + |r| <= i < |s|
      ensures IsWhitespace(s[i])
    {
      assert s[i] == t[i - k];
    }
  }

  /** Text without ASCII capitals is its own lower-case form. */
  lemma LowerCaseUnchanged(s: string)
    requires forall i :: 0 <= i < |s| ==> !IsAsciiUpper(s[i])
    ensures LowerCase(s) == s
  {
  }

  /** Lower-casing leaves no ASCII capital, keeps every other character in
      place, and is idempotent; so comparing lower-cased emails is an
      equivalence that ignores exactly the case of ASCII letters. */
  lemma LowerCaseNormalises(s: string)
    ensures |LowerCase(s)| == |s|
    ensures forall i :: 0 <= i < |s| ==> !IsAsciiUpper(LowerCase(s)[i])
    ensures forall i :: 0 <= i < |s| && !IsAsciiUpper(s[i]) ==> LowerCase(s)[i] == s[i]
    ensures LowerCase(LowerCase(s)) == LowerCase(s)
  {
    LowerCaseUnchanged(LowerCase(s));
  }

  /** Text that neither starts nor ends with white space is its own trim. */
  lemma TrimUnchanged(s: string)
    requires s != [] ==> !IsWhitespace(s[0]) && !IsWhitespace(s[|s| - 1])
    ensures Trim(s) == s
  {
    assert DropLeading(s, IsWhitespace) == s;
  }

  /** JavaScript's `a < b` on two strings: lexicographic order on the
      characters, a proper prefix coming first. JavaScript compares UTF-16
      code units, which orders characters above U+FFFF differently; on the
      digit strings used as ids the two orders agree. */
  predicate LexLess(a: string, b: string) {
    if b == [] then false
    else if a == [] then true
    else if a[0] != b[0] then a[0] < b[0]
    else LexLess(a[1..], b[1..])
  }

  /** JavaScript's `a <= b` on two strings, which is `!(b < a)`. */
  predicate LexLe(a: string, b: string) {
    !LexLess(b, a)
  }

  /** Comparing a non-empty string with the one-character string "3":
      it is at most "3" exactly when it starts below '3' or is "3" itself.
      So "10" and "29" are at most "3", while "4" and "30" are not. */
  lemma LexLeThree(s: string)
    requires s != []
    ensures LexLe(s, "3") <==> s[0] < '3' || s == "3"
  {
    if s[0] == '3' && |s| > 1 {
      assert LexLess("3"[1..], s[1..]);
    }
  }

  predicate IsDigit(c: char) { '0' <= c <= '9' }

  /** A non-empty string of decimal digits. */
  predicate IsNumeral(s: string) {
    s != [] && forall i :: 0 <= i < |s| ==> IsDigit(s[i])
  }

  function DigitValue(c: char): nat
    requires IsDigit(c)
  {
    c as int - '0' as int
  }

  function DigitChar(d: nat): (c: char)
    requires d < 10
    ensures IsDigit(c) && DigitValue(c) == d
  {
    ('0' as int + d) as char
  }

  /** `parseInt(s)` on a string of decimal digits. */
  function DecimalValue(s: string): nat
    requires IsNumeral(s)
  {
    if |s| == 1 then DigitValue(s[0])
    else DecimalValue(s[..|s| - 1]) * 10 + DigitValue(s[|s| - 1])
  }

  /** `n.toString()` for a natural number. */
  function NatToDecimal(n: nat): (s: string)
    ensures IsNumeral(s)
  {
    if n < 10 then [DigitChar(n)] else NatToDecimal(n / 10) + [DigitChar(n % 10)]
  }

  /** Reading back what `toString` writes gives the number again. */
  lemma {:induction false} DecimalRoundTrip(n: nat)
    ensures DecimalValue(NatToDecimal(n)) == n
  {
    if n >= 10 {
      var t := NatToDecimal(n / 10);
      var s := t + [DigitChar(n % 10)];
      assert s[..|s| - 1] == t;
      DecimalRoundTrip(n / 10);
    }
  }
}
