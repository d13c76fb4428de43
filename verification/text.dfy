/** Character and string helpers shared by the navigation shell and the pages:
    the case mappings the pages apply to role strings, the two character
    classes of the title-casing regular expression, the title-casing itself,
    and the decimal rendering of integers in labels. */
module Text {

  /** `c.toLowerCase()` on the ASCII range. */
  function Lower(c: char): char {
    if 'A' <= c <= 'Z' then (c as int + 32) as char else c
  }

  /** `c.toUpperCase()` on the ASCII range. */
  function Upper(c: char): char {
    if 'a' <= c <= 'z' then (c as int - 32) as char else c
  }

  predicate IsLowerCase(s: string) {
    forall i :: 0 <= i < |s| ==> Lower(s[i]) == s[i]
  }

  /** `s.toLowerCase()`: every character mapped by Lower, length kept. */
  function ToLower(s: string): (r: string)
    ensures |r| == |s|
    ensures IsLowerCase(r)
  {
    seq(|s|, i requires 0 <= i < |s| => Lower(s[i]))
  }

  lemma LowerCaseFixed(s: string)
    requires IsLowerCase(s)
    ensures ToLower(s) == s
  {
  }

  /** The class `\w` of a JavaScript regular expression without the `u` flag. */
  predicate IsWordChar(c: char) {
    ('a' <= c <= 'z') || ('A' <= c <= 'Z') || ('0' <= c <= '9') || c == '_'
  }

  /** The class `\s` of a JavaScript regular expression: the white-space and
      line-terminator code points of ECMAScript. */
  predicate IsSpace(c: char) {
    var n := c as int;
    (9 <= n <= 13) || n == 0x20 || n == 0xA0 || n == 0x1680
    || (0x2000 <= n <= 0x200A) || n == 0x2028 || n == 0x2029
    || n == 0x202F || n == 0x205F || n == 0x3000 || n == 0xFEFF
  }

  /** The global replace of the pattern `\w\S*` by the match with its first
      character upper-cased and the rest lower-cased.
      A match starts at the first word character met outside a match and runs,
      greedily, up to the next white-space character; `inWord` says whether
      the scan is inside a match. */
  function TitleCaseFrom(s: string, inWord: bool): (r: string)
    ensures |r| == |s|
  {
    if s == [] then []
    else if inWord then
      if IsSpace(s[0]) then [s[0]] + TitleCaseFrom(s[1..], false)
      else [Lower(s[0])] + TitleCaseFrom(s[1..], true)
    else if IsWordChar(s[0]) then [Upper(s[0])] + TitleCaseFrom(s[1..], true)
    else [s[0]] + TitleCaseFrom(s[1..], false)
  }

  function TitleCase(s: string): (r: string) {
    TitleCaseFrom(s, false)
  }

  /** Title-casing changes only letter case: lower-casing its result gives
      the lower-cased input back. */
  lemma {:induction false} TitleCaseOnlyChangesCase(s: string, inWord: bool)
    ensures |TitleCaseFrom(s, inWord)| == |s|
    ensures ToLower(TitleCaseFrom(s, inWord)) == ToLower(s)
  {
    if s != [] {
      TitleCaseOnlyChangesCase(s[1..], !IsSpace(s[0]) && (inWord || IsWordChar(s[0])));
      var r := TitleCaseFrom(s, inWord);
      assert Lower(r[0]) == Lower(s[0]);
      assert r[1..] == TitleCaseFrom(s[1..], !IsSpace(s[0]) && (inWord || IsWordChar(s[0])));
      forall i | 0 <= i < |s| ensures ToLower(r)[i] == ToLower(s)[i] {
        if i > 0 {
          assert ToLower(r)[i] == ToLower(r[1..])[i - 1];
          assert ToLower(s)[i] == ToLower(s[1..])[i - 1];
        }
      }
    }
  }

  /** Title-casing a title-cased string changes nothing. */
  lemma {:induction false} TitleCaseIdempotent(s: string, inWord: bool)
    ensures TitleCaseFrom(TitleCaseFrom(s, inWord), inWord) == TitleCaseFrom(s, inWord)
  {
    if s != [] {
      var r := TitleCaseFrom(s, inWord);
      var next := !IsSpace(s[0]) && (inWord || IsWordChar(s[0]));
      assert r[1..] == TitleCaseFrom(s[1..], next);
      assert IsSpace(r[0]) == IsSpace(s[0]);
      assert IsWordChar(r[0]) == IsWordChar(s[0]);
      TitleCaseIdempotent(s[1..], next);
    }
  }

  /** A single word (no white space) that starts with a word character comes
      out with its first character upper-cased and the rest lower-cased. */
  lemma {:induction false} TitleCaseWord(s: string)
    requires |s| > 0 && IsWordChar(s[0])
    requires forall i :: 0 <= i < |s| ==> !IsSpace(s[i])
    ensures TitleCase(s) == [Upper(s[0])] + ToLower(s[1..])
  {
    InWordLowers(s[1..]);
  }

  lemma {:induction false} InWordLowers(s: string)
    requires forall i :: 0 <= i < |s| ==> !IsSpace(s[i])
    ensures TitleCaseFrom(s, true) == ToLower(s)
  {
    if s != [] {
      InWordLowers(s[1..]);
      assert ToLower(s) == [Lower(s[0])] + ToLower(s[1..]);
    }
  }

  lemma TitleCaseRoleNames()
    ensures TitleCase("admin") == "Admin"
    ensures TitleCase("voter") == "Voter"
    ensures TitleCase("guest") == "Guest"
  {
    TitleCaseWord("admin");
    TitleCaseWord("voter");
    TitleCaseWord("guest");
  }

  predicate IsDigits(s: string) {
    forall i :: 0 <= i < |s| ==> '0' <= s[i] <= '9'
  }

  function DigitChar(d: nat): char
    requires d < 10
  {
    ('0' as int + d) as char
  }

  /** JavaScript's rendering of a non-negative integer number: its decimal
      digits, most significant first, without leading zeros. */
  function DecimalString(n: nat): (r: string)
    ensures |r| > 0 && IsDigits(r)
    ensures |r| > 1 ==> r[0] != '0'
  {
    if n < 10 then [DigitChar(n)] else DecimalString(n / 10) + [DigitChar(n % 10)]
  }

  /** The value of a string of decimal digits. */
  function DecimalValue(s: string): nat
    requires IsDigits(s)
  {
    if s == [] then 0 else DecimalValue(s[..|s| - 1]) * 10 + (s[|s| - 1] as int - '0' as int)
  }

  /** Reading back the rendered digits gives the number: the rendering loses nothing. */
  lemma {:induction false} DecimalRoundTrip(n: nat)
    ensures DecimalValue(DecimalString(n)) == n
  {
    if n >= 10 {
      DecimalRoundTrip(n / 10);
      var s := DecimalString(n);
      assert s[..|s| - 1] == DecimalString(n / 10);
    }
  }

  lemma DecimalInjective(a: nat, b: nat)
    requires DecimalString(a) == DecimalString(b)
    ensures a == b
  {
    DecimalRoundTrip(a);
    DecimalRoundTrip(b);
  }
}
