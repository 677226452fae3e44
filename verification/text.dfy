/**
 * The string rules the handlers rely on: JavaScript's whitespace class (`\s`, which is also
 * the set `String.prototype.trim` removes), ASCII lower-casing, trimming, the email pattern
 * of the registration handler, case-insensitive containment and decimal rendering of numbers.
 */
module Text {
  import opened Wrappers

  /** JavaScript falsiness of an optional string field: absent, `null` or empty. */
  predicate Missing(v: Option<string>) {
    v.None? || v.value == ""
  }

  /** JavaScript's `\s`: the WhiteSpace and LineTerminator code points of ECMAScript. */
  predicate IsSpace(c: char) {
    || c == '\t' || c == '\n' || c == '\U{000B}' || c == '\U{000C}' || c == '\r' || c == ' '
    || c == '\U{00A0}' || c == '\U{1680}' || ('\U{2000}' <= c <= '\U{200A}')
    || c == '\U{2028}' || c == '\U{2029}' || c == '\U{202F}' || c == '\U{205F}'
    || c == '\U{3000}' || c == '\U{FEFF}'
  }

  predicate IsUpperAscii(c: char) {
    'A' <= c <= 'Z'
  }

  /** `toLowerCase` restricted to ASCII: upper-case Latin letters map to lower case, the rest is kept. */
  function LowerChar(c: char): (d: char)
    ensures !IsUpperAscii(d)
    ensures IsUpperAscii(c) ==> d as int == c as int + 32
    ensures !IsUpperAscii(c) ==> d == c
  {
    if IsUpperAscii(c) then (c as int + 32) as char else c
  }

  /** `toLowerCase` on ASCII: each upper-case letter becomes its lower-case partner, every other
      character stays. */
  function Lower(s: string): (r: string)
    ensures |r| == |s|
    ensures forall i :: 0 <= i < |s| ==> !IsUpperAscii(r[i])
    ensures forall i :: 0 <= i < |s| && !IsUpperAscii(s[i]) ==> r[i] == s[i]
    ensures forall i :: 0 <= i < |s| && IsUpperAscii(s[i]) ==> r[i] as int == s[i] as int + 32
  {
    seq(|s|, i requires 0 <= i < |s| => LowerChar(s[i]))
  }

  /** A string with no upper-case ASCII letter, the form every stored email is kept in. */
  ghost predicate IsLower(s: string) {
    forall i :: 0 <= i < |s| ==> !IsUpperAscii(s[i])
  }

  /** Lower-casing a string that is already lower case changes nothing. */
  lemma LowerOfLower(s: string)
    requires IsLower(s)
    ensures Lower(s) == s
  {
  }

  /** `trimStart`: drops the leading whitespace and nothing else. */
  function TrimStart(s: string): (r: string)
    ensures |r| <= |s| && r == s[|s| - |r|..]
    ensures r == [] || !IsSpace(r[0])
    ensures forall i :: 0 <= i < |s| - |r| ==> IsSpace(s[i])
    decreases |s|
  {
    if s != [] && IsSpace(s[0]) then TrimStart(s[1..]) else s
  }

  /** `trimEnd`: drops the trailing whitespace and nothing else. */
  function TrimEnd(s: string): (r: string)
    ensures |r| <= |s| && r == s[..|r|]
    ensures r == [] || !IsSpace(r[|r| - 1])
    ensures forall i :: |r| <= i < |s| ==> IsSpace(s[i])
    decreases |s|
  {
    if s != [] && IsSpace(s[|s| - 1]) then TrimEnd(s[..|s| - 1]) else s
  }

  /** How many leading characters `trimStart` removes. */
  function LeadingSpaces(s: string): nat {
    |s| - |TrimStart(s)|
  }

  ghost predicate AllSpace(s: string) {
    forall i :: 0 <= i < |s| ==> IsSpace(s[i])
  }

  /** A suffix `t` of `s` behind whitespace, then a prefix `r` of `t` before whitespace: `r` sits
      in `s` between the two runs of whitespace. */
  lemma TrimParts(s: string, t: string, r: string)
    requires |t| <= |s| && t == s[|s| - |t|..] && forall i :: 0 <= i < |s| - |t| ==> IsSpace(s[i])
    requires |r| <= |t| && r == t[..|r|] && forall i :: |r| <= i < |t| ==> IsSpace(t[i])
    ensures r == s[|s| - |t|..|s| - |t| + |r|]
    ensures AllSpace(s[..|s| - |t|]) && AllSpace(s[|s| - |t| + |r|..])
  {
    var tail := s[|s| - |t| + |r|..];
    forall i | 0 <= i < |tail| ensures IsSpace(tail[i]) {
      assert tail[i] == t[|r| + i];
    }
  }

  /**
   * `trim`: `s` is whitespace, then `r`, then whitespace, and `r` neither starts nor ends with
   * whitespace.
   */
  function Trim(s: string): (r: string)
    ensures LeadingSpaces(s) + |r| <= |s| && r == s[LeadingSpaces(s)..LeadingSpaces(s) + |r|]
    ensures AllSpace(s[..LeadingSpaces(s)]) && AllSpace(s[LeadingSpaces(s) + |r|..])
    ensures r == [] || (!IsSpace(r[0]) && !IsSpace(r[|r| - 1]))
  {
    var t := TrimStart(s);
    var r := TrimEnd(t);
    TrimParts(s, t, r);
    r
  }

  lemma {:induction false} TrimStartOfSpaces(s: string)
    requires AllSpace(s)
    ensures TrimStart(s) == []
    decreases |s|
  {
    if s != [] {
      TrimStartOfSpaces(s[1..]);
    }
  }

  /** `s.trim().length === 0` holds exactly for the strings made only of whitespace. */
  lemma TrimEmptyIffAllSpace(s: string)
    ensures Trim(s) == [] <==> AllSpace(s)
  {
    if AllSpace(s) {
      TrimStartOfSpaces(s);
    }
  }

  /** A string with neither whitespace nor `@`: the class `[^\s@]` repeated. */
  predicate NoSpaceOrAt(s: string) {
    forall i :: 0 <= i < |s| ==> s[i] != '@' && !IsSpace(s[i])
  }

  /**
   * The registration pattern `^[^\s@]+@[^\s@]+\.[^\s@]+$`: a non-empty local part, `@`, then a
   * domain with no `@` or whitespace that has a `.` with at least one character on each side.
   * `at` is the position of the `@`, `dot` the position of the `.` that the pattern's `\.` matches.
   */
  predicate IsEmailShape(s: string): (b: bool)
    ensures b ==> |s| >= 5 && s[0] != '@' && s[|s| - 1] != '@'
    ensures b ==> forall i :: 0 <= i < |s| ==> !IsSpace(s[i])
  {
    exists at, dot :: 0 < at && at + 1 < dot && dot + 1 < |s| && s[at] == '@' && s[dot] == '.' &&
      NoSpaceOrAt(s[..at]) && NoSpaceOrAt(s[at + 1..dot]) && NoSpaceOrAt(s[dot + 1..])
  }

  /** The pattern on sample addresses: a plain address passes; a domain without a dot, a missing
      local part and an embedded space all fail. */
  lemma EmailShapeExamples()
    ensures IsEmailShape("a@b.com")
    ensures !IsEmailShape("a@bcom")
    ensures !IsEmailShape("@b.com")
    ensures !IsEmailShape("a b@c.d")
  {
    var plain := "a@b.com";
    assert plain[1] == '@' && plain[3] == '.';
    assert NoSpaceOrAt(plain[..1]) && NoSpaceOrAt(plain[2..3]) && NoSpaceOrAt(plain[4..]);
    var noDot := "a@bcom";
    forall at, dot | 0 < at && at + 1 < dot && dot + 1 < |noDot| && noDot[at] == '@'
      ensures noDot[dot] != '.'
    {
    }
    var spaced := "a b@c.d";
    forall at, dot | 0 < at && at + 1 < dot && dot + 1 < |spaced| && spaced[at] == '@' && spaced[dot] == '.'
      ensures !NoSpaceOrAt(spaced[..at])
    {
      assert at == 3 && spaced[..at][1] == ' ';
    }
  }

  /** `pattern` occurs in `text` as a contiguous run. */
  predicate IsInfix(pattern: string, text: string) {
    exists k | 0 <= k <= |text| - |pattern| :: OccursAt(pattern, text, k)
  }

  predicate OccursAt(pattern: string, text: string, k: int) {
    0 <= k <= |text| - |pattern| && text[k..k + |pattern|] == pattern
  }

  /** A `contains` filter with `mode: "insensitive"`, case folded over ASCII. */
  predicate ContainsInsensitive(text: string, pattern: string) {
    IsInfix(Lower(pattern), Lower(text))
  }

  predicate IsDigit(c: char) {
    '0' <= c <= '9'
  }

  function DigitChar(d: nat): (c: char)
    requires d < 10
    ensures IsDigit(c) && c as int - '0' as int == d
  {
    (d + '0' as int) as char
  }

  /** The decimal digits of `n`, most significant first, without leading zeros. */
  function NatToDecimal(n: nat): (r: string)
    ensures r != [] && forall i :: 0 <= i < |r| ==> IsDigit(r[i])
    ensures |r| > 1 ==> r[0] != '0'
  {
    if n < 10 then [DigitChar(n)] else NatToDecimal(n / 10) + [DigitChar(n % 10)]
  }

  /** `Number.prototype.toString()` on an integer. */
  function IntToDecimal(i: int): string {
    if i < 0 then "-" + NatToDecimal(-i) else NatToDecimal(i)
  }

  function DigitValue(c: char): nat
    requires IsDigit(c)
  {
    c as int - '0' as int
  }

  /** The number a string of decimal digits denotes. */
  function DecimalValue(s: string): nat
    requires forall i :: 0 <= i < |s| ==> IsDigit(s[i])
  {
    if s == [] then 0 else DecimalValue(s[..|s| - 1]) * 10 + DigitValue(s[|s| - 1])
  }

  /** Rendering a number in decimal loses nothing: reading the digits back gives the number. */
  lemma {:induction false} DecimalRoundTrip(n: nat)
    ensures DecimalValue(NatToDecimal(n)) == n
  {
    if n >= 10 {
      var r := NatToDecimal(n);
      assert r[..|r| - 1] == NatToDecimal(n / 10);
      DecimalRoundTrip(n / 10);
    }
  }
}
