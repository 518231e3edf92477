/** Character classes and the JavaScript string built-ins the core relies on:
    `trim`, `toLowerCase` (ASCII letters only), `Array.prototype.join` and the
    decimal rendering of a counter inside a template literal. */
module Text {

  /** JavaScript's `\s` class, which is also the set `String.prototype.trim` removes:
      the Unicode white-space characters and the four line terminators. */
  predicate IsSpace(c: char) {
    c == ' ' || c == '\t' || c == '\n' || c == '\U{000B}' || c == '\U{000C}' || c == '\r'
    || c == '\U{00A0}' || c == '\U{1680}' || ('\U{2000}' <= c <= '\U{200A}')
    || c == '\U{2028}' || c == '\U{2029}' || c == '\U{202F}' || c == '\U{205F}'
    || c == '\U{3000}' || c == '\U{FEFF}'
  }

  /** JavaScript's `\d` class. */
  predicate IsDigit(c: char) {
    '0' <= c <= '9'
  }

  predicate IsUpper(c: char) {
    'A' <= c <= 'Z'
  }

  /** `[\s-]`, the class the match-key passes strip from the end of a key. */
  predicate IsSpaceOrDash(c: char) {
    IsSpace(c) || c == '-'
  }

  /** Maps `A`..`Z` onto `a`..`z` (32 code points higher) and keeps every other character. */
  function LowerChar(c: char): (r: char)
    ensures !IsUpper(r)
    ensures IsUpper(c) ==> r as int == c as int + 32 && 'a' <= r <= 'z'
    ensures !IsUpper(c) ==> r == c
  {
    if IsUpper(c) then (c as int + 32) as char else c
  }

  /** `toLowerCase`, restricted to the ASCII letters. */
  function ToLower(s: string): (r: string)
    ensures |r| == |s|
    ensures forall i :: 0 <= i < |r| ==> !IsUpper(r[i])
    ensures forall i :: 0 <= i < |r| && !IsUpper(s[i]) ==> r[i] == s[i]
    ensures forall i :: 0 <= i < |r| ==> r[i] == LowerChar(s[i])
  {
    seq(|s|, i requires 0 <= i < |s| => LowerChar(s[i]))
  }

  /** No white-space character sits directly next to another one. */
  ghost predicate NoAdjacentSpaces(s: string) {
    forall i :: 0 <= i < |s| - 1 && IsSpace(s[i]) ==> !IsSpace(s[i + 1])
  }

  /** Neither the first nor the last character is white space. */
  ghost predicate Trimmed(s: string) {
    s == [] || (!IsSpace(s[0]) && !IsSpace(s[|s| - 1]))
  }

  /** `trimEnd`: drops the trailing white space. */
  function TrimEnd(s: string): string {
    if s != [] && IsSpace(s[|s| - 1]) then TrimEnd(s[..|s| - 1]) else s
  }

  /** `trimStart`: drops the leading white space. */
  function TrimStart(s: string): string {
    if s != [] && IsSpace(s[0]) then TrimStart(s[1..]) else s
  }

  // The facts about the three trimming functions are lemmas rather than
  // postconditions: every trimmed object name would otherwise bring them
  // along into the proofs about the scene graph, which never need them.

  /** `trimEnd` keeps a prefix, which ends in no white space, and drops only white space. */
  lemma {:induction false} TrimEndFacts(s: string)
    ensures |TrimEnd(s)| <= |s| && TrimEnd(s) == s[..|TrimEnd(s)|]
    ensures TrimEnd(s) == [] || !IsSpace(TrimEnd(s)[|TrimEnd(s)| - 1])
    ensures forall i :: |TrimEnd(s)| <= i < |s| ==> IsSpace(s[i])
  {
    if s != [] && IsSpace(s[|s| - 1]) {
      var t := s[..|s| - 1];
      TrimEndFacts(t);
      assert forall i :: |TrimEnd(t)| <= i < |t| ==> t[i] == s[i];
    }
  }

  /** `trimStart` keeps a suffix, which starts with no white space, and drops only white space. */
  lemma {:induction false} TrimStartFacts(s: string)
    ensures |TrimStart(s)| <= |s| && TrimStart(s) == s[|s| - |TrimStart(s)|..]
    ensures TrimStart(s) == [] || !IsSpace(TrimStart(s)[0])
    ensures forall i :: 0 <= i < |s| - |TrimStart(s)| ==> IsSpace(s[i])
  {
    if s != [] && IsSpace(s[0]) {
      var t := s[1..];
      TrimStartFacts(t);
      assert forall i :: 1 <= i < |s| - |TrimStart(t)| ==> s[i] == t[i - 1];
    }
  }

  /** `trim`: drops the leading and the trailing white space. */
  function Trim(s: string): (r: string)
    ensures Trimmed(r)
  {
    var t := TrimStart(s);
    var r := TrimEnd(t);
    TrimStartFacts(s);
    TrimEndFacts(t);
    assert Trimmed(r) by {
      if r != [] {
        assert r[0] == t[0];
      }
    }
    r
  }

  /** The result of `trim` is the slice of `s` that starts where `trimStart`'s does. */
  lemma TrimFacts(s: string)
    ensures |TrimStart(s)| <= |s|
    ensures |s| - |TrimStart(s)| + |Trim(s)| <= |s|
    ensures Trim(s) == s[|s| - |TrimStart(s)|..|s| - |TrimStart(s)| + |Trim(s)|]
  {
    var t := TrimStart(s);
    TrimStartFacts(s);
    TrimEndFacts(t);
    SliceOfSuffix(s, |s| - |t|, |TrimEnd(t)|);
  }

  /** A prefix of a suffix is a slice. */
  lemma SliceOfSuffix(s: string, k: nat, n: nat)
    requires k + n <= |s|
    ensures s[k..][..n] == s[k..k + n]
  {
  }

  /** `trim` leaves nothing exactly when the string is white space throughout. */
  lemma TrimEmptyIffAllSpace(s: string)
    ensures Trim(s) == [] <==> forall i :: 0 <= i < |s| ==> IsSpace(s[i])
  {
    var t := TrimStart(s);
    var k := |s| - |t|;
    TrimStartFacts(s);
    TrimEndFacts(t);
    TrimFacts(s);
    if Trim(s) == [] {
      assert t == [];
    } else {
      assert !IsSpace(Trim(s)[0]) && Trim(s)[0] == s[k];
    }
  }

  /** A slice of a string without adjacent white space has none either. */
  lemma SliceKeepsNoAdjacentSpaces(s: string, a: nat, b: nat)
    requires a <= b <= |s|
    requires NoAdjacentSpaces(s)
    ensures NoAdjacentSpaces(s[a..b])
  {
    forall i | 0 <= i < b - a - 1 && IsSpace(s[a..b][i]) ensures !IsSpace(s[a..b][i + 1]) {
      assert s[a..b][i] == s[a + i] && s[a..b][i + 1] == s[a + i + 1];
    }
  }

  lemma TrimKeepsNoAdjacentSpaces(s: string)
    requires NoAdjacentSpaces(s)
    ensures NoAdjacentSpaces(Trim(s))
  {
    TrimFacts(s);
    var a := |s| - |TrimStart(s)|;
    SliceKeepsNoAdjacentSpaces(s, a, a + |Trim(s)|);
  }

  /** On a string that already starts with a non-space character, `trim` only
      removes trailing white space, so its result is a prefix. */
  lemma TrimOfUnpaddedStartIsPrefix(s: string)
    requires s == [] || !IsSpace(s[0])
    ensures |Trim(s)| <= |s| && Trim(s) == s[..|Trim(s)|]
  {
    TrimFacts(s);
    assert TrimStart(s) == s;
  }

  /** The decimal digit for `d`. */
  function DigitChar(d: nat): (c: char)
    requires d < 10
    ensures IsDigit(c)
  {
    ('0' as int + d) as char
  }

  /** The number a string of decimal digits denotes, most significant digit first. */
  function DigitsValue(s: string): int {
    if s == [] then 0 else DigitsValue(s[..|s| - 1]) * 10 + (s[|s| - 1] as int - '0' as int)
  }

  /** The decimal rendering of `n`, as a template literal prints an integer. */
  function NatToString(n: nat): (r: string)
    ensures r != []
    ensures forall i :: 0 <= i < |r| ==> IsDigit(r[i])
    ensures n > 0 ==> r[0] != '0'
  {
    if n < 10 then [DigitChar(n)] else NatToString(n / 10) + [DigitChar(n % 10)]
  }

  /** The rendering reads back as `n`. A lemma rather than a postcondition, so that the
      names built from a counter do not carry it. */
  lemma {:induction false} NatToStringReadsBack(n: nat)
    ensures DigitsValue(NatToString(n)) == n
  {
    if n >= 10 {
      NatToStringReadsBack(n / 10);
      var r := NatToString(n);
      assert r[..|r| - 1] == NatToString(n / 10);
    }
  }

  /** `parts.join(sep)`. */
  function Join(parts: seq<string>, sep: string): string {
    if |parts| == 0 then "" else if |parts| == 1 then parts[0] else parts[0] + sep + Join(parts[1..], sep)
  }
}
