/** The three part-name normalisers of the assembly explorer. Each regular
    expression pass is a recursive function that scans the string from the left
    the way a global `replace` does: at each position it either replaces the
    match that starts there and goes on after it, or keeps one character. */
module Normalize {
  import opened Text

  /** The number of white-space characters `s` starts with. */
  function SpaceRun(s: string): (k: nat)
    ensures k <= |s|
    ensures forall i :: 0 <= i < k ==> IsSpace(s[i])
    ensures k == |s| || !IsSpace(s[k])
  {
    if s != [] && IsSpace(s[0]) then 1 + SpaceRun(s[1..]) else 0
  }

  /** `replace(/_/g, ' ')`. */
  function ReplaceUnderscores(s: string): (r: string)
    ensures |r| == |s|
    ensures forall i :: 0 <= i < |r| ==> r[i] == (if s[i] == '_' then ' ' else s[i])
  {
    seq(|s|, i requires 0 <= i < |s| => if s[i] == '_' then ' ' else s[i])
  }

  /** The global replacement of `\s*x\s*` by `rep`: white space, the separator `x` and the white space
      after it become `rep`. */
  function ReplaceSeparator(s: string, x: char, rep: string): string
    decreases |s|
  {
    if s == [] then []
    else
      var k := SpaceRun(s);
      if k < |s| && s[k] == x then
        var rest := s[k + 1..];
        rep + ReplaceSeparator(rest[SpaceRun(rest)..], x, rep)
      else
        [s[0]] + ReplaceSeparator(s[1..], x, rep)
  }

  /** `replace(/\s+/g, ' ')`: every run of white space becomes one space. */
  function CollapseSpaces(s: string): string
    decreases |s|
  {
    if s == [] then []
    else if IsSpace(s[0]) then " " + CollapseSpaces(s[SpaceRun(s)..])
    else [s[0]] + CollapseSpaces(s[1..])
  }

  /** `replace(/[.,]/g, '')`. */
  function RemovePunctuation(s: string): string {
    if s == [] then []
    else if s[0] == '.' || s[0] == ',' then RemovePunctuation(s[1..])
    else [s[0]] + RemovePunctuation(s[1..])
  }

  /** The number of `\s-\s` groups `s` starts with, back to back. */
  function DashGroups(s: string): (k: nat)
    ensures 3 * k <= |s|
  {
    if |s| >= 3 && IsSpace(s[0]) && s[1] == '-' && IsSpace(s[2]) then 1 + DashGroups(s[3..]) else 0
  }

  /** `replace(/(?:\s-\s){2,}/g, ' - ')`: two or more `\s-\s` groups in a row
      become one ` - `. */
  function CollapseDashGroups(s: string): string
    decreases |s|
  {
    if s == [] then []
    else
      var k := DashGroups(s);
      if k >= 2 then " - " + CollapseDashGroups(s[3 * k..])
      else [s[0]] + CollapseDashGroups(s[1..])
  }

  /** `s` consists of one or more `\s-\s` groups and nothing else. */
  predicate IsDashGroups(s: string) {
    |s| >= 3 && IsSpace(s[0]) && s[1] == '-' && IsSpace(s[2]) && (|s| == 3 || IsDashGroups(s[3..]))
  }

  /** `replace(/(?:\s-\s)+$/g, '')`: the match starts at the first position from
      which the rest of the string is made of `\s-\s` groups. */
  function StripTrailingDashGroups(s: string): (r: string)
    ensures |r| <= |s| && r == s[..|r|]
  {
    if s == [] || IsDashGroups(s) then [] else [s[0]] + StripTrailingDashGroups(s[1..])
  }

  /** `replace(/[\s-]+$/g, '')`: the trailing run of white space and dashes goes. */
  function TrimEndSpaceOrDash(s: string): (r: string)
    ensures |r| <= |s| && r == s[..|r|]
    ensures r == [] || !IsSpaceOrDash(r[|r| - 1])
  {
    if s != [] && IsSpaceOrDash(s[|s| - 1]) then TrimEndSpaceOrDash(s[..|s| - 1]) else s
  }

  /** `replace(/\d+$/, '')`: the trailing run of digits goes. */
  function TrimEndDigits(s: string): (r: string)
    ensures |r| <= |s| && r == s[..|r|]
  {
    if s != [] && IsDigit(s[|s| - 1]) then TrimEndDigits(s[..|s| - 1]) else s
  }

  /** `normalizePartName`. */
  function NormalizePartName(raw: string): string {
    Trim(CollapseSpaces(ReplaceSeparator(ReplaceSeparator(ReplaceUnderscores(raw), '-', " - "), ',', ", ")))
  }

  /** `normalizeMatchKey`: the passes after `normalizePartName`, then lower case. */
  function NormalizeMatchKey(raw: string): string {
    ToLower(MatchKeyBeforeLowering(raw))
  }

  /** The string `normalizeMatchKey` lower-cases. */
  function MatchKeyBeforeLowering(raw: string): string {
    Trim(TrimEndSpaceOrDash(StripTrailingDashGroups(
      CollapseSpaces(RemovePunctuation(CollapseDashGroups(NormalizePartName(raw)))))))
  }

  /** `normalizeMatchKeyLoose`. */
  function NormalizeMatchKeyLoose(raw: string): string {
    Trim(TrimEndSpaceOrDash(StripTrailingDashGroups(TrimEndDigits(NormalizeMatchKey(raw)))))
  }

  // Which characters each pass can produce.

  lemma {:induction false} ReplaceSeparatorChars(s: string, x: char, rep: string, c: char)
    requires c in ReplaceSeparator(s, x, rep)
    ensures c in s || c in rep
    decreases |s|
  {
    var k := SpaceRun(s);
    if k < |s| && s[k] == x {
      var rest := s[k + 1..];
      var tail := rest[SpaceRun(rest)..];
      if c !in rep {
        assert c in ReplaceSeparator(tail, x, rep);
        ReplaceSeparatorChars(tail, x, rep, c);
        assert c in rest;
      }
    } else if c != s[0] {
      assert c in ReplaceSeparator(s[1..], x, rep);
      ReplaceSeparatorChars(s[1..], x, rep, c);
    }
  }

  lemma {:induction false} CollapseSpacesChars(s: string, c: char)
    requires c in CollapseSpaces(s)
    ensures c in s || c == ' '
    decreases |s|
  {
    if IsSpace(s[0]) {
      if c != ' ' {
        CollapseSpacesChars(s[SpaceRun(s)..], c);
      }
    } else if c != s[0] {
      CollapseSpacesChars(s[1..], c);
    }
  }

  lemma {:induction false} RemovePunctuationChars(s: string, c: char)
    requires c in RemovePunctuation(s)
    ensures c in s && c != '.' && c != ','
  {
    if s[0] == '.' || s[0] == ',' {
      RemovePunctuationChars(s[1..], c);
    } else if c != s[0] {
      RemovePunctuationChars(s[1..], c);
    }
  }

  lemma {:induction false} CollapseDashGroupsChars(s: string, c: char)
    requires c in CollapseDashGroups(s)
    ensures c in s || c in " - "
    decreases |s|
  {
    var k := DashGroups(s);
    if k >= 2 {
      if c !in " - " {
        CollapseDashGroupsChars(s[3 * k..], c);
      }
    } else if c != s[0] {
      CollapseDashGroupsChars(s[1..], c);
    }
  }

  /** A character of `trim`'s result is a character of its argument. */
  lemma TrimChars(s: string, c: char)
    requires c in Trim(s)
    ensures c in s
  {
    TrimFacts(s);
    var a := |s| - |TrimStart(s)|;
    var i :| 0 <= i < |Trim(s)| && Trim(s)[i] == c;
    assert s[a + i] == c;
  }

  lemma PrefixChars(s: string, n: nat, c: char)
    requires n <= |s| && c in s[..n]
    ensures c in s
  {
    var i :| 0 <= i < n && s[..n][i] == c;
    assert s[i] == c;
  }

  /** A run of white space becomes a single space, so the result never has two
      white-space characters side by side, and it starts with white space exactly
      when its argument does. */
  lemma {:induction false} CollapseSpacesFacts(s: string)
    ensures NoAdjacentSpaces(CollapseSpaces(s))
    ensures s != [] <==> CollapseSpaces(s) != []
    ensures s != [] ==> (IsSpace(CollapseSpaces(s)[0]) <==> IsSpace(s[0]))
    decreases |s|
  {
    if s != [] {
      var r := CollapseSpaces(s);
      var tail := if IsSpace(s[0]) then s[SpaceRun(s)..] else s[1..];
      CollapseSpacesFacts(tail);
      var t := CollapseSpaces(tail);
      assert r == [r[0]] + t;
      assert IsSpace(r[0]) ==> t == [] || !IsSpace(t[0]);
      forall i | 0 <= i < |r| - 1 && IsSpace(r[i]) ensures !IsSpace(r[i + 1]) {
        if i > 0 {
          assert r[i] == t[i - 1] && r[i + 1] == t[i];
        }
      }
    }
  }

  /** A string with no white space at either end is its own `trim`. */
  lemma TrimOfTrimmed(s: string)
    requires Trimmed(s)
    ensures Trim(s) == s
  {
    assert TrimStart(s) == s;
    TrimEndFacts(s);
  }

  /** When the last character is not white space, `trim` only removes leading
      white space. */
  lemma TrimOfUntrailed(s: string)
    requires s == [] || !IsSpace(s[|s| - 1])
    ensures Trim(s) == TrimStart(s)
    ensures Trim(s) == [] || Trim(s)[|Trim(s)| - 1] == s[|s| - 1]
  {
    var t := TrimStart(s);
    TrimStartFacts(s);
    TrimEndFacts(t);
    if t != [] {
      assert t[|t| - 1] == s[|s| - 1];
    }
  }

  lemma LowerCharFacts(c: char)
    ensures IsSpace(LowerChar(c)) ==> IsSpace(c)
    ensures LowerChar(c) == '-' ==> c == '-'
    ensures LowerChar(c) == '.' ==> c == '.'
    ensures LowerChar(c) == ',' ==> c == ','
  {
  }

  /** `normalizePartName` leaves no underscore, no two white-space characters side
      by side and no white space at either end. */
  lemma NormalizePartNameFacts(raw: string)
    ensures '_' !in NormalizePartName(raw)
    ensures NoAdjacentSpaces(NormalizePartName(raw))
    ensures Trimmed(NormalizePartName(raw))
  {
    var s1 := ReplaceUnderscores(raw);
    var s2 := ReplaceSeparator(s1, '-', " - ");
    var s3 := ReplaceSeparator(s2, ',', ", ");
    var s4 := CollapseSpaces(s3);
    if '_' in NormalizePartName(raw) {
      TrimChars(s4, '_');
      CollapseSpacesChars(s3, '_');
      ReplaceSeparatorChars(s2, ',', ", ", '_');
      ReplaceSeparatorChars(s1, '-', " - ", '_');
      assert false;
    }
    CollapseSpacesFacts(s3);
    TrimKeepsNoAdjacentSpaces(s4);
  }

  lemma RemovePunctuationRemoves(s: string)
    ensures '.' !in RemovePunctuation(s) && ',' !in RemovePunctuation(s)
  {
    if '.' in RemovePunctuation(s) {
      RemovePunctuationChars(s, '.');
    }
    if ',' in RemovePunctuation(s) {
      RemovePunctuationChars(s, ',');
    }
  }

  lemma CollapseSpacesKeepsOut(s: string, c: char)
    requires c != ' ' && c !in s
    ensures c !in CollapseSpaces(s)
  {
    if c in CollapseSpaces(s) {
      CollapseSpacesChars(s, c);
    }
  }

  /** The last three passes of `normalizeMatchKey` before lowering add no
      character, and leave no white space at the start and neither white space
      nor a dash at the end. */
  lemma KeyTailFacts(s: string, c: char)
    requires c !in s
    ensures c !in Trim(TrimEndSpaceOrDash(StripTrailingDashGroups(s)))
    ensures Trim(TrimEndSpaceOrDash(StripTrailingDashGroups(s))) == []
         || !IsSpace(Trim(TrimEndSpaceOrDash(StripTrailingDashGroups(s)))[0])
    ensures var r := Trim(TrimEndSpaceOrDash(StripTrailingDashGroups(s)));
            r == [] || !IsSpaceOrDash(r[|r| - 1])
  {
    var s4 := StripTrailingDashGroups(s);
    var s5 := TrimEndSpaceOrDash(s4);
    if c in Trim(s5) {
      TrimChars(s5, c);
      PrefixChars(s4, |s5|, c);
    }
    TrimOfUntrailed(s5);
  }

  /** Before lowering, the match key has no `.` or `,`, starts with no white space
      and ends in neither white space nor a dash. */
  lemma MatchKeyBeforeLoweringFacts(raw: string)
    ensures '.' !in MatchKeyBeforeLowering(raw) && ',' !in MatchKeyBeforeLowering(raw)
    ensures MatchKeyBeforeLowering(raw) == [] || !IsSpace(MatchKeyBeforeLowering(raw)[0])
    ensures MatchKeyBeforeLowering(raw) == []
         || !IsSpaceOrDash(MatchKeyBeforeLowering(raw)[|MatchKeyBeforeLowering(raw)| - 1])
  {
    var s2 := RemovePunctuation(CollapseDashGroups(NormalizePartName(raw)));
    var s3 := CollapseSpaces(s2);
    RemovePunctuationRemoves(CollapseDashGroups(NormalizePartName(raw)));
    CollapseSpacesKeepsOut(s2, '.');
    CollapseSpacesKeepsOut(s2, ',');
    KeyTailFacts(s3, '.');
    KeyTailFacts(s3, ',');
  }

  /** Lower-casing keeps `.`, `,`, white space and dashes where they are. */
  lemma ToLowerKeeps(b: string)
    ensures '.' !in b ==> '.' !in ToLower(b)
    ensures ',' !in b ==> ',' !in ToLower(b)
    ensures b == [] || !IsSpace(b[0]) ==> ToLower(b) == [] || !IsSpace(ToLower(b)[0])
    ensures b == [] || !IsSpaceOrDash(b[|b| - 1]) ==> ToLower(b) == [] || !IsSpaceOrDash(ToLower(b)[|b| - 1])
  {
    forall i | 0 <= i < |b| {
      LowerCharFacts(b[i]);
    }
  }

  /** `normalizeMatchKey` is lower case, has no `.` or `,`, starts with no white
      space and ends in neither white space nor a dash. */
  lemma NormalizeMatchKeyFacts(raw: string)
    ensures forall i :: 0 <= i < |NormalizeMatchKey(raw)| ==> !IsUpper(NormalizeMatchKey(raw)[i])
    ensures '.' !in NormalizeMatchKey(raw) && ',' !in NormalizeMatchKey(raw)
    ensures NormalizeMatchKey(raw) == [] || !IsSpace(NormalizeMatchKey(raw)[0])
    ensures NormalizeMatchKey(raw) == [] || !IsSpaceOrDash(NormalizeMatchKey(raw)[|NormalizeMatchKey(raw)| - 1])
  {
    var b := MatchKeyBeforeLowering(raw);
    MatchKeyBeforeLoweringFacts(raw);
    ToLowerKeeps(b);
    assert NormalizeMatchKey(raw) == ToLower(b);
  }

  /** The passes `normalizeMatchKeyLoose` adds keep a prefix of a string that
      starts with no white space, and leave neither white space nor a dash at its
      end. */
  lemma LooseTailFacts(key: string)
    requires key == [] || !IsSpace(key[0])
    ensures var r := Trim(TrimEndSpaceOrDash(StripTrailingDashGroups(TrimEndDigits(key))));
            && |r| <= |key| && r == key[..|r|]
            && (r == [] || !IsSpaceOrDash(r[|r| - 1]))
  {
    var s1 := TrimEndDigits(key);
    var s2 := StripTrailingDashGroups(s1);
    var s3 := TrimEndSpaceOrDash(s2);
    PrefixOfPrefix(key, s1, s2);
    PrefixOfPrefix(key, s2, s3);
    TrimOfTrimmed(s3);
  }

  lemma PrefixOfPrefix(a: string, b: string, c: string)
    requires |b| <= |a| && b == a[..|b|]
    requires |c| <= |b| && c == b[..|c|]
    ensures c == a[..|c|]
    ensures c == [] || c[0] == a[0]
  {
  }

  /** `normalizeMatchKeyLoose` is a prefix of `normalizeMatchKey` that ends in
      neither white space nor a dash. */
  lemma NormalizeMatchKeyLooseFacts(raw: string)
    ensures |NormalizeMatchKeyLoose(raw)| <= |NormalizeMatchKey(raw)|
    ensures NormalizeMatchKeyLoose(raw) == NormalizeMatchKey(raw)[..|NormalizeMatchKeyLoose(raw)|]
    ensures NormalizeMatchKeyLoose(raw) == []
         || !IsSpaceOrDash(NormalizeMatchKeyLoose(raw)[|NormalizeMatchKeyLoose(raw)| - 1])
  {
    var key := NormalizeMatchKey(raw);
    NormalizeMatchKeyFacts(raw);
    LooseTailFacts(key);
    assert NormalizeMatchKeyLoose(raw) == Trim(TrimEndSpaceOrDash(StripTrailingDashGroups(TrimEndDigits(key))));
  }
}
