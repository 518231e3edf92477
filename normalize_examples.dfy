/** The loose match keys of two concrete part names, derived pass by pass from
    the recursive models of the regular expressions. The general lemmas say when
    a pass leaves a stretch of the string alone. */
module NormalizeExamples {
  import opened Text
  import opened Normalize

  /** Without the separator, `\s*x\s*` never matches. */
  lemma {:induction false} SeparatorAbsent(s: string, x: char, rep: string)
    requires x !in s
    ensures ReplaceSeparator(s, x, rep) == s
    decreases |s|
  {
    if s != [] {
      var k := SpaceRun(s);
      assert k < |s| ==> s[k] in s;
      assert x !in s[1..];
      SeparatorAbsent(s[1..], x, rep);
    }
  }

  /** A white-space run stops at the first visible character. */
  lemma SpaceRunStops(s: string, m: nat)
    requires m < |s| && !IsSpace(s[m])
    ensures SpaceRun(s) <= m
  {
  }

  /** Where no separator follows the leading white space, the first character is kept. */
  lemma SeparatorKeepsFirst(s: string, x: char, rep: string)
    requires s != [] && !(SpaceRun(s) < |s| && s[SpaceRun(s)] == x)
    ensures ReplaceSeparator(s, x, rep) == [s[0]] + ReplaceSeparator(s[1..], x, rep)
  {
  }

  /** The first character of such a stretch is kept. */
  lemma SeparatorAfterStep(a: string, b: string, x: char, rep: string)
    requires a != [] && x !in a && !IsSpace(a[|a| - 1])
    ensures ReplaceSeparator(a + b, x, rep) == [a[0]] + ReplaceSeparator(a[1..] + b, x, rep)
  {
    var s := a + b;
    assert s[|a| - 1] == a[|a| - 1];
    SpaceRunStops(s, |a| - 1);
    var k := SpaceRun(s);
    assert s[k] == a[k] && a[k] in a;
    SeparatorKeepsFirst(s, x, rep);
    assert s[0] == a[0] && s[1..] == a[1..] + b;
  }

  lemma NotInTail(a: string, x: char)
    requires |a| > 1 && x !in a
    ensures x !in a[1..] && a[1..][|a| - 2] == a[|a| - 1]
  {
  }

  lemma ConsAppend(a: string, r: string)
    requires a != []
    ensures [a[0]] + (a[1..] + r) == a + r
  {
  }

  /** A stretch without the separator that ends in a visible character is kept as it is. */
  lemma {:induction false} SeparatorAfter(a: string, b: string, x: char, rep: string)
    requires a != [] && x !in a && !IsSpace(a[|a| - 1])
    ensures ReplaceSeparator(a + b, x, rep) == a + ReplaceSeparator(b, x, rep)
    decreases |a|
  {
    SeparatorAfterStep(a, b, x, rep);
    var t := a[1..];
    var rb := ReplaceSeparator(b, x, rep);
    if |a| > 1 {
      NotInTail(a, x);
      SeparatorAfter(t, b, x, rep);
      ConsAppend(a, rb);
    } else {
      assert t + b == b && [a[0]] == a;
    }
  }

  /** A string whose white space is single plain spaces has no run to collapse. */
  lemma {:induction false} CollapseSpacesNone(s: string)
    requires forall i :: 0 <= i < |s| && IsSpace(s[i]) ==> s[i] == ' '
    requires NoAdjacentSpaces(s)
    ensures CollapseSpaces(s) == s
    decreases |s|
  {
    if s != [] {
      var t := s[1..];
      SliceKeepsNoAdjacentSpaces(s, 1, |s|);
      assert s[1..|s|] == t;
      assert forall i :: 0 <= i < |t| ==> t[i] == s[i + 1];
      CollapseSpacesNone(t);
      if IsSpace(s[0]) {
        assert |s| > 1 ==> !IsSpace(s[1]);
        assert SpaceRun(s) == 1;
      }
    }
  }

  /** `replace(/[.,]/g, '')` works on the two halves of a string separately. */
  lemma {:induction false} RemovePunctuationAppend(a: string, b: string)
    ensures RemovePunctuation(a + b) == RemovePunctuation(a) + RemovePunctuation(b)
    decreases |a|
  {
    if a != [] {
      assert (a + b)[0] == a[0] && (a + b)[1..] == a[1..] + b;
      RemovePunctuationAppend(a[1..], b);
      if a[0] == '.' || a[0] == ',' {
        assert RemovePunctuation(a + b) == RemovePunctuation(a[1..] + b);
        assert RemovePunctuation(a) == RemovePunctuation(a[1..]);
      } else {
        assert RemovePunctuation(a + b) == [a[0]] + RemovePunctuation(a[1..] + b);
        assert RemovePunctuation(a) == [a[0]] + RemovePunctuation(a[1..]);
      }
    } else {
      assert a + b == b;
    }
  }

  lemma {:induction false} RemovePunctuationNone(s: string)
    requires '.' !in s && ',' !in s
    ensures RemovePunctuation(s) == s
    decreases |s|
  {
    if s != [] {
      assert s[0] in s;
      assert '.' !in s[1..] && ',' !in s[1..];
      RemovePunctuationNone(s[1..]);
    }
  }

  /** Two `\s-\s` groups in a row need two dashes. */
  lemma TwoDashGroups(s: string)
    requires DashGroups(s) >= 2
    ensures s[1] == '-' && s[4] == '-'
  {
    assert DashGroups(s[3..]) >= 1;
    assert s[3..][1] == s[4];
  }

  /** With no two dashes three apart, no pair of dash groups can collapse. */
  lemma {:induction false} CollapseDashGroupsNone(s: string)
    requires forall i :: 1 <= i < |s| - 3 && s[i] == '-' ==> s[i + 3] != '-'
    ensures CollapseDashGroups(s) == s
    decreases |s|
  {
    if s != [] {
      if DashGroups(s) >= 2 {
        TwoDashGroups(s);
      }
      var t := s[1..];
      forall i | 1 <= i < |t| - 3 && t[i] == '-'
        ensures t[i + 3] != '-'
      {
        assert t[i] == s[i + 1] && t[i + 3] == s[i + 4];
      }
      CollapseDashGroupsNone(t);
    }
  }

  /** `\s-\s` groups hold only white space and dashes. */
  lemma {:induction false} DashGroupsChars(u: string)
    ensures IsDashGroups(u) ==> forall k :: 0 <= k < |u| ==> IsSpaceOrDash(u[k])
    decreases |u|
  {
    if IsDashGroups(u) && |u| > 3 {
      DashGroupsChars(u[3..]);
      assert forall k :: 3 <= k < |u| ==> u[k] == u[3..][k - 3];
    }
  }

  /** A stretch that ends in a character other than white space or a dash is never
      part of the trailing dash groups. */
  lemma {:induction false} StripAfter(a: string, t: string)
    requires a != [] && !IsSpaceOrDash(a[|a| - 1])
    ensures StripTrailingDashGroups(a + t) == a + StripTrailingDashGroups(t)
    decreases |a|
  {
    var s := a + t;
    DashGroupsChars(s);
    assert s[|a| - 1] == a[|a| - 1];
    assert s[1..] == a[1..] + t;
    if |a| > 1 {
      StripAfter(a[1..], t);
    }
  }

  /** A key that ends in a visible character keeps its end through the tail passes. */
  lemma TailPassesKeep(s: string)
    requires s != [] && !IsSpaceOrDash(s[|s| - 1]) && Trimmed(s)
    ensures Trim(TrimEndSpaceOrDash(StripTrailingDashGroups(s))) == s
  {
    StripAfter(s, []);
    assert s + [] == s;
    TrimOfTrimmed(s);
  }

  /** A separator with one white-space character on each side becomes `rep`. */
  lemma SeparatorSpaced(s: string, x: char, rep: string)
    requires !IsSpace(x)
    requires |s| >= 3 && IsSpace(s[0]) && s[1] == x && IsSpace(s[2]) && (|s| == 3 || !IsSpace(s[3]))
    ensures ReplaceSeparator(s, x, rep) == rep + ReplaceSeparator(s[3..], x, rep)
  {
    assert SpaceRun(s[1..]) == 0;
    assert SpaceRun(s) == 1;
    var rest := s[2..];
    assert SpaceRun(rest[1..]) == 0 by {
      assert rest[1..] == s[3..];
    }
    assert SpaceRun(rest) == 1;
    assert rest[1..] == s[3..];
  }

  /** A separator followed by one white-space character becomes `rep`. */
  lemma SeparatorThenSpace(s: string, x: char, rep: string)
    requires !IsSpace(x)
    requires |s| >= 2 && s[0] == x && IsSpace(s[1]) && (|s| == 2 || !IsSpace(s[2]))
    ensures ReplaceSeparator(s, x, rep) == rep + ReplaceSeparator(s[2..], x, rep)
  {
    assert SpaceRun(s) == 0;
    var rest := s[1..];
    assert SpaceRun(rest[1..]) == 0 by {
      assert rest[1..] == s[2..];
    }
    assert SpaceRun(rest) == 1;
    assert rest[1..] == s[2..];
  }

  // The concrete strings enter as parameters equal to literals, and each fact about
  // their characters is a lemma of its own: that keeps every proof below small.

  /** What the passes look at in a name: single plain spaces, trimmed, and a visible
      last character. */
  ghost predicate PlainSpacing(s: string) {
    && (forall i :: 0 <= i < |s| && IsSpace(s[i]) ==> s[i] == ' ')
    && NoAdjacentSpaces(s) && Trimmed(s) && s != [] && !IsSpaceOrDash(s[|s| - 1])
  }

  /** ... and no full stop or underscore, and no two dashes three apart. */
  ghost predicate PlainName(s: string) {
    && PlainSpacing(s) && '.' !in s && '_' !in s
    && (forall i :: 1 <= i < |s| - 3 && s[i] == '-' ==> s[i + 3] != '-')
  }

  lemma NameSpacing(s: string)
    requires s == "Bolt M8 - 12"
    ensures PlainSpacing(s)
  {
  }

  lemma NameSpacingList(s: string)
    requires s == "Bolt M8 - 12, 3"
    ensures PlainSpacing(s)
  {
  }

  lemma NameSpacingJoined(s: string)
    requires s == "Bolt M8 - 12 3"
    ensures PlainSpacing(s)
  {
  }

  lemma NameFacts(s: string)
    requires s == "Bolt M8 - 12"
    ensures PlainName(s)
  {
    NameSpacing(s);
  }

  lemma NameFactsList(s: string)
    requires s == "Bolt M8 - 12, 3"
    ensures PlainName(s)
  {
    NameSpacingList(s);
  }

  lemma NameFactsJoined(s: string)
    requires s == "Bolt M8 - 12 3"
    ensures PlainName(s)
  {
    NameSpacingJoined(s);
  }

  lemma NameWithoutComma(s: string)
    requires s == "Bolt M8 - 12" || s == "Bolt M8 - 12 3"
    ensures ',' !in s
  {
  }

  /** `Bolt M8` followed by ` - ` and a tail without separators. */
  lemma HeadFacts(a: string, t: string, tail: string)
    requires a == "Bolt M8" && t == " - " + tail && (tail == "12" || tail == "12, 3")
    ensures '-' !in a && !IsSpace(a[|a| - 1])
    ensures |t| >= 3 && IsSpace(t[0]) && t[1] == '-' && IsSpace(t[2]) && !IsSpace(t[3])
    ensures t[3..] == tail && '-' !in tail
  {
  }

  /** The dashes of both names are already ` - `. */
  lemma DashesOf(a: string, tail: string)
    requires a == "Bolt M8" && (tail == "12" || tail == "12, 3")
    ensures ReplaceSeparator(a + (" - " + tail), '-', " - ") == a + (" - " + tail)
  {
    var t := " - " + tail;
    HeadFacts(a, t, tail);
    SeparatorAfter(a, t, '-', " - ");
    SeparatorSpaced(t, '-', " - ");
    SeparatorAbsent(tail, '-', " - ");
  }

  /** `Bolt M8 - 12` followed by `, ` and `3`. */
  lemma CommaFacts(b: string, u: string)
    requires b == "Bolt M8 - 12" && u == ", 3"
    ensures ',' !in b && !IsSpace(b[|b| - 1])
    ensures |u| >= 3 && u[0] == ',' && IsSpace(u[1]) && !IsSpace(u[2]) && u[2..] == "3" && ',' !in u[2..]
  {
  }

  /** The comma of the second name is already `, `. */
  lemma CommaOf(b: string, u: string)
    requires b == "Bolt M8 - 12" && u == ", 3"
    ensures ReplaceSeparator(b + u, ',', ", ") == b + u
  {
    CommaFacts(b, u);
    SeparatorAfter(b, u, ',', ", ");
    SeparatorThenSpace(u, ',', ", ");
    SeparatorAbsent(u[2..], ',', ", ");
  }

  lemma SpellingOfBolt(raw: string, s: string)
    requires raw == "Bolt_M8 - 12" && s == "Bolt M8 - 12"
    ensures ReplaceUnderscores(raw) == s && s == "Bolt M8" + (" - " + "12")
  {
  }

  lemma SpellingOfBoltList(raw: string, s: string)
    requires raw == "Bolt_M8 - 12, 3" && s == "Bolt M8 - 12, 3"
    ensures ReplaceUnderscores(raw) == s && s == "Bolt M8" + (" - " + "12, 3") && s == "Bolt M8 - 12" + ", 3"
  {
  }

  /** `normalizePartName('Bolt_M8 - 12')` is `Bolt M8 - 12`. */
  lemma PartNameOfBolt(raw: string, s: string)
    requires raw == "Bolt_M8 - 12" && s == "Bolt M8 - 12"
    ensures NormalizePartName(raw) == s
  {
    SpellingOfBolt(raw, s);
    DashesOf("Bolt M8", "12");
    NameFacts(s);
    NameWithoutComma(s);
    SeparatorAbsent(s, ',', ", ");
    CollapseSpacesNone(s);
    TrimOfTrimmed(s);
  }

  /** `normalizePartName('Bolt_M8 - 12, 3')` is `Bolt M8 - 12, 3`. */
  lemma PartNameOfBoltList(raw: string, s: string)
    requires raw == "Bolt_M8 - 12, 3" && s == "Bolt M8 - 12, 3"
    ensures NormalizePartName(raw) == s
  {
    SpellingOfBoltList(raw, s);
    DashesOf("Bolt M8", "12, 3");
    CommaOf("Bolt M8 - 12", ", 3");
    NameFactsList(s);
    CollapseSpacesNone(s);
    TrimOfTrimmed(s);
  }

  lemma LowerOfBolt(s: string, k: string)
    requires s == "Bolt M8 - 12" && k == "bolt m8 - 12"
    ensures ToLower(s) == k
  {
  }

  lemma LowerOfBoltList(s: string, k: string)
    requires s == "Bolt M8 - 12 3" && k == "bolt m8 - 12 3"
    ensures ToLower(s) == k
  {
  }

  /** The passes of `normalizeMatchKey` that follow `normalizePartName` leave a plain
      name without commas alone. */
  lemma MatchPassesKeep(s: string)
    requires PlainName(s) && ',' !in s
    ensures Trim(TrimEndSpaceOrDash(StripTrailingDashGroups(
              CollapseSpaces(RemovePunctuation(CollapseDashGroups(s)))))) == s
  {
    CollapseDashGroupsNone(s);
    RemovePunctuationNone(s);
    CollapseSpacesNone(s);
    TailPassesKeep(s);
  }

  /** The match key of `Bolt_M8 - 12` is `bolt m8 - 12`. */
  lemma MatchKeyOfBolt(raw: string, s: string, k: string)
    requires raw == "Bolt_M8 - 12" && s == "Bolt M8 - 12" && k == "bolt m8 - 12"
    ensures NormalizeMatchKey(raw) == k
  {
    PartNameOfBolt(raw, s);
    NameFacts(s);
    NameWithoutComma(s);
    MatchPassesKeep(s);
    LowerOfBolt(s, k);
  }

  lemma CommaSplit(s: string, t: string, b: string, u: string)
    requires s == "Bolt M8 - 12, 3" && t == "Bolt M8 - 12 3" && b == "Bolt M8 - 12" && u == ", 3"
    ensures s == b + u && t == b + u[1..] && u[0] == ',' && u[1..] == " 3"
  {
  }

  lemma PunctuationOfTail(u: string)
    requires u == " 3"
    ensures RemovePunctuation(u) == u
  {
    assert u[0] in u && u[1] in u;
    assert forall c :: c in u ==> c == ' ' || c == '3';
    RemovePunctuationNone(u);
  }

  /** Dropping the comma of `Bolt M8 - 12, 3` leaves `Bolt M8 - 12 3`. */
  lemma PunctuationOfBoltList(s: string, t: string)
    requires s == "Bolt M8 - 12, 3" && t == "Bolt M8 - 12 3"
    ensures RemovePunctuation(s) == t
  {
    var b, u := "Bolt M8 - 12", ", 3";
    CommaSplit(s, t, b, u);
    RemovePunctuationAppend(b, u);
    NameFacts(b);
    NameWithoutComma(b);
    RemovePunctuationNone(b);
    PunctuationOfTail(u[1..]);
  }

  /** The match key of `Bolt_M8 - 12, 3` is `bolt m8 - 12 3`: the comma goes. */
  lemma MatchKeyOfBoltList(raw: string, s: string, t: string, k: string)
    requires raw == "Bolt_M8 - 12, 3" && s == "Bolt M8 - 12, 3" && t == "Bolt M8 - 12 3"
    requires k == "bolt m8 - 12 3"
    ensures NormalizeMatchKey(raw) == k
  {
    PartNameOfBoltList(raw, s);
    NameFactsList(s);
    CollapseDashGroupsNone(s);
    PunctuationOfBoltList(s, t);
    NameFactsJoined(t);
    NameWithoutComma(t);
    MatchPassesKeep(t);
    CollapseDashGroupsNone(t);
    RemovePunctuationNone(t);
    LowerOfBoltList(t, k);
  }

  lemma LooseTailOfBolt(k: string, a: string, g: string)
    requires k == "bolt m8 - 12" && a == "bolt m8" && g == " - "
    ensures TrimEndDigits(k) == a + g && IsDashGroups(g)
    ensures a != [] && !IsSpaceOrDash(a[|a| - 1]) && Trimmed(a)
  {
    var k1 := k[..|k| - 1];
    assert k1 == "bolt m8 - 1";
    var k2 := k1[..|k1| - 1];
    assert k2 == a + g;
    assert TrimEndDigits(k1) == TrimEndDigits(k2) == k2;
  }

  /** The loose match key of `Bolt_M8 - 12` is `bolt m8`: dropping the final digits
      leaves a trailing ` - `, which goes too. */
  lemma LooseKeyOfBolt(raw: string)
    requires raw == "Bolt_M8 - 12"
    ensures NormalizeMatchKeyLoose(raw) == "bolt m8"
  {
    var k, a, g := "bolt m8 - 12", "bolt m8", " - ";
    MatchKeyOfBolt(raw, "Bolt M8 - 12", k);
    LooseTailOfBolt(k, a, g);
    StripAfter(a, g);
    TailPassesKeep(a);
  }

  lemma LooseTailOfBoltList(k: string, a: string, sp: string)
    requires k == "bolt m8 - 12 3" && a == "bolt m8 - 12" && sp == " "
    ensures TrimEndDigits(k) == a + sp && StripTrailingDashGroups(sp) == sp
    ensures TrimEndSpaceOrDash(a + sp) == a
    ensures a != [] && !IsSpaceOrDash(a[|a| - 1]) && Trimmed(a)
  {
  }

  /** The loose match key of `Bolt_M8 - 12, 3` is `bolt m8 - 12`: only the final run of
      digits goes. */
  lemma LooseKeyOfBoltList(raw: string)
    requires raw == "Bolt_M8 - 12, 3"
    ensures NormalizeMatchKeyLoose(raw) == "bolt m8 - 12"
  {
    var k, a, sp := "bolt m8 - 12 3", "bolt m8 - 12", " ";
    MatchKeyOfBoltList(raw, "Bolt M8 - 12, 3", "Bolt M8 - 12 3", k);
    LooseTailOfBoltList(k, a, sp);
    StripAfter(a, sp);
    TrimOfTrimmed(a);
  }

  /** The two part names do not share a loose match key. */
  lemma LooseKeysDiffer()
    ensures NormalizeMatchKeyLoose("Bolt_M8 - 12") == "bolt m8"
    ensures NormalizeMatchKeyLoose("Bolt_M8 - 12, 3") == "bolt m8 - 12"
    ensures NormalizeMatchKeyLoose("Bolt_M8 - 12") != NormalizeMatchKeyLoose("Bolt_M8 - 12, 3")
  {
    LooseKeyOfBolt("Bolt_M8 - 12");
    LooseKeyOfBoltList("Bolt_M8 - 12, 3");
  }
}
