/**
 * Which merged summaries read back unchanged. JavaScript's `replace` gives `$$`, `$&`, and `$`
 * before a quote a meaning, so a merge (src/compact-summary.ts) is faithful on lines without tags
 * exactly when none of them holds such a pattern.
 */
module SummaryDollars {
  import opened Messages
  import opened JsStrings
  import opened CompactSummary

  // ----- Lines of a text ---------------------------------------------------

  lemma {:induction false} LinesOfPrefixed(a: string, s: string)
    requires OneLine(a)
    ensures Lines(a + s) == [a + Lines(s)[0]] + Lines(s)[1..]
  {
    if a == "" {
      assert a + s == s;
      assert Lines(s) == [Lines(s)[0]] + Lines(s)[1..];
      assert a + Lines(s)[0] == Lines(s)[0];
    } else {
      assert (a + s)[1..] == a[1..] + s;
      LinesOfPrefixed(a[1..], s);
      assert [a[0]] + (a[1..] + Lines(s)[0]) == a + Lines(s)[0];
    }
  }

  lemma {:induction false} LinesOfBroken(x: string, y: string)
    ensures Lines(x + "\n" + y) == Lines(x) + Lines(y)
  {
    if x == "" {
      assert (x + "\n" + y)[1..] == y;
    } else {
      assert (x + "\n" + y)[1..] == x[1..] + "\n" + y;
      LinesOfBroken(x[1..], y);
    }
  }

  lemma {:induction false} JoinOfLines(s: string)
    ensures JoinLines(Lines(s)) == s
  {
    if s != "" {
      JoinOfLines(s[1..]);
      var rest := Lines(s[1..]);
      if s[0] == '\n' {
        assert ([""] + rest)[1..] == rest;
        assert "" + "\n" + JoinLines(rest) == [s[0]] + s[1..];
      } else {
        JoinPrefixed([s[0]], rest);
        assert [s[0]] + s[1..] == s;
      }
    }
  }

  lemma JoinPrefixed(a: string, ls: seq<string>)
    requires ls != []
    ensures JoinLines([a + ls[0]] + ls[1..]) == a + JoinLines(ls)
  {
    assert ([a + ls[0]] + ls[1..])[1..] == ls[1..];
    if |ls| > 1 {
      assert a + ls[0] + "\n" + JoinLines(ls[1..]) == a + (ls[0] + "\n" + JoinLines(ls[1..]));
    }
  }

  // ----- Expanding one line ------------------------------------------------

  function Dollars(s: string): nat {
    if s == "" then 0 else (if s[0] == '$' then 1 else 0) + Dollars(s[1..])
  }

  lemma {:induction false} DollarsOfPrefix(s: string, k: nat)
    requires k <= |s|
    ensures Dollars(s[..k]) <= Dollars(s)
  {
    if k > 0 {
      assert s[..k][1..] == s[1..][..k - 1];
      DollarsOfPrefix(s[1..], k - 1);
    }
  }

  /** Expanding the line inserts the matched text somewhere. */
  predicate UsesMatch(l: string) {
    if |l| >= 2 && IsDollarPattern(l[0], l[1]) then l[1] == '&' || UsesMatch(l[2..])
    else l != "" && UsesMatch(l[1..])
  }

  /** A text that opens with a line of its own, as a wrapped summary does. */
  ghost predicate Opens(matched: string, body: seq<string>) {
    body != [] && matched == "<summary>" + "\n" + (JoinLines(body) + "\n" + "</summary>")
  }

  lemma UnsafeTail(l: string)
    requires l != "" && !(|l| >= 2 && IsDollarPattern(l[0], l[1]))
    ensures DollarSafe(l[1..]) ==> DollarSafe(l)
  {
    forall i | DollarSafe(l[1..]) && 0 <= i && i + 1 < |l|
      ensures !IsDollarPattern(l[i], l[i + 1])
    {
      if i > 0 {
        assert !IsDollarPattern(l[1..][i - 1], l[1..][i - 1 + 1]);
      }
    }
  }

  lemma MatchedFirst(matched: string, body: seq<string>, x: string)
    requires Opens(matched, body) && forall i :: 0 <= i < |body| ==> OneLine(body[i])
    ensures Lines(matched + x) == ["<summary>"] + body + Lines("</summary>" + x)
  {
    var c := JoinLines(body);
    assert matched + x == "<summary>" + "\n" + (c + "\n" + ("</summary>" + x));
    LinesOfCons("<summary>", c + "\n" + ("</summary>" + x));
    LinesOfBroken(c, "</summary>" + x);
    LinesOfJoin(body);
  }

  /** The first line an expansion starts with has fewer dollars than the line, if a pattern is there. */
  lemma {:induction false} FirstLineLosesDollars(l: string, matched: string, body: seq<string>)
    requires OneLine(l) && Opens(matched, body) && forall i :: 0 <= i < |body| ==> OneLine(body[i])
    ensures var first := Lines(Expand(l, matched, "", ""))[0];
            Dollars(first) <= Dollars(l) && (!DollarSafe(l) ==> Dollars(first) < Dollars(l))
  {
    hide Lines, Opens;
    if |l| >= 2 && IsDollarPattern(l[0], l[1]) {
      var x := Expand(l[2..], matched, "", "");
      FirstLineLosesDollars(l[2..], matched, body);
      assert Dollars(l) >= 1 + Dollars(l[2..]) by { assert l[1..][1..] == l[2..]; }
      if l[1] == '$' {
        LinesOfPrefixed("$", x);
        assert ("$" + Lines(x)[0])[1..] == Lines(x)[0];
        assert Dollars(l) == 2 + Dollars(l[2..]) by { assert l[1..][1..] == l[2..]; }
      } else if l[1] == '&' {
        MatchedFirst(matched, body, x);
        assert Dollars("<summary>") == 0;
      } else {
        assert "" + x == x;
      }
    } else if l != "" {
      var x := Expand(l[1..], matched, "", "");
      FirstLineLosesDollars(l[1..], matched, body);
      UnsafeTail(l);
      LinesOfPrefixed([l[0]], x);
      assert ([l[0]] + Lines(x)[0])[1..] == Lines(x)[0];
    } else {
      LinesOfOne("");
    }
  }

  /** Without the match in it, the expansion of a line is a line. */
  lemma {:induction false} ExpandStaysOneLine(l: string, matched: string)
    requires OneLine(l) && !UsesMatch(l)
    ensures OneLine(Expand(l, matched, "", ""))
  {
    if |l| >= 2 && IsDollarPattern(l[0], l[1]) {
      ExpandStaysOneLine(l[2..], matched);
    } else if l != "" {
      ExpandStaysOneLine(l[1..], matched);
    }
  }

  /** With the match in it, a whole body follows the first line, which does not end in white space. */
  lemma {:induction false} ExpandHoldsBody(l: string, matched: string, body: seq<string>)
    returns (first: string, tail: seq<string>)
    requires OneLine(l) && UsesMatch(l) && Opens(matched, body) && forall i :: 0 <= i < |body| ==> OneLine(body[i])
    ensures Lines(Expand(l, matched, "", "")) == [first] + body + tail
    ensures first != "" && !IsSpace(first[|first| - 1])
  {
    hide Lines, Opens;
    if |l| >= 2 && IsDollarPattern(l[0], l[1]) {
      var x := Expand(l[2..], matched, "", "");
      if l[1] == '&' {
        MatchedFirst(matched, body, x);
        return "<summary>", Lines("</summary>" + x);
      }
      first, tail := ExpandHoldsBody(l[2..], matched, body);
      if l[1] == '$' {
        LinesOfPrefixed("$", x);
        assert Lines("$" + x) == ["$" + first] + body + tail;
        first := "$" + first;
      } else {
        assert "" + x == x;
      }
    } else {
      var x := Expand(l[1..], matched, "", "");
      first, tail := ExpandHoldsBody(l[1..], matched, body);
      LinesOfPrefixed([l[0]], x);
      assert Lines([l[0]] + x) == [[l[0]] + first] + body + tail;
      first := [l[0]] + first;
    }
  }

  // ----- Expanding many lines ----------------------------------------------

  function ExpandedLines(ls: seq<string>, matched: string): seq<string> {
    if ls == [] then [] else Lines(Expand(ls[0], matched, "", "")) + ExpandedLines(ls[1..], matched)
  }

  lemma {:induction false} ExpandBroken(a: string, b: string, matched: string, after: string)
    requires OneLine(a)
    ensures Expand(a + "\n" + b, matched, "", after) ==
            Expand(a, matched, "", after) + "\n" + Expand(b, matched, "", after)
    decreases |a|
  {
    hide Expand;
    if a == "" {
      ExpandBreak(b, matched, after);
    } else {
      var s, k := a + "\n" + b, if |a| >= 2 && IsDollarPattern(a[0], a[1]) then 2 else 1;
      ExpandBroken(a[k..], b, matched, after);
      ExpandStep(a, k, matched, after);
      ExpandStep(s, k, matched, after);
      assert s[..k] == a[..k] && s[k..] == a[k..] + "\n" + b;
      ConcatBroken(Expand(a[..k], matched, "", after), Expand(a[k..], matched, "", after), Expand(b, matched, "", after));
    }
  }

  lemma ExpandBreak(b: string, matched: string, after: string)
    ensures Expand("" + "\n" + b, matched, "", after) == Expand("", matched, "", after) + "\n" + Expand(b, matched, "", after)
  {
    assert ("" + "\n" + b)[1..] == b;
  }

  /** The first pattern or the first plain character expands on its own. */
  lemma ExpandStep(s: string, k: nat, matched: string, after: string)
    requires s != "" && k == if |s| >= 2 && IsDollarPattern(s[0], s[1]) then 2 else 1
    ensures Expand(s, matched, "", after) == Expand(s[..k], matched, "", after) + Expand(s[k..], matched, "", after)
  {
    assert s[..k][k..] == "";
  }

  lemma ConcatBroken(p: string, a: string, b: string)
    ensures p + (a + "\n" + b) == (p + a) + "\n" + b
  {}

  lemma {:induction false} LinesOfExpanded(ls: seq<string>, matched: string)
    requires ls != [] && forall i :: 0 <= i < |ls| ==> OneLine(ls[i])
    ensures Lines(Expand(JoinLines(ls), matched, "", "")) == ExpandedLines(ls, matched)
  {
    hide Lines, Expand;
    if |ls| == 1 {
      assert ExpandedLines(ls[1..], matched) == [];
    } else {
      ExpandBroken(ls[0], JoinLines(ls[1..]), matched, "");
      LinesOfBroken(Expand(ls[0], matched, "", ""), Expand(JoinLines(ls[1..]), matched, "", ""));
      LinesOfExpanded(ls[1..], matched);
    }
  }

  lemma {:induction false} ExpandedConcat(a: seq<string>, b: seq<string>, matched: string)
    ensures ExpandedLines(a + b, matched) == ExpandedLines(a, matched) + ExpandedLines(b, matched)
  {
    hide Lines, Expand;
    if a == [] {
      assert a + b == b;
    } else {
      assert (a + b)[1..] == a[1..] + b;
      ExpandedConcat(a[1..], b, matched);
    }
  }

  lemma {:induction false} SafeLinesUnchanged(ls: seq<string>, matched: string)
    requires forall i :: 0 <= i < |ls| ==> OneLine(ls[i]) && DollarSafe(ls[i])
    ensures ExpandedLines(ls, matched) == ls
  {
    hide Lines, Expand;
    if ls != [] {
      ExpandSafe(ls[0], matched, "", "");
      LinesOfOne(ls[0]);
      SafeLinesUnchanged(ls[1..], matched);
    }
  }

  // ----- Trailing white space does not matter to the parser ----------------

  lemma {:induction false} ParseEmptyLine(ls: seq<string>, inTimeline: bool)
    ensures Highlights(ls + [""]) == Highlights(ls) && Timeline(ls + [""], inTimeline) == Timeline(ls, inTimeline)
    decreases |ls|
  {
    if ls == [] {
      assert [""][1..] == [];
    } else {
      assert (ls + [""])[1..] == ls[1..] + [""];
      ParseEmptyLine(ls[1..], inTimeline);
      ParseEmptyLine(ls[1..], true);
    }
  }

  lemma {:induction false} ParseTrimmedLine(ls: seq<string>, a: string, b: string, inTimeline: bool)
    requires TrimEnd(a) == TrimEnd(b)
    ensures Highlights(ls + [a]) == Highlights(ls + [b]) && Timeline(ls + [a], inTimeline) == Timeline(ls + [b], inTimeline)
    decreases |ls|
  {
    hide TrimEnd;
    if ls == [] {
      assert [a][1..] == [] && [b][1..] == [];
    } else {
      assert (ls + [a])[1..] == ls[1..] + [a] && (ls + [b])[1..] == ls[1..] + [b];
      ParseTrimmedLine(ls[1..], a, b, inTimeline);
      ParseTrimmedLine(ls[1..], a, b, true);
    }
  }

  lemma {:induction false} LinesAppended(s: string, c: char)
    requires c != '\n'
    ensures var ls := Lines(s); Lines(s + [c]) == ls[..|ls| - 1] + [ls[|ls| - 1] + [c]]
  {
    if s == "" {
      assert s + [c] == [c] && "" + [c] == [c];
      LinesOfOne("");
      LinesOfOne([c]);
    } else {
      assert (s + [c])[1..] == s[1..] + [c];
      LinesAppended(s[1..], c);
      if s[0] != '\n' && |Lines(s[1..])| == 1 {
        assert [s[0]] + (Lines(s[1..])[0] + [c]) == [s[0]] + Lines(s[1..])[0] + [c];
      }
    }
  }

  lemma {:induction false} ParseTrimmed(s: string)
    ensures Highlights(Lines(TrimEnd(s))) == Highlights(Lines(s))
    ensures Timeline(Lines(TrimEnd(s)), false) == Timeline(Lines(s), false)
  {
    hide Lines, Highlights, Timeline;
    if s != "" && IsSpace(s[|s| - 1]) {
      var t, c := s[..|s| - 1], s[|s| - 1];
      assert s == t + [c];
      assert TrimEnd(s) == TrimEnd(t) by { TrimEndStep(t, c); }
      ParseTrimmed(t);
      if c == '\n' {
        assert t + "\n" + "" == s;
        LinesOfBroken(t, "");
        LinesOfOne("");
        ParseEmptyLine(Lines(t), false);
      } else {
        LinesAppended(t, c);
        var ls := Lines(t);
        TrimEndStep(ls[|ls| - 1], c);
        ParseTrimmedLine(ls[..|ls| - 1], ls[|ls| - 1], ls[|ls| - 1] + [c], false);
        assert ls == ls[..|ls| - 1] + [ls[|ls| - 1]];
      }
    } else {
      assert TrimEnd(s) == s;
    }
  }

  lemma TrimEndStep(t: string, c: char)
    requires IsSpace(c)
    ensures TrimEnd(t + [c]) == TrimEnd(t)
  {
    assert (t + [c])[..|t|] == t;
  }

  // ----- One line of a section ---------------------------------------------

  /** A line of a highlight section: an indented entry, or a heading without patterns. */
  ghost predicate SectionLine(l: string) {
    OneLine(l) && l != "" &&
    (l[0] == ' ' || (DollarSafe(l) && IsEntry(l) && !IsHeading(l) && l != TIMELINE))
  }

  lemma {:induction false} SafeUsesNoMatch(l: string)
    requires DollarSafe(l)
    ensures !UsesMatch(l)
  {
    if l != "" {
      assert |l| >= 2 ==> !IsDollarPattern(l[0], l[0 + 1]);
      forall i | 0 <= i && i + 1 < |l[1..]|
        ensures !IsDollarPattern(l[1..][i], l[1..][i + 1])
      {
        assert !IsDollarPattern(l[i + 1], l[i + 1 + 1]);
      }
      SafeUsesNoMatch(l[1..]);
    }
  }

  /** A line that starts with a space never reads as a heading unless it is blank. */
  lemma SpacedIsNoHeading(f: string)
    requires f != "" && f[0] == ' '
    ensures TrimEnd(f) != TIMELINE && (IsHeading(TrimEnd(f)) ==> TrimEnd(f) == "")
  {
    var t := TrimEnd(f);
    assert t != "" ==> t[0] == ' ';
    assert TIMELINE[0] == '-' && "Summary:"[0] == 'S' && "Conversation summary:"[0] == 'C';
  }

  lemma FirstCharKept(l: string, matched: string)
    requires l != "" && l[0] == ' '
    ensures var first := Lines(Expand(l, matched, "", ""))[0]; first != "" && first[0] == ' '
  {
    LinesOfPrefixed(" ", Expand(l[1..], matched, "", ""));
  }

  /** What one line without the match in it adds to the highlights. */
  lemma HighlightOfSingle(l: string, matched: string, rest: seq<string>) returns (entry: seq<string>)
    requires SectionLine(l) && !UsesMatch(l)
    ensures Highlights(Lines(Expand(l, matched, "", "")) + rest) == entry + Highlights(rest)
    ensures entry == [] || (entry == [TrimEnd(Expand(l, matched, "", ""))] && entry[0] != "")
  {
    hide Expand, TrimEnd;
    var e := Expand(l, matched, "", "");
    ExpandStaysOneLine(l, matched);
    LinesOfOne(e);
    if l[0] == ' ' {
      FirstCharKept(l, matched);
      SpacedIsNoHeading(e);
    } else {
      ExpandSafe(l, matched, "", "");
    }
    entry := if TrimEnd(e) == "" then [] else [TrimEnd(e)];
    assert ([e] + rest)[1..] == rest;
  }

  lemma SingleLosesDollars(l: string, matched: string, body: seq<string>)
    requires OneLine(l) && !UsesMatch(l) && Opens(matched, body) && forall i :: 0 <= i < |body| ==> OneLine(body[i])
    ensures var t := TrimEnd(Expand(l, matched, "", ""));
            Dollars(t) <= Dollars(l) && (!DollarSafe(l) ==> Dollars(t) < Dollars(l))
  {
    hide Expand;
    var e := Expand(l, matched, "", "");
    FirstLineLosesDollars(l, matched, body);
    ExpandStaysOneLine(l, matched);
    LinesOfOne(e);
    DollarsOfPrefix(e, |TrimEnd(e)|);
  }

  // ----- The highlight sections --------------------------------------------

  function AllDollars(ls: seq<string>): nat {
    if ls == [] then 0 else Dollars(ls[0]) + AllDollars(ls[1..])
  }

  ghost predicate AllSafe(ls: seq<string>) {
    forall i :: 0 <= i < |ls| ==> DollarSafe(ls[i])
  }

  /** Without the match in them, unsafe lines leave fewer dollars among the highlights. */
  lemma {:induction false} HighlightsOfSingles(ls: seq<string>, matched: string, body: seq<string>, rest: seq<string>)
    returns (out: seq<string>)
    requires Opens(matched, body) && forall i :: 0 <= i < |body| ==> OneLine(body[i])
    requires forall i :: 0 <= i < |ls| ==> SectionLine(ls[i]) && !UsesMatch(ls[i])
    ensures Highlights(ExpandedLines(ls, matched) + rest) == out + Highlights(rest)
    ensures AllDollars(out) <= AllDollars(ls) && (!AllSafe(ls) ==> AllDollars(out) < AllDollars(ls))
  {
    hide Expand, Lines, Highlights, TrimEnd, Opens, DollarSafe, SectionLine;
    if ls == [] {
      assert ExpandedLines(ls, matched) + rest == rest;
      return [];
    }
    var head, tail := Lines(Expand(ls[0], matched, "", "")), ExpandedLines(ls[1..], matched);
    assert head + tail + rest == head + (tail + rest);
    var more := HighlightsOfSingles(ls[1..], matched, body, rest);
    var entry := HighlightOfSingle(ls[0], matched, tail + rest);
    SectionLineIsOne(ls[0]);
    SingleLosesDollars(ls[0], matched, body);
    out := entry + more;
    if entry == [] {
      assert out == more;
    } else {
      assert out[0] == entry[0] && out[1..] == more;
    }
    if AllSafe(ls[1..]) && DollarSafe(ls[0]) {
      assert AllSafe(ls) by {
        assert forall i :: 0 < i < |ls| ==> ls[i] == ls[1..][i - 1];
      }
    }
  }

  lemma SectionLineIsOne(l: string)
    requires SectionLine(l)
    ensures OneLine(l) && l != ""
  {}

  /** With the match in one of them, the highlights hold a second copy of the sections. */
  lemma {:induction false} HighlightsOfMatch(ls: seq<string>, matched: string, body: seq<string>,
                                             sections: seq<string>, after: seq<string>, rest: seq<string>)
    requires Opens(matched, body) && forall i :: 0 <= i < |body| ==> OneLine(body[i])
    requires body == ["Conversation summary:"] + sections + after && AllEntries(sections)
    requires forall i :: 0 <= i < |ls| ==> SectionLine(ls[i])
    requires exists i :: 0 <= i < |ls| && UsesMatch(ls[i])
    ensures |Highlights(ExpandedLines(ls, matched) + rest)| > |sections|
  {
    hide Expand, Lines, Highlights, TrimEnd, Opens, SectionLine, UsesMatch, AllEntries;
    var head, tail := Lines(Expand(ls[0], matched, "", "")), ExpandedLines(ls[1..], matched);
    assert head + tail + rest == head + (tail + rest);
    SectionLineIsOne(ls[0]);
    if UsesMatch(ls[0]) {
      MatchDoublesSections(ls[0], matched, body, sections, after, tail + rest);
    } else {
      var i :| 0 <= i < |ls| && UsesMatch(ls[i]);
      assert ls[1..][i - 1] == ls[i];
      HighlightsOfMatch(ls[1..], matched, body, sections, after, rest);
      var entry := HighlightOfSingle(ls[0], matched, tail + rest);
    }
  }

  lemma MatchDoublesSections(l: string, matched: string, body: seq<string>,
                             sections: seq<string>, after: seq<string>, rest: seq<string>)
    requires Opens(matched, body) && forall i :: 0 <= i < |body| ==> OneLine(body[i])
    requires body == ["Conversation summary:"] + sections + after && AllEntries(sections)
    requires SectionLine(l) && UsesMatch(l)
    ensures |Highlights(Lines(Expand(l, matched, "", "")) + rest)| > |sections|
  {
    hide Expand, Lines, Opens, AllEntries, UsesMatch;
    var first, tail := ExpandHoldsBody(l, matched, body);
    if l[0] != ' ' {
      SafeUsesNoMatch(l);
    }
    FirstCharKept(l, matched);
    SpacedIsNoHeading(first);
    TrimFixedEnd(first);
    var more := after + tail + rest;
    assert [first] + body + tail + rest == [first] + (["Conversation summary:"] + (sections + more));
    HighlightAfterFirst(first, sections + more);
    HighlightsConcat(sections, more);
  }

  lemma TrimFixedEnd(s: string)
    requires s != "" && !IsSpace(s[|s| - 1])
    ensures TrimEnd(s) == s
  {}

  lemma HighlightAfterFirst(first: string, rest: seq<string>)
    requires first != "" && TrimEnd(first) == first && !IsHeading(first) && first != TIMELINE
    ensures Highlights([first] + (["Conversation summary:"] + rest)) == [first] + Highlights(rest)
  {
    var title := "Conversation summary:";
    TitleIsHeading();
    HeadingSkipped(title, rest);
    assert ([first] + ([title] + rest))[1..] == [title] + rest;
  }

  // ----- The timeline ------------------------------------------------------

  /** A timeline reads back only if its lines are safe. */
  lemma {:induction false} TimelineReadsBack(ls: seq<string>, matched: string, body: seq<string>)
    requires Opens(matched, body) && forall i :: 0 <= i < |body| ==> OneLine(body[i])
    requires forall i :: 0 <= i < |ls| ==> IsEntry(ls[i]) && ls[i][0] == ' '
    requires Timeline(ExpandedLines(ls, matched), true) == ls
    ensures AllSafe(ls)
  {
    hide Expand, Lines, Opens;
    if ls != [] {
      var head := Lines(Expand(ls[0], matched, "", ""));
      var tail := ExpandedLines(ls[1..], matched);
      var first := head[0];
      FirstLineLosesDollars(ls[0], matched, body);
      FirstCharKept(ls[0], matched);
      SpacedIsNoHeading(first);
      DollarsOfPrefix(first, |TrimEnd(first)|);
      assert (head + tail)[0] == first;
      assert DollarSafe(ls[0]);
      ExpandSafe(ls[0], matched, "", "");
      LinesOfOne(ls[0]);
      assert (head + tail)[1..] == tail;
      TimelineReadsBack(ls[1..], matched, body);
      assert forall i :: 0 < i < |ls| ==> ls[i] == ls[1..][i - 1];
    }
  }

  // ----- The whole text ----------------------------------------------------

  /** No line but perhaps the first is empty. */
  predicate FilledAfterFirst(ls: seq<string>) {
    forall i :: 1 <= i < |ls| ==> ls[i] != ""
  }

  lemma FilledPrefixed(a: string, s: string)
    requires OneLine(a) && FilledAfterFirst(Lines(s))
    ensures FilledAfterFirst(Lines(a + s))
    ensures a != "" ==> Lines(a + s)[0] != ""
  {
    LinesOfPrefixed(a, s);
  }

  /** After its first line, the expansion of a line has no empty lines. */
  lemma {:induction false} ExpansionFilled(l: string, matched: string, body: seq<string>)
    requires OneLine(l) && Opens(matched, body)
    requires forall i :: 0 <= i < |body| ==> OneLine(body[i]) && body[i] != ""
    ensures FilledAfterFirst(Lines(Expand(l, matched, "", "")))
  {
    hide Lines, Opens, FilledAfterFirst;
    if |l| >= 2 && IsDollarPattern(l[0], l[1]) {
      var x := Expand(l[2..], matched, "", "");
      ExpansionFilled(l[2..], matched, body);
      if l[1] == '$' {
        FilledPrefixed("$", x);
      } else if l[1] == '&' {
        MatchedFirst(matched, body, x);
        FilledPrefixed("</summary>", x);
        FilledBody(body, Lines("</summary>" + x));
      } else {
        assert "" + x == x;
      }
    } else if l != "" {
      ExpansionFilled(l[1..], matched, body);
      FilledPrefixed([l[0]], Expand(l[1..], matched, "", ""));
    } else {
      LinesOfOne("");
      FilledBody([], []);
    }
  }

  lemma FilledBody(body: seq<string>, tail: seq<string>)
    requires forall i :: 0 <= i < |body| ==> body[i] != ""
    requires tail != [] ==> tail[0] != "" && FilledAfterFirst(tail)
    ensures FilledAfterFirst(["<summary>"] + body + tail) && FilledAfterFirst([""])
  {}

  lemma {:induction false} ExpandedFilled(ls: seq<string>, matched: string, body: seq<string>)
    requires Opens(matched, body) && forall i :: 0 <= i < |body| ==> OneLine(body[i]) && body[i] != ""
    requires forall i :: 0 <= i < |ls| ==> OneLine(ls[i]) && ls[i] != "" && (ls[i][0] == ' ' || DollarSafe(ls[i]))
    ensures forall l :: l in ExpandedLines(ls, matched) ==> l != ""
  {
    hide Lines, Opens, Expand, DollarSafe;
    if ls != [] {
      ExpandedFilled(ls[1..], matched, body);
      ExpansionFilled(ls[0], matched, body);
      if ls[0][0] == ' ' {
        FirstCharKept(ls[0], matched);
      } else {
        ExpandSafe(ls[0], matched, "", "");
        LinesOfOne(ls[0]);
      }
    }
  }

  /** Formatting an expanded text whose lines are filled only trims its end. */
  lemma FormatExpanded(x: string)
    requires x != "" && !IsSpace(x[0]) && forall l :: l in Lines(x) ==> l != ""
    ensures Highlights(Lines(Trim(CollapseBreaks(x)))) == Highlights(Lines(x))
    ensures Timeline(Lines(Trim(CollapseBreaks(x))), false) == Timeline(Lines(x), false)
  {
    hide Highlights, Timeline, Lines, CollapseBreaks;
    JoinOfLines(x);
    assert forall i :: 0 <= i < |Lines(x)| ==> Lines(x)[i] in Lines(x);
    JoinHasNoGap(Lines(x));
    CollapseFixed(x);
    assert TrimStart(x) == x;
    ParseTrimmed(x);
  }

  /** The lines of the merged text before it is parsed. */
  lemma MergedLines(previous: seq<string>, added: seq<string>, timeline: seq<string>)
    requires Mergeable(previous, added, timeline) && AllNoClose(previous) && AllNoClose(added) && AllNoClose(timeline)
    requires Inert(previous + added + timeline)
    ensures var body := Body(previous, added, timeline);
            var text := FormatCompactSummary(Wrapped(body));
            var lines := ExpandedLines(["Summary:"] + body, Wrapped(body));
            Highlights(Lines(text)) == Highlights(lines) && Timeline(Lines(text), false) == Timeline(lines, false)
  {
    hide FormatCompactSummary, Expand, CollapseBreaks, Highlights, Timeline, Lines, Trim, Body, Wrapped, BodyLines;
    var body := Body(previous, added, timeline);
    var full := ["Summary:"] + body;
    var matched := Wrapped(body);
    BodyIsBodyLines(previous, added, timeline);
    FormatWrapped(body);
    JoinSummary(body);
    FullLines(previous, added, timeline);
    LinesOfExpanded(full, matched);
    WrappedOpens(body);
    ExpandedFilled(full, matched, body);
    var x := Expand(JoinLines(full), matched, "", "");
    StartsWithHeading(body, matched);
    FormatExpanded(x);
  }

  lemma JoinSummary(body: seq<string>)
    requires BodyLines(body)
    ensures body != [] && JoinLines(["Summary:"] + body) == "Summary:\n" + JoinLines(body)
  {
    JoinConcat(["Summary:"], body);
    assert "Summary:\n" == "Summary:" + "\n";
  }

  lemma WrappedOpens(body: seq<string>)
    requires BodyLines(body)
    ensures Opens(Wrapped(body), body)
    ensures forall i :: 0 <= i < |body| ==> OneLine(body[i]) && body[i] != ""
  {
    var c := JoinLines(body);
    WrappedLayout(body);
    assert "<summary>\n" == "<summary>" + "\n" && "\n</summary>" == "\n" + "</summary>";
    assert "<summary>\n" + c + "\n</summary>" == "<summary>" + "\n" + (c + "\n" + "</summary>");
  }

  lemma StartsWithHeading(body: seq<string>, matched: string)
    requires body != []
    ensures var x := Expand(JoinLines(["Summary:"] + body), matched, "", ""); x != "" && x[0] == 'S'
  {
    JoinConcat(["Summary:"], body);
    var s := JoinLines(["Summary:"] + body);
    assert s == "Summary:" + "\n" + JoinLines(body);
    assert s[0] == "Summary:"[0] == 'S';
  }

  lemma FullLines(previous: seq<string>, added: seq<string>, timeline: seq<string>)
    requires Mergeable(previous, added, timeline)
    ensures var full := ["Summary:"] + Body(previous, added, timeline);
            forall i :: 0 <= i < |full| ==> OneLine(full[i]) && full[i] != "" && (full[i][0] == ' ' || DollarSafe(full[i]))
  {
    hide DollarSafe;
    SafeHeadings();
    assert forall i :: 0 <= i < |previous| ==> IsEntry(previous[i]);
  }

  lemma SafeHeadings()
    ensures DollarSafe("Summary:") && OneLine("Summary:")
    ensures DollarSafe("Conversation summary:") && OneLine("Conversation summary:")
    ensures DollarSafe(PREVIOUSLY) && OneLine(PREVIOUSLY) && DollarSafe(NEWLY) && OneLine(NEWLY)
    ensures DollarSafe(TIMELINE) && OneLine(TIMELINE)
  {
    TitleIsPlain();
    PreviouslyIsPlain();
    NewlyIsPlain();
    TimelineIsPlain();
    assert '$' !in "Summary:" && '\n' !in "Summary:";
  }

  // ----- Both directions ---------------------------------------------------

  /** The merged text reads back as the sections that were put into it. */
  ghost predicate ReadsBack(text: string, previous: seq<string>, added: seq<string>, timeline: seq<string>) {
    && HighlightsOf(text) == Section(PREVIOUSLY, previous) + Section(NEWLY, added)
    && TimelineOf(text) == Indent(timeline)
  }

  lemma SectionLines(previous: seq<string>, added: seq<string>)
    requires forall i :: 0 <= i < |previous| ==> IsEntry(previous[i])
    requires forall i :: 0 <= i < |added| ==> IsEntry(added[i])
    ensures var ls := Section(PREVIOUSLY, previous) + Section(NEWLY, added);
            forall i :: 0 <= i < |ls| ==> SectionLine(ls[i])
  {
    hide DollarSafe, TrimEnd, IsHeading;
    SafeHeadings();
    PreviouslyIsPlain();
    NewlyIsPlain();
  }

  lemma SafeIndent(ls: seq<string>)
    ensures AllSafe(Indent(ls)) ==> AllSafe(ls)
  {
    forall k | AllSafe(Indent(ls)) && 0 <= k < |ls|
      ensures DollarSafe(ls[k])
    {
      var l, t := ls[k], Indent(ls)[k];
      assert DollarSafe(t);
      forall i | 0 <= i && i + 1 < |l|
        ensures !IsDollarPattern(l[i], l[i + 1])
      {
        assert t[i + 2] == l[i] && t[i + 2 + 1] == l[i + 1];
      }
    }
  }

  lemma SafeSections(previous: seq<string>, added: seq<string>)
    requires AllSafe(Section(PREVIOUSLY, previous) + Section(NEWLY, added))
    ensures AllSafe(previous) && AllSafe(added)
  {
    hide DollarSafe;
    var a, b := Section(PREVIOUSLY, previous), Section(NEWLY, added);
    assert forall i :: 0 <= i < |a| ==> a[i] == (a + b)[i];
    assert forall i :: 0 <= i < |b| ==> b[i] == (a + b)[|a| + i];
    assert previous != [] ==> forall i :: 0 <= i < |previous| ==> Indent(previous)[i] == a[1 + i];
    assert added != [] ==> forall i :: 0 <= i < |added| ==> Indent(added)[i] == b[1 + i];
    SafeIndent(previous);
    SafeIndent(added);
  }

  /** If the sections read back, no line of them holds a pattern. */
  lemma HighlightsForceSafe(previous: seq<string>, added: seq<string>, timeline: seq<string>, matched: string)
    requires Mergeable(previous, added, timeline) && Opens(matched, Body(previous, added, timeline))
    requires forall i :: 0 <= i < |Body(previous, added, timeline)| ==> OneLine(Body(previous, added, timeline)[i])
    requires var sections := Section(PREVIOUSLY, previous) + Section(NEWLY, added);
             Highlights(ExpandedLines(sections, matched) + ExpandedLines(Section(TIMELINE, timeline), matched)) == sections
    ensures AllSafe(Section(PREVIOUSLY, previous) + Section(NEWLY, added))
  {
    hide DollarSafe, TrimEnd, IsHeading, Expand, Lines, Highlights, SectionLine, Opens, UsesMatch, Section;
    var sections := Section(PREVIOUSLY, previous) + Section(NEWLY, added);
    var tail := Section(TIMELINE, timeline);
    var body := Body(previous, added, timeline);
    SectionLines(previous, added);
    if exists i :: 0 <= i < |sections| && UsesMatch(sections[i]) {
      SectionsAreEntries(previous, added);
      assert body == ["Conversation summary:"] + sections + tail;
      HighlightsOfMatch(sections, matched, body, sections, tail, ExpandedLines(tail, matched));
    } else {
      var out := HighlightsOfSingles(sections, matched, body, ExpandedLines(tail, matched));
      NoHighlightsInTimeline(timeline, matched);
      assert out + [] == out;
    }
  }

  lemma NoHighlightsInTimeline(timeline: seq<string>, matched: string)
    ensures Highlights(ExpandedLines(Section(TIMELINE, timeline), matched)) == []
    ensures Timeline(ExpandedLines(Section(TIMELINE, timeline), matched), false) ==
            Timeline(ExpandedLines(Indent(timeline), matched), true)
  {
    hide Expand, DollarSafe;
    if timeline != [] {
      var ls := Section(TIMELINE, timeline);
      SafeHeadings();
      ExpandSafe(TIMELINE, matched, "", "");
      LinesOfOne(TIMELINE);
      TimelineIsPlain();
      HeadingLengths();
      assert ls[0] == TIMELINE && ls[1..] == Indent(timeline);
      var rest := ExpandedLines(Indent(timeline), matched);
      assert ExpandedLines(ls, matched) == [TIMELINE] + rest;
      assert ([TIMELINE] + rest)[1..] == rest;
    }
  }

  /** The parsed lines of the merge, section by section. */
  lemma MergedSections(previous: seq<string>, added: seq<string>, timeline: seq<string>, matched: string)
    ensures var sections := Section(PREVIOUSLY, previous) + Section(NEWLY, added);
            var tail := Section(TIMELINE, timeline);
            var lines := ExpandedLines(["Summary:"] + Body(previous, added, timeline), matched);
            var rest := ExpandedLines(sections, matched) + ExpandedLines(tail, matched);
            Highlights(lines) == Highlights(rest) && Timeline(lines, false) == Timeline(rest, false)
  {
    hide DollarSafe, Expand, Lines, Highlights, Timeline, Section;
    var sections := Section(PREVIOUSLY, previous) + Section(NEWLY, added);
    var tail := Section(TIMELINE, timeline);
    var title := ["Summary:", "Conversation summary:"];
    BodyLayout(previous, added, timeline);
    ExpandedConcat(title, sections + tail, matched);
    ExpandedConcat(sections, tail, matched);
    SafeHeadings();
    SafeLinesUnchanged(title, matched);
    TitleLinesSkipped(ExpandedLines(sections, matched) + ExpandedLines(tail, matched));
  }

  /** Reading back forces every carried line to be free of patterns. */
  lemma ReadBackForcesSafe(previous: seq<string>, added: seq<string>, timeline: seq<string>)
    requires Mergeable(previous, added, timeline) && AllNoClose(previous) && AllNoClose(added) && AllNoClose(timeline)
    requires Inert(previous + added + timeline)
    requires ReadsBack(Wrapped(Body(previous, added, timeline)), previous, added, timeline)
    ensures AllSafe(previous) && AllSafe(added) && AllSafe(timeline)
  {
    hide FormatCompactSummary, DollarSafe, Expand, Lines, Highlights, Timeline, Section, Wrapped, BodyLines, Opens, IsEntry;
    var body := Body(previous, added, timeline);
    var matched := Wrapped(body);
    var sections := Section(PREVIOUSLY, previous) + Section(NEWLY, added);
    BodyIsBodyLines(previous, added, timeline);
    WrappedOpens(body);
    MergedLines(previous, added, timeline);
    MergedSections(previous, added, timeline, matched);
    HighlightsForceSafe(previous, added, timeline, matched);
    SafeSections(previous, added);
    SectionsAreEntries(previous, added);
    SectionsUnchanged(sections, matched);
    EntriesAreNotTimeline(sections);
    TimelineSkips(sections, ExpandedLines(Section(TIMELINE, timeline), matched));
    NoHighlightsInTimeline(timeline, matched);
    IndentedLines(timeline);
    TimelineReadsBack(Indent(timeline), matched, body);
    SafeIndent(timeline);
  }

  lemma SectionsUnchanged(sections: seq<string>, matched: string)
    requires AllEntries(sections) && AllSafe(sections)
    ensures ExpandedLines(sections, matched) == sections
  {
    hide DollarSafe, TrimEnd;
    SafeLinesUnchanged(sections, matched);
  }

  lemma IndentedLines(ls: seq<string>)
    requires forall i :: 0 <= i < |ls| ==> IsEntry(ls[i])
    ensures forall i :: 0 <= i < |Indent(ls)| ==> IsEntry(Indent(ls)[i]) && Indent(ls)[i][0] == ' '
  {
    hide IsHeading;
    IndentEntries(ls);
  }

  /**
   * A merge of lines without tags reads back, old and new highlights and the new timeline alike,
   * if and only if none of the carried lines holds a `$` pattern.
   */
  lemma MergeReadsBackIff(existing: string, newSummary: string)
    requires existing != ""
    requires Inert(Carried(existing, newSummary))
    requires var formatted := FormatCompactSummary(newSummary);
             AllNoClose(HighlightsOf(existing)) && AllNoClose(HighlightsOf(formatted)) && AllNoClose(TimelineOf(formatted))
    ensures var formatted := FormatCompactSummary(newSummary);
            var previous, added, timeline := HighlightsOf(existing), HighlightsOf(formatted), TimelineOf(formatted);
            ReadsBack(Merged(Some(existing), newSummary), previous, added, timeline) <==>
            AllSafe(previous) && AllSafe(added) && AllSafe(timeline)
  {
    hide FormatCompactSummary, HighlightsOf, TimelineOf, DollarSafe, NoClose, Section, Body, Wrapped, Indent;
    var formatted := FormatCompactSummary(newSummary);
    var previous, added, timeline := HighlightsOf(existing), HighlightsOf(formatted), TimelineOf(formatted);
    ExtractedIsMergeable(existing, formatted);
    if AllSafe(previous) && AllSafe(added) && AllSafe(timeline) {
      MergeRoundTrip(existing, newSummary);
    } else if ReadsBack(Merged(Some(existing), newSummary), previous, added, timeline) {
      ReadBackForcesSafe(previous, added, timeline);
    }
  }

  /** A concrete loss: the highlight `$$` does not come back from a merge. */
  lemma MergeCanAlterText()
    ensures exists existing, newSummary :: existing != "" && HighlightsOf(existing) == []
              && HighlightsOf(FormatCompactSummary(newSummary)) == [newSummary]
              && !ReadsBack(Merged(Some(existing), newSummary), [], [newSummary], [])
  {
    hide FormatCompactSummary, HighlightsOf, TimelineOf, ReadsBack, Merged;
    LossAt("Summary:", "$$");
  }

  lemma LossAt(existing: string, price: string)
    requires existing == "Summary:" && price == "$$"
    ensures HighlightsOf(existing) == [] && HighlightsOf(FormatCompactSummary(price)) == [price]
    ensures !ReadsBack(Merged(Some(existing), price), [], [price], [])
  {
    hide FormatCompactSummary, HighlightsOf, TimelineOf, ReadsBack, Merged;
    HeadingReadsEmpty(existing);
    PriceReadsBack(price);
    NoMatchWithoutFirst(price, "</summary>");
    NoMatchWithoutFirst(price, "<analysis>");
    MergeReadsBackIff(existing, price);
    assert IsDollarPattern(price[0], price[0 + 1]);
    assert !DollarSafe([price][0]);
  }
}
