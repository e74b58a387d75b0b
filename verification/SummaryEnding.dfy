/**
 * A merged summary whose body holds a closing tag (src/compact-summary.ts): the summary ends
 * there, and the rest of the text is left over, with the real closing tag as its last line. What
 * formatting makes of such a text, whatever `$` patterns it holds, and what parsing hands out.
 */
module SummaryEnding {
  import opened Messages
  import opened JsStrings
  import opened CompactSummary
  import opened SummaryDollars

  const CLOSE := "</summary>"

  // ----- Where the summary ends --------------------------------------------

  /** The first match in a text is the first one in its first line that has any. */
  lemma FirstMatchInLine(head: string, line: string, rest: string, pat: string)
    requires pat != "" && OneLine(pat) && !Contains(head, pat) && IndexOf(line, pat) >= 0
    ensures IndexOf(head + "\n" + (line + "\n" + rest), pat) == |head| + 1 + IndexOf(line, pat)
  {
    hide IndexOf;
    var tail := line + "\n" + rest;
    var text, k := head + "\n" + tail, IndexOf(line, pat);
    assert text[|head| + 1 + k..|head| + 1 + k + |pat|] == line[k..k + |pat|];
    assert MatchesAt(text, pat, |head| + 1 + k);
    forall j | MatchesAt(text, pat, j)
      ensures j >= |head| + 1 + k
    {
      MatchInConcat(head, tail, pat, j);
      MatchInConcat(line, rest, pat, j - |head| - 1);
    }
  }

  /** Formatting a text that ends before its last closing tag: what follows the first one stays. */
  lemma FormatClosed(text: string, content: string, after: string)
    requires NoAnalysis(text) && text == "<summary>" + content + CLOSE + after
    requires IndexOf(text, "<summary>") == 0 && IndexOf(text, CLOSE) == 9 + |content|
    ensures var matched := "<summary>" + content + CLOSE;
            FormatCompactSummary(text) ==
            Trim(CollapseBreaks(Expand("Summary:\n" + Trim(content), matched, "", after) + after))
  {
    hide Expand, CollapseBreaks, Trim, IndexOf;
    var matched, repl := "<summary>" + content + CLOSE, "Summary:\n" + Trim(content);
    assert ExtractTag(text, "<summary>", CLOSE) == Some(content) by {
      assert text[9..9 + |content|] == content;
    }
    IndexOfPrefix(matched, after);
    assert text == matched + after && text[|matched|..] == after && text[..0] == "";
    var expanded := Expand(repl, matched, "", after);
    assert StripTag(text, "<analysis>", "</analysis>") == text;
    assert ReplaceFirst(text, matched, repl) == "" + expanded + after == expanded + after;
  }

  lemma TrimEndIs(t: string, spaces: string)
    requires t != "" && !IsSpace(t[|t| - 1]) && AllSpace(spaces)
    ensures TrimEnd(t + spaces) == t
  {
    var s := t + spaces;
    assert s[|t| - 1] == t[|t| - 1] && s[..|t|] == t;
    assert LengthTrimmed(s) == |t|;
  }

  /** The content up to a tag, trimmed: a last line of white space goes, and its break with it. */
  lemma TrimContent(lines: string, u: string)
    requires lines != "" && !IsSpace(lines[0]) && !IsSpace(lines[|lines| - 1])
    ensures Trim("\n" + lines + "\n" + u) == if AllSpace(u) then lines else lines + "\n" + TrimEnd(u)
  {
    hide TrimEnd, LengthTrimmed;
    var s := "\n" + lines + "\n" + u;
    var inner := lines + "\n" + u;
    assert s[1..] == inner && inner[0] == lines[0];
    assert LeadingSpaces(inner) == 0 && LeadingSpaces(s) == 1;
    assert TrimStart(s) == inner;
    if AllSpace(u) {
      assert inner == lines + ("\n" + u);
      TrimEndIs(lines, "\n" + u);
    } else {
      var t := TrimEnd(u);
      TrimEndFilled(u);
      assert u == t + u[|t|..];
      assert inner == (lines + "\n" + t) + u[|t|..];
      TrimEndIs(lines + "\n" + t, u[|t|..]);
    }
  }

  lemma TrimEndFilled(u: string)
    ensures TrimEnd(u) == "" <==> AllSpace(u)
  {
    var t := TrimEnd(u);
    assert u == t + u[|t|..];
    if t != "" {
      assert u[|t| - 1] == t[|t| - 1];
    }
  }

  // ----- The ended summary -------------------------------------------------

  /** A line, neither blank nor broken, as the body of a merge has it. */
  ghost predicate BodyLine(l: string) {
    IsEntry(l) && (l[0] == ' ' || l in ["Conversation summary:", PREVIOUSLY, NEWLY, TIMELINE])
  }

  /** A body whose first closing tag stands between `u` and `v`, after the lines `pre`. */
  datatype Ended = Ended(pre: seq<string>, u: string, v: string, post: seq<string>) {
    ghost predicate Valid() {
      && pre != [] && pre[0] == "Conversation summary:" && u != "" && u[0] == ' '
      && OneLine(u) && OneLine(v) && (v != "" ==> !IsSpace(v[|v| - 1]))
      && (forall i :: 0 <= i < |pre| ==> BodyLine(pre[i]))
      && (forall i :: 0 <= i < |post| ==> BodyLine(post[i]))
    }

    function Content(): string {
      "\n" + JoinLines(pre) + "\n" + u
    }

    function Matched(): string {
      "<summary>" + Content() + CLOSE
    }

    function After(): string {
      v + "\n" + JoinLines(post + [CLOSE])
    }

    /** What becomes of a part of the replacement text at the end of the formatted text. */
    function Out(r: string): string {
      Expand(r, Matched(), "", After()) + After()
    }

    /** The lines the replacement text keeps of the content. */
    ghost function Kept(): seq<string> {
      if AllSpace(u) then pre else pre + [TrimEnd(u)]
    }
  }

  lemma LinesOfAfter(e: Ended, x: string, y: string)
    requires e.Valid() && OneLine(x)
    ensures Lines(x + (e.After() + y)) == [x + e.v] + e.post + [CLOSE + Lines(y)[0]] + Lines(y)[1..]
  {
    hide Lines, JoinLines, IsEntry;
    var joined := JoinLines(e.post + [CLOSE]);
    assert x + (e.After() + y) == (x + e.v) + "\n" + (joined + y);
    LinesOfCons(x + e.v, joined + y);
    JoinOne(CLOSE);
    LinesOfPrefixed(CLOSE, y);
    if e.post == [] {
      assert e.post + [CLOSE] == [CLOSE];
    } else {
      JoinConcat(e.post, [CLOSE]);
      assert joined + y == JoinLines(e.post) + "\n" + (CLOSE + y);
      LinesOfBroken(JoinLines(e.post), CLOSE + y);
      BodyLinesFilled(e.post);
      LinesOfJoin(e.post);
    }
  }

  lemma LinesOfMatched(e: Ended, x: string, y: string)
    requires e.Valid() && OneLine(x)
    ensures Lines(x + (e.Matched() + y)) == [x + "<summary>"] + e.pre + [e.u + CLOSE + Lines(y)[0]] + Lines(y)[1..]
  {
    hide Lines, JoinLines, IsEntry;
    var joined, last := JoinLines(e.pre), e.u + CLOSE;
    assert x + (e.Matched() + y) == (x + "<summary>") + "\n" + (joined + "\n" + (last + y));
    LinesOfCons(x + "<summary>", joined + "\n" + (last + y));
    LinesOfBroken(joined, last + y);
    LinesOfPrefixed(last, y);
    BodyLinesFilled(e.pre);
    LinesOfJoin(e.pre);
  }

  lemma BodyLinesFilled(ls: seq<string>)
    requires forall i :: 0 <= i < |ls| ==> BodyLine(ls[i])
    ensures forall i :: 0 <= i < |ls| ==> ls[i] != "" && OneLine(ls[i])
  {}

  /** The first pattern or plain character of a part comes out on its own. */
  lemma OutStep(e: Ended, r: string)
    requires r != ""
    ensures e.Out(r) ==
            if |r| >= 2 && IsDollarPattern(r[0], r[1]) then
              (match r[1]
               case '$' => "$"
               case '&' => e.Matched()
               case '`' => ""
               case _ => e.After()) + e.Out(r[2..])
            else [r[0]] + e.Out(r[1..])
  {
    var m, a := e.Matched(), e.After();
    var k := if |r| >= 2 && IsDollarPattern(r[0], r[1]) then 2 else 1;
    var rest := Expand(r[k..], m, "", a);
    var piece := if k == 1 then [r[0]] else match r[1] case '$' => "$" case '&' => m case '`' => "" case _ => a;
    assert Expand(r, m, "", a) == piece + rest;
    assert piece + rest + a == piece + (rest + a);
  }

  /** Lines come out one after the other. */
  lemma OutBroken(e: Ended, l: string, r: string)
    requires OneLine(l)
    ensures e.Out(l + "\n" + r) == Expand(l, e.Matched(), "", e.After()) + "\n" + e.Out(r)
  {
    hide Expand;
    ExpandBroken(l, r, e.Matched(), e.After());
    var x, y, a := Expand(l, e.Matched(), "", e.After()), Expand(r, e.Matched(), "", e.After()), e.After();
    assert x + "\n" + y + a == x + "\n" + (y + a);
  }

  // ----- Reading what comes out --------------------------------------------

  /** Not blank, and on one line. */
  ghost predicate Solid(l: string) {
    OneLine(l) && !AllSpace(l)
  }

  ghost predicate AllSolid(ls: seq<string>) {
    forall i :: 0 <= i < |ls| ==> Solid(ls[i])
  }

  lemma BodyLineIsSolid(l: string)
    requires BodyLine(l)
    ensures Solid(l)
  {
    assert l[|TrimEnd(l)| - 1] == TrimEnd(l)[|TrimEnd(l)| - 1];
  }

  /** Some line starts with a tag; no line that a merge puts in does. */
  ghost predicate Marked(ls: seq<string>) {
    exists l :: l in ls && l != "" && l[0] == '<'
  }

  /** Parsing hands out a line that starts with a tag. */
  ghost predicate Exposed(ls: seq<string>) {
    Marked(Highlights(ls)) || Marked(Timeline(ls, false))
  }

  predicate IsTag(c: string) {
    |c| >= |CLOSE| && c[..|CLOSE|] == CLOSE
  }

  lemma TagStands(c: string)
    requires IsTag(c)
    ensures var t := TrimEnd(c); t != "" && t[0] == '<' && !IsHeading(t) && t != TIMELINE
  {
    assert c[0] == CLOSE[0] == '<' && !IsSpace(c[0]);
    TrimEndFilled(c);
    assert TIMELINE[0] == '-' && "Summary:"[0] == 'S' && "Conversation summary:"[0] == 'C';
  }

  /** A tag among the lines a parser sees, with no blank line before it, is handed out. */
  lemma {:induction false} TagShows(ls: seq<string>, c: string, rest: seq<string>)
    requires AllSolid(ls) && IsTag(c)
    ensures Marked(Timeline(ls + [c] + rest, true)) && Exposed(ls + [c] + rest)
  {
    hide TrimEnd, IsTag;
    var all := ls + [c] + rest;
    if ls == [] {
      TagStands(c);
      assert all[0] == c;
    } else {
      TrimEndFilled(ls[0]);
      assert all[1..] == ls[1..] + [c] + rest;
      TagShows(ls[1..], c, rest);
      MarkedLater([TrimEnd(ls[0])], Highlights(all[1..]));
      MarkedLater([TrimEnd(ls[0])], Timeline(all[1..], true));
    }
  }

  lemma MarkedLater(a: seq<string>, b: seq<string>)
    ensures Marked(b) ==> Marked(a + b)
    ensures Marked(a) ==> Marked(a + b)
  {
    if l :| l in b && l != "" && l[0] == '<' {
      assert l in a + b;
    }
    if l :| l in a && l != "" && l[0] == '<' {
      assert l in a + b;
    }
  }

  /** Lines that are not the timeline heading in front hide nothing. */
  lemma {:induction false} StillExposed(ls: seq<string>, rest: seq<string>)
    requires forall i :: 0 <= i < |ls| ==> TrimEnd(ls[i]) != TIMELINE
    ensures Exposed(rest) ==> Exposed(ls + rest)
    ensures Marked(Highlights(rest)) ==> Marked(Highlights(ls + rest))
  {
    hide TrimEnd, IsHeading;
    if ls == [] {
      assert ls + rest == rest;
    } else {
      assert (ls + rest)[1..] == ls[1..] + rest;
      StillExposed(ls[1..], rest);
      MarkedLater([TrimEnd(ls[0])], Highlights(ls[1..] + rest));
    }
  }

  // ----- Every line but the first ------------------------------------------

  /** A line that nothing in it can make the timeline heading, whatever its patterns become. */
  predicate OffTimeline(r: string) {
    r != "" && (r[0] == ' ' || r[0] == 'C' || (|r| >= 3 && r[..2] == "- " && (r[2] == 'P' || r[2] == 'N')))
  }

  /** After every break of a part comes a plain character, and off the timeline if asked. */
  ghost predicate GoodBreaks(r: string, off: bool) {
    forall k :: 0 <= k < |r| && r[k] == '\n' ==>
      k + 1 < |r| && r[k + 1] != '\n' && r[k + 1] != '$' && (off ==> OffTimeline(r[k + 1..]))
  }

  lemma GoodBreaksLater(r: string, k: nat, off: bool)
    requires k <= |r| && GoodBreaks(r, off)
    ensures GoodBreaks(r[k..], off)
  {
    forall i | 0 <= i < |r[k..]| && r[k..][i] == '\n'
      ensures i + 1 < |r[k..]| && r[k..][i + 1] != '\n' && r[k..][i + 1] != '$'
      ensures off ==> OffTimeline(r[k..][i + 1..])
    {
      assert r[k + i] == '\n';
      assert r[k..][i + 1..] == r[k + i + 1..];
    }
  }

  /** The first line of what comes out of a part that starts off the timeline. */
  lemma FirstLineOff(e: Ended, r: string)
    requires r != "" && r[0] != '\n' && r[0] != '$'
    ensures var first := Lines(e.Out(r))[0]; first != "" && (OffTimeline(r) ==> TrimEnd(first) != TIMELINE)
  {
    hide Lines, Expand, TrimEnd;
    OutStep(e, r);
    LinesOfPrefixed([r[0]], e.Out(r[1..]));
    var first := Lines(e.Out(r))[0];
    if OffTimeline(r) && r[0] == '-' {
      OutStep(e, r[1..]);
      OutStep(e, r[2..]);
      assert r[1..][1..] == r[2..] && r[1] == r[..2][1] == ' ' && r[0] == r[..2][0];
      assert r[1..][0] == r[1] && r[2..][0] == r[2];
      LinesOfPrefixed([r[1]], e.Out(r[2..]));
      LinesOfPrefixed([r[2]], e.Out(r[2..][1..]));
      assert first[2] == r[2];
    }
    TimelineChars(first);
  }

  lemma TimelineChars(l: string)
    ensures TrimEnd(l) == TIMELINE ==> |l| >= 3 && l[0] == '-' && l[2] == 'K'
  {
    assert TIMELINE[0] == '-' && TIMELINE[2] == 'K';
    assert TrimEnd(l) == TIMELINE ==> l[..15] == TIMELINE;
  }

  lemma TaggedOff(u: string, w: string)
    ensures TrimEnd(u + CLOSE + w) != TIMELINE
  {
    var l := u + CLOSE + w;
    var t := TrimEnd(l);
    assert l == t + l[|t|..];
    assert l[|u|] == CLOSE[0] == '<' && !IsSpace('<');
    assert '<' !in TIMELINE;
  }

  ghost predicate FilledFrom(ls: seq<string>, from: nat) {
    forall i :: from <= i < |ls| ==> ls[i] != ""
  }

  /** What is left after the tag, put in: the bare tag follows, and nothing hides it. */
  lemma AfterShows(e: Ended, y: string)
    requires e.Valid()
    ensures var ls, more := Lines(e.After() + y), Lines(y);
            (FilledFrom(more, 1) ==> FilledFrom(ls, 1)) && Exposed(ls[1..])
  {
    hide Lines, BodyLine, Exposed;
    var more := Lines(y);
    LinesOfAfter(e, "", y);
    assert "" + (e.After() + y) == e.After() + y;
    PostIsSolid(e);
    BodyLinesFilled(e.post);
    var tag := CLOSE + more[0];
    assert IsTag(tag);
    TagShows(e.post, tag, more[1..]);
    assert (["" + e.v] + e.post + [tag] + more[1..])[1..] == e.post + [tag] + more[1..];
  }

  lemma PostIsSolid(e: Ended)
    requires e.Valid()
    ensures AllSolid(e.post)
  {
    hide BodyLine, Solid;
    forall i | 0 <= i < |e.post|
      ensures Solid(e.post[i])
    {
      BodyLineIsSolid(e.post[i]);
    }
  }

  /** The ended summary, put in, hides nothing that follows unless it has a timeline. */
  lemma MatchedShows(e: Ended, y: string)
    requires e.Valid()
    ensures var ls, more := Lines(e.Matched() + y), Lines(y);
            && (FilledFrom(more, 1) ==> FilledFrom(ls, 1))
            && (TIMELINE !in e.pre && Exposed(more[1..]) ==> Exposed(ls[1..]))
  {
    hide Lines, BodyLine, Exposed, TrimEnd;
    var more := Lines(y);
    LinesOfMatched(e, "", y);
    assert "" + (e.Matched() + y) == e.Matched() + y;
    BodyLinesFilled(e.pre);
    var tagged := e.u + CLOSE + more[0];
    assert (["" + "<summary>"] + e.pre + [tagged] + more[1..])[1..] == (e.pre + [tagged]) + more[1..];
    if TIMELINE !in e.pre {
      TaggedOff(e.u, more[0]);
      forall i | 0 <= i < |e.pre|
        ensures TrimEnd(e.pre[i]) != TIMELINE
      {
        BodyLineTrimmed(e.pre[i]);
      }
      StillExposed(e.pre + [tagged], more[1..]);
    }
  }

  lemma BodyLineTrimmed(l: string)
    requires BodyLine(l)
    ensures TrimEnd(l) == l
  {}

  /**
   * Whatever a part becomes, no line of it but the first is empty; and when there is no timeline
   * before the tag, the real tag is among the lines that parsing hands out.
   */
  lemma {:induction false} OutShows(e: Ended, r: string, off: bool)
    requires e.Valid() && GoodBreaks(r, off) && (off ==> TIMELINE !in e.pre)
    ensures var ls := Lines(e.Out(r)); FilledFrom(ls, 1) && (off ==> Exposed(ls[1..]))
    decreases |r|
  {
    hide Lines, Expand, Exposed, OffTimeline, FilledFrom;
    if r == "" {
      OutNothing(e);
      AfterShows(e, "");
      NothingFilled();
    } else {
      OutStep(e, r);
      var k := if |r| >= 2 && IsDollarPattern(r[0], r[1]) then 2 else 1;
      var y := e.Out(r[k..]);
      GoodBreaksLater(r, k, off);
      OutShows(e, r[k..], off);
      if k == 1 && r[0] == '\n' {
        BreakShows(e, r, off);
      } else if k == 1 {
        SameLaterLines([r[0]], y);
      } else if r[1] == '&' {
        MatchedShows(e, y);
      } else if r[1] == '\'' {
        AfterShows(e, y);
      } else {
        SameLaterLines(if r[1] == '$' then "$" else "", y);
      }
    }
  }

  lemma OutNothing(e: Ended)
    ensures e.Out("") == e.After() + ""
  {}

  lemma NothingFilled()
    ensures FilledFrom(Lines(""), 1)
  {}

  lemma SameLaterLines(a: string, y: string)
    requires OneLine(a)
    ensures Lines(a + y)[1..] == Lines(y)[1..]
    ensures FilledFrom(Lines(y), 1) ==> FilledFrom(Lines(a + y), 1)
  {
    hide Lines;
    LinesOfPrefixed(a, y);
    var ls, more := Lines(a + y), Lines(y);
    assert forall i :: 1 <= i < |ls| ==> ls[i] == more[1..][i - 1];
  }

  lemma BreakAtFront(r: string, off: bool)
    requires GoodBreaks(r, off) && r != "" && r[0] == '\n'
    ensures var x := r[1..]; x != "" && x[0] != '\n' && x[0] != '$' && (off ==> OffTimeline(x))
  {
    hide OffTimeline;
    assert r[0 + 1..] == r[1..];
  }

  lemma FilledCons(first: string, more: seq<string>)
    requires more != [] && more[0] != "" && FilledFrom(more, 1)
    ensures FilledFrom([first] + more, 1)
  {}

  /** A line break in a part starts a line that is filled and off the timeline. */
  lemma BreakShows(e: Ended, r: string, off: bool)
    requires e.Valid() && GoodBreaks(r, off) && r != "" && r[0] == '\n'
    requires var ls := Lines(e.Out(r[1..])); FilledFrom(ls, 1) && (off ==> Exposed(ls[1..]))
    ensures var ls := Lines(e.Out(r)); FilledFrom(ls, 1) && (off ==> Exposed(ls[1..]))
  {
    hide Lines, Expand, Exposed, OffTimeline, TrimEnd, GoodBreaks, FilledFrom;
    BreakAtFront(r, off);
    OutOfBreak(e, r);
    var more := Lines(e.Out(r[1..]));
    FirstLineOff(e, r[1..]);
    FilledCons("", more);
    assert ([""] + more)[1..] == more;
    if off {
      StillExposed([more[0]], more[1..]);
      assert more == [more[0]] + more[1..];
    }
  }

  lemma OutOfBreak(e: Ended, r: string)
    requires r != "" && r[0] == '\n'
    ensures Lines(e.Out(r)) == [""] + Lines(e.Out(r[1..]))
  {
    hide Lines, Expand;
    OutStep(e, r);
    var y := e.Out(r[1..]);
    assert [r[0]] + y == "" + "\n" + y;
    LinesOfCons("", y);
  }

  // ----- The formatted text ------------------------------------------------

  lemma {:induction false} GoodJoin(ls: seq<string>, off: bool)
    requires ls != [] && forall i :: 0 <= i < |ls| ==> OneLine(ls[i])
    requires forall i :: 1 <= i < |ls| ==> ls[i] != "" && ls[i][0] != '$' && (off ==> OffTimeline(ls[i]))
    ensures GoodBreaks(JoinLines(ls), off)
    decreases |ls|
  {
    hide OffTimeline;
    if |ls| > 1 {
      GoodJoin(ls[1..], off);
      var rest, s := JoinLines(ls[1..]), JoinLines(ls);
      assert s == ls[0] + "\n" + rest;
      assert rest[..|ls[1]|] == ls[1];
      forall k | 0 <= k < |s| && s[k] == '\n'
        ensures k + 1 < |s| && s[k + 1] != '\n' && s[k + 1] != '$' && (off ==> OffTimeline(s[k + 1..]))
      {
        if k == |ls[0]| {
          assert s[k + 1..] == rest && s[k + 1] == ls[1][0];
          OffTimelineLonger(ls[1], rest);
        } else {
          var j := k - |ls[0]| - 1;
          assert rest[j] == '\n' && s[k + 1..] == rest[j + 1..] && s[k + 1] == rest[j + 1];
        }
      }
    }
  }

  lemma OffTimelineLonger(a: string, s: string)
    requires |a| <= |s| && s[..|a|] == a
    ensures OffTimeline(a) ==> OffTimeline(s)
    ensures a != "" ==> s[0] == a[0]
  {
    if |a| >= 3 {
      assert s[..2] == a[..2] && s[2] == a[2];
    }
    if a != "" {
      assert s[0] == a[0];
    }
  }

  lemma BodyLineStarts(l: string)
    requires BodyLine(l)
    ensures l != "" && OneLine(l) && l[0] != '$' && !IsSpace(l[|l| - 1]) && (l != TIMELINE ==> OffTimeline(l))
  {
    assert PREVIOUSLY[..2] == "- " && PREVIOUSLY[2] == 'P' && NEWLY[..2] == "- " && NEWLY[2] == 'N';
    assert TIMELINE[0] == '-' && "Conversation summary:"[0] == 'C';
  }

  lemma KeptLines(e: Ended)
    requires e.Valid()
    ensures var ls := e.Kept();
            && ls != [] && ls[0] == "Conversation summary:"
            && (forall i :: 0 <= i < |ls| ==> ls[i] != "" && OneLine(ls[i]) && ls[i][0] != '$')
            && (TIMELINE !in e.pre ==> forall i :: 0 <= i < |ls| ==> OffTimeline(ls[i]))
  {
    hide BodyLine, OffTimeline, TrimEnd;
    forall i | 0 <= i < |e.pre|
      ensures e.pre[i] != "" && OneLine(e.pre[i]) && e.pre[i][0] != '$' && (e.pre[i] != TIMELINE ==> OffTimeline(e.pre[i]))
    {
      BodyLineStarts(e.pre[i]);
    }
    TrimmedStart(e.u);
  }

  lemma TrimmedStart(u: string)
    requires OneLine(u) && u != "" && u[0] == ' '
    ensures !AllSpace(u) ==> var t := TrimEnd(u); t != "" && OneLine(t) && t[0] == ' ' && OffTimeline(t)
  {
    TrimEndFilled(u);
  }

  lemma KeptText(e: Ended)
    requires e.Valid()
    ensures "Summary:\n" + Trim(e.Content()) == JoinLines(["Summary:"] + e.Kept())
  {
    hide JoinLines, Trim, TrimEnd, BodyLine;
    BodyLineStarts(e.pre[|e.pre| - 1]);
    BodyLinesFilled(e.pre);
    assert e.pre[0][0] == 'C';
    JoinEnds(e.pre);
    TrimContent(JoinLines(e.pre), e.u);
    assert JoinLines(e.Kept()) == Trim(e.Content()) by {
      if !AllSpace(e.u) {
        JoinConcat(e.pre, [TrimEnd(e.u)]);
        JoinOne(TrimEnd(e.u));
      }
    }
    JoinConcat(["Summary:"], e.Kept());
    JoinOne("Summary:");
    assert "Summary:" + "\n" == "Summary:\n";
  }

  /** The text of a body that ends early. */
  ghost predicate EndsEarly(text: string, e: Ended) {
    && e.Valid() && NoAnalysis(text)
    && text == "<summary>" + e.Content() + CLOSE + e.After()
    && IndexOf(text, "<summary>") == 0 && IndexOf(text, CLOSE) == 9 + |e.Content()|
  }

  /** Parsing the formatted text is parsing the heading and what the kept lines become. */
  lemma EndedReads(text: string, e: Ended)
    requires EndsEarly(text, e)
    ensures var ls, out := Lines(FormatCompactSummary(text)), Lines(e.Out(JoinLines(e.Kept())));
            && Highlights(ls) == Highlights(out) && Timeline(ls, false) == Timeline(out, false)
            && (TIMELINE !in e.pre ==> Exposed(out))
  {
    hide FormatCompactSummary, JoinLines, Lines, Expand, CollapseBreaks, Trim, IndexOf, Highlights, Timeline, Exposed,
         GoodBreaks, FilledFrom, OffTimeline, BodyLine;
    var r := JoinLines(e.Kept());
    var x := e.Out(JoinLines(["Summary:"] + e.Kept()));
    FormatClosed(text, e.Content(), e.After());
    KeptText(e);
    KeptLines(e);
    GoodJoin(e.Kept(), TIMELINE !in e.pre);
    OutShows(e, r, TIMELINE !in e.pre);
    JoinConcat(["Summary:"], e.Kept());
    JoinOne("Summary:");
    SummaryLine(e, r);
    var out := Lines(e.Out(r));
    JoinEnds(e.Kept());
    JoinStarts(e.Kept());
    FirstLineOff(e, r);
    AllFilled(["Summary:"], out);
    FormatExpanded(x);
    SummaryIsHeading();
    HeadingSkipped("Summary:", out);
    if TIMELINE !in e.pre {
      StillExposed([out[0]], out[1..]);
      assert [out[0]] + out[1..] == out;
    }
  }

  lemma SummaryLine(e: Ended, r: string)
    ensures var x := e.Out("Summary:" + "\n" + r);
            Lines(x) == ["Summary:"] + Lines(e.Out(r)) && x != "" && !IsSpace(x[0])
  {
    hide Lines, Expand;
    OutBroken(e, "Summary:", r);
    SafeHeadings();
    ExpandSafe("Summary:", e.Matched(), "", e.After());
    LinesOfCons("Summary:", e.Out(r));
    assert "Summary:"[0] == 'S';
  }

  lemma JoinStarts(ls: seq<string>)
    requires ls != [] && ls[0] == "Conversation summary:"
    ensures var s := JoinLines(ls); s != "" && s[0] == 'C' && OffTimeline(s)
  {}

  lemma AllFilled(a: seq<string>, b: seq<string>)
    requires (forall i :: 0 <= i < |a| ==> a[i] != "") && b != [] && b[0] != "" && FilledFrom(b, 1)
    ensures forall l :: l in a + b ==> l != ""
  {}
}
