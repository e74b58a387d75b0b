/**
 * A merge with a closing tag inside a carried line does not read back (src/compact-summary.ts),
 * wherever the tag is and whatever `$` patterns the lines hold. With the result on patterns this
 * decides which merges are faithful.
 */
module SummaryTags {
  import opened Messages
  import opened JsStrings
  import opened CompactSummary
  import opened SummaryDollars
  import opened SummaryEnding

  // ----- One line, up to the first text put into it ------------------------

  /** The first text that a pattern puts into a line, with what follows the pattern. */
  datatype Insertion = Nothing | Whole(rest: string) | Remainder(rest: string)

  function FirstInsertion(l: string): Insertion {
    if |l| >= 2 && IsDollarPattern(l[0], l[1]) then
      if l[1] == '&' then Whole(l[2..])
      else if l[1] == '\'' then Remainder(l[2..])
      else FirstInsertion(l[2..])
    else if l == "" then Nothing
    else FirstInsertion(l[1..])
  }

  /** What becomes of the line before that. */
  function Dry(l: string): string {
    if |l| >= 2 && IsDollarPattern(l[0], l[1]) then
      if l[1] == '&' || l[1] == '\'' then ""
      else (if l[1] == '$' then "$" else "") + Dry(l[2..])
    else if l == "" then ""
    else [l[0]] + Dry(l[1..])
  }

  /** The text put in, and what becomes of the rest of the line. */
  function Put(insertion: Insertion, matched: string, after: string): string {
    match insertion
    case Nothing => ""
    case Whole(rest) => matched + Expand(rest, matched, "", after)
    case Remainder(rest) => after + Expand(rest, matched, "", after)
  }

  lemma {:induction false} ExpandSplit(l: string, matched: string, after: string)
    ensures Expand(l, matched, "", after) == Dry(l) + Put(FirstInsertion(l), matched, after)
  {
    if l != "" {
      var k := if |l| >= 2 && IsDollarPattern(l[0], l[1]) then 2 else 1;
      ExpandSplit(l[k..], matched, after);
      var put := Put(FirstInsertion(l[k..]), matched, after);
      hide Put;
      if k == 1 {
        ConcatThree([l[0]], Dry(l[1..]), put);
      } else if l[1] == '$' {
        ConcatThree("$", Dry(l[2..]), put);
      } else if l[1] == '`' {
        ConcatThree("", Dry(l[2..]), put);
      } else {
        InsertedFirst(l, matched, after);
      }
    }
  }

  lemma ConcatThree(a: string, b: string, c: string)
    ensures a + (b + c) == (a + b) + c
  {}

  lemma InsertedFirst(l: string, matched: string, after: string)
    requires |l| >= 2 && IsDollarPattern(l[0], l[1]) && (l[1] == '&' || l[1] == '\'')
    ensures Expand(l, matched, "", after) == Dry(l) + Put(FirstInsertion(l), matched, after)
  {
    var rest := Expand(l[2..], matched, "", after);
    assert "" + (matched + rest) == matched + rest && "" + (after + rest) == after + rest;
  }

  lemma {:induction false} DryLosesDollars(l: string)
    requires OneLine(l)
    ensures OneLine(Dry(l)) && Dollars(Dry(l)) <= Dollars(l)
    ensures !DollarSafe(l) ==> Dollars(Dry(l)) < Dollars(l)
    ensures DollarSafe(l) ==> Dry(l) == l && FirstInsertion(l) == Nothing
  {
    if |l| >= 2 && IsDollarPattern(l[0], l[1]) {
      var d := Dry(l[2..]);
      DryLosesDollars(l[2..]);
      assert l[1..][1..] == l[2..] && Dollars(l) >= 1 + Dollars(l[2..]);
      assert ("$" + d)[1..] == d && "" + d == d;
      assert l[1] == '$' ==> Dollars(l) == 2 + Dollars(l[2..]);
      assert !DollarSafe(l) by { assert IsDollarPattern(l[0], l[0 + 1]); }
    } else if l != "" {
      DryLosesDollars(l[1..]);
      UnsafeTail(l);
      if DollarSafe(l) {
        PartOfSafe(l, 1, |l|);
        assert l[1..|l|] == l[1..];
      }
    }
  }

  lemma PartOfSafe(s: string, lo: nat, hi: nat)
    requires lo <= hi <= |s| && DollarSafe(s)
    ensures DollarSafe(s[lo..hi])
  {
    forall i | 0 <= i && i + 1 < hi - lo
      ensures !IsDollarPattern(s[lo..hi][i], s[lo..hi][i + 1])
    {
      assert !IsDollarPattern(s[lo + i], s[lo + i + 1]);
    }
  }

  /** A spaced line stays one, so it is no heading unless it becomes blank. */
  lemma DrySpaced(l: string, more: string)
    requires l != "" && l[0] == ' '
    ensures var f := Dry(l) + more; f != "" && f[0] == ' ' && TrimEnd(f) != TIMELINE
    ensures IsHeading(TrimEnd(Dry(l) + more)) ==> TrimEnd(Dry(l) + more) == ""
  {
    hide TrimEnd, IsHeading;
    var f := Dry(l) + more;
    assert f[0] == ' ';
    SpacedIsNoHeading(f);
  }

  // ----- A tag in the timeline ---------------------------------------------

  /** With no timeline heading before it, a tag is handed out among the highlights. */
  lemma TagHighlighted(ls: seq<string>, c: string, rest: seq<string>)
    requires IsTag(c) && forall i :: 0 <= i < |ls| ==> TrimEnd(ls[i]) != TIMELINE
    ensures Marked(Highlights(ls + [c] + rest))
  {
    hide TrimEnd, IsTag;
    TagStands(c);
    assert Highlights([c] + rest)[0] == TrimEnd(c);
    StillExposed(ls, [c] + rest);
    assert ls + ([c] + rest) == ls + [c] + rest;
  }

  /** All kept lines before the timeline, behind which text `y` stands. */
  ghost function Before(e: Ended, ls: seq<string>, y: string): string {
    if ls == [] then y else Expand(ls[0], e.Matched(), "", e.After()) + "\n" + Before(e, ls[1..], y)
  }

  /** Highlights that differ from the sections they came from. */
  ghost predicate Differ(highlights: seq<string>, sections: seq<string>, ls: seq<string>) {
    || Marked(highlights) || |highlights| > |sections|
    || (AllDollars(highlights) <= AllDollars(ls) && (!AllSafe(ls) ==> AllDollars(highlights) < AllDollars(ls)))
  }

  /** The shape of what is before a tag in the timeline. */
  ghost predicate InTimeline(e: Ended, sections: seq<string>, ts: seq<string>) {
    && e.Valid() && e.pre == ["Conversation summary:"] + sections + [TIMELINE] + ts && AllEntries(sections)
    && forall i :: 0 <= i < |e.post| ==> e.post[i][0] == ' '
  }

  lemma PostOffTimeline(e: Ended, sections: seq<string>, ts: seq<string>)
    requires InTimeline(e, sections, ts)
    ensures forall i :: 0 <= i < |e.post| ==> TrimEnd(e.post[i]) != TIMELINE
  {
    forall i | 0 <= i < |e.post|
      ensures TrimEnd(e.post[i]) != TIMELINE
    {
      assert BodyLine(e.post[i]);
      SpacedIsNoHeading(e.post[i]);
    }
  }

  /** A remainder put into a line of the sections brings the tag among the highlights. */
  lemma RemainderHighlighted(e: Ended, sections: seq<string>, ts: seq<string>, x: string, y: string)
    requires InTimeline(e, sections, ts) && OneLine(x) && x != "" && x[0] == ' '
    ensures Marked(Highlights(Lines(x + (e.After() + y))))
  {
    hide Lines, TrimEnd, BodyLine;
    LinesOfAfter(e, x, y);
    PostOffTimeline(e, sections, ts);
    SpacedIsNoHeading(x + e.v);
    var tag, rest := CLOSE + Lines(y)[0], Lines(y)[1..];
    assert IsTag(tag);
    TagHighlighted([x + e.v] + e.post, tag, rest);
  }

  /** The ended summary put into a line of the sections brings all sections along. */
  lemma WholeHighlighted(e: Ended, sections: seq<string>, ts: seq<string>, x: string, y: string)
    requires InTimeline(e, sections, ts) && OneLine(x) && x != "" && x[0] == ' '
    ensures |Highlights(Lines(x + (e.Matched() + y)))| > |sections|
  {
    hide Lines, TrimEnd, BodyLine, AllEntries;
    LinesOfMatched(e, x, y);
    var first := x + "<summary>";
    assert first[|first| - 1] == "<summary>"[8] == '>';
    TrimFixedEnd(first);
    SpacedIsNoHeading(first);
    var more := [TIMELINE] + ts + [e.u + CLOSE + Lines(y)[0]] + Lines(y)[1..];
    assert [first] + e.pre + [e.u + CLOSE + Lines(y)[0]] + Lines(y)[1..] ==
           [first] + (["Conversation summary:"] + (sections + more));
    HighlightAfterFirst(first, sections + more);
    HighlightsConcat(sections, more);
  }

  /** One line of the sections: what parsing gets from it and what follows. */
  lemma SectionLineDiffers(e: Ended, sections: seq<string>, ts: seq<string>, l: string, y: string)
    returns (entry: seq<string>)
    requires InTimeline(e, sections, ts) && SectionLine(l)
    ensures |entry| <= 1
    ensures var h := Highlights(Lines(Expand(l, e.Matched(), "", e.After()) + "\n" + y));
            || Marked(h) || |h| > |sections|
            || (h == entry + Highlights(Lines(y))
                && AllDollars(entry) <= Dollars(l) && (!DollarSafe(l) ==> AllDollars(entry) < Dollars(l)))
  {
    hide Lines, TrimEnd, Expand, InTimeline, Dry, FirstInsertion;
    var m, a, d := e.Matched(), e.After(), Dry(l);
    ExpandSplit(l, m, a);
    SectionLineIsOne(l);
    DryLosesDollars(l);
    entry := [];
    if FirstInsertion(l) != Nothing {
      DrySpacedOrSafe(l);
      var rest := Expand(FirstInsertion(l).rest, m, "", a);
      if FirstInsertion(l).Whole? {
        assert d + (m + rest) + "\n" + y == d + (m + (rest + "\n" + y));
        WholeHighlighted(e, sections, ts, d, rest + "\n" + y);
      } else {
        assert d + (a + rest) + "\n" + y == d + (a + (rest + "\n" + y));
        RemainderHighlighted(e, sections, ts, d, rest + "\n" + y);
      }
    } else {
      assert d + "" + "\n" + y == d + "\n" + y;
      LinesOfCons(d, y);
      assert ([d] + Lines(y))[1..] == Lines(y);
      DollarsOfPrefix(d, |TrimEnd(d)|);
      assert d[..|TrimEnd(d)|] == TrimEnd(d);
      DryHeading(l);
      entry := if IsHeading(TrimEnd(d)) then [] else [TrimEnd(d)];
      assert entry != [] ==> entry[1..] == [];
    }
  }

  lemma DrySpacedOrSafe(l: string)
    requires SectionLine(l) && FirstInsertion(l) != Nothing
    ensures Dry(l) != "" && Dry(l)[0] == ' '
  {
    DryLosesDollars(l);
    DrySpaced(l, "");
    assert Dry(l) + "" == Dry(l);
  }

  lemma DryHeading(l: string)
    requires SectionLine(l)
    ensures var t := TrimEnd(Dry(l)); t != TIMELINE && (IsHeading(t) ==> t == "")
  {
    hide IsHeading, TrimEnd;
    DryLosesDollars(l);
    if l[0] == ' ' {
      DrySpaced(l, "");
      assert Dry(l) + "" == Dry(l);
    } else {
      SectionEntryTrimmed(l);
    }
  }

  lemma SectionEntryTrimmed(l: string)
    requires SectionLine(l) && l[0] != ' '
    ensures DollarSafe(l) && TrimEnd(l) == l && !IsHeading(l) && l != TIMELINE
  {}

  lemma AllDollarsConcat(entry: seq<string>, rest: seq<string>)
    requires |entry| <= 1
    ensures AllDollars(entry + rest) == AllDollars(entry) + AllDollars(rest)
  {
    if entry == [] {
      assert entry + rest == rest;
    } else {
      assert (entry + rest)[1..] == rest && entry[1..] == [];
    }
  }

  /** The sections in front of a timeline differ from what is parsed unless they hold no pattern. */
  lemma {:induction false} SectionsDiffer(e: Ended, sections: seq<string>, ts: seq<string>, ls: seq<string>, y: string)
    requires InTimeline(e, sections, ts) && forall i :: 0 <= i < |ls| ==> SectionLine(ls[i])
    requires Marked(Highlights(Lines(y))) || Highlights(Lines(y)) == []
    ensures Differ(Highlights(Lines(Before(e, ls, y))), sections, ls)
    decreases |ls|
  {
    hide Lines, Expand, InTimeline, SectionLine, Highlights, DollarSafe, Marked;
    if ls != [] {
      var rest := Before(e, ls[1..], y);
      SectionsDiffer(e, sections, ts, ls[1..], y);
      var entry := SectionLineDiffers(e, sections, ts, ls[0], rest);
      var more := Highlights(Lines(rest));
      AllDollarsConcat(entry, more);
      MarkedLater(entry, more);
      assert AllSafe(ls[1..]) && DollarSafe(ls[0]) ==> AllSafe(ls) by {
        assert forall i :: 0 < i < |ls| ==> ls[i] == ls[1..][i - 1];
      }
    }
  }

  lemma {:induction false} OutOfLines(e: Ended, a: seq<string>, b: seq<string>)
    requires b != [] && forall i :: 0 <= i < |a| ==> OneLine(a[i])
    ensures e.Out(JoinLines(a + b)) == Before(e, a, e.Out(JoinLines(b)))
    decreases |a|
  {
    hide Expand;
    if a == [] {
      assert a + b == b;
    } else {
      assert (a + b)[1..] == a[1..] + b;
      OutOfLines(e, a[1..], b);
      OutBroken(e, a[0], JoinLines(a[1..] + b));
    }
  }

  lemma {:induction false} SafeBefore(e: Ended, ls: seq<string>, y: string)
    requires AllSafe(ls) && forall i :: 0 <= i < |ls| ==> OneLine(ls[i])
    ensures Lines(Before(e, ls, y)) == ls + Lines(y)
    decreases |ls|
  {
    hide Expand, Lines, DollarSafe;
    if ls != [] {
      ExpandSafe(ls[0], e.Matched(), "", e.After());
      LinesOfCons(ls[0], Before(e, ls[1..], y));
      SafeBefore(e, ls[1..], y);
    }
  }

  /** Once the remainder comes after a line of the timeline, the tag shows or the timeline is cut. */
  lemma AfterInTimeline(e: Ended, x: string, y: string)
    requires e.Valid() && OneLine(x)
    ensures var t := Timeline(Lines(x + (e.After() + y)), true); t == [] || Marked(t)
  {
    hide Lines, BodyLine, Timeline, Marked, IsTag, AllSolid, Exposed;
    LinesOfAfter(e, x, y);
    PostIsSolid(e);
    var tag, rest := CLOSE + Lines(y)[0], Lines(y)[1..];
    CloseStarts(Lines(y)[0]);
    TagShows(e.post, tag, rest);
    assert [x + e.v] + e.post + [tag] + rest == [x + e.v] + (e.post + [tag] + rest);
    TimelineShows(x + e.v, e.post + [tag] + rest);
  }

  lemma CloseStarts(more: string)
    ensures IsTag(CLOSE + more)
  {}

  lemma TimelineShows(first: string, later: seq<string>)
    requires Marked(Timeline(later, true))
    ensures var t := Timeline([first] + later, true); t == [] || Marked(t)
  {
    hide TrimEnd, Marked;
    assert ([first] + later)[1..] == later;
    MarkedLater([TrimEnd(first)], Timeline(later, true));
  }

  lemma WholeInTimeline(e: Ended, x: string, y: string)
    requires e.Valid() && OneLine(x) && x != "" && x[0] == ' '
    ensures var t := Timeline(Lines(x + (e.Matched() + y)), true); t != [] && t[0] == x + "<summary>"
  {
    hide Lines, TrimEnd, BodyLine;
    LinesOfMatched(e, x, y);
    var first := x + "<summary>";
    assert first[|first| - 1] == "<summary>"[8] == '>';
    TrimFixedEnd(first);
    SpacedIsNoHeading(first);
  }

  lemma {:induction false} DollarsConcat(a: string, b: string)
    ensures Dollars(a + b) == Dollars(a) + Dollars(b)
  {
    if a == "" {
      assert a + b == b;
    } else {
      assert (a + b)[1..] == a[1..] + b;
      DollarsConcat(a[1..], b);
    }
  }

  lemma SummaryTagHasNoDollars()
    ensures Dollars("<summary>") == 0
  {}

  /** A timeline line with text put into it, whatever follows, is not read back. */
  lemma InsertionInTimeline(e: Ended, l: string, y: string, wanted: seq<string>)
    requires e.Valid() && OneLine(l) && l != "" && l[0] == ' ' && FirstInsertion(l) != Nothing
    requires wanted != [] && !Marked(wanted) && Dollars(l) <= Dollars(wanted[0])
    ensures Timeline(Lines(Expand(l, e.Matched(), "", e.After()) + y), true) != wanted
  {
    hide Lines, Expand, Dry, FirstInsertion, DollarSafe, Marked;
    var m, a, d := e.Matched(), e.After(), Dry(l);
    ExpandSplit(l, m, a);
    DryLosesDollars(l);
    DrySpaced(l, "");
    assert d + "" == d;
    var rest := Expand(FirstInsertion(l).rest, m, "", a);
    if FirstInsertion(l).Whole? {
      assert d + (m + rest) + y == d + (m + (rest + y));
      WholeInTimeline(e, d, rest + y);
      DollarsConcat(d, "<summary>");
      SummaryTagHasNoDollars();
    } else {
      assert d + (a + rest) + y == d + (a + (rest + y));
      AfterInTimeline(e, d, rest + y);
    }
  }

  /** Lines of the timeline before a tag, with the part of its line that is before it. */
  ghost predicate TimelinePart(ws: seq<string>, wanted: seq<string>) {
    && 0 < |ws| <= |wanted| && !Marked(wanted)
    && (forall i :: 0 <= i < |ws| ==> OneLine(ws[i]) && ws[i] != "" && ws[i][0] == ' ')
    && (forall i :: 0 <= i < |ws| - 1 ==> ws[i] == wanted[i] && IsEntry(ws[i]))
    && Dollars(ws[|ws| - 1]) <= Dollars(wanted[|ws| - 1])
  }

  lemma TimelinePartLater(ws: seq<string>, wanted: seq<string>)
    requires TimelinePart(ws, wanted) && |ws| > 1
    ensures TimelinePart(ws[1..], wanted[1..])
  {
    hide Dollars, IsEntry;
    assert wanted == [wanted[0]] + wanted[1..];
    MarkedLater([wanted[0]], wanted[1..]);
  }

  /** The timeline up to the tag is not read back either. */
  lemma {:induction false} TimelineDiffers(e: Ended, ws: seq<string>, wanted: seq<string>)
    requires e.Valid() && TimelinePart(ws, wanted)
    ensures Timeline(Lines(e.Out(JoinLines(ws))), true) != wanted
    decreases |ws|
  {
    hide Lines, Expand, Dry, FirstInsertion, DollarSafe, Marked, BodyLine, TrimEnd, IsEntry;
    var l := ws[0];
    var m, a, d := e.Matched(), e.After(), Dry(l);
    var y := if |ws| == 1 then a else "\n" + e.Out(JoinLines(ws[1..]));
    if |ws| > 1 {
      OutBroken(e, l, JoinLines(ws[1..]));
      var x, o := Expand(l, m, "", a), e.Out(JoinLines(ws[1..]));
      assert x + "\n" + o == x + ("\n" + o);
    }
    assert e.Out(JoinLines(ws)) == Expand(l, m, "", a) + y;
    if FirstInsertion(l) != Nothing {
      InsertionInTimeline(e, l, y, wanted);
    } else {
      ExpandSplit(l, m, a);
      assert d + "" == d;
      DryLosesDollars(l);
      if |ws| == 1 {
        assert d + a == d + (a + "");
        AfterInTimeline(e, d, "");
      } else {
        var o := e.Out(JoinLines(ws[1..]));
        assert d + ("\n" + o) == d + "\n" + o;
        LinesOfCons(d, o);
        DrySpaced(l, "");
        DollarsOfPrefix(d, |TrimEnd(d)|);
        assert d[..|TrimEnd(d)|] == TrimEnd(d);
        TimelinePartLater(ws, wanted);
        TimelineDiffers(e, ws[1..], wanted[1..]);
        assert ([d] + Lines(o))[1..] == Lines(o);
      }
    }
  }

  // ----- Both places for the tag -------------------------------------------

  /** What the timeline in front of the tag becomes, from its heading on. */
  ghost function TimelineText(e: Ended, ts: seq<string>): string {
    e.Out(JoinLines([TIMELINE] + if AllSpace(e.u) then ts else ts + [TrimEnd(e.u)]))
  }

  /** When only the heading is kept, what follows it is glued to it. */
  lemma BareHeading(e: Ended)
    requires e.Valid() && forall i :: 0 <= i < |e.post| ==> TrimEnd(e.post[i]) != TIMELINE
    ensures var ls := Lines(e.Out(TIMELINE));
            if e.v == "" then Highlights(ls) == [] && Marked(Timeline(ls, false)) else Marked(Highlights(ls))
  {
    hide Lines, Expand, BodyLine, TrimEnd, IsTag, AllSolid, Exposed, Highlights, Timeline, Marked;
    var tag := BareHeadingLines(e);
    PostIsSolid(e);
    var later := e.post + [tag] + [];
    assert e.post + [tag] == later;
    if e.v == "" {
      assert TIMELINE + e.v == TIMELINE;
      TagShows(e.post, tag, []);
      TimelineHeading(later);
    } else {
      GluedHeading(e.v);
      TagHighlighted([TIMELINE + e.v] + e.post, tag, []);
      assert [TIMELINE + e.v] + e.post + [tag] + [] == [TIMELINE + e.v] + later;
    }
  }

  lemma BareHeadingLines(e: Ended) returns (tag: string)
    requires e.Valid()
    ensures IsTag(tag) && Lines(e.Out(TIMELINE)) == [TIMELINE + e.v] + (e.post + [tag])
  {
    hide Lines, Expand, BodyLine, TrimEnd, IsTag;
    SafeHeadings();
    ExpandSafe(TIMELINE, e.Matched(), "", e.After());
    assert e.Out(TIMELINE) == TIMELINE + (e.After() + "");
    LinesOfAfter(e, TIMELINE, "");
    LinesOfOne("");
    tag := CLOSE + "";
    CloseStarts("");
    assert [TIMELINE + e.v] + e.post + [tag] + [""][1..] == [TIMELINE + e.v] + (e.post + [tag]);
  }

  lemma GluedHeading(v: string)
    requires v != "" && !IsSpace(v[|v| - 1])
    ensures TrimEnd(TIMELINE + v) != TIMELINE
  {
    var t := TIMELINE + v;
    assert t[|t| - 1] == v[|v| - 1];
    TrimFixedEnd(t);
    assert |t| > |TIMELINE|;
  }

  lemma TimelineFollows(e: Ended, ws: seq<string>)
    requires ws != []
    ensures var ls := Lines(e.Out(JoinLines([TIMELINE] + ws)));
            Highlights(ls) == [] && Timeline(ls, false) == Timeline(Lines(e.Out(JoinLines(ws))), true)
  {
    hide Lines, Expand, JoinLines, IsHeading, TrimEnd;
    SafeHeadings();
    TimelineIsPlain();
    HeadingLengths();
    JoinConcat([TIMELINE], ws);
    JoinOne(TIMELINE);
    OutBroken(e, TIMELINE, JoinLines(ws));
    ExpandSafe(TIMELINE, e.Matched(), "", e.After());
    var more := Lines(e.Out(JoinLines(ws)));
    LinesOfCons(TIMELINE, e.Out(JoinLines(ws)));
    TimelineHeading(more);
  }

  lemma TimelineHeading(more: seq<string>)
    ensures Highlights([TIMELINE] + more) == [] && Timeline([TIMELINE] + more, false) == Timeline(more, true)
  {
    TimelineIsPlain();
    assert ([TIMELINE] + more)[1..] == more;
    assert TIMELINE[0] == '-' && "Summary:"[0] == 'S' && "Conversation summary:"[0] == 'C';
  }

  /** A body line with a tag in it, in a timeline of which `ts` came before. */
  ghost predicate TagLine(e: Ended, ts: seq<string>, wanted: seq<string>) {
    && |ts| < |wanted| && !Marked(wanted) && wanted[..|ts|] == ts && wanted[|ts|] == e.u + CLOSE + e.v
    && forall i :: 0 <= i < |ts| ==> IsEntry(ts[i]) && ts[i][0] == ' '
  }

  lemma KeptTimelinePart(e: Ended, ts: seq<string>, wanted: seq<string>)
    requires e.Valid() && TagLine(e, ts, wanted)
    ensures var ws := if AllSpace(e.u) then ts else ts + [TrimEnd(e.u)]; ws == [] || TimelinePart(ws, wanted)
  {
    hide TrimEnd, AllSpace, Marked, BodyLine, OffTimeline, Dollars, IsEntry;
    TrimmedStart(e.u);
    TrimmedDollars(e.u, e.v);
    assert forall i :: 0 <= i < |ts| ==> ts[i] == wanted[i];
    EntriesFilled(ts);
    if ts != [] {
      assert ts[|ts| - 1] == wanted[|ts| - 1];
    }
  }

  lemma TrimmedDollars(u: string, v: string)
    ensures Dollars(TrimEnd(u)) <= Dollars(u + CLOSE + v)
  {
    DollarsOfPrefix(u, |TrimEnd(u)|);
    assert u[..|TrimEnd(u)|] == TrimEnd(u);
    DollarsConcat(u + CLOSE, v);
    DollarsConcat(u, CLOSE);
  }

  lemma EntriesFilled(ls: seq<string>)
    requires forall i :: 0 <= i < |ls| ==> IsEntry(ls[i])
    ensures forall i :: 0 <= i < |ls| ==> ls[i] != "" && OneLine(ls[i])
  {}

  /** A tag in the timeline: the sections or the timeline do not come back. */
  lemma ClosedInTimeline(e: Ended, sections: seq<string>, ts: seq<string>, wanted: seq<string>)
    requires InTimeline(e, sections, ts) && TagLine(e, ts, wanted)
    requires !Marked(sections) && forall i :: 0 <= i < |sections| ==> SectionLine(sections[i])
    ensures var out := Lines(e.Out(JoinLines(e.Kept())));
            Highlights(out) != sections || Timeline(out, false) != wanted
  {
    hide Lines, JoinLines, Expand, TrimEnd, AllSpace, Highlights, Timeline, Marked, SectionLine, DollarSafe, BodyLine, TimelinePart,
         AllEntries, IsHeading;
    var ws := if AllSpace(e.u) then ts else ts + [TrimEnd(e.u)];
    var title, y := "Conversation summary:", TimelineText(e, ts);
    PostOffTimeline(e, sections, ts);
    BareHeading(e);
    JoinOne(TIMELINE);
    assert [TIMELINE] + [] == [TIMELINE];
    if ws != [] {
      TimelineFollows(e, ws);
    }
    SectionsDiffer(e, sections, ts, sections, y);
    KeptOut(e, sections, ts);
    var out := Lines(e.Out(JoinLines(e.Kept())));
    if Highlights(out) == sections {
      assert AllSafe(sections);
      SectionLinesOne(sections);
      SafeBefore(e, sections, y);
      HighlightsConcat(sections, Lines(y));
      assert sections + Highlights(Lines(y)) == sections ==> Highlights(Lines(y)) == [];
      EntriesAreNotTimeline(sections);
      TimelineSkips(sections, Lines(y));
      NothingMarked();
      KeptTimelinePart(e, ts, wanted);
      if ws != [] {
        TimelineDiffers(e, ws, wanted);
      }
    }
  }

  lemma NothingMarked()
    ensures !Marked([])
  {}

  lemma SectionLinesOne(ls: seq<string>)
    requires forall i :: 0 <= i < |ls| ==> SectionLine(ls[i])
    ensures forall i :: 0 <= i < |ls| ==> OneLine(ls[i])
  {}

  /** The kept lines come out as the title, the sections, and what the timeline becomes. */
  lemma KeptOut(e: Ended, sections: seq<string>, ts: seq<string>)
    requires InTimeline(e, sections, ts) && forall i :: 0 <= i < |sections| ==> SectionLine(sections[i])
    ensures var out, more := Lines(e.Out(JoinLines(e.Kept()))), Lines(Before(e, sections, TimelineText(e, ts)));
            Highlights(out) == Highlights(more) && Timeline(out, false) == Timeline(more, false)
  {
    hide Lines, JoinLines, Expand, TrimEnd, AllSpace, Highlights, Timeline, SectionLine, InTimeline, Before;
    var title, ws := "Conversation summary:", if AllSpace(e.u) then ts else ts + [TrimEnd(e.u)];
    var b := [TIMELINE] + ws;
    SectionLinesOne(sections);
    KeptSplit(e, sections, ts);
    assert OneLine(title) by { SafeHeadings(); }
    OutOfLines(e, [title] + sections, b);
    BeforeStep(e, title, sections, e.Out(JoinLines(b)));
    TitleFirst(e, Before(e, sections, e.Out(JoinLines(b))));
  }

  lemma KeptSplit(e: Ended, sections: seq<string>, ts: seq<string>)
    requires InTimeline(e, sections, ts)
    ensures e.Kept() == (["Conversation summary:"] + sections) + ([TIMELINE] + if AllSpace(e.u) then ts else ts + [TrimEnd(e.u)])
  {
    hide TrimEnd, AllSpace, BodyLine, AllEntries;
  }

  lemma BeforeStep(e: Ended, l: string, ls: seq<string>, y: string)
    ensures Before(e, [l] + ls, y) == Expand(l, e.Matched(), "", e.After()) + "\n" + Before(e, ls, y)
  {
    hide Expand;
    assert ([l] + ls)[1..] == ls;
  }

  lemma TitleFirst(e: Ended, more: string)
    ensures var out := Lines(Expand("Conversation summary:", e.Matched(), "", e.After()) + "\n" + more);
            Highlights(out) == Highlights(Lines(more)) && Timeline(out, false) == Timeline(Lines(more), false)
  {
    hide Lines, Expand, TrimEnd, IsHeading, Highlights, Timeline;
    var title := "Conversation summary:";
    SafeHeadings();
    ExpandSafe(title, e.Matched(), "", e.After());
    LinesOfCons(title, more);
    TitleIsHeading();
    HeadingSkipped(title, Lines(more));
  }

  // ----- The merge ---------------------------------------------------------

  /** The lines the merge prints never start with a tag. */
  lemma SectionsUnmarked(previous: seq<string>, added: seq<string>, timeline: seq<string>)
    ensures !Marked(Section(PREVIOUSLY, previous) + Section(NEWLY, added)) && !Marked(Indent(timeline))
  {
    assert PREVIOUSLY[0] == '-' && NEWLY[0] == '-';
    assert forall i :: 0 <= i < |timeline| ==> Indent(timeline)[i][0] == ' ';
    assert forall i :: 0 <= i < |previous| ==> Indent(previous)[i][0] == ' ';
    assert forall i :: 0 <= i < |added| ==> Indent(added)[i][0] == ' ';
  }

  /** A body whose line `i` is the first to hold a closing tag. */
  ghost predicate ClosedAt(body: seq<string>, i: nat) {
    0 < i < |body| && !NoClose(body[i]) && forall j :: 0 <= j < i ==> NoClose(body[j])
  }

  lemma WrappedAround(pre: seq<string>, line: string, post: seq<string>)
    requires pre != []
    ensures Wrapped(pre + [line] + post) ==
            JoinLines(["<summary>"] + pre) + "\n" + (line + "\n" + JoinLines(post + [CLOSE]))
    ensures JoinLines(["<summary>"] + pre) == "<summary>" + "\n" + JoinLines(pre)
  {
    hide JoinLines;
    var start, rest := ["<summary>"] + pre, post + [CLOSE];
    assert ["<summary>"] + (pre + [line] + post) + [CLOSE] == start + ([line] + rest);
    JoinConcat(start, [line] + rest);
    JoinConcat([line], rest);
    JoinOne(line);
    JoinConcat(["<summary>"], pre);
    JoinOne("<summary>");
  }

  /** The wrapped text of such a body, taken apart at that tag. */
  lemma WrappedClosed(body: seq<string>, i: nat, u: string, v: string)
    requires ClosedAt(body, i) && body[i] == u + CLOSE + v && |u| == IndexOf(body[i], CLOSE)
    ensures var text := Wrapped(body);
            var content, after := "\n" + JoinLines(body[..i]) + "\n" + u, v + "\n" + JoinLines(body[i + 1..] + [CLOSE]);
            && text == "<summary>" + content + CLOSE + after
            && IndexOf(text, "<summary>") == 0 && IndexOf(text, CLOSE) == 9 + |content|
  {
    hide JoinLines, IndexOf, NoClose, Wrapped;
    var pre, line, post := body[..i], body[i], body[i + 1..];
    assert body == pre + [line] + post;
    WrappedAround(pre, line, post);
    TagsAreDistinct();
    StartHasNoClose("<summary>", pre);
    FirstMatchInLine(JoinLines(["<summary>"] + pre), line, JoinLines(post + [CLOSE]), CLOSE);
    TextAround(JoinLines(pre), u, v, JoinLines(post + [CLOSE]));
  }

  lemma TextAround(lines: string, u: string, v: string, rest: string)
    ensures var text := "<summary>" + "\n" + lines + "\n" + (u + CLOSE + v + "\n" + rest);
            && text == "<summary>" + ("\n" + lines + "\n" + u) + CLOSE + (v + "\n" + rest)
            && IndexOf(text, "<summary>") == 0
  {
    hide IndexOf;
    var tail := "\n" + lines + "\n" + (u + CLOSE + v + "\n" + rest);
    IndexOfPrefix("<summary>", tail);
    assert "<summary>" + "\n" + lines + "\n" + (u + CLOSE + v + "\n" + rest) == "<summary>" + tail;
  }

  lemma StartHasNoClose(first: string, pre: seq<string>)
    requires NoClose(first) && forall j :: 0 <= j < |pre| ==> NoClose(pre[j])
    ensures !Contains(JoinLines([first] + pre), CLOSE)
  {
    hide Contains, JoinLines;
    var ls := [first] + pre;
    assert forall i :: 0 <= i < |ls| ==> NoClose(ls[i]);
    JoinContainsNot(ls, CLOSE);
  }

  lemma CloseFound(l: string)
    requires !NoClose(l)
    ensures var k := IndexOf(l, CLOSE); k >= 0 && k + 10 <= |l| && l == l[..k] + CLOSE + l[k + 10..]
  {
    hide IndexOf;
    var i :| MatchesAt(l, CLOSE, i);
    var k := IndexOf(l, CLOSE);
    assert l[k..k + 10] == CLOSE;
  }

  /** The first line of the body that holds a closing tag, when a carried line does. */
  lemma FirstClosed(body: seq<string>) returns (i: nat)
    requires body != [] && NoClose(body[0]) && exists j :: 0 <= j < |body| && !NoClose(body[j])
    ensures ClosedAt(body, i)
  {
    hide NoClose;
    i := 1;
    while i < |body| && NoClose(body[i])
      invariant 1 <= i <= |body| && forall j :: 0 <= j < i ==> NoClose(body[j])
    {
      i := i + 1;
    }
  }

  lemma IndentKeepsClose(ls: seq<string>)
    ensures !AllNoClose(ls) ==> !AllNoClose(Indent(ls))
  {
    if !AllNoClose(ls) {
      var i :| 0 <= i < |ls| && !NoClose(ls[i]);
      var j :| MatchesAt(ls[i], CLOSE, j);
      var t := Indent(ls)[i];
      assert t[j + 2..j + 2 + 10] == ls[i][j..j + 10];
      assert MatchesAt(t, CLOSE, j + 2);
    }
  }

  lemma SectionKeepsClose(heading: string, ls: seq<string>)
    ensures !AllNoClose(ls) ==> !AllNoClose(Section(heading, ls))
  {
    hide NoClose;
    IndentKeepsClose(ls);
    if !AllNoClose(ls) {
      var i :| 0 <= i < |Indent(ls)| && !NoClose(Indent(ls)[i]);
      assert Section(heading, ls)[1 + i] == Indent(ls)[i];
    }
  }

  lemma BodyKeepsClose(previous: seq<string>, added: seq<string>, timeline: seq<string>)
    requires !AllNoClose(previous) || !AllNoClose(added) || !AllNoClose(timeline)
    ensures !AllNoClose(Body(previous, added, timeline))
  {
    hide NoClose, Section;
    SectionKeepsClose(PREVIOUSLY, previous);
    SectionKeepsClose(NEWLY, added);
    SectionKeepsClose(TIMELINE, timeline);
    var title := ["Conversation summary:"];
    var a, b, c := Section(PREVIOUSLY, previous), Section(NEWLY, added), Section(TIMELINE, timeline);
    var body := Body(previous, added, timeline);
    assert forall i :: 0 <= i < |a| ==> a[i] == body[1 + i];
    assert forall i :: 0 <= i < |b| ==> b[i] == body[1 + |a| + i];
    assert forall i :: 0 <= i < |c| ==> c[i] == body[1 + |a| + |b| + i];
  }

  lemma BodyIsBodyLineList(previous: seq<string>, added: seq<string>, timeline: seq<string>)
    requires Mergeable(previous, added, timeline)
    ensures var body := Body(previous, added, timeline);
            body[0] == "Conversation summary:" && NoClose(body[0]) && forall i :: 0 <= i < |body| ==> BodyLine(body[i])
  {
    hide IsEntry, IsHeading, NoClose, DollarSafe;
    TitleIsPlain();
    PreviouslyIsPlain();
    NewlyIsPlain();
    TimelineIsPlain();
    IndentedLines(previous);
    IndentedLines(added);
    IndentedLines(timeline);
  }

  /** Only an indented line of the body can hold a tag. */
  lemma TaggedIsIndented(l: string)
    requires BodyLine(l) && !NoClose(l)
    ensures l[0] == ' ' && IndexOf(l, CLOSE) > 0
  {
    hide IndexOf;
    CloseFound(l);
    HeadingsHaveNoTag();
    if '<' !in l {
      NoMatchWithoutFirst(l, CLOSE);
    }
    assert CLOSE[0] == '<';
    assert l[IndexOf(l, CLOSE)..][0] == '<';
  }

  /** The body taken apart at its first closing tag. */
  lemma EndedBody(previous: seq<string>, added: seq<string>, timeline: seq<string>)
    returns (i: nat, e: Ended)
    requires Mergeable(previous, added, timeline) && Inert(previous + added + timeline)
    requires !AllNoClose(previous) || !AllNoClose(added) || !AllNoClose(timeline)
    ensures var body := Body(previous, added, timeline);
            && 0 < i < |body| && EndsEarly(Wrapped(body), e)
            && body[i] == e.u + CLOSE + e.v && e.pre == body[..i] && e.post == body[i + 1..]
  {
    hide Body, IsEntry, NoClose, Inert, IndexOf, JoinLines, BodyLine, NoAnalysis, Wrapped;
    var body := Body(previous, added, timeline);
    BodyIsBodyLineList(previous, added, timeline);
    BodyKeepsClose(previous, added, timeline);
    BodyInert(previous, added, timeline);
    i := FirstClosed(body);
    var k := IndexOf(body[i], CLOSE);
    CloseFound(body[i]);
    TaggedIsIndented(body[i]);
    e := Ended(body[..i], body[i][..k], body[i][k + 10..], body[i + 1..]);
    BodyLineStarts(body[i]);
    WrappedClosed(body, i, e.u, e.v);
    WrappedLacksAnalysis(body);
  }

  /** With the first tag among the highlights there is no timeline heading before it. */
  lemma WhereTheTagIs(sections: seq<string>, timeline: seq<string>, body: seq<string>, i: nat)
    requires body == ["Conversation summary:"] + sections + Section(TIMELINE, timeline)
    requires 0 < i < |body| && AllEntries(sections) && body[i] != TIMELINE
    ensures var n := 1 + |sections|;
            if i < n then TIMELINE !in body[..i]
            else 0 <= i - n - 1 < |Indent(timeline)|
                 && body[..i] == ["Conversation summary:"] + sections + [TIMELINE] + Indent(timeline)[..i - n - 1]
                 && body[i] == Indent(timeline)[i - n - 1] && body[i + 1..] == Indent(timeline)[i - n..]
  {
    hide IsEntry, IsHeading;
    HeadingLengths();
    var n := 1 + |sections|;
    if i < n {
      assert body[..i] == ["Conversation summary:"] + sections[..i - 1];
    } else {
      assert body[n] == TIMELINE;
    }
  }

  /** A carried line with a closing tag keeps every merge from reading back, whatever its patterns. */
  lemma CloseTagNeverReadsBack(previous: seq<string>, added: seq<string>, timeline: seq<string>)
    requires Mergeable(previous, added, timeline) && Inert(previous + added + timeline)
    requires !AllNoClose(previous) || !AllNoClose(added) || !AllNoClose(timeline)
    ensures !ReadsBack(Wrapped(Body(previous, added, timeline)), previous, added, timeline)
  {
    hide NoClose, IsEntry, Inert, Wrapped, Body, EndsEarly, AllEntries, Section, Indent, IsHeading, BodyLine, ReadsBack, JoinLines;
    var body, sections := Body(previous, added, timeline), Section(PREVIOUSLY, previous) + Section(NEWLY, added);
    var i, e := EndedBody(previous, added, timeline);
    SectionsAreEntries(previous, added);
    BodySplit(previous, added, timeline);
    TaggedIsNotHeading(e.u, e.v);
    WhereTheTagIs(sections, timeline, body, i);
    if i <= |sections| {
      HighlightTagShows(Wrapped(body), e, previous, added, timeline);
    } else {
      TimelineTagShows(Wrapped(body), e, previous, added, timeline, i - |sections| - 2);
    }
  }

  lemma HighlightTagShows(text: string, e: Ended, previous: seq<string>, added: seq<string>, timeline: seq<string>)
    requires EndsEarly(text, e) && TIMELINE !in e.pre
    ensures !ReadsBack(text, previous, added, timeline)
  {
    hide FormatCompactSummary, Lines, Highlights, Timeline, EndsEarly, Marked, Section, Indent, JoinLines, Expand;
    EndedReads(text, e);
    SectionsUnmarked(previous, added, timeline);
  }

  lemma TimelineTagShows(text: string, e: Ended, previous: seq<string>, added: seq<string>, timeline: seq<string>, j: nat)
    requires EndsEarly(text, e) && Mergeable(previous, added, timeline) && j < |Indent(timeline)|
    requires var sections := Section(PREVIOUSLY, previous) + Section(NEWLY, added);
             e.pre == ["Conversation summary:"] + sections + [TIMELINE] + Indent(timeline)[..j]
    requires Indent(timeline)[j] == e.u + CLOSE + e.v && e.post == Indent(timeline)[j + 1..]
    ensures !ReadsBack(text, previous, added, timeline)
  {
    hide FormatCompactSummary, Lines, Highlights, Timeline, EndsEarly, Marked, Section, Indent, JoinLines, Expand, IsEntry,
         SectionLine, AllEntries, BodyLine, IsHeading;
    var sections, wanted := Section(PREVIOUSLY, previous) + Section(NEWLY, added), Indent(timeline);
    EndedReads(text, e);
    SectionsUnmarked(previous, added, timeline);
    SectionsAreEntries(previous, added);
    SectionLines(previous, added);
    IndentedLines(timeline);
    EarlyIsValid(text, e);
    assert InTimeline(e, sections, wanted[..j]) && TagLine(e, wanted[..j], wanted);
    ClosedInTimeline(e, sections, wanted[..j], wanted);
  }

  lemma BodySplit(previous: seq<string>, added: seq<string>, timeline: seq<string>)
    ensures Body(previous, added, timeline) ==
            ["Conversation summary:"] + (Section(PREVIOUSLY, previous) + Section(NEWLY, added)) + Section(TIMELINE, timeline)
  {
    hide Section;
  }

  lemma TaggedIsNotHeading(u: string, v: string)
    ensures u + CLOSE + v != TIMELINE
  {
    HeadingsHaveNoTag();
    assert (u + CLOSE + v)[|u|] == CLOSE[0] == '<';
  }

  lemma EarlyIsValid(text: string, e: Ended)
    requires EndsEarly(text, e)
    ensures e.Valid()
  {}

  ghost predicate NoPatterns(existing: string, newSummary: string) {
    var formatted := FormatCompactSummary(newSummary);
    AllSafe(HighlightsOf(existing)) && AllSafe(HighlightsOf(formatted)) && AllSafe(TimelineOf(formatted))
  }

  ghost predicate NoCloseTags(existing: string, newSummary: string) {
    var formatted := FormatCompactSummary(newSummary);
    AllNoClose(HighlightsOf(existing)) && AllNoClose(HighlightsOf(formatted)) && AllNoClose(TimelineOf(formatted))
  }

  /**
   * A merge reads back, old and new highlights and the new timeline alike, if and only if no
   * carried line holds a `$` pattern and none holds a closing tag.
   */
  lemma MergeFaithfulIff(existing: string, newSummary: string)
    requires existing != "" && Inert(Carried(existing, newSummary))
    ensures var formatted := FormatCompactSummary(newSummary);
            ReadsBack(Merged(Some(existing), newSummary), HighlightsOf(existing), HighlightsOf(formatted), TimelineOf(formatted))
            <==> NoPatterns(existing, newSummary) && NoCloseTags(existing, newSummary)
  {
    hide FormatCompactSummary, HighlightsOf, TimelineOf, DollarSafe, NoClose, Inert, ReadsBack, Wrapped, Body;
    var formatted := FormatCompactSummary(newSummary);
    if NoCloseTags(existing, newSummary) {
      MergeReadsBackIff(existing, newSummary);
    } else {
      ExtractedIsMergeable(existing, formatted);
      CloseTagNeverReadsBack(HighlightsOf(existing), HighlightsOf(formatted), TimelineOf(formatted));
    }
  }
}
