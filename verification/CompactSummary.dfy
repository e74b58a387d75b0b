/**
 * The compact summary text (src/compact-summary.ts): normalising a tagged summary, reading its
 * highlights and timeline back, and merging an old summary with a new one.
 */
module CompactSummary {
  import opened Messages
  import opened JsStrings

  // ----- Normalising -------------------------------------------------------

  function StripTag(block: string, open: string, close: string): string {
    var s, e := IndexOf(block, open), IndexOf(block, close);
    if s == -1 || e == -1 then block else block[..s] + block[e + |close|..]
  }

  /** The text between the first opening and the first closing tag; empty when they are out of order. */
  function ExtractTag(block: string, open: string, close: string): Option<string> {
    var s, e := IndexOf(block, open), IndexOf(block, close);
    if s == -1 || e == -1 then None
    else if s + |open| <= e then Some(block[s + |open|..e])
    else Some("")
  }

  /** The substitution patterns a JavaScript replacement string gives a meaning to. */
  predicate IsDollarPattern(d: char, c: char) {
    d == '$' && (c == '$' || c == '&' || c == '`' || c == '\'')
  }

  /** The replacement text with its `$` patterns expanded, for a match without capture groups. */
  function Expand(repl: string, matched: string, before: string, after: string): string {
    if |repl| >= 2 && IsDollarPattern(repl[0], repl[1]) then
      (match repl[1]
       case '$' => "$"
       case '&' => matched
       case '`' => before
       case _ => after) + Expand(repl[2..], matched, before, after)
    else if repl == "" then ""
    else [repl[0]] + Expand(repl[1..], matched, before, after)
  }

  /** `replace` with a string pattern: the first occurrence only. */
  function ReplaceFirst(s: string, pat: string, repl: string): string {
    var i := IndexOf(s, pat);
    if i == -1 then s
    else s[..i] + Expand(repl, pat, s[..i], s[i + |pat|..]) + s[i + |pat|..]
  }

  function LeadingBreaks(s: string): (k: nat)
    ensures k <= |s| && (forall i :: 0 <= i < k ==> s[i] == '\n')
    ensures k < |s| ==> s[k] != '\n'
  {
    if s != "" && s[0] == '\n' then 1 + LeadingBreaks(s[1..]) else 0
  }

  /** Every run of three or more line breaks becomes two. */
  function CollapseBreaks(s: string): string
    decreases |s|
  {
    if s == "" then ""
    else
      var k := LeadingBreaks(s);
      if k == 0 then [s[0]] + CollapseBreaks(s[1..])
      else (if k >= 3 then "\n\n" else s[..k]) + CollapseBreaks(s[k..])
  }

  function FormatCompactSummary(summary: string): string {
    var text := StripTag(summary, "<analysis>", "</analysis>");
    var content := ExtractTag(text, "<summary>", "</summary>");
    var formatted :=
      if content.None? then text
      else ReplaceFirst(text, "<summary>" + content.value + "</summary>", "Summary:\n" + Trim(content.value));
    Trim(CollapseBreaks(formatted))
  }

  lemma FormatNothing()
    ensures FormatCompactSummary("") == ""
  {}

  // ----- Reading the sections ----------------------------------------------

  const TIMELINE := "- Key timeline:"
  const PREVIOUSLY := "- Previously compacted context:"
  const NEWLY := "- Newly compacted context:"

  predicate IsHeading(t: string) {
    t == "" || t == "Summary:" || t == "Conversation summary:"
  }

  /** A line the parser can hand out: not empty, on one line, without trailing space. */
  ghost predicate IsEntry(l: string) {
    l != "" && OneLine(l) && TrimEnd(l) == l
  }

  /** The entries before the timeline, headings left out. */
  function Highlights(ls: seq<string>): (out: seq<string>)
    ensures forall i :: 0 <= i < |out| ==> !IsHeading(out[i]) && out[i] != TIMELINE
  {
    if ls == [] then []
    else
      var t := TrimEnd(ls[0]);
      if IsHeading(t) then Highlights(ls[1..])
      else if t == TIMELINE then []
      else [t] + Highlights(ls[1..])
  }

  /** The entries after the timeline heading, up to the first empty line. */
  function Timeline(ls: seq<string>, inTimeline: bool): (out: seq<string>)
    decreases |ls|
  {
    if ls == [] then []
    else
      var t := TrimEnd(ls[0]);
      if t == TIMELINE then Timeline(ls[1..], true)
      else if !inTimeline then Timeline(ls[1..], false)
      else if t == "" then []
      else [t] + Timeline(ls[1..], true)
  }

  function HighlightsOf(summary: string): seq<string> {
    Highlights(Lines(FormatCompactSummary(summary)))
  }

  function TimelineOf(summary: string): seq<string> {
    Timeline(Lines(FormatCompactSummary(summary)), false)
  }

  method ExtractSummaryHighlights(summary: string) returns (out: seq<string>)
    ensures out == HighlightsOf(summary)
  {
    hide FormatCompactSummary;
    var lines := Lines(FormatCompactSummary(summary));
    out := [];
    var inTimeline := false;
    for i := 0 to |lines|
      invariant HighlightsOf(summary) == out + if inTimeline then [] else Highlights(lines[i..])
    {
      var t := TrimEnd(lines[i]);
      assert lines[i..][1..] == lines[i + 1..];
      if t == "" || t == "Summary:" || t == "Conversation summary:" {
        continue;
      }
      if t == TIMELINE {
        inTimeline := true;
        continue;
      }
      if inTimeline {
        continue;
      }
      out := out + [t];
    }
  }

  method ExtractSummaryTimeline(summary: string) returns (out: seq<string>)
    ensures out == TimelineOf(summary)
  {
    hide FormatCompactSummary;
    var lines := Lines(FormatCompactSummary(summary));
    out := [];
    var inTimeline := false;
    for i := 0 to |lines|
      invariant TimelineOf(summary) == out + Timeline(lines[i..], inTimeline)
    {
      var t := TrimEnd(lines[i]);
      assert lines[i..][1..] == lines[i + 1..];
      if t == TIMELINE {
        inTimeline := true;
        continue;
      }
      if !inTimeline {
        continue;
      }
      if t == "" {
        return;
      }
      out := out + [t];
    }
  }

  lemma {:induction false} HighlightsAreEntries(ls: seq<string>)
    requires forall i :: 0 <= i < |ls| ==> OneLine(ls[i])
    ensures forall l :: l in Highlights(ls) ==> IsEntry(l)
  {
    if ls != [] {
      HighlightsAreEntries(ls[1..]);
      TrimmedLineIsEntry(ls[0]);
    }
  }

  lemma {:induction false} TimelineIsEntries(ls: seq<string>, inTimeline: bool)
    requires forall i :: 0 <= i < |ls| ==> OneLine(ls[i])
    ensures forall l :: l in Timeline(ls, inTimeline) ==> IsEntry(l)
    decreases |ls|
  {
    if ls != [] {
      TimelineIsEntries(ls[1..], inTimeline);
      TimelineIsEntries(ls[1..], true);
      TrimmedLineIsEntry(ls[0]);
    }
  }

  lemma TrimmedLineIsEntry(line: string)
    requires OneLine(line)
    ensures TrimEnd(line) != "" ==> IsEntry(TrimEnd(line))
  {}

  // ----- Merging -----------------------------------------------------------

  function Indent(ls: seq<string>): (out: seq<string>) {
    seq(|ls|, i requires 0 <= i < |ls| => "  " + ls[i])
  }

  function Section(heading: string, ls: seq<string>): seq<string> {
    if ls == [] then [] else [heading] + Indent(ls)
  }

  function Body(previous: seq<string>, added: seq<string>, timeline: seq<string>): seq<string> {
    ["Conversation summary:"] + Section(PREVIOUSLY, previous) + Section(NEWLY, added) + Section(TIMELINE, timeline)
  }

  function Wrapped(body: seq<string>): string {
    JoinLines(["<summary>"] + body + ["</summary>"])
  }

  function Merged(existing: Option<string>, newSummary: string): string {
    if !Truthy(existing) then newSummary
    else
      var formatted := FormatCompactSummary(newSummary);
      Wrapped(Body(HighlightsOf(existing.value), HighlightsOf(formatted), TimelineOf(formatted)))
  }

  method PushIndented(lines: seq<string>, heading: string, entries: seq<string>) returns (out: seq<string>)
    ensures out == lines + Section(heading, entries)
  {
    out := lines;
    if |entries| > 0 {
      out := out + [heading];
      for i := 0 to |entries|
        invariant out == lines + [heading] + Indent(entries)[..i]
      {
        out := out + ["  " + entries[i]];
      }
      assert Indent(entries)[..|entries|] == Indent(entries);
    }
  }

  lemma WrappedBody(previous: seq<string>, added: seq<string>, timeline: seq<string>)
    ensures ["<summary>", "Conversation summary:"] + Section(PREVIOUSLY, previous) + Section(NEWLY, added)
            + Section(TIMELINE, timeline) + ["</summary>"]
            == ["<summary>"] + Body(previous, added, timeline) + ["</summary>"]
  {
    hide Section;
  }

  method MergeCompactSummaries(existing: Option<string>, newSummary: string) returns (merged: string)
    ensures merged == Merged(existing, newSummary)
    ensures existing.None? || existing.value == "" ==> merged == newSummary
  {
    hide FormatCompactSummary, Section, JoinLines, HighlightsOf, TimelineOf;
    if !Truthy(existing) {
      return newSummary;
    }
    var prevHighlights := ExtractSummaryHighlights(existing.value);
    var newHighlights := ExtractSummaryHighlights(FormatCompactSummary(newSummary));
    var newTimeline := ExtractSummaryTimeline(FormatCompactSummary(newSummary));
    var lines := ["<summary>", "Conversation summary:"];
    lines := PushIndented(lines, PREVIOUSLY, prevHighlights);
    lines := PushIndented(lines, NEWLY, newHighlights);
    lines := PushIndented(lines, TIMELINE, newTimeline);
    lines := lines + ["</summary>"];
    WrappedBody(prevHighlights, newHighlights, newTimeline);
    return JoinLines(lines);
  }

  // ----- Reading a merged summary back -------------------------------------

  /** No `$` is followed by a character that makes it a substitution pattern. */
  predicate DollarSafe(s: string) {
    forall i :: 0 <= i && i + 1 < |s| ==> !IsDollarPattern(s[i], s[i + 1])
  }

  /** A line without the tag that would end the summary early. */
  ghost predicate NoClose(l: string) {
    !Contains(l, "</summary>")
  }

  ghost predicate Lacks(ls: seq<string>, tag: string) {
    forall i :: 0 <= i < |ls| ==> !Contains(ls[i], tag)
  }

  /** Lines that cannot make up an analysis block: one of its two tags is in none of them. */
  ghost predicate Inert(ls: seq<string>) {
    Lacks(ls, "<analysis>") || Lacks(ls, "</analysis>")
  }

  ghost predicate Plain(l: string) {
    NoClose(l) && DollarSafe(l)
  }

  ghost predicate AllPlain(ls: seq<string>) {
    forall i :: 0 <= i < |ls| ==> Plain(ls[i])
  }

  lemma {:induction false} ExpandSafe(repl: string, matched: string, before: string, after: string)
    requires DollarSafe(repl)
    ensures Expand(repl, matched, before, after) == repl
  {
    if repl != "" {
      assert |repl| >= 2 ==> !IsDollarPattern(repl[0], repl[1]);
      forall i | 0 <= i && i + 1 < |repl[1..]|
        ensures !IsDollarPattern(repl[1..][i], repl[1..][i + 1])
      {
        assert repl[1..][i] == repl[i + 1];
      }
      ExpandSafe(repl[1..], matched, before, after);
    }
  }

  lemma {:induction false} CollapseFixed(s: string)
    requires NoGap(s)
    ensures CollapseBreaks(s) == s
    decreases |s|
  {
    if s != "" {
      var k := LeadingBreaks(s);
      assert |s| >= 2 ==> !(s[0] == '\n' && s[0 + 1] == '\n');
      var m := if k == 0 then 1 else k;
      forall i | 0 <= i && i + 1 < |s[m..]|
        ensures !(s[m..][i] == '\n' && s[m..][i + 1] == '\n')
      {
        assert s[m..][i] == s[m + i] && s[m..][i + 1] == s[m + i + 1];
      }
      CollapseFixed(s[m..]);
    }
  }

  lemma {:induction false} DollarSafeJoin(ls: seq<string>)
    requires forall i :: 0 <= i < |ls| ==> DollarSafe(ls[i])
    ensures DollarSafe(JoinLines(ls))
  {
    if |ls| > 1 {
      DollarSafeJoin(ls[1..]);
      var a, b := ls[0], JoinLines(ls[1..]);
      var s := a + "\n" + b;
      forall i | 0 <= i && i + 1 < |s|
        ensures !IsDollarPattern(s[i], s[i + 1])
      {
        if i + 1 < |a| {
          assert s[i] == a[i] && s[i + 1] == a[i + 1];
        } else if i > |a| {
          assert s[i] == b[i - |a| - 1] && s[i + 1] == b[i - |a| - 1 + 1];
        }
      }
    }
  }

  /** Lines a wrapped body may hold. */
  ghost predicate BodyLines(body: seq<string>) {
    && body != [] && !IsSpace(if body[0] == "" then ' ' else body[0][0])
    && (forall i :: 0 <= i < |body| ==> IsEntry(body[i]) && NoClose(body[i]))
    && Inert(body)
  }

  /** Formatting finds no analysis block in the text. */
  predicate NoAnalysis(text: string) {
    IndexOf(text, "<analysis>") == -1 || IndexOf(text, "</analysis>") == -1
  }

  lemma WrappedLayout(body: seq<string>)
    requires body != []
    ensures Wrapped(body) == "<summary>\n" + JoinLines(body) + "\n</summary>"
  {
    hide JoinLines;
    JoinSandwich("<summary>", body, "</summary>");
    BreaksBesideTags(JoinLines(body));
  }

  lemma BreaksBesideTags(inner: string)
    ensures "<summary>" + "\n" + inner + "\n" + "</summary>" == "<summary>\n" + inner + "\n</summary>"
  {
    assert "<summary>" + "\n" == "<summary>\n" && "\n" + "</summary>" == "\n</summary>";
  }

  /** A tag that no line of the body holds is found in the wrapped text only as its own line. */
  lemma WrappedTags(body: seq<string>)
    requires BodyLines(body)
    ensures var text := Wrapped(body);
            && NoAnalysis(text)
            && IndexOf(text, "<summary>") == 0
            && IndexOf(text, "</summary>") == |text| - 10
  {
    hide JoinLines, IndexOf;
    var text := Wrapped(body);
    var start := ["<summary>"] + body;
    TagsAreDistinct();
    assert forall i :: 0 <= i < |start| ==> NoClose(start[i]);
    WrappedLacksAnalysis(body);
    JoinContainsNot(start, "</summary>");
    JoinConcat(start, ["</summary>"]);
    JoinConcat(["<summary>"], body);
    JoinOne("<summary>");
    JoinOne("</summary>");
    TagsAtTheEnds(JoinLines(start), text);
  }

  lemma JoinOne(line: string)
    ensures JoinLines([line]) == line
  {}

  /** A text that opens with one tag and ends with another, absent before, finds each where it stands. */
  lemma TagsAtTheEnds(head: string, text: string)
    requires |head| >= 9 && head[..9] == "<summary>" && !Contains(head, "</summary>")
    requires text == head + "\n" + "</summary>"
    ensures IndexOf(text, "<summary>") == 0
    ensures IndexOf(text, "</summary>") == |text| - 10
  {
    assert text[0..9] == "<summary>" && MatchesAt(text, "<summary>", 0);
    assert text[|text| - 10..] == "</summary>" && MatchesAt(text, "</summary>", |text| - 10);
    forall i
      ensures MatchesAt(text, "</summary>", i) ==> i >= |text| - 10
    {
      if MatchesAt(text, "</summary>", i) {
        MatchInConcat(head, "</summary>", "</summary>", i);
      }
    }
  }

  lemma TagsAreDistinct()
    ensures NoClose("<summary>") && Inert(["<summary>"])
    ensures Lacks(["<summary>", "</summary>"], "<analysis>") && Lacks(["<summary>", "</summary>"], "</analysis>")
  {
    var tags := ["<summary>", "</summary>"];
    forall i, j | 0 <= i < |tags|
      ensures !MatchesAt(tags[i], "<analysis>", j) && !MatchesAt(tags[i], "</analysis>", j)
    {
      MatchChars(tags[i], "<analysis>", j);
      MatchChars(tags[i], "</analysis>", j);
      assert "<analysis>"[1] == 'a' && "</analysis>"[2] == 'a';
    }
  }

  lemma WrappedLacksAnalysis(body: seq<string>)
    requires Inert(body)
    ensures NoAnalysis(Wrapped(body))
  {
    hide JoinLines, IndexOf;
    TagsAreDistinct();
    var all, tags := ["<summary>"] + body + ["</summary>"], ["<summary>", "</summary>"];
    var tag := if Lacks(body, "<analysis>") then "<analysis>" else "</analysis>";
    forall i | 0 <= i < |all|
      ensures !Contains(all[i], tag)
    {
      assert all[i] == if i == 0 then tags[0] else if i == |all| - 1 then tags[1] else body[i - 1];
    }
    JoinContainsNot(all, tag);
  }

  lemma TrimBetweenBreaks(s: string)
    requires s != "" && !IsSpace(s[0]) && !IsSpace(s[|s| - 1])
    ensures Trim("\n" + s + "\n") == s
  {
    var t := s + "\n";
    assert ("\n" + s + "\n")[1..] == t;
    assert t[0] == s[0] && LeadingSpaces(t) == 0;
    assert TrimStart("\n" + s + "\n") == t;
    assert t[..|t| - 1] == s;
    TrimFixed(s);
  }

  lemma ReplaceWhole(text: string, repl: string)
    ensures ReplaceFirst(text, text, repl) == Expand(repl, text, "", "")
  {
    hide Expand;
    IndexOfSelf(text);
    assert text[..0] == "" && text[|text|..] == "";
    assert "" + Expand(repl, text, "", "") + "" == Expand(repl, text, "", "");
  }

  lemma ExtractBetween(text: string, open: string, content: string, close: string)
    requires text == open + content + close
    requires IndexOf(text, open) == 0 && IndexOf(text, close) == |open| + |content|
    ensures ExtractTag(text, open, close) == Some(content)
  {
    assert text[|open|..|open| + |content|] == content;
  }

  lemma FormatTagged(text: string, content: string)
    requires NoAnalysis(text)
    requires IndexOf(text, "<summary>") == 0 && IndexOf(text, "</summary>") == 9 + |content|
    requires text == "<summary>" + content + "</summary>"
    ensures FormatCompactSummary(text) ==
            Trim(CollapseBreaks(Expand("Summary:\n" + Trim(content), text, "", "")))
  {
    hide ExtractTag, ReplaceFirst, Expand, CollapseBreaks, Trim, IndexOf;
    ExtractBetween(text, "<summary>", content, "</summary>");
    ReplaceWhole(text, "Summary:\n" + Trim(content));
  }

  /** What formatting makes of a wrapped body: the body after the heading, `$` patterns expanded. */
  lemma FormatWrapped(body: seq<string>)
    requires BodyLines(body)
    ensures FormatCompactSummary(Wrapped(body)) ==
            Trim(CollapseBreaks(Expand("Summary:\n" + JoinLines(body), Wrapped(body), "", "")))
  {
    hide FormatCompactSummary, Expand, CollapseBreaks;
    var text, c := Wrapped(body), JoinLines(body);
    WrappedLayout(body);
    WrappedTags(body);
    JoinEnds(body);
    TrimBetweenBreaks(c);
    var content := "\n" + c + "\n";
    WrappedAsTagged(c, content);
    FormatTagged(text, content);
  }

  lemma WrappedAsTagged(c: string, content: string)
    requires content == "\n" + c + "\n"
    ensures "<summary>\n" + c + "\n</summary>" == "<summary>" + content + "</summary>"
  {
    assert "<summary>\n" == "<summary>" + "\n" && "\n</summary>" == "\n" + "</summary>";
  }

  /** Formatting a body without `$` patterns only puts the heading before it. */
  lemma FormattedLines(body: seq<string>)
    requires BodyLines(body)
    ensures Lines(Trim(CollapseBreaks("Summary:\n" + JoinLines(body)))) == ["Summary:"] + body
  {
    hide JoinLines, Lines, TrimEnd, Trim, CollapseBreaks, NoGap, Inert, NoClose;
    var ls := ["Summary:"] + body;
    JoinConcat(["Summary:"], body);
    assert JoinLines(["Summary:"]) + "\n" == "Summary:\n" by { JoinOne("Summary:"); }
    var s := JoinLines(ls);
    assert s == "Summary:\n" + JoinLines(body);
    JoinHasNoGap(ls);
    CollapseFixed(s);
    JoinEnds(ls);
    TrimFixed(s);
    LinesOfJoin(ls);
  }

  // ----- The sections of a merged summary ----------------------------------

  /** Entries that no parser step would take for a heading. */
  ghost predicate AllEntries(ls: seq<string>) {
    forall i :: 0 <= i < |ls| ==> IsEntry(ls[i]) && !IsHeading(ls[i]) && ls[i] != TIMELINE
  }

  lemma {:induction false} HighlightsConcat(a: seq<string>, b: seq<string>)
    requires AllEntries(a)
    ensures Highlights(a + b) == a + Highlights(b)
  {
    hide IsHeading, TrimEnd;
    if a == [] {
      assert a + b == b;
    } else {
      assert (a + b)[1..] == a[1..] + b;
      HighlightsConcat(a[1..], b);
    }
  }

  lemma {:induction false} TimelineSkips(a: seq<string>, b: seq<string>)
    requires forall i :: 0 <= i < |a| ==> TrimEnd(a[i]) != TIMELINE
    ensures Timeline(a + b, false) == Timeline(b, false)
  {
    if a == [] {
      assert a + b == b;
    } else {
      assert (a + b)[1..] == a[1..] + b;
      TimelineSkips(a[1..], b);
    }
  }

  lemma {:induction false} TimelineTakes(ls: seq<string>)
    requires AllEntries(ls)
    ensures Timeline(ls, true) == ls
  {
    if ls != [] {
      TimelineTakes(ls[1..]);
    }
  }

  lemma IndentedEntry(l: string)
    requires IsEntry(l)
    ensures var t := "  " + l; IsEntry(t) && !IsHeading(t) && t != TIMELINE
    ensures NoClose(l) ==> NoClose("  " + l)
    ensures DollarSafe(l) ==> DollarSafe("  " + l)
  {
    var t := "  " + l;
    assert t[|t| - 1] == l[|l| - 1];
    assert TIMELINE[0] == '-' && "Summary:"[0] == 'S' && "Conversation summary:"[0] == 'C';
    IndentAddsNoTag(l, "</summary>");
  }

  lemma IndentAddsNoTag(l: string, tag: string)
    requires tag != "" && tag[0] == '<'
    ensures Contains("  " + l, tag) ==> Contains(l, tag)
  {
    var t := "  " + l;
    forall i | MatchesAt(t, tag, i)
      ensures MatchesAt(l, tag, i - 2)
    {
      MatchChars(t, tag, i);
      assert t[i + 0] == tag[0];
      assert l[i - 2..i - 2 + |tag|] == t[i..i + |tag|];
    }
  }

  lemma IndentLacks(ls: seq<string>, tag: string)
    requires tag != "" && tag[0] == '<'
    ensures Lacks(ls, tag) ==> Lacks(Indent(ls), tag)
  {
    forall i | 0 <= i < |ls| && Contains(Indent(ls)[i], tag)
      ensures Contains(ls[i], tag)
    {
      IndentAddsNoTag(ls[i], tag);
    }
  }

  lemma SectionLacks(heading: string, ls: seq<string>, tag: string)
    requires tag != "" && tag[0] == '<' && '<' !in heading
    ensures Lacks(ls, tag) ==> Lacks(Section(heading, ls), tag)
  {
    NoMatchWithoutFirst(heading, tag);
    IndentLacks(ls, tag);
  }

  lemma BodyLacks(previous: seq<string>, added: seq<string>, timeline: seq<string>, tag: string)
    requires tag != "" && tag[0] == '<' && Lacks(previous + added + timeline, tag)
    ensures Lacks(Body(previous, added, timeline), tag)
  {
    hide Contains;
    var carried := previous + added + timeline;
    assert forall i :: 0 <= i < |previous| ==> previous[i] == carried[i];
    assert forall i :: 0 <= i < |added| ==> added[i] == carried[|previous| + i];
    assert forall i :: 0 <= i < |timeline| ==> timeline[i] == carried[|previous| + |added| + i];
    HeadingsHaveNoTag();
    NoMatchWithoutFirst("Conversation summary:", tag);
    SectionLacks(PREVIOUSLY, previous, tag);
    SectionLacks(NEWLY, added, tag);
    SectionLacks(TIMELINE, timeline, tag);
  }

  lemma HeadingsHaveNoTag()
    ensures '<' !in PREVIOUSLY && '<' !in NEWLY && '<' !in TIMELINE && '<' !in "Conversation summary:"
  {}

  lemma BodyInert(previous: seq<string>, added: seq<string>, timeline: seq<string>)
    requires Inert(previous + added + timeline)
    ensures Inert(Body(previous, added, timeline))
  {
    hide Body, Lacks;
    var tag := if Lacks(previous + added + timeline, "<analysis>") then "<analysis>" else "</analysis>";
    BodyLacks(previous, added, timeline, tag);
  }

  lemma HeadingIsPlain(h: string)
    requires h != "" && OneLine(h) && '<' !in h && '$' !in h && !IsSpace(h[|h| - 1])
    ensures IsEntry(h) && Plain(h)
  {
    NoMatchWithoutFirst(h, "</summary>");
  }

  lemma TitleIsPlain()
    ensures IsEntry("Conversation summary:") && Plain("Conversation summary:")
  {
    HeadingIsPlain("Conversation summary:");
  }

  lemma HeadingLengths()
    ensures |PREVIOUSLY| == 31 && |NEWLY| == 26 && |TIMELINE| == 15
    ensures |"Summary:"| == 8 && |"Conversation summary:"| == 21
  {}

  lemma PreviouslyIsPlain()
    ensures IsEntry(PREVIOUSLY) && Plain(PREVIOUSLY) && !IsHeading(PREVIOUSLY) && PREVIOUSLY != TIMELINE
  {
    hide Plain, IsEntry;
    HeadingIsPlain(PREVIOUSLY);
    HeadingLengths();
  }

  lemma NewlyIsPlain()
    ensures IsEntry(NEWLY) && Plain(NEWLY) && !IsHeading(NEWLY) && NEWLY != TIMELINE
  {
    hide Plain, IsEntry;
    HeadingIsPlain(NEWLY);
    HeadingLengths();
  }

  lemma TimelineIsPlain()
    ensures IsEntry(TIMELINE) && Plain(TIMELINE)
  {
    HeadingIsPlain(TIMELINE);
  }

  lemma IndentEntries(ls: seq<string>)
    requires forall i :: 0 <= i < |ls| ==> IsEntry(ls[i])
    ensures AllEntries(Indent(ls))
    ensures AllPlain(ls) ==> AllPlain(Indent(ls))
    ensures AllNoClose(ls) ==> AllNoClose(Indent(ls))
  {
    hide IsHeading, IsEntry, DollarSafe, NoClose;
    forall i | 0 <= i < |ls|
      ensures IsEntry(Indent(ls)[i]) && !IsHeading(Indent(ls)[i]) && Indent(ls)[i] != TIMELINE
      ensures Plain(ls[i]) ==> Plain(Indent(ls)[i])
      ensures NoClose(ls[i]) ==> NoClose(Indent(ls)[i])
    {
      IndentedEntry(ls[i]);
    }
  }

  lemma SectionEntries(heading: string, ls: seq<string>)
    requires heading == PREVIOUSLY || heading == NEWLY
    requires forall i :: 0 <= i < |ls| ==> IsEntry(ls[i])
    ensures AllEntries(Section(heading, ls))
    ensures AllPlain(ls) ==> AllPlain(Section(heading, ls))
    ensures AllNoClose(ls) ==> AllNoClose(Section(heading, ls))
  {
    hide IsEntry, NoClose, DollarSafe;
    PreviouslyIsPlain();
    NewlyIsPlain();
    IndentEntries(ls);
  }

  /** The lists a merge puts together, each line fit to be printed and read back. */
  ghost predicate Mergeable(previous: seq<string>, added: seq<string>, timeline: seq<string>) {
    && (forall i :: 0 <= i < |previous| ==> IsEntry(previous[i]))
    && (forall i :: 0 <= i < |added| ==> IsEntry(added[i]))
    && (forall i :: 0 <= i < |timeline| ==> IsEntry(timeline[i]))
  }

  ghost predicate AllNoClose(ls: seq<string>) {
    forall i :: 0 <= i < |ls| ==> NoClose(ls[i])
  }

  lemma BodyIsBodyLines(previous: seq<string>, added: seq<string>, timeline: seq<string>)
    requires Mergeable(previous, added, timeline)
    requires AllNoClose(previous) && AllNoClose(added) && AllNoClose(timeline)
    requires Inert(previous + added + timeline)
    ensures BodyLines(Body(previous, added, timeline))
  {
    hide IsEntry, DollarSafe, NoClose, Inert;
    BodyInert(previous, added, timeline);
    TitleIsPlain();
    SectionEntries(PREVIOUSLY, previous);
    SectionEntries(NEWLY, added);
    TimelineIsPlain();
    IndentEntries(timeline);
    var body := Body(previous, added, timeline);
    assert body[0] == "Conversation summary:" && body[0][0] == 'C';
  }

  lemma BodyIsPlain(previous: seq<string>, added: seq<string>, timeline: seq<string>)
    requires Mergeable(previous, added, timeline)
    requires AllPlain(previous) && AllPlain(added) && AllPlain(timeline)
    ensures AllPlain(Body(previous, added, timeline))
  {
    hide IsEntry, DollarSafe, NoClose;
    TitleIsPlain();
    SectionEntries(PREVIOUSLY, previous);
    SectionEntries(NEWLY, added);
    TimelineIsPlain();
    IndentEntries(timeline);
  }

  /** The parser reads a printed body back section by section. */
  lemma ParseBody(previous: seq<string>, added: seq<string>, timeline: seq<string>)
    requires Mergeable(previous, added, timeline)
    ensures var ls := ["Summary:"] + Body(previous, added, timeline);
            && Highlights(ls) == Section(PREVIOUSLY, previous) + Section(NEWLY, added)
            && Timeline(ls, false) == Indent(timeline)
  {
    hide AllEntries, Highlights, Timeline, Section, Indent, IsEntry, IsHeading;
    var sections := Section(PREVIOUSLY, previous) + Section(NEWLY, added);
    var tail := Section(TIMELINE, timeline);
    SectionsAreEntries(previous, added);
    IndentEntries(timeline);
    BodyLayout(previous, added, timeline);
    TitleLinesSkipped(sections + tail);
    HighlightsConcat(sections, tail);
    EntriesAreNotTimeline(sections);
    TimelineSkips(sections, tail);
    TimelineSection(timeline);
  }

  lemma SectionsAreEntries(previous: seq<string>, added: seq<string>)
    requires forall i :: 0 <= i < |previous| ==> IsEntry(previous[i])
    requires forall i :: 0 <= i < |added| ==> IsEntry(added[i])
    ensures AllEntries(Section(PREVIOUSLY, previous) + Section(NEWLY, added))
  {
    hide IsEntry, IsHeading, Section;
    SectionEntries(PREVIOUSLY, previous);
    SectionEntries(NEWLY, added);
  }

  lemma BodyLayout(previous: seq<string>, added: seq<string>, timeline: seq<string>)
    ensures ["Summary:"] + Body(previous, added, timeline) ==
            ["Summary:", "Conversation summary:"]
            + ((Section(PREVIOUSLY, previous) + Section(NEWLY, added)) + Section(TIMELINE, timeline))
  {
    hide Section;
  }

  lemma EntriesAreNotTimeline(ls: seq<string>)
    requires AllEntries(ls)
    ensures forall i :: 0 <= i < |ls| ==> TrimEnd(ls[i]) != TIMELINE
  {}

  lemma HeadingSkipped(t: string, rest: seq<string>)
    requires IsHeading(t) && t != TIMELINE && TrimEnd(t) == t
    ensures Highlights([t] + rest) == Highlights(rest) && Timeline([t] + rest, false) == Timeline(rest, false)
  {
    hide IsHeading, TrimEnd;
    assert ([t] + rest)[1..] == rest;
  }

  lemma SummaryIsHeading()
    ensures IsHeading("Summary:") && "Summary:" != TIMELINE && TrimEnd("Summary:") == "Summary:"
  {
    hide TrimEnd, Trim;
    HeadingLengths();
    TrimFixed("Summary:");
  }

  lemma TitleIsHeading()
    ensures var t := "Conversation summary:"; IsHeading(t) && t != TIMELINE && TrimEnd(t) == t
  {
    hide TrimEnd, Trim;
    HeadingLengths();
    TrimFixed("Conversation summary:");
  }

  lemma TitleLinesSkipped(rest: seq<string>)
    ensures var ls := ["Summary:", "Conversation summary:"] + rest;
            Highlights(ls) == Highlights(rest) && Timeline(ls, false) == Timeline(rest, false)
  {
    hide IsHeading, TrimEnd, Highlights, Timeline;
    var a, b := "Summary:", "Conversation summary:";
    SummaryIsHeading();
    TitleIsHeading();
    HeadingSkipped(b, rest);
    HeadingSkipped(a, [b] + rest);
    assert [a, b] + rest == [a] + ([b] + rest);
  }

  lemma TimelineSection(timeline: seq<string>)
    requires AllEntries(Indent(timeline))
    ensures Highlights(Section(TIMELINE, timeline)) == []
    ensures Timeline(Section(TIMELINE, timeline), false) == Indent(timeline)
  {
    if timeline != [] {
      TimelineIsPlain();
      assert Section(TIMELINE, timeline)[1..] == Indent(timeline);
      assert TIMELINE[0] == '-' && "Summary:"[0] == 'S' && "Conversation summary:"[0] == 'C';
      TimelineTakes(Indent(timeline));
    }
  }

  /** What the merge reads from its two arguments is always printable. */
  lemma ExtractedIsMergeable(existing: string, newSummary: string)
    ensures Mergeable(HighlightsOf(existing), HighlightsOf(newSummary), TimelineOf(newSummary))
  {
    hide FormatCompactSummary;
    HighlightsAreEntries(Lines(FormatCompactSummary(existing)));
    HighlightsAreEntries(Lines(FormatCompactSummary(newSummary)));
    TimelineIsEntries(Lines(FormatCompactSummary(newSummary)), false);
  }

  /** The lines of a merged summary, for any two summaries. */
  lemma MergedText(existing: string, newSummary: string)
    requires existing != ""
    ensures var formatted := FormatCompactSummary(newSummary);
            var previous, added, timeline := HighlightsOf(existing), HighlightsOf(formatted), TimelineOf(formatted);
            Lines(Merged(Some(existing), newSummary)) ==
            ["<summary>", "Conversation summary:"]
            + (if previous == [] then [] else ["- Previously compacted context:"] + Indent(previous))
            + (if added == [] then [] else ["- Newly compacted context:"] + Indent(added))
            + (if timeline == [] then [] else ["- Key timeline:"] + Indent(timeline))
            + ["</summary>"]
  {
    hide FormatCompactSummary, HighlightsOf, TimelineOf, Lines, JoinLines, IsEntry, IsHeading, DollarSafe, NoClose;
    var formatted := FormatCompactSummary(newSummary);
    var previous, added, timeline := HighlightsOf(existing), HighlightsOf(formatted), TimelineOf(formatted);
    ExtractedIsMergeable(existing, formatted);
    var all := ["<summary>"] + Body(previous, added, timeline) + ["</summary>"];
    BodyOneLine(previous, added, timeline);
    LinesOfJoin(all);
  }

  lemma BodyOneLine(previous: seq<string>, added: seq<string>, timeline: seq<string>)
    requires Mergeable(previous, added, timeline)
    ensures var all := ["<summary>"] + Body(previous, added, timeline) + ["</summary>"];
            forall i :: 0 <= i < |all| ==> OneLine(all[i])
  {
    hide IsHeading, DollarSafe, NoClose, IsEntry;
    TitleIsPlain();
    PreviouslyIsPlain();
    NewlyIsPlain();
    TimelineIsPlain();
    IndentEntries(previous);
    IndentEntries(added);
    IndentEntries(timeline);
    var body := Body(previous, added, timeline);
    forall i | 0 <= i < |body|
      ensures OneLine(body[i])
    {
      EntryIsOneLine(body[i]);
    }
  }

  lemma EntryIsOneLine(l: string)
    ensures IsEntry(l) ==> OneLine(l)
  {}

  /** The lines a merge carries over. */
  function Carried(existing: string, newSummary: string): seq<string> {
    var formatted := FormatCompactSummary(newSummary);
    HighlightsOf(existing) + HighlightsOf(formatted) + TimelineOf(formatted)
  }

  /** The lines a merge carries over hold no closing tag, no analysis block and no substitution pattern. */
  ghost predicate PlainInputs(existing: string, newSummary: string) {
    var formatted := FormatCompactSummary(newSummary);
    && AllPlain(HighlightsOf(existing)) && AllPlain(HighlightsOf(formatted)) && AllPlain(TimelineOf(formatted))
    && Inert(Carried(existing, newSummary))
  }

  /**
   * Round trip: reading a merged summary gives the old highlights and the new ones under their
   * headings, each indented by two, and the new timeline.
   */
  lemma MergeRoundTrip(existing: string, newSummary: string)
    requires existing != "" && PlainInputs(existing, newSummary)
    ensures var merged, formatted := Merged(Some(existing), newSummary), FormatCompactSummary(newSummary);
            && HighlightsOf(merged) == Section(PREVIOUSLY, HighlightsOf(existing)) + Section(NEWLY, HighlightsOf(formatted))
            && TimelineOf(merged) == Indent(TimelineOf(formatted))
            && AllPlain(HighlightsOf(merged)) && merged != ""
  {
    hide FormatCompactSummary, Expand, CollapseBreaks, DollarSafe, NoClose, IsEntry;
    var formatted := FormatCompactSummary(newSummary);
    var previous, added, timeline := HighlightsOf(existing), HighlightsOf(formatted), TimelineOf(formatted);
    ExtractedIsMergeable(existing, formatted);
    BodyIsBodyLines(previous, added, timeline);
    BodyIsPlain(previous, added, timeline);
    var body := Body(previous, added, timeline);
    PlainBodyReadsBack(body);
    ParseBody(previous, added, timeline);
    WrappedLayout(body);
    SectionEntries(PREVIOUSLY, previous);
    SectionEntries(NEWLY, added);
  }

  lemma PlainBodyReadsBack(body: seq<string>)
    requires BodyLines(body) && AllPlain(body)
    ensures Lines(FormatCompactSummary(Wrapped(body))) == ["Summary:"] + body
  {
    hide FormatCompactSummary, CollapseBreaks, NoClose, IsEntry;
    FormatWrapped(body);
    FormattedLines(body);
    var text := "Summary:\n" + JoinLines(body);
    assert DollarSafe("Summary:") by { assert '$' !in "Summary:"; }
    DollarSafeJoin(["Summary:"] + body);
    JoinConcat(["Summary:"], body);
    assert "Summary:\n" == "Summary:" + "\n";
    ExpandSafe(text, Wrapped(body), "", "");
  }

  // ----- Many merges -------------------------------------------------------

  function MergeAll(memory: string, summaries: seq<string>): string
    decreases |summaries|
  {
    if summaries == [] then memory else MergeAll(Merged(Some(memory), summaries[0]), summaries[1..])
  }

  /** An entry indented once for every merge it has been through. */
  function Nested(times: nat, l: string): string {
    if times == 0 then l else Nested(times - 1, "  " + l)
  }

  predicate IsAnalysisTag(tag: string) {
    tag == "<analysis>" || tag == "</analysis>"
  }

  /** Plain lines that lack one of the two analysis tags, the same for every line ever merged. */
  ghost predicate Fit(ls: seq<string>, tag: string) {
    IsAnalysisTag(tag) && AllPlain(ls) && Lacks(ls, tag)
  }

  ghost predicate FitSummary(summary: string, tag: string) {
    var formatted := FormatCompactSummary(summary);
    Fit(HighlightsOf(formatted), tag) && Fit(TimelineOf(formatted), tag)
  }

  ghost predicate FitSummaries(summaries: seq<string>, tag: string) {
    forall i :: 0 <= i < |summaries| ==> FitSummary(summaries[i], tag)
  }

  lemma FitIsPlain(memory: string, summary: string, tag: string)
    requires Fit(HighlightsOf(memory), tag) && FitSummary(summary, tag)
    ensures PlainInputs(memory, summary)
  {
    hide FormatCompactSummary, HighlightsOf, TimelineOf, Plain, Contains;
    assert Lacks(Carried(memory, summary), tag);
  }

  lemma MergedIsFit(memory: string, summary: string, tag: string)
    requires memory != "" && Fit(HighlightsOf(memory), tag) && FitSummary(summary, tag)
    ensures Fit(HighlightsOf(Merged(Some(memory), summary)), tag) && Merged(Some(memory), summary) != ""
  {
    hide FormatCompactSummary, HighlightsOf, TimelineOf, Merged, Plain, Contains;
    FitIsPlain(memory, summary, tag);
    MergeRoundTrip(memory, summary);
    HeadingsHaveNoTag();
    SectionLacks(PREVIOUSLY, HighlightsOf(memory), tag);
    SectionLacks(NEWLY, HighlightsOf(FormatCompactSummary(summary)), tag);
  }

  lemma OldHighlightRemembered(memory: string, summary: string, h: string)
    requires memory != "" && PlainInputs(memory, summary) && h in HighlightsOf(memory)
    ensures "  " + h in HighlightsOf(Merged(Some(memory), summary))
  {
    hide FormatCompactSummary, DollarSafe, NoClose;
    MergeRoundTrip(memory, summary);
    var previous := HighlightsOf(memory);
    var i :| 0 <= i < |previous| && previous[i] == h;
    assert Section(PREVIOUSLY, previous)[1 + i] == "  " + h;
  }

  /** A remembered highlight survives any number of further merges. */
  lemma {:induction false} HighlightSurvives(memory: string, summaries: seq<string>, tag: string, h: string)
    requires memory != "" && Fit(HighlightsOf(memory), tag) && FitSummaries(summaries, tag)
    requires h in HighlightsOf(memory)
    ensures Nested(|summaries|, h) in HighlightsOf(MergeAll(memory, summaries))
    decreases |summaries|
  {
    hide FormatCompactSummary, Merged, HighlightsOf, Fit, FitSummary, PlainInputs;
    if summaries != [] {
      FitIsPlain(memory, summaries[0], tag);
      MergedIsFit(memory, summaries[0], tag);
      OldHighlightRemembered(memory, summaries[0], h);
      HighlightSurvives(Merged(Some(memory), summaries[0]), summaries[1..], tag, "  " + h);
    }
  }

  lemma NewHighlightRemembered(memory: string, summary: string, h: string)
    requires memory != "" && PlainInputs(memory, summary)
    requires h in HighlightsOf(FormatCompactSummary(summary))
    ensures "  " + h in HighlightsOf(Merged(Some(memory), summary))
  {
    hide FormatCompactSummary, DollarSafe, NoClose;
    MergeRoundTrip(memory, summary);
    var added := HighlightsOf(FormatCompactSummary(summary));
    var i :| 0 <= i < |added| && added[i] == h;
    assert Section(NEWLY, added)[1 + i] == "  " + h;
  }

  /** No highlight is lost: each summary's highlights are still there after all later merges. */
  lemma {:induction false} NoHighlightLost(memory: string, summaries: seq<string>, tag: string, k: nat, h: string)
    requires memory != "" && Fit(HighlightsOf(memory), tag) && FitSummaries(summaries, tag)
    requires k < |summaries| && h in HighlightsOf(FormatCompactSummary(summaries[k]))
    ensures Nested(|summaries| - k, h) in HighlightsOf(MergeAll(memory, summaries))
    decreases k
  {
    hide FormatCompactSummary, Merged, HighlightsOf, Fit, FitSummary, PlainInputs;
    var next := Merged(Some(memory), summaries[0]);
    FitIsPlain(memory, summaries[0], tag);
    MergedIsFit(memory, summaries[0], tag);
    if k == 0 {
      NewHighlightRemembered(memory, summaries[0], h);
      HighlightSurvives(next, summaries[1..], tag, "  " + h);
    } else {
      NoHighlightLost(next, summaries[1..], tag, k - 1, h);
    }
  }

  /** Formatting leaves one untagged, trimmed line alone. */
  lemma FormatUntaggedLine(s: string)
    requires s != "" && OneLine(s) && '<' !in s && !IsSpace(s[0]) && !IsSpace(s[|s| - 1])
    ensures FormatCompactSummary(s) == s && Lines(s) == [s]
  {
    hide IndexOf, ReplaceFirst;
    NotFoundWithoutFirst(s, "<analysis>");
    NotFoundWithoutFirst(s, "<summary>");
    CollapseFixed(s);
    TrimFixed(s);
    LinesOfOne(s);
  }

  lemma SingleLine(t: string)
    requires TrimEnd(t) == t
    ensures Highlights([t]) == if IsHeading(t) || t == TIMELINE then [] else [t]
    ensures Timeline([t], false) == []
  {
    assert [t][1..] == [];
  }

  /** A line that formatting, trimming and parsing all leave alone. */
  predicate OrdinaryLine(s: string) {
    && s != "" && OneLine(s) && '<' !in s && '$' !in s && !IsSpace(s[0]) && !IsSpace(s[|s| - 1])
    && s != "Summary:" && s != "Conversation summary:" && s != TIMELINE
  }

  lemma OrdinaryLineReads(s: string)
    requires OrdinaryLine(s)
    ensures FormatCompactSummary(s) == s && HighlightsOf(s) == [s] && TimelineOf(s) == [] && Plain(s)
    ensures !Contains(s, "<analysis>")
  {
    hide FormatCompactSummary;
    FormatUntaggedLine(s);
    TrimFixed(s);
    SingleLine(s);
    NoMatchWithoutFirst(s, "</summary>");
    NoMatchWithoutFirst(s, "<analysis>");
  }

  /** Two ordinary lines merge into one summary that shows both. */
  lemma OrdinaryLinesMerge(existing: string, newSummary: string)
    requires OrdinaryLine(existing) && OrdinaryLine(newSummary)
    ensures HighlightsOf(Merged(Some(existing), newSummary)) ==
            [PREVIOUSLY, "  " + existing, NEWLY, "  " + newSummary]
  {
    hide FormatCompactSummary, HighlightsOf, TimelineOf, Merged, Plain, OrdinaryLine;
    OrdinaryLineReads(existing);
    OrdinaryLineReads(newSummary);
    assert existing != "" by { OrdinaryLineFilled(existing); }
    assert Carried(existing, newSummary) == [existing, newSummary];
    assert Lacks([existing, newSummary], "<analysis>");
    MergeRoundTrip(existing, newSummary);
    assert Section(PREVIOUSLY, [existing]) + Section(NEWLY, [newSummary]) ==
           [PREVIOUSLY, "  " + existing, NEWLY, "  " + newSummary];
  }

  lemma OrdinaryLineFilled(s: string)
    requires OrdinaryLine(s)
    ensures s != ""
  {}

  lemma HeadingReadsEmpty(heading: string)
    requires heading == "Summary:"
    ensures HighlightsOf(heading) == []
  {
    hide FormatCompactSummary;
    FormatUntaggedLine(heading);
    SummaryIsHeading();
    SingleLine(heading);
  }

  lemma PriceReadsBack(price: string)
    requires price == "$$"
    ensures HighlightsOf(FormatCompactSummary(price)) == [price] && TimelineOf(FormatCompactSummary(price)) == []
  {
    hide FormatCompactSummary;
    FormatUntaggedLine(price);
    TrimFixed(price);
    SingleLine(price);
    assert |TIMELINE| == 15 && price[0] == '$';
  }
}
