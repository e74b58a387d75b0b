/**
 * What formatting does to a raw summary (src/compact-summary.ts): the analysis block goes, the
 * summary block becomes a headed text between what stood around it, long runs of line breaks
 * shrink to two, and a summary as the summarisers write it reads back line by line.
 */
module SummaryFormat {
  import opened Messages
  import opened JsStrings
  import opened CompactSummary

  // ----- The tags ----------------------------------------------------------

  lemma TheTags()
    ensures StartsOnlyOnce("<analysis>") && StartsOnlyOnce("</analysis>") && StartsOnlyOnce("<summary>") && StartsOnlyOnce("</summary>")
  {}

  // ----- The analysis block ------------------------------------------------

  /** An analysis block is cut out of the text around it before anything else happens. */
  lemma AnalysisGoes(pre: string, analysis: string, rest: string)
    requires !Contains(pre, "<analysis>") && !Contains(pre + "<analysis>" + analysis, "</analysis>")
    requires NoAnalysis(pre + rest)
    ensures FormatCompactSummary(pre + "<analysis>" + analysis + "</analysis>" + rest) == FormatCompactSummary(pre + rest)
  {
    hide IndexOf, StartsOnlyOnce, CollapseBreaks, Trim, ReplaceFirst, ExtractTag;
    TheTags();
    var open, close := "<analysis>", "</analysis>";
    var text := pre + open + analysis + close + rest;
    FoundAfter(pre + open + analysis, close, rest);
    FoundAfter(pre, open, analysis + close + rest);
    assert pre + open + (analysis + close + rest) == text;
    assert text[..|pre|] == pre && text[|pre + open + analysis| + |close|..] == rest;
    assert StripTag(text, open, close) == pre + rest;
    assert StripTag(pre + rest, open, close) == pre + rest;
  }

  /** Tags of an analysis block in the wrong order double what is between them. */
  lemma ReversedAnalysisDoubles(pre: string, between: string, rest: string)
    requires !Contains(pre, "</analysis>") && !Contains(pre + "</analysis>" + between, "<analysis>")
    requires !Contains(pre + "</analysis>" + between + (between + "<analysis>" + rest), "<summary>")
    ensures FormatCompactSummary(pre + "</analysis>" + between + "<analysis>" + rest) ==
            Trim(CollapseBreaks(pre + "</analysis>" + between + (between + "<analysis>" + rest)))
  {
    hide IndexOf, StartsOnlyOnce, CollapseBreaks, Trim, ReplaceFirst;
    TheTags();
    var open, close := "<analysis>", "</analysis>";
    var text := pre + close + between + open + rest;
    FoundAfter(pre + close + between, open, rest);
    FoundAfter(pre, close, between + open + rest);
    assert pre + close + (between + open + rest) == text;
    assert text[..|pre + close + between|] == pre + close + between && text[|pre| + |close|..] == between + open + rest;
    var doubled := pre + close + between + (between + open + rest);
    assert StripTag(text, open, close) == doubled;
    assert IndexOf(doubled, "<summary>") == -1;
  }

  // ----- The summary block -------------------------------------------------

  /** A summary block becomes the heading and its trimmed content, in the place where it stood. */
  lemma SummaryBecomesText(pre: string, content: string, post: string)
    requires !Contains(pre, "<summary>") && !Contains(pre + "<summary>" + content, "</summary>")
    requires NoAnalysis(pre + "<summary>" + content + "</summary>" + post)
    requires DollarSafe("Summary:\n" + Trim(content))
    ensures FormatCompactSummary(pre + "<summary>" + content + "</summary>" + post) ==
            Trim(CollapseBreaks(pre + ("Summary:\n" + Trim(content)) + post))
  {
    hide IndexOf, StartsOnlyOnce, CollapseBreaks, Trim, Expand, DollarSafe;
    TheTags();
    var open, close := "<summary>", "</summary>";
    var block, repl := open + content + close, "Summary:\n" + Trim(content);
    var text := pre + open + content + close + post;
    FoundAfter(pre + open + content, close, post);
    FoundAfter(pre, open, content + close + post);
    assert pre + open + (content + close + post) == text;
    assert text[|pre| + |open|..|pre + open + content|] == content;
    assert ExtractTag(text, open, close) == Some(content);
    BlockFound(pre, open, content + close, post);
    assert pre + (open + (content + close)) + post == text && open + (content + close) == block;
    assert text[..|pre|] == pre && text[|pre| + |block|..] == post;
    ExpandSafe(repl, block, pre, post);
    assert StripTag(text, "<analysis>", "</analysis>") == text;
  }

  /** A block that opens with a tag is found where the tag is first found. */
  lemma BlockFound(pre: string, open: string, inner: string, post: string)
    requires StartsOnlyOnce(open) && !Contains(pre, open)
    ensures IndexOf(pre + (open + inner) + post, open + inner) == |pre|
  {
    hide IndexOf, StartsOnlyOnce;
    var text, block := pre + (open + inner) + post, open + inner;
    FoundAfter(pre, open, inner + post);
    assert pre + open + (inner + post) == text;
    assert text[|pre|..|pre| + |block|] == block;
    assert MatchesAt(text, block, |pre|);
    forall j | MatchesAt(text, block, j)
      ensures MatchesAt(text, open, j)
    {
      assert text[j..j + |open|] == text[j..j + |block|][..|open|] == block[..|open|] == open;
    }
  }

  /** A closing tag before the opening one makes the content empty: only an empty block is replaced. */
  lemma ReversedSummaryIsEmpty(pre: string, between: string, post: string)
    requires !Contains(pre, "</summary>") && !Contains(pre + "</summary>" + between, "<summary>")
    requires NoAnalysis(pre + "</summary>" + between + "<summary></summary>" + post)
    ensures FormatCompactSummary(pre + "</summary>" + between + "<summary></summary>" + post) ==
            Trim(CollapseBreaks(pre + "</summary>" + between + "Summary:\n" + post))
  {
    hide IndexOf, CollapseBreaks, Trim, Expand, DollarSafe;
    var block, head := "<summary></summary>", pre + "</summary>" + between;
    var text := head + block + post;
    ReversedTags(pre, between, post);
    NothingTrimmed();
    SafeHeading();
    ExpandSafe("Summary:\n", block, head, post);
    assert text[..|head|] == head && text[|head| + |block|..] == post;
    assert StripTag(text, "<analysis>", "</analysis>") == text;
    assert ExtractTag(text, "<summary>", "</summary>") == Some("");
    assert ReplaceFirst(text, block, "Summary:\n") == head + "Summary:\n" + post;
  }

  /** Where the tags are, and the empty block, when a closing tag comes first. */
  lemma ReversedTags(pre: string, between: string, post: string)
    requires !Contains(pre, "</summary>") && !Contains(pre + "</summary>" + between, "<summary>")
    ensures var head := pre + "</summary>" + between;
            var text := head + "<summary></summary>" + post;
            && IndexOf(text, "<summary>") == |head| && IndexOf(text, "</summary>") == |pre|
            && IndexOf(text, "<summary></summary>") == |head|
    ensures "<summary>" + "" + "</summary>" == "<summary></summary>"
  {
    hide IndexOf, StartsOnlyOnce, Contains;
    TheTags();
    var open, close := "<summary>", "</summary>";
    var head := pre + close + between;
    assert open + close == "<summary></summary>" && open + "" + close == "<summary></summary>";
    FoundAfter(pre, close, between + (open + close) + post);
    assert pre + close + (between + (open + close) + post) == head + (open + close) + post;
    BlockFound(head, open, close, post);
    FoundAfter(head, open, close + post);
    assert head + open + (close + post) == head + (open + close) + post;
  }

  lemma NothingTrimmed()
    ensures Trim("") == "" && "Summary:\n" + "" == "Summary:\n"
  {}

  lemma SafeHeading()
    ensures DollarSafe("Summary:\n")
  {
    assert '$' !in "Summary:\n";
  }

  /** Without a pair of summary tags in order, the text is only tidied. */
  lemma NoSummaryNoHeading(text: string)
    requires NoAnalysis(text)
    requires var s, e := IndexOf(text, "<summary>"), IndexOf(text, "</summary>");
             s == -1 || e == -1 || (e < s && !Contains(text, "<summary></summary>"))
    ensures FormatCompactSummary(text) == Trim(CollapseBreaks(text))
  {
    hide IndexOf, CollapseBreaks, Trim, Expand;
    assert "<summary>" + "" + "</summary>" == "<summary></summary>";
  }

  // ----- Replacement patterns ----------------------------------------------

  /** What each `$` pattern of the content stands for: a dollar, the block, what is before and after it. */
  lemma {:induction false} PatternsMean(a: string, c: char, b: string, matched: string, before: string, after: string)
    requires DollarSafe(a) && (a != "" ==> a[|a| - 1] != '$')
    ensures Expand(a + ['$', c] + b, matched, before, after) ==
            if c == '$' then a + "$" + Expand(b, matched, before, after)
            else if c == '&' then a + matched + Expand(b, matched, before, after)
            else if c == '`' then a + before + Expand(b, matched, before, after)
            else if c == '\'' then a + after + Expand(b, matched, before, after)
            else a + "$" + Expand([c] + b, matched, before, after)
    decreases |a|
  {
    hide Expand, DollarSafe;
    var s := a + ['$', c] + b;
    if a == "" {
      PatternFirst(c, b, matched, before, after);
      assert s == ['$', c] + b;
    } else {
      assert s[1..] == a[1..] + ['$', c] + b && s[0] == a[0];
      SafeStart(a, s[1]);
      ExpandPlain(s, matched, before, after);
      PatternsMean(a[1..], c, b, matched, before, after);
      assert [a[0]] + a[1..] == a;
    }
  }

  lemma PatternFirst(c: char, b: string, matched: string, before: string, after: string)
    ensures Expand(['$', c] + b, matched, before, after) ==
            if c == '$' then "" + "$" + Expand(b, matched, before, after)
            else if c == '&' then "" + matched + Expand(b, matched, before, after)
            else if c == '`' then "" + before + Expand(b, matched, before, after)
            else if c == '\'' then "" + after + Expand(b, matched, before, after)
            else "" + "$" + Expand([c] + b, matched, before, after)
  {
    var s := ['$', c] + b;
    assert s[2..] == b && s[1..] == [c] + b;
    assert forall x: string :: "" + x == x;
  }

  /** A character that starts no pattern expands to itself. */
  lemma ExpandPlain(s: string, matched: string, before: string, after: string)
    requires s != "" && !(|s| >= 2 && IsDollarPattern(s[0], s[1]))
    ensures Expand(s, matched, before, after) == [s[0]] + Expand(s[1..], matched, before, after)
  {}

  lemma SafeStart(a: string, next: char)
    requires DollarSafe(a) && a != "" && a[|a| - 1] != '$' && (|a| > 1 ==> next == a[1])
    ensures !IsDollarPattern(a[0], next) && DollarSafe(a[1..])
  {
    assert |a| > 1 ==> !IsDollarPattern(a[0], a[0 + 1]);
    forall i | 0 <= i && i + 1 < |a[1..]|
      ensures !IsDollarPattern(a[1..][i], a[1..][i + 1])
    {
      assert !IsDollarPattern(a[i + 1], a[i + 1 + 1]);
    }
  }

  // ----- Line breaks -------------------------------------------------------

  /** No three line breaks in a row. */
  predicate NoTriple(s: string) {
    forall i :: 0 <= i && i + 2 < |s| ==> !(s[i] == '\n' && s[i + 1] == '\n' && s[i + 2] == '\n')
  }

  lemma NoTripleLater(s: string, k: nat)
    requires NoTriple(s) && k <= |s|
    ensures NoTriple(s[k..])
  {
    var t := s[k..];
    forall i | 0 <= i && i + 2 < |t|
      ensures !(t[i] == '\n' && t[i + 1] == '\n' && t[i + 2] == '\n')
    {
      assert t[i] == s[k + i] && t[i + 1] == s[k + i + 1] && t[i + 2] == s[k + i + 2];
    }
  }

  /** Text without a run of three breaks is left as it is. */
  lemma {:induction false} CollapseLeaves(s: string)
    requires NoTriple(s)
    ensures CollapseBreaks(s) == s
    decreases |s|
  {
    if s != "" {
      hide CollapseBreaks, NoTriple;
      var k := LeadingBreaks(s);
      FewLeading(s);
      CollapseStep(s);
      var m := if k == 0 then 1 else k;
      NoTripleLater(s, m);
      CollapseLeaves(s[m..]);
      assert s[..m] + s[m..] == s && s[..1] == [s[0]];
    }
  }

  lemma FewLeading(s: string)
    requires NoTriple(s)
    ensures LeadingBreaks(s) < 3
  {
    if |s| >= 3 {
      assert !(s[0] == '\n' && s[0 + 1] == '\n' && s[0 + 2] == '\n');
    }
  }

  lemma LeadingWithin(a: string, rest: string)
    requires a != "" && a[|a| - 1] != '\n'
    ensures LeadingBreaks(a + rest) == LeadingBreaks(a) < |a|
  {
    var s, k, m := a + rest, LeadingBreaks(a + rest), LeadingBreaks(a);
    assert forall i :: 0 <= i < |a| ==> s[i] == a[i];
  }

  lemma CollapseStep(s: string)
    requires s != ""
    ensures var k := LeadingBreaks(s);
            CollapseBreaks(s) == if k == 0 then [s[0]] + CollapseBreaks(s[1..])
                                 else if k >= 3 then "\n\n" + CollapseBreaks(s[k..])
                                 else s[..k] + CollapseBreaks(s[k..])
  {}

  lemma CollapseRun(run: string, b: string)
    requires |run| >= 3 && (forall i :: 0 <= i < |run| ==> run[i] == '\n') && (b != "" ==> b[0] != '\n')
    ensures CollapseBreaks(run + b) == "\n\n" + CollapseBreaks(b)
  {
    hide CollapseBreaks;
    var s := run + b;
    var k := LeadingBreaks(s);
    assert forall i :: 0 <= i < |run| ==> s[i] == run[i];
    assert b != "" ==> s[|run|] == b[0];
    assert k == |run| && s[k..] == b;
    CollapseStep(s);
  }

  lemma SplitAt(a: string, x: string, m: nat)
    requires 0 < m <= |a|
    ensures (a + x)[m..] == a[m..] + x && (a + x)[..m] == a[..m] && (a + x)[..1] == [(a + x)[0]]
    ensures a[..m] + (a[m..] + x) == a + x
  {}

  /** A longer run between two such texts becomes two breaks. */
  lemma {:induction false} CollapseShrinks(a: string, run: string, b: string)
    requires NoTriple(a) && (a != "" ==> a[|a| - 1] != '\n') && (b != "" ==> b[0] != '\n')
    requires |run| >= 3 && forall i :: 0 <= i < |run| ==> run[i] == '\n'
    ensures CollapseBreaks(a + (run + b)) == a + ("\n\n" + CollapseBreaks(b))
    decreases |a|
  {
    hide CollapseBreaks, NoTriple, LeadingBreaks;
    if a == "" {
      CollapseRun(run, b);
      assert a + (run + b) == run + b;
    } else {
      var s, k := a + (run + b), LeadingBreaks(a);
      LeadingWithin(a, run + b);
      FewLeading(a);
      var m := if k == 0 then 1 else k;
      NoTripleLater(a, m);
      CollapseStep(s);
      SplitAt(a, run + b, m);
      SplitAt(a, "\n\n" + CollapseBreaks(b), m);
      CollapseShrinks(a[m..], run, b);
    }
  }

  // ----- Summaries as they are written -------------------------------------

  /** A line that parsing hands out and nothing in the pipeline changes. */
  ghost predicate PlainLine(l: string) {
    IsEntry(l) && !IsHeading(l) && l != TIMELINE && '<' !in l && DollarSafe(l)
  }

  ghost predicate PlainLines(ls: seq<string>) {
    forall i :: 0 <= i < |ls| ==> PlainLine(ls[i])
  }

  /** The lines of a summary: the title, highlights, then a timeline when there is one. */
  function SummaryLines(highlights: seq<string>, timeline: seq<string>): seq<string> {
    ["Conversation summary:"] + highlights + if timeline == [] then [] else ["- Key timeline:"] + timeline
  }

  /** A summary as a model writes it: its analysis first, then the summary block. */
  function WrittenSummary(analysis: string, lines: seq<string>): string {
    "<analysis>" + analysis + "</analysis>\n<summary>\n" + JoinLines(lines) + "\n</summary>"
  }

  lemma NoTagInPlain(s: string)
    requires '<' !in s
    ensures !Contains(s, "<analysis>") && !Contains(s, "</analysis>") && !Contains(s, "<summary>") && !Contains(s, "</summary>")
  {
    NoMatchWithoutFirst(s, "<analysis>");
    NoMatchWithoutFirst(s, "</analysis>");
    NoMatchWithoutFirst(s, "<summary>");
    NoMatchWithoutFirst(s, "</summary>");
  }

  lemma {:induction false} JoinIsPlain(ls: seq<string>)
    requires ls != [] && forall i :: 0 <= i < |ls| ==> ls[i] != "" && OneLine(ls[i]) && '<' !in ls[i] && DollarSafe(ls[i])
    ensures '<' !in JoinLines(ls) && DollarSafe(JoinLines(ls)) && NoGap(JoinLines(ls))
  {
    DollarSafeJoin(ls);
    JoinHasNoGap(ls);
    JoinLacks(ls);
  }

  lemma {:induction false} JoinLacks(ls: seq<string>)
    requires forall i :: 0 <= i < |ls| ==> '<' !in ls[i]
    ensures '<' !in JoinLines(ls)
  {
    if |ls| > 1 {
      JoinLacks(ls[1..]);
    }
  }

  /** The text of plain lines under the heading. */
  function Headed(lines: seq<string>): string {
    "Summary:\n" + JoinLines(lines)
  }

  /** A line of a written summary, headings included. */
  ghost predicate WrittenLine(l: string) {
    IsEntry(l) && '<' !in l && DollarSafe(l)
  }

  ghost predicate WrittenLines(ls: seq<string>) {
    ls != [] && ls[0] != "" && ls[0][0] == 'C' && forall i :: 0 <= i < |ls| ==> WrittenLine(ls[i])
  }

  lemma SummaryLinesWritten(highlights: seq<string>, timeline: seq<string>)
    requires PlainLines(highlights) && PlainLines(timeline)
    ensures WrittenLines(SummaryLines(highlights, timeline))
  {
    hide IsEntry, DollarSafe, IsHeading;
    TitleIsPlain();
    TimelineIsPlain();
    HeadingsHaveNoTag();
  }

  lemma NotFoundWithout(text: string, tag: string)
    requires !Contains(text, tag)
    ensures IndexOf(text, tag) == -1
  {}

  lemma LinesLack(open: string, lines: seq<string>, close: string, tag: string)
    requires tag != "" && OneLine(tag) && Lacks(lines, tag) && lines != []
    requires !Contains(open, tag) && !Contains(close, tag) && !Contains("", tag)
    ensures !Contains(JoinLines([""] + [open] + lines + [close]), tag)
  {
    hide Contains, JoinLines;
    JoinContainsNot([""] + [open] + lines + [close], tag);
  }

  /** Where the tags stand in a written summary behind its analysis. */
  lemma WrittenTags(lines: seq<string>)
    requires WrittenLines(lines)
    ensures var content := "\n" + JoinLines(lines) + "\n";
            && NoAnalysis("\n" + "<summary>" + content + "</summary>" + "")
            && !Contains("\n" + "<summary>" + content, "</summary>") && !Contains("\n", "<summary>")
  {
    hide IsEntry, DollarSafe, JoinLines, Contains, IndexOf;
    forall i | 0 <= i < |lines|
      ensures !Contains(lines[i], "<analysis>") && !Contains(lines[i], "</summary>")
    {
      NoTagInPlain(lines[i]);
    }
    NoTagInPlain("");
    NoTagInPlain("\n");
    SummaryTagsLack();
    LinesAround(lines, "<summary>", "</summary>");
    LinesLack("<summary>", lines, "</summary>", "<analysis>");
    LinesLack("<summary>", lines, "", "</summary>");
    NotFoundWithout("\n" + "<summary>" + ("\n" + JoinLines(lines) + "\n") + "</summary>" + "", "<analysis>");
  }

  lemma SummaryTagsLack()
    ensures !Contains("<summary>", "<analysis>") && !Contains("</summary>", "<analysis>") && !Contains("<summary>", "</summary>")
  {
    hide Contains;
    TagsAreDistinct();
    var tags := ["<summary>", "</summary>"];
    assert tags[0] == "<summary>" && tags[1] == "</summary>";
  }

  /** Lines between two others, behind an empty one, as one text. */
  lemma LinesAround(lines: seq<string>, open: string, close: string)
    requires lines != []
    ensures JoinLines([""] + [open] + lines + [close]) == "\n" + open + ("\n" + JoinLines(lines) + "\n") + close + ""
    ensures JoinLines([""] + [open] + lines + [""]) == "\n" + open + ("\n" + JoinLines(lines) + "\n")
  {
    hide JoinLines;
    JoinOne("");
    assert [""] + [open] + lines + [close] == [""] + ([open] + lines + [close]);
    assert [""] + [open] + lines + [""] == [""] + ([open] + lines + [""]);
    JoinConcat([""], [open] + lines + [close]);
    JoinConcat([""], [open] + lines + [""]);
    JoinSandwich(open, lines, close);
    JoinSandwich(open, lines, "");
  }

  /** Formatting a written summary leaves its lines under the heading, without the analysis. */
  lemma WrittenFormats(analysis: string, lines: seq<string>)
    requires !Contains("<analysis>" + analysis, "</analysis>")
    requires WrittenLines(lines)
    ensures FormatCompactSummary(WrittenSummary(analysis, lines)) == Headed(lines)
  {
    hide FormatCompactSummary, DollarSafe, JoinLines, Contains, CollapseBreaks, Trim, NoAnalysis, NoGap;
    var inner := JoinLines(lines);
    var content := "\n" + inner + "\n";
    var rest := "\n" + "<summary>" + content + "</summary>" + "";
    WrittenTags(lines);
    NoTagInPlain("");
    assert "" + "<analysis>" + analysis == "<analysis>" + analysis && "" + rest == rest;
    AnalysisGoes("", analysis, rest);
    WrittenLayout(analysis, inner);
    WrittenEnds(lines);
    TrimBetweenBreaks(inner);
    HeadedTidy(lines);
    SummaryBecomesText("\n", content, "");
    assert "\n" + ("Summary:\n" + inner) + "" == "\n" + Headed(lines);
  }

  lemma WrittenLayout(analysis: string, inner: string)
    ensures "<analysis>" + analysis + "</analysis>\n<summary>\n" + inner + "\n</summary>" ==
            "" + "<analysis>" + analysis + "</analysis>" + ("\n" + "<summary>" + ("\n" + inner + "\n") + "</summary>" + "")
  {
    assert "</analysis>\n<summary>\n" == "</analysis>" + ("\n" + "<summary>" + "\n") && "\n</summary>" == "\n" + "</summary>";
  }

  lemma WrittenEnds(lines: seq<string>)
    requires WrittenLines(lines)
    ensures var s := JoinLines(lines);
            s != "" && s[0] == 'C' && !IsSpace(s[|s| - 1]) && NoGap(s) && '<' !in s && DollarSafe(s)
  {
    hide JoinLines, DollarSafe, NoGap;
    assert IsEntry(lines[|lines| - 1]);
    JoinIsPlain(lines);
    JoinEnds(lines);
  }

  /** The headed text needs no tidying, whether a break stands before it or not. */
  lemma HeadedTidy(lines: seq<string>)
    requires var s := JoinLines(lines); s != "" && s[0] == 'C' && !IsSpace(s[|s| - 1]) && NoGap(s) && DollarSafe(s)
    ensures Trim(CollapseBreaks("\n" + Headed(lines))) == Headed(lines)
    ensures Trim(CollapseBreaks(Headed(lines))) == Headed(lines)
    ensures DollarSafe(Headed(lines))
  {
    hide JoinLines, CollapseBreaks;
    var s, h := JoinLines(lines), Headed(lines);
    assert |"Summary:\n"| == 9 && "Summary:\n"[0] == 'S' && "Summary:\n"[7] == ':' && "Summary:\n"[8] == '\n';
    forall i | 0 <= i && i + 1 < |h|
      ensures !(h[i] == '\n' && h[i + 1] == '\n') && !IsDollarPattern(h[i], h[i + 1])
    {
      if i >= 9 {
        assert h[i] == s[i - 9] && h[i + 1] == s[i - 9 + 1];
      } else if i < 8 {
        assert h[i] == "Summary:\n"[i];
      }
    }
    assert h[|h| - 1] == s[|s| - 1];
    var t := "\n" + h;
    forall i | 0 <= i && i + 1 < |t|
      ensures !(t[i] == '\n' && t[i + 1] == '\n')
    {
      if i > 0 {
        assert t[i] == h[i - 1] && t[i + 1] == h[i - 1 + 1];
      }
    }
    CollapseFixed(t);
    CollapseFixed(h);
    TrimFixed(h);
    assert t[1..] == h && LeadingSpaces(h) == 0;
    assert TrimStart(t) == h;
  }

  /** A text without any tag bracket keeps its words. */
  lemma HeadedFormats(lines: seq<string>)
    requires WrittenLines(lines)
    ensures FormatCompactSummary(Headed(lines)) == Headed(lines)
  {
    hide JoinLines, CollapseBreaks, Trim, IndexOf, NoGap, DollarSafe;
    WrittenEnds(lines);
    HeadedTidy(lines);
    var h := Headed(lines);
    assert '<' !in h;
    NotFoundWithoutFirst(h, "<analysis>");
    NotFoundWithoutFirst(h, "<summary>");
  }

  /** Parsing the headed lines of a summary hands out its highlights and its timeline. */
  lemma HeadedReads(highlights: seq<string>, timeline: seq<string>)
    requires PlainLines(highlights) && PlainLines(timeline)
    ensures var ls := Lines(Headed(SummaryLines(highlights, timeline)));
            Highlights(ls) == highlights && Timeline(ls, false) == timeline
  {
    hide Lines, JoinLines, IsEntry, IsHeading, DollarSafe, Highlights, Timeline;
    var lines := SummaryLines(highlights, timeline);
    SummaryLinesWritten(highlights, timeline);
    var tail := if timeline == [] then [] else [TIMELINE] + timeline;
    var all := ["Summary:"] + lines;
    JoinConcat(["Summary:"], lines);
    JoinOne("Summary:");
    assert "Summary:" + "\n" == "Summary:\n";
    WrittenOneLine(lines);
    LinesOfJoin(all);
    assert all == ["Summary:", "Conversation summary:"] + (highlights + tail);
    TitleLinesSkipped(highlights + tail);
    HighlightsConcat(highlights, tail);
    EntriesAreNotTimeline(highlights);
    TimelineSkips(highlights, tail);
    TailReads(timeline);
  }

  lemma WrittenOneLine(lines: seq<string>)
    requires WrittenLines(lines)
    ensures forall i :: 0 <= i < |["Summary:"] + lines| ==> OneLine((["Summary:"] + lines)[i])
  {}

  lemma TailReads(timeline: seq<string>)
    requires PlainLines(timeline)
    ensures var tail := if timeline == [] then [] else [TIMELINE] + timeline;
            Highlights(tail) == [] && Timeline(tail, false) == timeline
  {
    if timeline != [] {
      TimelineIsPlain();
      assert ([TIMELINE] + timeline)[1..] == timeline;
      assert TIMELINE[0] == '-' && "Summary:"[0] == 'S' && "Conversation summary:"[0] == 'C';
      TimelineTakes(timeline);
    }
  }

  /**
   * A summary as a model writes it, analysis and all, reads back as exactly its highlights and its
   * timeline, before formatting and after.
   */
  lemma WrittenReads(analysis: string, highlights: seq<string>, timeline: seq<string>)
    requires !Contains("<analysis>" + analysis, "</analysis>") && PlainLines(highlights) && PlainLines(timeline)
    ensures var written := WrittenSummary(analysis, SummaryLines(highlights, timeline));
            && written != "" && FormatCompactSummary(written) == Headed(SummaryLines(highlights, timeline))
            && HighlightsOf(written) == highlights == HighlightsOf(FormatCompactSummary(written))
            && TimelineOf(written) == timeline == TimelineOf(FormatCompactSummary(written))
  {
    hide FormatCompactSummary, Lines, Highlights, Timeline, PlainLines, WrittenLines, Headed, SummaryLines;
    var lines := SummaryLines(highlights, timeline);
    SummaryLinesWritten(highlights, timeline);
    WrittenFormats(analysis, lines);
    HeadedFormats(lines);
    HeadedReads(highlights, timeline);
  }

  /** Merging two written summaries drops both analyses and keeps every line under its heading. */
  lemma WrittenMerge(a: string, highlights: seq<string>, timeline: seq<string>,
                     b: string, added: seq<string>, later: seq<string>)
    requires !Contains("<analysis>" + a, "</analysis>") && PlainLines(highlights) && PlainLines(timeline)
    requires !Contains("<analysis>" + b, "</analysis>") && PlainLines(added) && PlainLines(later)
    ensures var existing, newSummary := WrittenSummary(a, SummaryLines(highlights, timeline)), WrittenSummary(b, SummaryLines(added, later));
            var merged := Merged(Some(existing), newSummary);
            && HighlightsOf(merged) ==
               (if highlights == [] then [] else ["- Previously compacted context:"] + Indent(highlights))
               + (if added == [] then [] else ["- Newly compacted context:"] + Indent(added))
            && TimelineOf(merged) == Indent(later)
  {
    hide FormatCompactSummary, HighlightsOf, TimelineOf, PlainLines, Contains, SummaryLines, WrittenSummary, Merged, Plain, Headed;
    var existing, newSummary := WrittenSummary(a, SummaryLines(highlights, timeline)), WrittenSummary(b, SummaryLines(added, later));
    WrittenReads(a, highlights, timeline);
    WrittenReads(b, added, later);
    PlainLinesAllPlain(highlights);
    PlainLinesAllPlain(added);
    PlainLinesAllPlain(later);
    assert Lacks(Carried(existing, newSummary), "<analysis>");
    MergeRoundTrip(existing, newSummary);
  }

  lemma PlainLinesAllPlain(ls: seq<string>)
    requires PlainLines(ls)
    ensures AllPlain(ls) && Lacks(ls, "<analysis>")
  {
    hide IsEntry, DollarSafe, Contains, IsHeading;
    forall i | 0 <= i < |ls|
      ensures !Contains(ls[i], "<analysis>") && !Contains(ls[i], "</summary>")
    {
      NoTagInPlain(ls[i]);
    }
  }
}
