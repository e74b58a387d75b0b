/** The JavaScript string operations the modelled code calls, on sequences of characters. */
module JsStrings {
  // ----- Whitespace and trimming -------------------------------------------

  /** The white space and line terminators that `trim` removes. */
  predicate IsSpace(c: char) {
    var u := c as int;
    || 0x09 <= u <= 0x0D || u == 0x20 || u == 0xA0 || u == 0x1680 || 0x2000 <= u <= 0x200A
    || u == 0x2028 || u == 0x2029 || u == 0x202F || u == 0x205F || u == 0x3000 || u == 0xFEFF
  }

  /** The twenty-five characters, one by one. */
  lemma SpacesListed(c: char)
    ensures IsSpace(c) <==>
            c as int in [0x09, 0x0A, 0x0B, 0x0C, 0x0D, 0x20, 0xA0, 0x1680, 0x2000, 0x2001, 0x2002, 0x2003, 0x2004, 0x2005, 0x2006,
                         0x2007, 0x2008, 0x2009, 0x200A, 0x2028, 0x2029, 0x202F, 0x205F, 0x3000, 0xFEFF]
  {}

  ghost predicate AllSpace(s: string) {
    forall i :: 0 <= i < |s| ==> IsSpace(s[i])
  }

  function LeadingSpaces(s: string): (k: nat)
    ensures k <= |s| && (forall i :: 0 <= i < k ==> IsSpace(s[i])) && (k < |s| ==> !IsSpace(s[k]))
  {
    if s != "" && IsSpace(s[0]) then 1 + LeadingSpaces(s[1..]) else 0
  }

  /** The length of `s` without its trailing white space. */
  function LengthTrimmed(s: string): (k: nat)
    ensures k <= |s| && (forall i :: k <= i < |s| ==> IsSpace(s[i])) && (k > 0 ==> !IsSpace(s[k - 1]))
  {
    if s != "" && IsSpace(s[|s| - 1]) then LengthTrimmed(s[..|s| - 1]) else |s|
  }

  function TrimStart(s: string): (t: string)
    ensures |t| <= |s| && t == s[|s| - |t|..] && AllSpace(s[..|s| - |t|])
    ensures t != "" ==> !IsSpace(t[0])
  {
    s[LeadingSpaces(s)..]
  }

  function TrimEnd(s: string): (t: string)
    ensures |t| <= |s| && t == s[..|t|] && AllSpace(s[|t|..])
    ensures t != "" ==> !IsSpace(t[|t| - 1])
  {
    s[..LengthTrimmed(s)]
  }

  function Trim(s: string): (t: string)
  {
    TrimEnd(TrimStart(s))
  }

  lemma TrimEmptyIffAllSpace(s: string)
    ensures Trim(s) == "" <==> AllSpace(s)
  {
    var t := TrimStart(s);
    assert s == s[..|s| - |t|] + t;
    assert t == Trim(s) + t[|Trim(s)|..];
  }

  /** Trimming leaves alone what neither starts nor ends with white space. */
  lemma TrimFixed(s: string)
    requires s != "" ==> !IsSpace(s[0]) && !IsSpace(s[|s| - 1])
    ensures Trim(s) == s && TrimEnd(s) == s
  {}

  // ----- Searching ---------------------------------------------------------

  predicate MatchesAt(s: string, pat: string, i: int) {
    0 <= i && i + |pat| <= |s| && s[i..i + |pat|] == pat
  }

  ghost predicate Contains(s: string, pat: string) {
    exists i :: MatchesAt(s, pat, i)
  }

  /** The first match at or after `from`, or -1. */
  function IndexOfFrom(s: string, pat: string, from: nat): (r: int)
    ensures r == -1 || (from <= r && MatchesAt(s, pat, r))
    ensures forall i :: from <= i && (r == -1 || i < r) ==> !MatchesAt(s, pat, i)
    decreases |s| - from
  {
    if from + |pat| > |s| then -1
    else if MatchesAt(s, pat, from) then from
    else if from == |s| then -1
    else IndexOfFrom(s, pat, from + 1)
  }

  function IndexOf(s: string, pat: string): (r: int)
    ensures r == -1 || MatchesAt(s, pat, r)
    ensures forall i :: MatchesAt(s, pat, i) ==> r != -1 && r <= i
  {
    IndexOfFrom(s, pat, 0)
  }

  lemma IndexOfPrefix(prefix: string, rest: string)
    ensures IndexOf(prefix + rest, prefix) == 0
  {
    assert (prefix + rest)[0..|prefix|] == prefix;
    assert MatchesAt(prefix + rest, prefix, 0);
  }

  lemma IndexOfSelf(s: string)
    ensures IndexOf(s, s) == 0
  {
    assert s[0..|s|] == s;
    assert MatchesAt(s, s, 0);
  }

  /** The last match that starts at or before `at` (inclusive), or -1. */
  function LastIndexOf(s: string, pat: string, at: int): (r: int)
    ensures r == -1 || (0 <= r <= at && MatchesAt(s, pat, r))
    ensures forall i :: r < i <= at ==> !MatchesAt(s, pat, i)
    decreases at
  {
    if at < 0 then -1
    else if MatchesAt(s, pat, at) then at
    else LastIndexOf(s, pat, at - 1)
  }

  lemma MatchChars(s: string, pat: string, i: int)
    ensures MatchesAt(s, pat, i) ==> forall k :: 0 <= k < |pat| ==> s[i + k] == pat[k]
  {
    if MatchesAt(s, pat, i) {
      forall k | 0 <= k < |pat|
        ensures s[i + k] == pat[k]
      {
        assert s[i..i + |pat|][k] == pat[k];
      }
    }
  }

  /** A pattern occurs nowhere in a text that lacks its first character. */
  lemma NoMatchWithoutFirst(s: string, pat: string)
    requires pat != "" && pat[0] !in s
    ensures !Contains(s, pat)
  {
    forall i
      ensures !MatchesAt(s, pat, i)
    {
      MatchChars(s, pat, i);
    }
  }

  lemma NotFoundWithoutFirst(s: string, pat: string)
    requires pat != "" && pat[0] !in s
    ensures IndexOf(s, pat) == -1
  {
    NoMatchWithoutFirst(s, pat);
  }

  /** A pattern that can start only where its first character stands. */
  predicate StartsOnlyOnce(pat: string) {
    pat != "" && pat[0] !in pat[1..]
  }

  /** Such a pattern is found behind a text that does not hold it. */
  lemma FoundAfter(pre: string, pat: string, rest: string)
    requires StartsOnlyOnce(pat) && !Contains(pre, pat)
    ensures IndexOf(pre + pat + rest, pat) == |pre|
  {
    hide IndexOf;
    var text := pre + pat + rest;
    assert text[|pre|..|pre| + |pat|] == pat;
    assert MatchesAt(text, pat, |pre|);
    forall j | 0 <= j < |pre|
      ensures !MatchesAt(text, pat, j)
    {
      if j + |pat| <= |pre| {
        assert pre[j..j + |pat|] == text[j..j + |pat|];
        assert !MatchesAt(pre, pat, j);
      } else {
        var d := |pre| - j;
        assert pat[d] == pat[1..][d - 1] && pat[d] != pat[0];
        assert text[j..j + |pat|][d] == text[|pre|] == pat[0];
      }
    }
  }

  // ----- Lines -------------------------------------------------------------

  predicate OneLine(s: string) {
    '\n' !in s
  }

  /** `split("\n")`. */
  function Lines(s: string): (ls: seq<string>)
    ensures |ls| >= 1 && forall i :: 0 <= i < |ls| ==> OneLine(ls[i])
  {
    if s == "" then [""]
    else
      var rest := Lines(s[1..]);
      if s[0] == '\n' then [""] + rest else [[s[0]] + rest[0]] + rest[1..]
  }

  /** `join("\n")`. */
  function JoinLines(ls: seq<string>): (s: string) {
    if |ls| == 0 then ""
    else if |ls| == 1 then ls[0]
    else ls[0] + "\n" + JoinLines(ls[1..])
  }

  lemma {:induction false} LinesOfCons(line: string, rest: string)
    requires OneLine(line)
    ensures Lines(line + "\n" + rest) == [line] + Lines(rest)
  {
    var s := line + "\n" + rest;
    if line == "" {
      assert s[1..] == rest;
    } else {
      assert s[1..] == line[1..] + "\n" + rest;
      LinesOfCons(line[1..], rest);
      assert line == [line[0]] + line[1..];
    }
  }

  lemma {:induction false} LinesOfOne(line: string)
    requires OneLine(line)
    ensures Lines(line) == [line]
  {
    if line != "" {
      LinesOfOne(line[1..]);
      assert line == [line[0]] + line[1..];
    }
  }

  /** Splitting undoes joining when no line holds a line break. */
  lemma {:induction false} LinesOfJoin(ls: seq<string>)
    requires |ls| >= 1 && forall i :: 0 <= i < |ls| ==> OneLine(ls[i])
    ensures Lines(JoinLines(ls)) == ls
  {
    if |ls| == 1 {
      LinesOfOne(ls[0]);
    } else {
      LinesOfCons(ls[0], JoinLines(ls[1..]));
      LinesOfJoin(ls[1..]);
    }
  }

  lemma {:induction false} JoinConcat(a: seq<string>, b: seq<string>)
    requires a != [] && b != []
    ensures JoinLines(a + b) == JoinLines(a) + "\n" + JoinLines(b)
  {
    if |a| == 1 {
      assert (a + b)[1..] == b;
    } else {
      assert (a + b)[1..] == a[1..] + b;
      JoinConcat(a[1..], b);
    }
  }

  lemma JoinSandwich(first: string, body: seq<string>, last: string)
    requires body != []
    ensures JoinLines([first] + body + [last]) == first + "\n" + JoinLines(body) + "\n" + last
  {
    assert [first] + body + [last] == [first] + (body + [last]);
    JoinConcat([first], body + [last]);
    JoinConcat(body, [last]);
    var inner := JoinLines(body);
    assert first + "\n" + (inner + "\n" + last) == first + "\n" + inner + "\n" + last;
  }

  /** A pattern without a line break is found in joined lines only inside one of them. */
  lemma {:induction false} JoinContainsNot(ls: seq<string>, pat: string)
    requires pat != "" && OneLine(pat)
    requires forall i :: 0 <= i < |ls| ==> !Contains(ls[i], pat)
    ensures !Contains(JoinLines(ls), pat)
  {
    if |ls| >= 2 {
      JoinContainsNot(ls[1..], pat);
      ConcatContainsNot(ls[0], JoinLines(ls[1..]), pat);
    }
  }

  lemma ConcatContainsNot(a: string, b: string, pat: string)
    requires pat != "" && OneLine(pat)
    requires !Contains(a, pat) && !Contains(b, pat)
    ensures !Contains(a + "\n" + b, pat)
  {
    forall i
      ensures !MatchesAt(a + "\n" + b, pat, i)
    {
      if MatchesAt(a + "\n" + b, pat, i) {
        MatchInConcat(a, b, pat, i);
      }
    }
  }

  /** A match in two joined lines does not straddle the break. */
  lemma MatchInConcat(a: string, b: string, pat: string, i: int)
    requires pat != "" && OneLine(pat) && MatchesAt(a + "\n" + b, pat, i)
    ensures MatchesAt(a, pat, i) || MatchesAt(b, pat, i - |a| - 1)
  {
    var s := a + "\n" + b;
    MatchChars(s, pat, i);
    assert s[|a|] == '\n';
    forall k | 0 <= k < |pat|
      ensures pat[k] == s[i + k] && i + k != |a|
    {}
    if i + |pat| <= |a| {
      assert a[i..i + |pat|] == s[i..i + |pat|];
    } else {
      var k := i - |a| - 1;
      assert b[k..k + |pat|] == s[i..i + |pat|];
    }
  }

  /** Where joined lines begin and end. */
  lemma {:induction false} JoinEnds(ls: seq<string>)
    requires ls != [] && ls[0] != "" && ls[|ls| - 1] != ""
    ensures var s := JoinLines(ls); var last := ls[|ls| - 1];
            s != "" && s[0] == ls[0][0] && s[|s| - 1] == last[|last| - 1]
    decreases |ls|
  {
    if |ls| > 1 {
      var rest := ls[1..];
      if rest[0] != "" {
        JoinEnds(rest);
      } else {
        JoinLast(rest);
      }
      assert rest[|rest| - 1] == ls[|ls| - 1];
    }
  }

  lemma {:induction false} JoinLast(ls: seq<string>)
    requires ls != [] && ls[|ls| - 1] != ""
    ensures var s := JoinLines(ls); var last := ls[|ls| - 1]; s != "" && s[|s| - 1] == last[|last| - 1]
  {
    if |ls| > 1 {
      JoinLast(ls[1..]);
    }
  }

  /** Lines that are not empty leave no empty line behind when joined. */
  lemma {:induction false} JoinHasNoGap(ls: seq<string>)
    requires forall i :: 0 <= i < |ls| ==> ls[i] != "" && OneLine(ls[i])
    ensures NoGap(JoinLines(ls))
    ensures JoinLines(ls) != "" ==> JoinLines(ls)[0] != '\n'
  {
    if |ls| > 1 {
      JoinHasNoGap(ls[1..]);
      var rest := JoinLines(ls[1..]);
      var s := JoinLines(ls);
      assert s == ls[0] + "\n" + rest;
      forall i | 0 <= i && i + 1 < |s|
        ensures !(s[i] == '\n' && s[i + 1] == '\n')
      {
        if i > |ls[0]| {
          assert s[i] == rest[i - |ls[0]| - 1] && s[i + 1] == rest[i - |ls[0]|];
        }
      }
    }
  }

  /** No two line breaks in a row. */
  predicate NoGap(s: string) {
    forall i :: 0 <= i && i + 1 < |s| ==> !(s[i] == '\n' && s[i + 1] == '\n')
  }
}
