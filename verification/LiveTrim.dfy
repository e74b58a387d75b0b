/**
 * The live compaction view (extensions/mega-trim.ts): where the view is cut on every model
 * call, and what any sequence of drops and live trims does to a session.
 */
module LiveTrim {
  import opened Messages
  import opened Boundary
  import CompactSummary
  import opened JsStrings

  datatype TrimOpts = TrimOpts(
    compactedFrom: int,
    summary: string,
    anchorUserMessages: int,
    criticalOver: bool)

  ghost predicate Blank(summary: string) {
    AllSpace(summary)
  }

  /**
   * The cut the live trim settles on. `safe` is the largest pair-safe cut, `floored` the largest
   * one that also keeps the anchor floor. A walk back that ends at index 1 counts as a failure
   * unless the snap had already landed there or the context is critically full.
   */
  ghost function LiveCut(view: seq<EngineMessage>, opts: TrimOpts): (cut: Option<nat>) {
    var safe := LargestCut(view, opts.compactedFrom, 0);
    var floored := LargestCut(view, opts.compactedFrom, opts.anchorUserMessages);
    if Blank(opts.summary) || safe == 0 then None
    else if floored > 1 || (floored == 1 && (safe == 1 || opts.criticalOver)) then Some(floored)
    else if opts.criticalOver then Some(safe)
    else None
  }

  /** Snap `from` back to a pair-safe cut; not positive when there is none. */
  method SnapBack(view: seq<EngineMessage>, from: int) returns (cut: int)
    ensures cut > 0 ==> cut == LargestCut(view, from, 0)
    ensures cut <= 0 ==> LargestCut(view, from, 0) == 0
  {
    hide PairSafe, LargestCut;
    cut := from;
    while cut > 0
      invariant cut <= from
      invariant forall d :: cut < d <= from ==> !Cuttable(view, d, 0)
    {
      var boundarySafe := IsPairSafe(view, cut);
      if boundarySafe {
        break;
      }
      cut := cut - 1;
    }
    LargestCutIs(view, from, 0, if cut > 0 then cut else 0);
  }

  /** Walk back from `cut` to the nearest safe cut that keeps the floor; `cut` itself when there is none. */
  method WalkBack(view: seq<EngineMessage>, cut: nat, n: int) returns (walked: nat)
    requires 0 < cut && !Cuttable(view, cut, n)
    ensures var c := LargestCut(view, cut, n); walked == if c > 0 then c else cut
  {
    hide PairSafe, LargestCut, UserCount;
    walked := cut;
    var c := cut;
    while c > 1
      invariant 1 <= c <= cut && walked == cut
      invariant forall d :: c <= d <= cut ==> !Cuttable(view, d, n)
    {
      c := c - 1;
      var boundarySafe := IsPairSafe(view, c);
      if !boundarySafe {
        continue;
      }
      if UserCount(SliceFrom(view, c)) >= n {
        LargestCutIs(view, cut, n, c);
        return c;
      }
    }
    LargestCutIs(view, cut, n, 0);
  }

  /** Above the snapped cut nothing is safe, so the floored search may start there. */
  lemma FlooredFromSafe(view: seq<EngineMessage>, from: int, n: int)
    ensures LargestCut(view, from, n) == LargestCut(view, LargestCut(view, from, 0), n)
  {
    var safe := LargestCut(view, from, 0);
    forall d | safe < d <= from
      ensures !Cuttable(view, d, n)
    {
      assert !Cuttable(view, d, 0);
    }
    LargestCutIs(view, from, n, LargestCut(view, safe, n));
  }

  /** The whole decision: snap, walk back for the anchor floor, and the two escape hatches. */
  method ComputeLiveTrimCut(view: seq<EngineMessage>, opts: TrimOpts) returns (r: Option<nat>)
    ensures r == LiveCut(view, opts)
    ensures AllSpace(opts.summary) ==> r == None
  {
    TrimEmptyIffAllSpace(opts.summary);
    if opts.summary == "" || Trim(opts.summary) == "" {
      return None;
    }
    var n := opts.anchorUserMessages;
    var cut := SnapBack(view, opts.compactedFrom);
    if cut <= 0 {
      return None;
    }
    FlooredFromSafe(view, opts.compactedFrom, n);
    if UserCount(SliceFrom(view, cut)) < n {
      cut := WalkBack(view, cut, n);
      if cut > 1 {
        if UserCount(SliceFrom(view, cut)) < n {
          if opts.criticalOver && cut > 0 {
            return Some(cut);
          }
          return None;
        }
      } else {
        if opts.criticalOver && cut > 0 {
          return Some(cut);
        }
        return None;
      }
    }
    return Some(cut);
  }

  /** Enough user messages are kept by a pair-safe cut at `d`. */
  ghost predicate KeepsFloor(view: seq<EngineMessage>, d: nat, n: int) {
    PairSafe(view, d) && UserCount(SliceFrom(view, d)) >= n
  }

  /**
   * When there is a cut, for every summary and every option: never for a blank summary; when
   * critical, if any cut is pair-safe; else if one from index 2 on keeps the floor, or index 1 does
   * and no deeper cut is pair-safe.
   */
  lemma TrimsIff(view: seq<EngineMessage>, opts: TrimOpts)
    ensures var n, from := opts.anchorUserMessages, opts.compactedFrom;
            LiveCut(view, opts).Some? <==>
            !AllSpace(opts.summary) &&
            if opts.criticalOver then exists d :: 0 < d <= from && PairSafe(view, d)
            else || (exists d :: 2 <= d <= from && KeepsFloor(view, d, n))
                 || (1 <= from && KeepsFloor(view, 1, n) && forall d :: 2 <= d <= from ==> !PairSafe(view, d))
    ensures AllSpace(opts.summary) ==> TrimView(view, opts) == view
  {
    hide PairSafe, UserCount;
    var n, from := opts.anchorUserMessages, opts.compactedFrom;
    var safe, floored := LargestCut(view, from, 0), LargestCut(view, from, n);
    forall d | 0 < d <= from
      ensures PairSafe(view, d) <==> Cuttable(view, d, 0)
      ensures KeepsFloor(view, d, n) <==> Cuttable(view, d, n)
    {}
    assert safe > 0 ==> PairSafe(view, safe);
    assert floored > 0 ==> KeepsFloor(view, floored, n);
  }

  /** What a caller may rely on, without reading the search. */
  lemma LiveCutExact(view: seq<EngineMessage>, opts: TrimOpts)
    requires !Blank(opts.summary)
    ensures var n, from := opts.anchorUserMessages, opts.compactedFrom;
            var calm, critical := LiveCut(view, opts.(criticalOver := false)), LiveCut(view, opts.(criticalOver := true));
            && (calm.Some? ==> calm.value <= from && Cuttable(view, calm.value, n)
                               && forall d :: calm.value < d <= from ==> !Cuttable(view, d, n))
            && (calm.None? ==> forall d :: 2 <= d <= from ==> !Cuttable(view, d, n))
            && (critical.None? <==> forall d :: 0 < d <= from ==> !PairSafe(view, d))
            && (calm.Some? ==> critical == calm)
            && (critical.Some? ==> 0 < critical.value <= from && PairSafe(view, critical.value)
                                   && forall d :: critical.value < d <= from ==> !Cuttable(view, d, n))
            && (critical.Some? && !Cuttable(view, critical.value, n) ==>
                  forall d :: 0 < d <= from ==> !Cuttable(view, d, n) && (PairSafe(view, d) ==> d <= critical.value))
  {
    var n, from := opts.anchorUserMessages, opts.compactedFrom;
    var safe := LargestCut(view, from, 0);
    forall d | 0 < d <= from
      ensures PairSafe(view, d) <==> Cuttable(view, d, 0)
    {}
    assert safe > 0 ==> PairSafe(view, safe);
  }

  /**
   * The two searches agree. With the anchor in force the live trim returns the drop range's
   * end, except that an end of 1 is only returned when no deeper cut is pair-safe.
   */
  lemma SearchesAgree(ms: seq<EngineMessage>, keepFrom: int, n: nat, summary: string)
    requires 0 < keepFrom < |ms| && 1 <= n <= UserCount(ms) && !Blank(summary)
    ensures var e := DropEnd(ms, keepFrom, n);
            LiveCut(ms, TrimOpts(keepFrom, summary, n, false)) ==
            if e >= 2 || (e == 1 && forall d :: 1 < d <= keepFrom ==> !PairSafe(ms, d)) then Some(e)
            else None
  {
    var e := DropEnd(ms, keepFrom, n);
    var safe := LargestCut(ms, keepFrom, 0);
    forall d | 0 < d <= keepFrom
      ensures PairSafe(ms, d) <==> Cuttable(ms, d, 0)
    {}
    if e == 1 {
      assert PairSafe(ms, 1) && Cuttable(ms, 1, 0);
    }
  }

  /** Index 1 is where they part: the drop range ends there, the live trim gives up. */
  lemma SearchesDifferAtOne()
    ensures exists ms: seq<EngineMessage> ::
              |ms| == 3 && DropEnd(ms, 2, 1) == 1 && LiveCut(ms, TrimOpts(2, "s", 1, false)) == None
  {
    var user := EngineMessage(User, "hi", None, None, None);
    var reply := EngineMessage(Assistant, "ok", None, None, None);
    var ms := [reply, user, reply];
    assert ms[2..] == [reply] && ms[1..] == [user, reply];
    assert UserCount(ms[1..]) == 1 by { assert ms[1..][1..] == [reply]; }
    assert UserCount(ms) == 1 by { assert ms[0] == reply; }
    assert UserCount(ms[2..]) == 0;
    assert Cuttable(ms, 1, 1) && !Cuttable(ms, 2, 1) && Cuttable(ms, 2, 0);
    assert DropEnd(ms, 2, 1) == 1;
  }

  /**
   * A cut the live trim returned can orphan a result when it is replayed on the grown session: the
   * result arrives after its call was cut away, although the session as a whole has both.
   */
  lemma ReplayedCutCanOrphan()
    ensures exists ms: seq<EngineMessage>, added: seq<EngineMessage>, opts, cut ::
              LiveCut(ms, opts) == Some(cut) && OrphanFree(ms + added) && !OrphanFree(SliceFrom(ms + added, cut))
  {
    var call := EngineMessage(Assistant, "", Some("read"), None, None);
    var user := EngineMessage(User, "go on", None, None, None);
    var result := EngineMessage(Tool, "", Some("read"), None, None);
    var ms, added, opts := [call, user], [result], TrimOpts(1, "s", 1, false);
    assert ms[1..] == [user] && [user][1..] == [];
    assert PairSafe(ms, 1) && UserCount([user]) == 1;
    assert Cuttable(ms, 1, 1) && Cuttable(ms, 1, 0);
    assert LargestCut(ms, 1, 1) == 1 && LargestCut(ms, 1, 0) == 1;
    assert !IsSpace(opts.summary[0]);
    var all := ms + added;
    assert all == [call, user, result];
    forall r | 0 <= r < |all| && IsToolResult(all[r])
      ensures HasCall(all[..r])
    {
      assert all[..r][0] == call;
    }
    assert all[1..] == [user, result];
    assert IsToolResult(all[1..][1]) && all[1..][..1] == [user] && !HasCall([user]);
    assert LiveCut(ms, opts) == Some(1) && OrphanFree(ms + added) && !OrphanFree(SliceFrom(ms + added, 1));
  }

  // ----- The trimmed view --------------------------------------------------

  function SummaryMessage(summary: string): EngineMessage {
    EngineMessage(User, CompactSummary.FormatCompactSummary(summary), None, None, None)
  }

  ghost function TrimView(view: seq<EngineMessage>, opts: TrimOpts): seq<EngineMessage> {
    match LiveCut(view, opts)
    case None => view
    case Some(cut) => [SummaryMessage(opts.summary)] + SliceFrom(view, cut)
  }

  method BuildLiveTrimmedView(view: seq<EngineMessage>, opts: TrimOpts) returns (trimmed: seq<EngineMessage>)
    ensures trimmed == TrimView(view, opts)
    ensures AllSpace(opts.summary) ==> trimmed == view
  {
    var cut := ComputeLiveTrimCut(view, opts);
    if cut.None? {
      return view;
    }
    return [SummaryMessage(opts.summary)] + SliceFrom(view, cut.value);
  }

  /** A trimmed view leads with one user message that carries the formatted summary and no tool. */
  lemma TrimmedViewLeads(view: seq<EngineMessage>, opts: TrimOpts, cut: nat)
    requires LiveCut(view, opts) == Some(cut)
    ensures var t := TrimView(view, opts);
            && t != [] && t[0].role == User && t[0].text == CompactSummary.FormatCompactSummary(opts.summary)
            && t[0].toolName == t[0].input == t[0].output == None
            && t[1..] == (if cut <= |view| then view[cut..] else [])
            && UserCount(t) == 1 + UserCount(SliceFrom(view, cut))
  {
    hide CompactSummary.FormatCompactSummary;
    assert TrimView(view, opts)[1..] == SliceFrom(view, cut);
  }

  // ----- Runs of drops and trims -------------------------------------------

  datatype Step = DropStep(keepFrom: int, anchor: int) | TrimStep(opts: TrimOpts)

  ghost function Apply(view: seq<EngineMessage>, step: Step): seq<EngineMessage> {
    match step
    case DropStep(keepFrom, anchor) => DropView(view, keepFrom, anchor)
    case TrimStep(opts) => TrimView(view, opts)
  }

  ghost function Run(view: seq<EngineMessage>, steps: seq<Step>): seq<EngineMessage>
    decreases |steps|
  {
    if steps == [] then view else Run(Apply(view, steps[0]), steps[1..])
  }

  /** `v` is the original from index `s` on, possibly behind one summary message. */
  ghost predicate ViewFrom(original: seq<EngineMessage>, v: seq<EngineMessage>, s: nat) {
    && s <= |original|
    && (v == original[s..] || (exists summary :: v == [SummaryMessage(summary)] + original[s..]))
  }

  /** Cutting a view of the original is cutting the original deeper. */
  lemma CutOfView(original: seq<EngineMessage>, v: seq<EngineMessage>, s: nat, c: nat)
    requires ViewFrom(original, v, s) && 0 < c
    ensures exists t :: s <= t <= |original| && SliceFrom(v, c) == original[t..]
  {
    hide CompactSummary.FormatCompactSummary;
    var t := if v == original[s..] then s + c else s + c - 1;
    if t <= |original| {
      assert SliceFrom(v, c) == original[t..];
    } else {
      assert SliceFrom(v, c) == original[|original|..];
    }
  }

  /** A non-trivial cut that keeps the floor leaves an orphan-free rest. */
  lemma CutIsOrphanFree(view: seq<EngineMessage>, c: nat)
    requires 0 < c && PairSafe(view, c)
    ensures OrphanFree(SliceFrom(view, c))
  {
    if c < |view| {
      PairSafeIffSliceOrphanFree(view, c);
    }
  }

  /** The cut one step makes: 0 when the step leaves the view alone. */
  ghost function StepCut(view: seq<EngineMessage>, step: Step): (c: nat)
    ensures c > 0 ==> PairSafe(view, c)
    ensures c == 0 ==> Apply(view, step) == view
    ensures c > 0 ==> Apply(view, step) ==
                      (if step.TrimStep? then [SummaryMessage(step.opts.summary)] else []) + SliceFrom(view, c)
  {
    match step
    case DropStep(keepFrom, anchor) => DropEnd(view, keepFrom, anchor)
    case TrimStep(opts) => var cut := LiveCut(view, opts); if cut.None? then 0 else cut.value
  }

  /** A step that honours the floor `n`: it uses that anchor and no critical escape. */
  predicate Anchored(step: Step, n: int) {
    match step
    case DropStep(_, anchor) => anchor == n
    case TrimStep(opts) => opts.anchorUserMessages == n && !opts.criticalOver
  }

  predicate AllAnchored(steps: seq<Step>, n: int) {
    forall i :: 0 <= i < |steps| ==> Anchored(steps[i], n)
  }

  /** Moving the kept start from `s` to `t` respects every floor that all the steps honour. */
  ghost predicate FloorsKept(original: seq<EngineMessage>, s: nat, t: nat, steps: seq<Step>)
    requires s <= t <= |original|
  {
    forall n :: AllAnchored(steps, n) && 1 <= n <= UserCount(original[s..]) ==> UserCount(original[t..]) >= n
  }

  lemma AppliedView(original: seq<EngineMessage>, v: seq<EngineMessage>, step: Step, t: nat)
    requires StepCut(v, step) > 0 && t <= |original| && SliceFrom(v, StepCut(v, step)) == original[t..]
    requires OrphanFree(original[t..])
    ensures ViewFrom(original, Apply(v, step), t) && OrphanFree(Apply(v, step))
  {
    hide CompactSummary.FormatCompactSummary;
    if step.TrimStep? {
      var head := SummaryMessage(step.opts.summary);
      OrphanFreeConcat([head], original[t..]);
      assert Apply(v, step) == [head] + original[t..];
    } else {
      assert Apply(v, step) == original[t..];
    }
  }

  lemma StepKeepsView(original: seq<EngineMessage>, v: seq<EngineMessage>, s: nat, step: Step)
    returns (t: nat)
    requires ViewFrom(original, v, s) && OrphanFree(v)
    ensures s <= t && ViewFrom(original, Apply(v, step), t) && OrphanFree(Apply(v, step))
    ensures FloorsKept(original, s, t, [step])
  {
    hide CompactSummary.FormatCompactSummary;
    var c := StepCut(v, step);
    if c == 0 {
      return s;
    }
    CutIsOrphanFree(v, c);
    CutOfView(original, v, s, c);
    t :| s <= t <= |original| && SliceFrom(v, c) == original[t..];
    AppliedView(original, v, step, t);
    forall n | AllAnchored([step], n) && 1 <= n <= UserCount(original[s..])
      ensures UserCount(original[t..]) >= n
    {
      assert Anchored([step][0], n);
      StepCutKeepsFloor(original, v, s, step, n);
    }
  }

  lemma StepCutKeepsFloor(original: seq<EngineMessage>, v: seq<EngineMessage>, s: nat, step: Step, n: int)
    requires ViewFrom(original, v, s) && Anchored(step, n) && StepCut(v, step) > 0
    requires 1 <= n <= UserCount(original[s..])
    ensures UserCount(SliceFrom(v, StepCut(v, step))) >= n
  {
    hide CompactSummary.FormatCompactSummary, PairSafe;
    if v != original[s..] {
      var summary :| v == [SummaryMessage(summary)] + original[s..];
      UserCountConcat([SummaryMessage(summary)], original[s..]);
    }
  }

  /**
   * Safety over whole runs: from an orphan-free session, any sequence of drops and live trims
   * yields an orphan-free view that is a suffix of the session, or one summary and a suffix. When
   * every step honours a floor the session meets, the suffix still holds that many user messages.
   */
  lemma RunIsSafe(session: seq<EngineMessage>, steps: seq<Step>)
    requires OrphanFree(session)
    ensures OrphanFree(Run(session, steps))
    ensures exists t :: ViewFrom(session, Run(session, steps), t) && FloorsKept(session, 0, t, steps)
  {
    assert session[0..] == session;
    var t := RunFromView(session, session, 0, steps);
  }

  lemma {:induction false} RunFromView(original: seq<EngineMessage>, v: seq<EngineMessage>, s: nat, steps: seq<Step>)
    returns (t: nat)
    requires ViewFrom(original, v, s) && OrphanFree(v)
    ensures OrphanFree(Run(v, steps))
    ensures s <= t && ViewFrom(original, Run(v, steps), t) && FloorsKept(original, s, t, steps)
    decreases |steps|
  {
    if steps == [] {
      return s;
    }
    var u := StepKeepsView(original, v, s, steps[0]);
    t := RunFromView(original, Apply(v, steps[0]), u, steps[1..]);
    forall n | AllAnchored(steps, n) && 1 <= n <= UserCount(original[s..])
      ensures UserCount(original[t..]) >= n
    {
      assert AllAnchored([steps[0]], n) && AllAnchored(steps[1..], n);
    }
  }
}
