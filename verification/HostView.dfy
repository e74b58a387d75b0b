/**
 * What the host ships to the model (extensions/mega-events/context-handler.ts and its live trim):
 * a summary and a capped tail, computed afresh when the trim fires, and replayed from a cached
 * cut, capped anew, while the transcript grows.
 */
module HostView {
  import opened Messages
  import opened Boundary
  import opened Adapt
  import opened JsStrings
  import opened TailCap
  import CompactSummary
  import LiveTrim

  /** The window known at a call and the tokens left for the tail. */
  datatype Cap = Cap(windowKnown: bool, budget: int)

  datatype TrimCache = TrimCache(cut: nat, summary: string)

  function SummaryMessage(summary: string): AgentMessage {
    UserMsg(Str(CompactSummary.FormatCompactSummary(summary)))
  }

  /** `slice(c)` on the host's array. */
  function From(ms: seq<AgentMessage>, c: nat): seq<AgentMessage> {
    if c <= |ms| then ms[c..] else []
  }

  function Capped(ms: seq<AgentMessage>, cap: Cap, cost: Cost): seq<AgentMessage> {
    ms[CapDrop(ms, cap.windowKnown, cap.budget, cost)..]
  }

  ghost function FireCut(ms: seq<AgentMessage>, opts: LiveTrim.TrimOpts): Option<nat> {
    LiveTrim.LiveCut(ToEngineMessages(ms), opts)
  }

  /** The view a fired trim ships. Without a cut it is the transcript, capped only on request. */
  ghost function FiredView(ms: seq<AgentMessage>, opts: LiveTrim.TrimOpts, cap: Cap, capSkipped: bool, cost: Cost)
    : seq<AgentMessage>
  {
    match FireCut(ms, opts)
    case None => if capSkipped then Capped(ms, cap, cost) else ms
    case Some(cut) => [SummaryMessage(opts.summary)] + Capped(From(ms, cut), cap, cost)
  }

  function ReplayedView(ms: seq<AgentMessage>, cache: TrimCache, cap: Cap, cost: Cost): seq<AgentMessage> {
    [SummaryMessage(cache.summary)] + Capped(From(ms, cache.cut), cap, cost)
  }

  /** The part of the runtime that survives between calls. */
  class Runtime {
    var trimCache: Option<TrimCache>

    constructor ()
      ensures trimCache == None
    {
      trimCache := None;
    }

    /** Cut, summarise, cap, and remember the cut; without a cut the cache stays as it is. */
    method Fire(messages: seq<AgentMessage>, opts: LiveTrim.TrimOpts, cap: Cap, capSkipped: bool, cost: Cost)
      returns (view: seq<AgentMessage>)
      modifies this
      ensures view == FiredView(messages, opts, cap, capSkipped, cost)
      ensures var cut := FireCut(messages, opts);
              trimCache == if cut.Some? then Some(TrimCache(cut.value, opts.summary)) else old(trimCache)
      ensures AllSpace(opts.summary) ==> trimCache == old(trimCache) && (!capSkipped ==> view == messages)
    {
      var cut := LiveTrim.ComputeLiveTrimCut(ToEngineMessages(messages), opts);
      if cut.None? {
        if capSkipped && cap.windowKnown {
          var recent, dropped := ApplyTailCap(messages, cap.windowKnown, cap.budget, cost);
          if dropped > 0 {
            return recent;
          }
        }
        return messages;
      }
      var recent, _ := ApplyTailCap(From(messages, cut.value), cap.windowKnown, cap.budget, cost);
      trimCache := Some(TrimCache(cut.value, opts.summary));
      return [SummaryMessage(opts.summary)] + recent;
    }

    /** Ship the cached summary again, with the grown tail capped against the present window. */
    method Replay(messages: seq<AgentMessage>, cap: Cap, cost: Cost) returns (view: Option<seq<AgentMessage>>)
      ensures view == if trimCache.Some? && trimCache.value.cut <= |messages|
                      then Some(ReplayedView(messages, trimCache.value, cap, cost)) else None
    {
      if trimCache.None? || trimCache.value.cut > |messages| {
        return None;
      }
      var recent, _ := ApplyTailCap(From(messages, trimCache.value.cut), cap.windowKnown, cap.budget, cost);
      return Some([SummaryMessage(trimCache.value.summary)] + recent);
    }
  }

  // ----- Against the engine's view -----------------------------------------

  /** The summary the host ships is the one the engine's trimmed view leads with. */
  lemma SummarySeen(summary: string)
    ensures ToEngineMessage(SummaryMessage(summary)) == LiveTrim.SummaryMessage(summary)
  {}

  /** With room for everything, the engine's view of what a fired trim ships is its own trimmed view. */
  lemma FiringCommutesWithView(ms: seq<AgentMessage>, opts: LiveTrim.TrimOpts, cap: Cap, capSkipped: bool, cost: Cost)
    requires !cap.windowKnown
    ensures ToEngineMessages(FiredView(ms, opts, cap, capSkipped, cost)) == LiveTrim.TrimView(ToEngineMessages(ms), opts)
  {
    hide LiveTrim.LiveCut, CompactSummary.FormatCompactSummary;
    var cut := FireCut(ms, opts);
    if cut.Some? {
      var head, base := SummaryMessage(opts.summary), From(ms, cut.value);
      SummarySeen(opts.summary);
      assert base[0..] == base;
      assert FiredView(ms, opts, cap, capSkipped, cost) == [head] + base;
      assert ToEngineMessages([head] + base) == [ToEngineMessage(head)] + ToEngineMessages(base);
      assert ToEngineMessages(base) == SliceFrom(ToEngineMessages(ms), cut.value);
    } else {
      assert ms[0..] == ms;
    }
  }

  /** A fired cut keeps the floor of the host's user messages unless the context is critically full. */
  lemma FiredCutKeepsUsers(ms: seq<AgentMessage>, opts: LiveTrim.TrimOpts)
    requires FireCut(ms, opts).Some? && !opts.criticalOver
    ensures HostUsers(From(ms, FireCut(ms, opts).value)) >= opts.anchorUserMessages
  {
    var view, cut := ToEngineMessages(ms), FireCut(ms, opts).value;
    assert Cuttable(view, cut, opts.anchorUserMessages);
    UsersSeen(From(ms, cut));
    assert ToEngineMessages(From(ms, cut)) == SliceFrom(view, cut);
  }

  /** A blank summary never replaces anything: the transcript is shipped, or its tail on request. */
  lemma BlankSummaryShipsTranscript(ms: seq<AgentMessage>, opts: LiveTrim.TrimOpts, cap: Cap, cost: Cost)
    requires AllSpace(opts.summary)
    ensures FireCut(ms, opts) == None
    ensures FiredView(ms, opts, cap, false, cost) == ms && FiredView(ms, opts, cap, true, cost) == Capped(ms, cap, cost)
  {
    LiveTrim.TrimsIff(ToEngineMessages(ms), opts);
  }

  /** Until something changes, a replay ships what the trim shipped when it fired. */
  lemma ReplayRepeatsFire(ms: seq<AgentMessage>, opts: LiveTrim.TrimOpts, cap: Cap, capSkipped: bool, cost: Cost)
    requires FireCut(ms, opts).Some? && FireCut(ms, opts).value <= |ms|
    ensures var cache := TrimCache(FireCut(ms, opts).value, opts.summary);
            ReplayedView(ms, cache, cap, cost) == FiredView(ms, opts, cap, capSkipped, cost)
  {}

  // ----- Runs --------------------------------------------------------------

  /** Messages arrive, a durable compaction replaces the transcript, or a trim fires. */
  datatype Event =
    | Arrive(added: seq<AgentMessage>)
    | Replace(transcript: seq<AgentMessage>)
    | Fires(opts: LiveTrim.TrimOpts)

  /** `mark` is where the messages that came after the cached cut was made begin. */
  datatype World = World(transcript: seq<AgentMessage>, cache: Option<TrimCache>, mark: nat)

  function Later(a: nat, b: nat): nat {
    if a <= b then b else a
  }

  ghost function Next(w: World, event: Event): World {
    match event
    case Arrive(added) => w.(transcript := w.transcript + added)
    case Replace(transcript) => World(transcript, None, 0)
    case Fires(opts) =>
      var cut := FireCut(w.transcript, opts);
      if cut.None? then w
      else w.(cache := Some(TrimCache(cut.value, opts.summary)), mark := Later(cut.value, |w.transcript|))
  }

  ghost function Reached(events: seq<Event>): World {
    if events == [] then World([], None, 0)
    else Next(Reached(events[..|events| - 1]), events[|events| - 1])
  }

  /** What lay behind the cached cut when it was made is free of orphans. */
  ghost predicate CutHolds(w: World) {
    w.cache.Some? ==>
      var cut := w.cache.value.cut;
      && cut <= w.mark
      && (cut <= |w.transcript| ==> w.mark <= |w.transcript| && TranscriptOrphanFree(w.transcript[cut..w.mark]))
      && (cut > |w.transcript| ==> w.mark == cut)
  }

  ghost predicate CallsSomeTool(ms: seq<AgentMessage>) {
    exists c :: 0 <= c < |ms| && CallsTool(ms[c])
  }

  lemma NothingIsOrphanFree()
    ensures TranscriptOrphanFree([])
  {}

  /** What is behind a cut of the live trim is free of orphans, whatever the transcript was. */
  lemma FiredBaseOrphanFree(ms: seq<AgentMessage>, opts: LiveTrim.TrimOpts)
    requires FireCut(ms, opts).Some?
    ensures TranscriptOrphanFree(From(ms, FireCut(ms, opts).value))
  {
    hide TranscriptOrphanFree, OrphanFree, PairSafe;
    var view, cut := ToEngineMessages(ms), FireCut(ms, opts).value;
    NothingIsOrphanFree();
    assert Cuttable(view, cut, 0) || Cuttable(view, cut, opts.anchorUserMessages);
    assert cut >= |ms| ==> From(ms, cut) == [];
    if cut < |ms| {
      PairSafeIffSliceOrphanFree(view, cut);
      assert ToEngineMessages(ms[cut..]) == view[cut..];
      TranscriptMatchesView(ms[cut..]);
    }
  }

  lemma NextKeepsCut(w: World, event: Event)
    requires CutHolds(w)
    ensures CutHolds(Next(w, event))
  {
    hide FireCut, TranscriptOrphanFree;
    match event
    case Arrive(added) =>
      if w.cache.Some? {
        var cut, all := w.cache.value.cut, w.transcript + added;
        if cut <= |w.transcript| {
          assert all[cut..w.mark] == w.transcript[cut..w.mark];
        } else if cut <= |all| {
          assert all[cut..w.mark] == [];
          NothingIsOrphanFree();
        }
      }
    case Replace(_) =>
    case Fires(opts) =>
      if FireCut(w.transcript, opts).Some? {
        var ms, cut := w.transcript, FireCut(w.transcript, opts).value;
        FiredBaseOrphanFree(ms, opts);
        assert cut <= |ms| ==> ms[cut..|ms|] == From(ms, cut);
      }
  }

  lemma {:induction false} ReachedHolds(events: seq<Event>)
    ensures CutHolds(Reached(events))
  {
    if events != [] {
      ReachedHolds(events[..|events| - 1]);
      NextKeepsCut(Reached(events[..|events| - 1]), events[|events| - 1]);
    }
  }

  lemma TranscriptConcat(a: seq<AgentMessage>, b: seq<AgentMessage>)
    ensures TranscriptOrphanFree(a + b) <==> TranscriptOrphanFree(a) && (CallsSomeTool(a) || TranscriptOrphanFree(b))
  {
    var va, vb := ToEngineMessages(a), ToEngineMessages(b);
    assert ToEngineMessages(a + b) == va + vb;
    TranscriptMatchesView(a);
    TranscriptMatchesView(b);
    TranscriptMatchesView(a + b);
    OrphanFreeConcat(va, vb);
    forall c | 0 <= c < |a|
      ensures CallsTool(a[c]) <==> HasToolUse(va[c])
    {}
  }

  /** A summary in front adds no call and no result. */
  lemma BehindSummary(summary: string, tail: seq<AgentMessage>)
    ensures TranscriptOrphanFree([SummaryMessage(summary)] + tail) <==> TranscriptOrphanFree(tail)
  {
    hide CompactSummary.FormatCompactSummary;
    var head := [SummaryMessage(summary)];
    TranscriptConcat(head, tail);
  }

  /** No result of `base` loses its call when the cap drops its front. */
  ghost predicate PairsKept(base: seq<AgentMessage>, cap: Cap, cost: Cost) {
    if cap.windowKnown && |base| > 1 then forall r :: 0 <= r < |base| ==> !Severed(base, cap.budget, cost, r)
    else TranscriptOrphanFree(base)
  }

  lemma CappedIff(base: seq<AgentMessage>, cap: Cap, cost: Cost)
    ensures TranscriptOrphanFree(Capped(base, cap, cost)) <==> PairsKept(base, cap, cost)
  {
    hide Severed;
    if cap.windowKnown && |base| > 1 {
      CappedTailOrphanFreeIff(base, cap.budget, cost);
    } else {
      assert base[0..] == base;
    }
  }

  /**
   * A view shipped when a trim fires is free of orphans if and only if the cap severs no pair;
   * what lies behind a cut is so before the cap, whatever the transcript was.
   */
  lemma FiredViewSafeIff(ms: seq<AgentMessage>, opts: LiveTrim.TrimOpts, cap: Cap, capSkipped: bool, cost: Cost)
    ensures var cut, view := FireCut(ms, opts), FiredView(ms, opts, cap, capSkipped, cost);
            var base := if cut.Some? then From(ms, cut.value) else ms;
            && (cut.Some? ==> TranscriptOrphanFree(base))
            && (TranscriptOrphanFree(view) <==>
                if cut.Some? || capSkipped then PairsKept(base, cap, cost) else TranscriptOrphanFree(ms))
  {
    hide FireCut, PairsKept, TranscriptOrphanFree;
    var cut := FireCut(ms, opts);
    if cut.Some? {
      var base := From(ms, cut.value);
      FiredBaseOrphanFree(ms, opts);
      BehindSummary(opts.summary, Capped(base, cap, cost));
      CappedIff(base, cap, cost);
    } else {
      CappedIff(ms, cap, cost);
    }
  }

  /**
   * Over every run, a replayed view is free of orphans if and only if the cap severs no pair of
   * what is behind the cached cut; and before the cap that part is free of orphans if and only if
   * it held a tool call when the cut was made or the messages since then are orphan-free.
   */
  lemma ReplayedViewSafeIff(events: seq<Event>, cap: Cap, cost: Cost)
    requires var w := Reached(events); w.cache.Some? && w.cache.value.cut <= |w.transcript|
    ensures var w := Reached(events);
            var cut := w.cache.value.cut;
            var base, view := w.transcript[cut..], ReplayedView(w.transcript, w.cache.value, cap, cost);
            && cut <= w.mark <= |w.transcript|
            && (TranscriptOrphanFree(view) <==> PairsKept(base, cap, cost))
            && (TranscriptOrphanFree(base) <==>
                CallsSomeTool(w.transcript[cut..w.mark]) || TranscriptOrphanFree(w.transcript[w.mark..]))
  {
    hide PairsKept, TranscriptOrphanFree, Reached, CallsSomeTool;
    ReachedHolds(events);
    var w := Reached(events);
    var cut := w.cache.value.cut;
    assert w.transcript[cut..] == w.transcript[cut..w.mark] + w.transcript[w.mark..];
    TranscriptConcat(w.transcript[cut..w.mark], w.transcript[w.mark..]);
    BehindSummary(w.cache.value.summary, Capped(w.transcript[cut..], cap, cost));
    CappedIff(w.transcript[cut..], cap, cost);
  }

  /** Every shipped tail fits the budget of the present window, unless it is one message. */
  lemma CappedFits(base: seq<AgentMessage>, cap: Cap, cost: Cost)
    requires cap.windowKnown
    ensures var tail := Capped(base, cap, cost); TailTokens(tail, cost) <= cap.budget || |tail| <= 1
  {
    hide TailTokens;
    if |base| > 1 {
      var s := FitFrom(base, cap.budget, cost, 0);
      FitFromFirst(base, cap.budget, cost, 0);
      TailsShrink(base, s, SkipResults(base, s), cost);
    }
  }
}
