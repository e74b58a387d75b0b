/**
 * The token cap on a trimmed tail (extensions/mega-events/context-handler/headroom.ts): drop the
 * oldest messages until the rest fits the budget, then step past leading tool results. How many
 * tokens a message costs and how the budget comes about are given.
 */
module TailCap {
  import opened Messages
  import opened Adapt

  type Cost = AgentMessage -> nat

  function TailTokens(ms: seq<AgentMessage>, cost: Cost): nat {
    if ms == [] then 0 else cost(ms[0]) + TailTokens(ms[1..], cost)
  }

  /** The tokens of the tail from index `i` on. */
  function TailFrom(ms: seq<AgentMessage>, i: nat, cost: Cost): nat
    requires i <= |ms|
  {
    TailTokens(ms[i..], cost)
  }

  lemma {:induction false} ShorterTailCostsLess(ms: seq<AgentMessage>, k: nat, cost: Cost)
    requires k <= |ms|
    ensures TailTokens(ms[k..], cost) <= TailTokens(ms, cost)
  {
    if k > 0 {
      assert ms[k..] == ms[1..][k - 1..];
      ShorterTailCostsLess(ms[1..], k - 1, cost);
    }
  }

  /** The cut before pairs are considered: the longest tail within the budget, at least the last message. */
  ghost predicate FirstFit(ms: seq<AgentMessage>, budget: int, cost: Cost, s: nat)
    requires ms != []
  {
    && s < |ms|
    && (TailFrom(ms, s, cost) <= budget || s == |ms| - 1)
    && forall t :: 0 <= t < s ==> TailFrom(ms, t, cost) > budget
  }

  /** The first message at or after `s` that is not a tool result, or the last message. */
  function SkipResults(ms: seq<AgentMessage>, s: nat): (d: nat)
    requires s < |ms|
    ensures s <= d < |ms|
    ensures d == |ms| - 1 || !ms[d].ToolResultMsg?
    ensures forall i :: s <= i < d ==> ms[i].ToolResultMsg?
    decreases |ms| - s
  {
    if s < |ms| - 1 && ms[s].ToolResultMsg? then SkipResults(ms, s + 1) else s
  }

  /** Where the longest tail within the budget starts, looking from `s` on. */
  function FitFrom(ms: seq<AgentMessage>, budget: int, cost: Cost, s: nat): (start: nat)
    requires s < |ms|
    ensures s <= start < |ms|
    decreases |ms| - s
  {
    if s == |ms| - 1 || TailFrom(ms, s, cost) <= budget then s else FitFrom(ms, budget, cost, s + 1)
  }

  lemma {:induction false} FitFromFirst(ms: seq<AgentMessage>, budget: int, cost: Cost, s: nat)
    requires s < |ms|
    ensures var start := FitFrom(ms, budget, cost, s);
            && (TailFrom(ms, start, cost) <= budget || start == |ms| - 1)
            && forall t :: s <= t < start ==> TailFrom(ms, t, cost) > budget
    decreases |ms| - s
  {
    hide TailFrom;
    if s < |ms| - 1 {
      FitFromFirst(ms, budget, cost, s + 1);
    }
  }

  lemma FirstFitIsUnique(ms: seq<AgentMessage>, budget: int, cost: Cost, start: nat)
    requires ms != [] && FirstFit(ms, budget, cost, start)
    ensures FitFrom(ms, budget, cost, 0) == start
  {
    hide TailFrom;
    FitFromFirst(ms, budget, cost, 0);
  }

  /** The number of messages the cap drops from the front. */
  function CapDrop(ms: seq<AgentMessage>, windowKnown: bool, budget: int, cost: Cost): (d: nat)
    ensures d <= |ms| && (ms != [] ==> d < |ms|)
  {
    if !windowKnown || |ms| <= 1 then 0 else SkipResults(ms, FitFrom(ms, budget, cost, 0))
  }

  /** The cap keeps a non-empty tail that fits the budget unless it is the last message alone. */
  method ApplyTailCap(ms: seq<AgentMessage>, windowKnown: bool, budget: int, cost: Cost)
    returns (recent: seq<AgentMessage>, dropped: nat)
    ensures dropped == CapDrop(ms, windowKnown, budget, cost) && recent == ms[dropped..]
    ensures !windowKnown || |ms| <= 1 ==> dropped == 0
    ensures windowKnown && |ms| > 1 ==>
              && (exists s :: FirstFit(ms, budget, cost, s) && dropped == SkipResults(ms, s))
              && (TailTokens(recent, cost) <= budget || |recent| == 1)
  {
    if !windowKnown || |ms| <= 1 {
      return ms, 0;
    }
    var start := FitStart(ms, budget, cost);
    ghost var s := start;
    FirstFitIsUnique(ms, budget, cost, start);
    while start < |ms| - 1 && ms[start].ToolResultMsg?
      invariant s <= start < |ms| && SkipResults(ms, start) == SkipResults(ms, s)
    {
      start := start + 1;
    }
    ShorterTailCostsLess(ms[s..], start - s, cost);
    assert ms[s..][start - s..] == ms[start..];
    return ms[start..], start;
  }

  method FitStart(ms: seq<AgentMessage>, budget: int, cost: Cost) returns (start: nat)
    requires |ms| > 1
    ensures FirstFit(ms, budget, cost, start)
  {
    hide TailFrom;
    start := 0;
    var tailTokens := 0;
    var i := |ms| - 1;
    NoTailNoTokens(ms, cost);
    while i >= 0
      invariant -1 <= i < |ms| && start == 0
      invariant tailTokens == TailFrom(ms, i + 1, cost)
      invariant i < |ms| - 1 ==> tailTokens <= budget
    {
      TailStep(ms, i, cost);
      tailTokens := tailTokens + cost(ms[i]);
      if tailTokens > budget {
        start := if i + 1 < |ms| - 1 then i + 1 else |ms| - 1;
        EarlierTailsTooLong(ms, i, budget, cost);
        return;
      }
      i := i - 1;
    }
  }

  lemma NoTailNoTokens(ms: seq<AgentMessage>, cost: Cost)
    ensures TailFrom(ms, |ms|, cost) == 0
  {}

  lemma TailStep(ms: seq<AgentMessage>, i: nat, cost: Cost)
    requires i < |ms|
    ensures TailFrom(ms, i, cost) == cost(ms[i]) + TailFrom(ms, i + 1, cost)
  {
    assert ms[i..][1..] == ms[i + 1..];
  }

  lemma EarlierTailsTooLong(ms: seq<AgentMessage>, i: nat, budget: int, cost: Cost)
    requires i < |ms| && TailFrom(ms, i, cost) > budget
    ensures forall t :: 0 <= t <= i ==> TailFrom(ms, t, cost) > budget
  {
    forall t | 0 <= t <= i
      ensures TailFrom(ms, t, cost) > budget
    {
      ShorterTailCostsLess(ms[t..], i - t, cost);
      assert ms[t..][i - t..] == ms[i..];
    }
  }

  // ----- Tool pairs --------------------------------------------------------

  predicate NamedResult(m: AgentMessage) {
    m.ToolResultMsg? && Truthy(m.toolName)
  }

  /** The nearest message before index `r` that calls a tool, or -1. */
  function CallBefore(ms: seq<AgentMessage>, r: nat): (o: int)
    requires r <= |ms|
    ensures -1 <= o < r
    ensures o >= 0 ==> CallsTool(ms[o])
    ensures forall i :: o < i < r ==> !CallsTool(ms[i])
  {
    if r == 0 then -1 else if CallsTool(ms[r - 1]) then r - 1 else CallBefore(ms, r - 1)
  }

  /** The tail from message `q` on is over the budget; always so when there is no such message. */
  predicate TooLong(ms: seq<AgentMessage>, q: int, budget: int, cost: Cost)
    requires q < |ms|
  {
    q < 0 || TailFrom(ms, q, cost) > budget
  }

  /**
   * Result `r` stays while its call goes: the tail from the call is over the budget, and the
   * result is the last message or comes after some message, not itself a result, whose tail fits.
   */
  ghost predicate Severed(ms: seq<AgentMessage>, budget: int, cost: Cost, r: nat)
    requires r < |ms|
  {
    var o := CallBefore(ms, r);
    && NamedResult(ms[r])
    && TooLong(ms, o, budget, cost)
    && (r == |ms| - 1 || exists q :: o < q < r && !ms[q].ToolResultMsg? && TailFrom(ms, q, cost) <= budget)
  }

  /** The tails that are too long are exactly those that start before the first fit. */
  lemma BeforeFitIffTooLong(ms: seq<AgentMessage>, budget: int, cost: Cost, q: nat)
    requires q < |ms| - 1
    ensures q < FitFrom(ms, budget, cost, 0) <==> TailFrom(ms, q, cost) > budget
  {
    hide TailFrom;
    FitFromFirst(ms, budget, cost, 0);
    var s := FitFrom(ms, budget, cost, 0);
    if s <= q {
      TailsShrink(ms, s, q, cost);
    }
  }

  lemma TailsShrink(ms: seq<AgentMessage>, s: nat, q: nat, cost: Cost)
    requires s <= q <= |ms|
    ensures TailFrom(ms, q, cost) <= TailFrom(ms, s, cost)
  {
    ShorterTailCostsLess(ms[s..], q - s, cost);
    assert ms[s..][q - s..] == ms[q..];
  }

  lemma OrphanFreeByName(ms: seq<AgentMessage>)
    ensures TranscriptOrphanFree(ms) <==>
            forall r :: 0 <= r < |ms| && NamedResult(ms[r]) ==> exists c :: 0 <= c < r && CallsTool(ms[c])
  {}

  /** A tail is orphan-free exactly when the call of each of its results is in it. */
  lemma TailOrphanFreeIff(ms: seq<AgentMessage>, d: nat)
    requires d <= |ms|
    ensures TranscriptOrphanFree(ms[d..]) <==> forall r :: d <= r < |ms| && NamedResult(ms[r]) ==> CallBefore(ms, r) >= d
  {
    hide CallsTool, NamedResult;
    var tail := ms[d..];
    forall r | d <= r < |ms|
      ensures CallBefore(ms, r) >= d <==> exists c :: 0 <= c < r - d && CallsTool(tail[c])
    {
      var o := CallBefore(ms, r);
      if o >= d {
        assert CallsTool(tail[o - d]);
      }
      if c :| 0 <= c < r - d && CallsTool(tail[c]) {
        assert CallsTool(ms[d + c]);
      }
    }
    forall r | 0 <= r < |tail|
      ensures NamedResult(tail[r]) <==> NamedResult(ms[d + r])
    {}
    OrphanFreeByName(tail);
    if TranscriptOrphanFree(tail) {
      forall r | d <= r < |ms| && NamedResult(ms[r])
        ensures CallBefore(ms, r) >= d
      {
        assert NamedResult(tail[r - d]);
      }
    }
  }

  /** A result outlives its call under the cap exactly when it is severed. */
  lemma SeveredIff(ms: seq<AgentMessage>, budget: int, cost: Cost, r: nat)
    requires 1 < |ms| && r < |ms| && NamedResult(ms[r])
    ensures var d := CapDrop(ms, true, budget, cost);
            CallBefore(ms, r) < d <= r <==> Severed(ms, budget, cost, r)
  {
    hide TailFrom;
    var o, s := CallBefore(ms, r), FitFrom(ms, budget, cost, 0);
    var d := SkipResults(ms, s);
    if o >= 0 {
      BeforeFitIffTooLong(ms, budget, cost, o);
    }
    if o < d <= r < |ms| - 1 {
      BeforeFitIffTooLong(ms, budget, cost, d);
      assert !ms[d].ToolResultMsg?;
    }
    forall q | o < q < r && !ms[q].ToolResultMsg? && TailFrom(ms, q, cost) <= budget
      ensures d <= q
    {
      BeforeFitIffTooLong(ms, budget, cost, q);
    }
  }

  /**
   * What the cap keeps is free of orphans if and only if no result is severed: no call falls
   * out of the budget while a later message that is not a result, or the last message, keeps its
   * result in. Calls, results and other messages may interleave in any way.
   */
  lemma CappedTailOrphanFreeIff(ms: seq<AgentMessage>, budget: int, cost: Cost)
    requires |ms| > 1
    ensures TranscriptOrphanFree(ms[CapDrop(ms, true, budget, cost)..]) <==>
            forall r :: 0 <= r < |ms| ==> !Severed(ms, budget, cost, r)
  {
    hide Severed, CapDrop;
    var d := CapDrop(ms, true, budget, cost);
    TailOrphanFreeIff(ms, d);
    forall r | 0 <= r < |ms| && NamedResult(ms[r])
      ensures CallBefore(ms, r) < d <= r <==> Severed(ms, budget, cost, r)
    {
      SeveredIff(ms, budget, cost, r);
    }
    forall r | 0 <= r < |ms| && Severed(ms, budget, cost, r)
      ensures NamedResult(ms[r])
    {
      SeveredIsNamed(ms, budget, cost, r);
    }
  }

  lemma SeveredIsNamed(ms: seq<AgentMessage>, budget: int, cost: Cost, r: nat)
    requires r < |ms| && Severed(ms, budget, cost, r)
    ensures NamedResult(ms[r])
  {}

  /** Tool results follow their call directly, or another result of it. */
  predicate Adjacent(ms: seq<AgentMessage>) {
    forall i :: 0 <= i < |ms| && ms[i].ToolResultMsg? ==> i > 0 && (ms[i - 1].ToolResultMsg? || CallsTool(ms[i - 1]))
  }

  lemma {:induction false} OnlyResultsSinceCall(ms: seq<AgentMessage>, r: nat)
    requires Adjacent(ms) && r < |ms| && ms[r].ToolResultMsg?
    ensures CallBefore(ms, r) >= 0 && forall q :: CallBefore(ms, r) < q < r ==> ms[q].ToolResultMsg?
  {
    if !CallsTool(ms[r - 1]) {
      OnlyResultsSinceCall(ms, r - 1);
    }
  }

  /**
   * When results follow their calls directly, only the last message can be severed: the cap
   * fails exactly when the transcript ends in a named result whose call is out of the budget.
   */
  lemma AdjacentTailOrphanFreeIff(ms: seq<AgentMessage>, budget: int, cost: Cost)
    requires |ms| > 1 && Adjacent(ms)
    ensures var last := |ms| - 1;
            TranscriptOrphanFree(ms[CapDrop(ms, true, budget, cost)..]) <==>
            !(NamedResult(ms[last]) && TooLong(ms, CallBefore(ms, last), budget, cost))
  {
    hide TooLong, CapDrop;
    CappedTailOrphanFreeIff(ms, budget, cost);
    forall r | 0 <= r < |ms| && NamedResult(ms[r])
      ensures Severed(ms, budget, cost, r) <==> r == |ms| - 1 && TooLong(ms, CallBefore(ms, r), budget, cost)
    {
      OnlyResultsSinceCall(ms, r);
    }
  }

  /** The cap can sever a pair: a message between call and result fits the budget, the call does not. */
  lemma CappedTailCanOrphan()
    ensures exists ms, budget, cost: Cost ::
              TranscriptOrphanFree(ms) && !TranscriptOrphanFree(ms[CapDrop(ms, true, budget, cost)..])
  {
    var call := AssistantMsg([ToolCall(Some("read"), Text("{}"))]);
    var note := CustomMsg(Str("note"));
    var result := ToolResultMsg(Some("read"), Str("ok"));
    var ms, budget, cost: Cost := [call, note, result], 2, m => 1;
    assert CallsTool(ms[0]);
    assert CallBefore(ms, 1) == 0 && CallBefore(ms, 2) == 0;
    assert TranscriptOrphanFree(ms);
    NoTailNoTokens(ms, cost);
    TailStep(ms, 2, cost);
    TailStep(ms, 1, cost);
    TailStep(ms, 0, cost);
    assert Severed(ms, budget, cost, 2);
    CappedTailOrphanFreeIff(ms, budget, cost);
  }
}
