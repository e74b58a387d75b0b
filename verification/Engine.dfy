/**
 * The compaction pipeline's bookkeeping (src/engine.ts, src/tokens.ts, src/compact.ts): token
 * estimates, what a compaction reports and hands to the store, and the gate that triggers it.
 */
module Engine {
  import opened Messages
  import opened Superseding
  import Adapt
  import CompactSummary
  import opened JsStrings

  // ----- Token estimates ---------------------------------------------------

  function BlockTokens(text: string): nat {
    |text| / 4 + 1
  }

  function OptionalTokens(text: Option<string>): nat {
    if Truthy(text) then BlockTokens(text.value) else 0
  }

  function MessageTokens(m: EngineMessage): nat {
    OptionalTokens(Some(m.text)) + OptionalTokens(m.toolName) + OptionalTokens(m.input) + OptionalTokens(m.output)
  }

  function SessionTokens(ms: seq<EngineMessage>): nat {
    if ms == [] then 0 else MessageTokens(ms[0]) + SessionTokens(ms[1..])
  }

  lemma {:induction false} SessionTokensConcat(a: seq<EngineMessage>, b: seq<EngineMessage>)
    ensures SessionTokens(a + b) == SessionTokens(a) + SessionTokens(b)
  {
    if a == [] {
      assert a + b == b;
    } else {
      assert (a + b)[1..] == a[1..] + b;
      SessionTokensConcat(a[1..], b);
    }
  }

  // ----- What an estimate says about the text -------------------------------

  function OptionalLength(text: Option<string>): nat {
    if text.Some? then |text.value| else 0
  }

  /** The characters of a message: its text, tool name, tool input and tool output. */
  function Characters(m: EngineMessage): nat {
    |m.text| + OptionalLength(m.toolName) + OptionalLength(m.input) + OptionalLength(m.output)
  }

  /** How many of these four parts have any. */
  function FilledParts(m: EngineMessage): (n: nat)
    ensures n <= 4
  {
    (if m.text != "" then 1 else 0) + (if OptionalLength(m.toolName) > 0 then 1 else 0)
    + (if OptionalLength(m.input) > 0 then 1 else 0) + (if OptionalLength(m.output) > 0 then 1 else 0)
  }

  /** A block is charged one token for every four characters begun, and one more when they come out even. */
  lemma BlockTokensBounds(text: string)
    ensures |text| < 4 * BlockTokens(text) <= |text| + 4
  {}

  /** Four times the estimate exceeds the characters by one to four for every part that has any. */
  lemma MessageTokensBounds(m: EngineMessage)
    ensures Characters(m) + FilledParts(m) <= 4 * MessageTokens(m) <= Characters(m) + 4 * FilledParts(m)
  {}

  function SessionCharacters(ms: seq<EngineMessage>): nat {
    if ms == [] then 0 else Characters(ms[0]) + SessionCharacters(ms[1..])
  }

  lemma {:induction false} SessionTokensBounds(ms: seq<EngineMessage>)
    ensures SessionCharacters(ms) <= 4 * SessionTokens(ms) <= SessionCharacters(ms) + 16 * |ms|
  {
    if ms != [] {
      SessionTokensBounds(ms[1..]);
      MessageTokensBounds(ms[0]);
    }
  }

  /** The text of a host's tool result is charged twice: as text and as output. */
  lemma ToolResultChargedTwice(name: Option<string>, content: Adapt.Content)
    ensures var m := Adapt.ToEngineMessage(Adapt.ToolResultMsg(name, content));
            MessageTokens(m) == 2 * (if m.text == "" then 0 else BlockTokens(m.text)) + OptionalTokens(name)
            && Characters(m) == 2 * |m.text| + OptionalLength(name)
  {}

  // ----- Conservation ------------------------------------------------------

  /** The tokens of the messages the pruning removes. */
  ghost function SupersededTokens(ops: Classifier, ms: seq<EngineMessage>): nat {
    if ms == [] then 0
    else (if Obsolete(ops, ms, 0) then MessageTokens(ms[0]) else 0) + SupersededTokens(ops, ms[1..])
  }

  /** No token is counted twice or lost between the kept and the superseded messages. */
  lemma {:induction false} TokensConserved(ops: Classifier, ms: seq<EngineMessage>)
    ensures SessionTokens(ms) == SessionTokens(Survivors(ops, ms)) + SupersededTokens(ops, ms)
  {
    if ms != [] {
      TokensConserved(ops, ms[1..]);
      if Obsolete(ops, ms, 0) {
        assert Survivors(ops, ms) == Survivors(ops, ms[1..]);
      } else {
        assert Survivors(ops, ms)[1..] == Survivors(ops, ms[1..]);
      }
    }
  }

  // ----- Compacting a session ----------------------------------------------

  datatype CompactInput = CompactInput(
    messages: seq<EngineMessage>,
    keepFrom: Option<int>,
    summary: Option<string>,
    regionText: Option<string>,
    useExtractiveSummary: bool)

  /** The summarisers, taken as given. */
  datatype Summarizers = Summarizers(extractive: seq<EngineMessage> -> string, legacy: seq<EngineMessage> -> string)

  datatype AddRequest = AddRequest(summary: string, regionText: string, tokenEstimate: nat, originalTokenEstimate: nat)

  /** The checkpoint store, known here only by the requests it was given. */
  class CheckpointStore {
    var requests: seq<AddRequest>

    constructor ()
      ensures requests == []
    {
      requests := [];
    }

    method Add(request: AddRequest)
      modifies this
      ensures requests == old(requests) + [request]
    {
      requests := requests + [request];
    }
  }

  datatype CompactResult = CompactResult(
    skipped: bool,
    summary: string,
    tokenEstimate: nat,
    originalTokenEstimate: nat,
    keepTokenEstimate: nat,
    supersedeTokenSavings: nat,
    compactedFrom: nat)

  function ClampKeepFrom(input: CompactInput): (k: nat)
    ensures k <= |input.messages|
  {
    var n := |input.messages|;
    var wanted := if input.keepFrom.Some? then input.keepFrom.value else n;
    if wanted < 0 then 0 else if wanted > n then n else wanted
  }

  function Texts(ms: seq<EngineMessage>): (ts: seq<string>)
    ensures |ts| == |ms| && forall i :: 0 <= i < |ms| ==> ts[i] == ms[i].text
  {
    if ms == [] then [] else [ms[0].text] + Texts(ms[1..])
  }

  /** An explicit summary wins; without one the chosen summariser sees only what was kept. */
  function SummaryFor(input: CompactInput, summarizers: Summarizers, keep: seq<EngineMessage>): string {
    if input.useExtractiveSummary && !Truthy(input.summary) then summarizers.extractive(keep)
    else
      CompactSummary.FormatCompactSummary(if input.summary.Some? then input.summary.value else summarizers.legacy(keep))
  }

  function RegionFor(input: CompactInput, keep: seq<EngineMessage>): string {
    if input.regionText.Some? then input.regionText.value else JoinLines(Texts(keep))
  }

  /** How much is compacted: all without a request, else the request brought into the session. */
  lemma CompactedPart(input: CompactInput)
    ensures var n, k := |input.messages|, ClampKeepFrom(input);
            match input.keepFrom
            case None => k == n
            case Some(wanted) => if 0 <= wanted <= n then k == wanted else k == if wanted < 0 then 0 else n
    ensures var compactable := input.messages[..ClampKeepFrom(input)];
            SessionCharacters(compactable) <= 4 * SessionTokens(compactable) <= SessionCharacters(compactable) + 16 * |compactable|
  {
    SessionTokensBounds(input.messages[..ClampKeepFrom(input)]);
  }

  /**
   * Where the summary comes from. A given summary that is not empty is only
   * formatted, and an empty one silences the legacy summariser but not the extractive one.
   */
  lemma SummarySource(input: CompactInput, summarizers: Summarizers, keep: seq<EngineMessage>)
    ensures var s := SummaryFor(input, summarizers, keep);
            match input.summary
            case Some(given) =>
              if given != "" then s == CompactSummary.FormatCompactSummary(given)
              else s == if input.useExtractiveSummary then summarizers.extractive(keep) else ""
            case None =>
              s == if input.useExtractiveSummary then summarizers.extractive(keep)
                   else CompactSummary.FormatCompactSummary(summarizers.legacy(keep))
  {
    hide CompactSummary.FormatCompactSummary;
    CompactSummary.FormatNothing();
  }

  /** The region is the given text, or the kept texts in order, one to a line. */
  lemma RegionSource(input: CompactInput, keep: seq<EngineMessage>)
    ensures input.regionText.Some? ==> RegionFor(input, keep) == input.regionText.value
    ensures input.regionText.None? && |keep| == 1 ==> RegionFor(input, keep) == keep[0].text
    ensures input.regionText.None? && keep != [] && (forall i :: 0 <= i < |keep| ==> OneLine(keep[i].text)) ==>
              Lines(RegionFor(input, keep)) == Texts(keep)
  {
    hide Lines, JoinLines, Texts;
    if |keep| == 1 {
      CompactSummary.JoinOne(keep[0].text);
      assert Texts(keep) == [keep[0].text];
    }
    if keep != [] && (forall i :: 0 <= i < |keep| ==> OneLine(keep[i].text)) {
      LinesOfJoin(Texts(keep));
    }
  }

  /**
   * One compaction. The reported savings are exactly the superseded tokens, the estimates add
   * up, and the store receives one request unless there is nothing to compact.
   */
  method CompactSession(input: CompactInput, ops: Classifier, summarizers: Summarizers, store: CheckpointStore)
    returns (r: CompactResult)
    modifies store
    ensures r.compactedFrom == ClampKeepFrom(input)
    ensures r.skipped <==> r.compactedFrom == 0
    ensures var compactable := input.messages[..r.compactedFrom];
            && r.originalTokenEstimate == SessionTokens(compactable)
            && r.keepTokenEstimate == SessionTokens(Survivors(ops, compactable))
            && r.supersedeTokenSavings == SupersededTokens(ops, compactable)
            && r.originalTokenEstimate == r.keepTokenEstimate + r.supersedeTokenSavings
    ensures r.skipped ==> store.requests == old(store.requests) && r.tokenEstimate == 0
    ensures !r.skipped ==>
              var keep := Survivors(ops, input.messages[..r.compactedFrom]);
              && r.summary == SummaryFor(input, summarizers, keep) && r.tokenEstimate == BlockTokens(r.summary)
              && store.requests == old(store.requests) +
                   [AddRequest(r.summary, RegionFor(input, keep), r.tokenEstimate, r.originalTokenEstimate)]
  {
    hide CompactSummary.FormatCompactSummary;
    var keepFrom := ClampKeepFrom(input);
    var compactable := input.messages[..keepFrom];
    if |compactable| == 0 {
      return CompactResult(true, "", 0, 0, 0, 0, keepFrom);
    }
    var keep := Supersede(ops, compactable);

    var summary: string;
    if input.useExtractiveSummary && !Truthy(input.summary) {
      summary := summarizers.extractive(keep);
    } else {
      var collapsed := if input.summary.Some? then input.summary.value else summarizers.legacy(keep);
      summary := CompactSummary.FormatCompactSummary(collapsed);
    }

    var originalTokenEstimate := SessionTokens(compactable);
    var keepTokenEstimate := SessionTokens(keep);
    TokensConserved(ops, compactable);
    var difference := originalTokenEstimate - keepTokenEstimate;
    var supersedeTokenSavings := if difference > 0 then difference else 0;
    var storedTokens := BlockTokens(summary);
    var regionText := if input.regionText.Some? then input.regionText.value else JoinLines(Texts(keep));

    store.Add(AddRequest(summary, regionText, storedTokens, originalTokenEstimate));
    return CompactResult(
        false, summary, storedTokens, originalTokenEstimate, keepTokenEstimate, supersedeTokenSavings, keepFrom);
  }

  // ----- The gate ----------------------------------------------------------

  /** JavaScript's `slice(0, end)` for an end that is not negative. */
  function Prefix(ms: seq<EngineMessage>, end: int): seq<EngineMessage>
    requires end >= 0
  {
    if end <= |ms| then ms[..end] else ms
  }

  predicate ShouldCompact(ms: seq<EngineMessage>, maxEstimatedTokens: int, preserveRecent: int) {
    |ms| > preserveRecent && SessionTokens(Prefix(ms, |ms| - preserveRecent)) >= maxEstimatedTokens
  }

  /**
   * Once the gate has fired it stays open while messages arrive, and preserving more never
   * opens it.
   */
  lemma GateIsMonotone(ms: seq<EngineMessage>, more: seq<EngineMessage>, max: int, preserve: int, lower: int)
    requires ShouldCompact(ms, max, preserve) && lower <= preserve
    ensures ShouldCompact(ms + more, max, lower)
  {
    var all := ms + more;
    var a, b := Prefix(ms, |ms| - preserve), Prefix(all, |all| - lower);
    assert b == a + b[|a|..];
    SessionTokensConcat(a, b[|a|..]);
  }

  /**
   * The gate opens at exactly the estimate of what is before the preserved messages. So it must
   * open when that part has four characters or more for every token of the limit, and must stay
   * shut while even sixteen more characters a message would not make it so.
   */
  lemma GateThreshold(ms: seq<EngineMessage>, max: int, preserve: nat)
    ensures |ms| <= preserve ==> !ShouldCompact(ms, max, preserve)
    ensures |ms| > preserve ==>
              var before := ms[..|ms| - preserve];
              && (ShouldCompact(ms, max, preserve) <==> max <= SessionTokens(before))
              && (SessionCharacters(before) >= 4 * max ==> ShouldCompact(ms, max, preserve))
              && (SessionCharacters(before) + 16 * |before| < 4 * max ==> !ShouldCompact(ms, max, preserve))
  {
    if |ms| > preserve {
      SessionTokensBounds(ms[..|ms| - preserve]);
    }
  }
}
