# Verified model of the compaction engine

This Dafny project models the decision code of pi-mega-compact, an extension that keeps long
agent sessions inside a model's context window: which messages of a session may be dropped, what
is remembered about them, and how the caches and quality gates around that memory behave. Every
operation below is verified against a specification, and the properties the system promises are
proved of that specification for all inputs, all runs, or all interleavings.

`dafny verify dfyconfig.toml` checks the project.

## Layout

| file | models |
|---|---|
| `Messages.dfy`, `JsStrings.dfy`, `JsMap.dfy`, `Windows.dfy`, `Sorting.dfy` | message type; JavaScript strings, insertion-ordered maps, bounded windows, sorted copies |
| `Boundary.dfy` | the tool-pair rule, the anchor floor, the drop range |
| `LiveTrim.dfy` | the live-trim cut, its critical escape, and runs of drops and trims |
| `Adapt.dfy`, `TailCap.dfy`, `HostView.dfy` | the host transcript and its engine view; the token cap on a tail; the views the host ships and replays |
| `Supersede.dfy`, `Engine.dfy` | pruning of obsolete file reads; token accounting and the gate |
| `CompactSummary.dfy`, `SummaryFormat.dfy` | summary text: formatting, parsing, merging; what formatting does to blocks, patterns and line breaks |
| `SummaryDollars.dfy`, `SummaryEnding.dfy`, `SummaryTags.dfy` | `$` patterns and closing tags in carried lines, and exactly when a merge is faithful |
| `Lru.dfy`, `TieredRouter.dfy` | least-recently-used eviction; concurrent tiered routing |
| `Embedder.dfy` | the first-in-first-out memo with defensive copies, on the heap |
| `SemDedup.dfy`, `Chunking.dfy` | greedy semantic deduplication; splitting of oversized texts |
| `Monitoring.dfy`, `Canary.dfy`, `Importance.dfy` | percentiles and metrics; tier rollout; score-based selection |
| `Checkpoints.dfy` | checkpoint ids |

## What the code does beyond its own documentation

Where the code and its comments differ, the model follows the code. Each difference is a lemma.

- The anchor floor is off when the list has fewer user messages than the floor, although the
  comment says they are never dropped. They are all kept exactly when no pair-safe cut within the
  request lies past one (`RecentUsersKeptIff`, `FloorOffBelowAnchor`).
- The live trim gives up where the drop range would cut at index 1 (`SearchesAgree`,
  `SearchesDifferAtOne`).
- A cached cut replayed on a transcript that has grown is described as always pair-safe. It is so
  exactly when the kept part holds a tool call or the new messages are orphan-free on their own
  (`ReplayedCutSafeIff`, `ReplayedCutCanOrphan`, and over runs `ReplayedViewSafeIff`).
- The token cap is described as pair-safe. It is so exactly when no call falls out of the budget
  while its result is the last message or comes after a message, not itself a result, that fits
  (`CappedTailOrphanFreeIff`, `CappedTailCanOrphan`); when results directly follow their calls only
  the last message can be at fault (`AdjacentTailOrphanFreeIff`).
- Chunks are described as at most the token budget each. One exceeds it, by up to two characters,
  exactly when the scan meets a boundary at the hard limit of a piece that is not blank
  (`ChunkOverBudgetIff`, `ChunkCanExceedByTwo`). An oversized blank text is embedded without a
  single request (`EmbedSplitsExactly`).
- A path can vanish from a pruned session, or lose its last operation, when one message names
  several paths (`PathSurvivesIff`, `LastOperationSurvivesIff`, `PathCanVanish`).
- A merged summary alters lines with `$` patterns and ends at a closing tag inside a line; without
  either it is faithful (`MergeFaithfulIff`, `MergeCanAlterText`).
- Tags in the wrong order have an effect: analysis tags double the text between them, and with a
  closing summary tag first only an empty summary block is replaced (`ReversedAnalysisDoubles`, `ReversedSummaryIsEmpty`).
- Scores may grow with age under custom options: they never do for exactly the options whose decay
  is not negative and takes away at most everything (`ScoreNeverGrowsIff`).

## Model

| member | source | states |
|---|---|---|
| Boundary.IsPairSafe | src/boundary.ts:49-60 | the one-pass check decides whether some kept tool result has lost the nearest tool call before it |
| Boundary.PairSafeIffSliceOrphanFree | src/boundary.ts:35-60 | a cut inside the list is pair-safe exactly when the kept slice, read alone, has a tool call before every tool result |
| Boundary.PairSafeComposes | src/boundary.ts:49-60 | cutting a kept slice again is safe exactly when the one deeper cut of the original is |
| Boundary.ReplayedCutSafeIff | extensions/mega-events/context-handler.ts:244 | a cut replayed after growth stays safe exactly when it was safe and the kept part has a tool call or the new messages are orphan-free |
| LiveTrim.ReplayedCutCanOrphan | extensions/mega-events/context-handler.ts:244 | a cut the live trim returned leaves an orphan when it is replayed after the result of a dropped call arrived, although the whole session is orphan-free |
| Boundary.AnchorIndexMatchesCount | src/boundary.ts:90-96 | a suffix keeps at least n user messages exactly when its start does not pass the n-th user message from the end |
| Boundary.ComputeDropRange | src/boundary.ts:83-105 | the search capped at the anchor's index finds the largest cut at or below the request that both guards allow, 0 when there is none |
| Boundary.DropRangeIsLargestSafe | src/boundary.ts:62-82 | what is kept is orphan-free and keeps the floor when the list meets it, and every larger requested drop breaks one of the two |
| Boundary.RecentUsersKeptIff | src/boundary.ts:92-96 | the last n user messages survive a drop if and only if the request is out of range, there are that many, or no pair-safe cut within the request lies past a user message |
| Boundary.FloorOffBelowAnchor | src/boundary.ts:92-93 | with fewer user messages than the floor, the only one can be dropped |
| Boundary.DropBefore | src/boundary.ts:126-130 | returns the suffix from the drop range's end, the whole list when the range is empty |
| LiveTrim.ComputeLiveTrimCut | extensions/mega-trim.ts:49-93 | snapping, walking and escaping yield the specified cut for every input, including out-of-range requests and blank summaries |
| LiveTrim.TrimsIff | extensions/mega-trim.ts:49-93 | there is a cut if and only if the summary is not blank and some cut is pair-safe when critical, else some cut from 2 on keeps the floor or 1 does and nothing deeper is safe; a blank summary leaves the view alone |
| LiveTrim.LiveCutExact | extensions/mega-trim.ts:37-93 | a normal cut is the largest that is safe and keeps the floor; null means none from index 2 on; a critical cut is null only if nothing is safe, agrees with the normal one, and gives up the floor only when no safe cut keeps it |
| LiveTrim.SearchesAgree | extensions/mega-trim.ts:49-93 | with the anchor in force the live trim returns the drop range's end, except that end 1 needs no deeper cut to be safe |
| LiveTrim.SearchesDifferAtOne | extensions/mega-trim.ts:67-90 | a three-message session where the drop range ends at 1 and the live trim gives up |
| LiveTrim.BuildLiveTrimmedView | extensions/mega-trim.ts:108-117 | the view is unchanged without a cut, else one summary message and the suffix from the cut |
| LiveTrim.TrimmedViewLeads | extensions/mega-trim.ts:95-117 | a trimmed view leads with one user message that carries the formatted summary and no tool, followed by the suffix |
| LiveTrim.RunIsSafe | extensions/mega-trim.ts:108-117 | from an orphan-free session every sequence of drops and trims gives an orphan-free view that is a suffix, or one summary and a suffix, and every floor all steps honour still holds of the original messages in it |
| Adapt.DropCompactedRange | src/adapt.ts:125-135 | the host's array loses exactly the prefix computed on its engine view |
| Adapt.DropCommutesWithView | src/adapt.ts:84-135 | viewing the dropped transcript equals dropping the view, so orphan-freedom carries over to host messages and the host's own user messages keep their floor |
| Adapt.UsersSeen | src/adapt.ts:24-31 | the engine counts exactly the host's user messages |
| Adapt.SeenByEngine | src/adapt.ts:24-113 | role, tool name, input and output that the engine sees of each kind of host message; an assistant's tool is its first call |
| Adapt.BlocksJoin | src/adapt.ts:44-56 | the text of blocks is that of their parts in order, with one line break between any two texts |
| TailCap.ApplyTailCap | extensions/mega-events/context-handler/headroom.ts:149-226 | keeps the longest tail within the budget, then skips leading results; the tail is never empty and fits the budget unless it is the last message alone |
| TailCap.CappedTailOrphanFreeIff | extensions/mega-events/context-handler/headroom.ts:127-226 | for any interleaving, the capped tail is orphan-free if and only if no result has its call out of the budget while the result is last or follows a fitting message that is not a result |
| TailCap.AdjacentTailOrphanFreeIff | extensions/mega-events/context-handler/headroom.ts:127-226 | when results follow their calls directly, the cap fails exactly on a transcript ending in a named result whose call is out of the budget |
| TailCap.CappedTailCanOrphan | extensions/mega-events/context-handler/headroom.ts:216-225 | three messages of cost one under a budget of two, where a message between call and result makes the capped tail hold an orphan |
| HostView.Runtime.Fire | extensions/mega-events/context-handler/liveTrim.ts:81-251 | the shipped view is the summary and the capped suffix from the live cut, or the transcript when there is no cut, and the cut is remembered |
| HostView.Runtime.Replay | extensions/mega-events/context-handler.ts:232-270 | a cached cut within the transcript ships the cached summary and the grown suffix, capped anew |
| HostView.FiringCommutesWithView | extensions/mega-events/context-handler/liveTrim.ts:81-251 | with no cap, the engine's view of what the host ships is the engine's own trimmed view |
| HostView.FiredCutKeepsUsers | extensions/mega-trim.ts:67-90 | behind a cut that is not critical the host keeps as many of its own user messages as the floor asks |
| HostView.BlankSummaryShipsTranscript | extensions/mega-trim.ts:49-51 | a blank summary makes no cut: the transcript is shipped, or its capped tail on request |
| HostView.ReplayRepeatsFire | extensions/mega-events/context-handler.ts:232-270 | until something changes a replay ships what the trim shipped |
| HostView.FiredViewSafeIff | extensions/mega-events/context-handler/liveTrim.ts:81-251 | what lies behind a live cut is orphan-free for any transcript, and the shipped view is so if and only if the cap severs no pair |
| HostView.ReplayedViewSafeIff | extensions/mega-events/context-handler.ts:232-270 | over every run of arrivals, replacements and fired trims, a replayed view is orphan-free if and only if the cap severs no pair, and what is capped is so if and only if it held a call when cut or the later messages are orphan-free |
| HostView.CappedFits | extensions/mega-events/context-handler/headroom.ts:228-256 | every capped tail fits the present budget or is at most one message |
| Superseding.FindSuperseded | src/supersede.ts:33-67 | finds, in ascending order, exactly the messages that read a path which is named again later or twice in the message itself |
| Superseding.Supersede | src/supersede.ts:70-73 | filtering by those indexes leaves the survivors defined by looking only at what follows each message |
| Superseding.SupersedeIdempotent | src/supersede.ts:70-73 | pruning a pruned session changes nothing, for any classification of messages |
| Superseding.SurvivingReadIsLast | src/supersede.ts:28-32 | a surviving read names its path once and no later survivor reads or writes that path |
| Superseding.UntouchablesKept | src/supersede.ts:33-73 | all writes and all messages without paths survive, in order |
| Superseding.LastOperationSurvives | src/supersede.ts:28-32 | with one path per message, the last message to name a path is the same before and after |
| Superseding.PathSurvivesIff | src/supersede.ts:33-73 | a path is still named after pruning if and only if some message writes it, or the last one to name it names each of its paths once and none of the others is named later |
| Superseding.LastOperationSurvivesIff | src/supersede.ts:28-73 | the last operation on a path is the same before and after if and only if it is a write or such a read |
| Superseding.PathCanVanish | src/supersede.ts:53-64 | two reads where a path loses its only mention |
| Engine.TokensConserved | src/engine.ts:142-190 | the estimate of a session is the estimate of what is kept plus that of what is superseded |
| Engine.MessageTokensBounds | src/tokens.ts:10-30 | four times the estimate of a message exceeds the characters of its text, tool name, input and output by one to four for each of them that is not empty |
| Engine.SessionTokensBounds | src/tokens.ts:32-35 | four times the estimate of a session lies between its characters and sixteen more a message |
| Engine.ToolResultChargedTwice | src/tokens.ts:18-30 | the text of a host's tool result is charged as text and as output |
| Engine.CompactedPart | src/engine.ts:120-127 | everything is compacted without a request, else the request brought into the session, and the estimate is tied to the characters compacted |
| Engine.SummarySource | src/engine.ts:143-171 | a given summary is only formatted, an empty one silences the legacy summariser but not the extractive one, and without one the chosen summariser sees what was kept |
| Engine.RegionSource | src/engine.ts:193 | the region is the given text or the kept texts in order |
| Engine.CompactSession | src/engine.ts:119-225 | the reported figures add up, the savings are exactly the superseded tokens, the summary is made from what was kept, and one request reaches the store unless nothing is compacted |
| Engine.GateIsMonotone | src/compact.ts:173-181 | an open gate stays open when messages are appended and when fewer are preserved |
| Engine.GateThreshold | src/compact.ts:173-181 | the gate opens exactly at the estimate of what precedes the preserved messages, so it must open at four characters a token and stay shut while sixteen more a message do not make that |
| CompactSummary.ExtractSummaryHighlights | src/compact-summary.ts:55-70 | collects the non-heading lines before the timeline |
| CompactSummary.ExtractSummaryTimeline | src/compact-summary.ts:72-87 | collects the lines after the timeline heading up to the first blank one |
| CompactSummary.MergeCompactSummaries | src/compact-summary.ts:90-116 | prints old highlights, new highlights and new timeline as indented sections in one summary tag |
| CompactSummary.MergedText | src/compact-summary.ts:89-116 | the lines of a merged summary, for any two summaries: tag, title, the three headed and indented sections that are not empty, closing tag |
| SummaryFormat.AnalysisGoes | src/compact-summary.ts:25-32 | an analysis block is cut out of the text around it, whatever that is |
| SummaryFormat.ReversedAnalysisDoubles | src/compact-summary.ts:25-32 | analysis tags in the wrong order double the text between them |
| SummaryFormat.SummaryBecomesText | src/compact-summary.ts:41-52 | a summary block becomes the heading and its trimmed content in the place where it stood |
| SummaryFormat.ReversedSummaryIsEmpty | src/compact-summary.ts:34-52 | with a closing tag first, only an empty summary block is replaced |
| SummaryFormat.PatternsMean | src/compact-summary.ts:45-50 | what each `$` pattern of the content is replaced by |
| SummaryFormat.CollapseShrinks | src/compact-summary.ts:51 | a run of three or more line breaks becomes two, and text without one is left alone |
| SummaryFormat.WrittenReads | src/compact-summary.ts:41-87 | a summary with its analysis reads back as exactly its highlights and timeline, before formatting and after |
| SummaryFormat.WrittenMerge | src/compact-summary.ts:41-116 | merging two summaries with analyses drops both and keeps every line under its heading |
| CompactSummary.MergeRoundTrip | src/compact-summary.ts:41-116 | for carried lines without patterns, closing tags and analysis blocks, parsing a merge gives the two headed sections with every old and new highlight indented by two, and the new timeline indented by two |
| CompactSummary.OrdinaryLinesMerge | src/compact-summary.ts:41-116 | two ordinary one-line summaries merge into one that shows both under their headings |
| CompactSummary.NoHighlightLost | src/compact-summary.ts:89-116 | over any number of merges every highlight of every summary is still there, indented once per merge since |
| SummaryTags.MergeFaithfulIff | src/compact-summary.ts:41-116 | a merge reads back if and only if no carried line holds a `$` substitution pattern and none holds a closing summary tag |
| SummaryTags.CloseTagNeverReadsBack | src/compact-summary.ts:33-52 | a closing tag in any carried line keeps the merge from reading back, whatever patterns the lines hold |
| SummaryDollars.MergeReadsBackIff | src/compact-summary.ts:41-52 | without closing tags a merge reads back if and only if no carried line holds a `$` substitution pattern |
| SummaryDollars.MergeCanAlterText | src/compact-summary.ts:46-49 | a highlight of two dollar signs does not read back |
| Lru.CacheIsRecent | src/tieredRouter.ts:415-425 | over any trace of finds, inserts and clears the map holds exactly the most recently touched distinct keys, in recency order, each with the value last stored, up to its capacity |
| Lru.CachedIffFewTouchedSince | src/tieredRouter.ts:209-234 | a key is cached exactly when fewer distinct keys than the capacity have been touched since its own last touch |
| Lru.SmallerCacheIncluded | src/tieredRouter.ts:415-425 | after the same accesses a smaller cache holds the most recent part of a larger one's keys |
| TieredRouting.TieredRouter.RouteUntilAwait | src/tieredRouter.ts:200-274 | the segment of a call up to its first await, with its cache promotion and counters |
| TieredRouting.UncachedCallGoes | src/tieredRouter.ts:236-278 | a call the cache does not answer hydrates its first k text hits exactly when the search is calibrated, found k, and its best score reaches seven tenths of the calibrated one, else it searches for k |
| TieredRouting.TieredRouter.RouteAfterHydration | src/tieredRouter.ts:258-268 | the segment after hydration stores and returns the hits still listed, or rejects the call and stores nothing when hydration throws |
| TieredRouting.HydrationReply | src/tieredRouter.ts:398-412 | the reply is exactly the hits the store still lists, in order and with repeats, all of them when all are listed |
| TieredRouting.TieredRouter.RouteAfterSearch | src/tieredRouter.ts:276-302 | the segment after the vector search counts a hit or a miss and stores only non-empty results |
| TieredRouting.SearchReply | src/tieredRouter.ts:276-302 | the reply is the first k hits found, and nothing is stored when none were |
| TieredRouting.AnswerIsRemembered | src/tieredRouter.ts:258-302 | what a search or hydration answered is what the next call with that key gets from the cache |
| TieredRouting.TieredRouter.CacheResult | src/tieredRouter.ts:415-425 | replaces a present entry at the recent end, else evicts the oldest at capacity, then stores |
| TieredRouting.TieredRouter.PeekCache | src/tieredRouter.ts:310-318 | a hit promotes and counts, a miss changes nothing |
| TieredRouting.EveryInterleaving | src/tieredRouter.ts:200-318 | in every interleaving of calls, peeks and clears, at every await point, queries = cache hits by calls + L1 hits + L1 misses, L1 misses = L2 hits + L2 misses + searches in flight, and the cache holds the most recent keys |
| TieredRouting.CacheAnswersIff | src/tieredRouter.ts:209-234 | in every interleaving the cache answers a call if and only if it is not bypassed, the key was touched, and fewer distinct others than the capacity since |
| TieredRouting.CacheAnswersAreLastStored | src/tieredRouter.ts:209-228 | a cache answer is the result last stored under that key, whatever ran in between |
| Embedding.TrigramEmbedder.Embed | src/embedder.ts:93-115 | the answer is a fresh array outside the memo, holds the raw embedding of a requested text with the same hash, and keys leave in insertion order within the capacity |
| Embedding.HostileHistory | src/embedder.ts:93-115 | a caller that keeps every returned array and overwrites any of them between calls cannot corrupt later answers; without collisions every answer is the text's own raw embedding |
| SemDedup.VectorSemDedup | src/vector-read.ts:52-80 | afterwards no two rows in use clash, each removed row had a preferred clashing rival in use, and the result counts the removals |
| SemDedup.OutcomeOnEmbeddings | src/vector-read.ts:52-80 | cosines between rows in use are at most the threshold, and a removed row was over it with one of more tokens or of as many and listed earlier |
| SemDedup.RemovedReachesSurvivor | src/vector-read.ts:43-51 | every removed row reaches a surviving one along clashes with ever more preferred rows |
| SemDedup.LargestSurvives | src/vector-read.ts:46-47 | the first row with the most tokens is never removed |
| SemDedup.SecondPassIdle | src/vector-read.ts:48 | a second pass removes nothing |
| Chunking.ChunkText | src/httpEmbedder.ts:90-115 | the scan terminates and yields the non-blank pieces in order |
| Chunking.PiecesTile | src/httpEmbedder.ts:90-115 | the pieces concatenate to the text |
| Chunking.PieceSizes | src/httpEmbedder.ts:95-113 | pieces are non-empty, at most two over the budget, and all but the last fill half of it |
| Chunking.PieceCount | src/httpEmbedder.ts:95-113 | the number of pieces is bounded by the text length over half the budget |
| Chunking.BestBoundaryChosen | src/httpEmbedder.ts:85-109 | a piece ends after the last paragraph, else sentence, else word boundary in the back half of its window, and in mid-word only when there is none |
| Chunking.ChunkOverBudgetIff | src/httpEmbedder.ts:85-115 | some returned chunk is estimated over the token budget if and only if the text is over it and the scan meets a boundary at the hard limit of a piece that is not blank |
| Chunking.ChunkCanExceedByTwo | src/httpEmbedder.ts:102-107 | a returned chunk estimated at three tokens where the budget is one |
| Chunking.ChunksKeepText | src/httpEmbedder.ts:110-114 | the chunks hold all characters of the text that are not white space, in order |
| Chunking.EmbedSplitsExactly | src/httpEmbedder.ts:342-356 | the estimate selects chunking exactly for texts over the budget, and only an oversized blank text leads to no request |
| Monitoring.P95IsPercentile | src/monitoring.ts:102-107 | the percentile is a sample with the required numbers of samples at or below and at or above it |
| Monitoring.P95OfFew | src/monitoring.ts:102-103 | no samples count as zero, one sample is its own percentile |
| Monitoring.DedupMetrics.RecordDecision | src/monitoring.ts:151-165 | one decision updates the four tables of its tier and no other |
| Monitoring.LatencyOverRuns | src/monitoring.ts:161-163 | over any run each tier holds its last thousand latencies, in order |
| Monitoring.TablesCount | src/monitoring.ts:151-160 | over any run the tables count exactly the decisions, the collapsed ones and the false positives of a tier |
| Monitoring.RateIsShare | src/monitoring.ts:109-114 | the rate is the share of decisions that were false positives, zero without any |
| Monitoring.CountsOverRuns | src/monitoring.ts:109-114 | every decision is counted, no other count exceeds it, and the false-positive rate lies in [0, 1] |
| Canary.CanaryController.StepForward | src/canary.ts:57-67 | enables the next untried tier of the order, if any |
| Canary.TriedInOrder | src/canary.ts:29-67 | in every reachable state the tiers tried are the first of L0, L1, L2, RAPTOR, the next one follows, and each flag tells whether its tier is enabled |
| Canary.CanaryController.Evaluate | src/canary.ts:90-101 | disables and returns, in order, exactly the enabled tiers over the budget |
| Canary.BreachingInOrder | src/canary.ts:90-101 | the disabled tiers are reported in the order of the rollout |
| Canary.UnmeasuredTierStays | src/canary.ts:93-96 | a tier without samples is over no budget that is not negative |
| Canary.SingleSampleDecides | src/canary.ts:93-96 | a tier with one sample stays exactly when it is within the budget |
| Canary.EvaluationKeepsFastTiers | src/canary.ts:85-101 | a tier stays enabled exactly when it was and its p95 is within the budget |
| Canary.RunsStayReachable | src/canary.ts:40-101 | in every reachable state enabled and disabled tiers are disjoint and are the tried ones, flags match membership, and a disabled tier never returns |
| Canary.RunCanary | src/canary.ts:116-136 | for every feed the rollout stops after three steps with all tiers tried, reports each disabled tier once and no other, and leaves enabled only tiers within the budget on the last metrics |
| Importance.ScoreNeverGrowsIff | src/importance.ts:87-223 | no item of any type gains score as time passes, for exactly the options with a decay rate and cap that are not negative and a cap of at most one unless the rate is zero; the default options are among them |
| Importance.ScoreOverTime | src/importance.ts:87-223 | with default options: a fifth more within five minutes, a twentieth less an hour, three tenths from fourteen hours on |
| Importance.FlagTriples | src/importance.ts:105-115 | a flag triples a score above the floor and never lowers one |
| Importance.PreservedShare | src/importance.ts:225-275 | at least the wanted share of items is kept, and fewer than that share score strictly above the cutoff |
| Importance.KeptOutscoreDropped | src/importance.ts:261-275 | every kept item outscores every dropped one |
| Importance.LargerShareKeepsMore | src/importance.ts:225-275 | raising the ratio only adds items; at 1 and above this needs scores that are not negative |
| Importance.ExtremeShares | src/importance.ts:236-242 | a ratio of at most zero keeps nothing, one of at least one keeps all scores that are not negative |
| Checkpoints.IdRoundTrip | src/store.ts:146-153 | parsing a printed, zero-padded id gives back its number |
| Checkpoints.IdShape | src/store.ts:153 | an id is `chkpt_` and at least three digits, never more than three with a leading zero |
| Checkpoints.ParseIntReads | src/store.ts:148-151 | white space, a plus sign and what follows the digits do not count, a minus negates |
| Checkpoints.NumberOfAnywhere | src/store.ts:149 | the number is read after the first `chkpt_` is taken out, wherever it stands |
| Checkpoints.MaxIsReached | src/store.ts:148-152 | the largest number is one of the numbers unless none is positive |
| Checkpoints.NextIdIsFresh | src/store.ts:143-153 | the next id is new for any list of ids, whatever their form |
| Checkpoints.RunAssignsOneToN | src/store.ts:114-153 | from an empty list any run of appends assigns 1, 2, ... without repeats |

## Left out

- CompactSummary.MergeRoundTrip: excludes merges whose carried lines hold both `<analysis>` and `</analysis>`; the other conditions are exact by MergeFaithfulIff.
- CompactSummary.NoHighlightLost: holds under the same condition on every summary merged, with the missing analysis tag the same throughout.
- SummaryTags.MergeFaithfulIff: excludes carried lines that together hold both analysis tags, where a part of the text is cut out or doubled before it is read; SummaryTags.CloseTagNeverReadsBack and SummaryDollars.MergeReadsBackIff do so too.
- The recall block and the prompt reshaping that `tailResult` may apply to a shipped view, and the conditions that choose between firing and replaying: any order of the two is covered.
- Characters: a string is a sequence of Dafny characters, so a code point outside the basic plane has length one here and two in JavaScript.
- Numbers: scores, latencies and similarities are reals and counters are unbounded integers; rounding and overflow are not modelled.
- The regular expressions of `fileOps` and the classification of content: given functions of a message, and the multiplier of a type is a parameter.
- Text search, vector search, hydration listing, store writes, latency measurement and logging of the router: events with arbitrary results. `resetMetrics` and `invalidateSession` are not modelled.
- The hash and the raw embedding of a text, the cosine, the summarisers and the token cost of a host message: given functions.
- Loops that the source writes inside one function are sometimes a method of their own here, such as the snap and the walk of the live trim, or the four passes of `findSuperseded`. The map `lastReadAt` there is filled but never read, and is omitted.
- The first argument list of `setDedupStatus`, which also writes the status to the database: only the row objects are modelled.
- Vector pooling and normalisation, alerts, window and reserve arithmetic of the token cap, session id normalisation: true but easy.
