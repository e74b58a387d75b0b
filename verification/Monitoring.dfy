/** Latency and false-positive metrics of the dedup tiers (src/monitoring.ts). */
module Monitoring {
  import opened Sorting
  import opened Windows

  datatype Tier = L0 | L1 | L2 | RAPTOR

  datatype Outcome = Deduped | New | MarkOnly

  const MAX_SAMPLES: nat := 1000

  // ----- Percentile --------------------------------------------------------

  /** The index `Math.floor(n * 0.95)`, clamped to the list. */
  function P95Index(n: nat): (i: nat)
    requires n > 0
    ensures i < n && i <= n * 95 / 100
  {
    Min(n - 1, n * 95 / 100)
  }

  function Min(a: int, b: int): int {
    if a <= b then a else b
  }

  function P95(samples: seq<real>): real {
    if |samples| == 0 then 0.0 else Sort(samples)[P95Index(|samples|)]
  }

  /** The percentile is a sample with enough samples on either side. */
  lemma P95IsPercentile(samples: seq<real>)
    requires samples != []
    ensures var n, p := |samples|, P95(samples);
            && p in samples
            && AtMost(samples, p) >= n * 95 / 100 + 1
            && AtLeast(samples, p) >= n - n * 95 / 100
  {
    OrderStatistic(samples, P95Index(|samples|));
  }

  /** A tier without samples counts as instant, and a single sample is its own percentile. */
  lemma P95OfFew(x: real)
    ensures P95([]) == 0.0 && P95([x]) == x
  {
    P95IsPercentile([x]);
  }

  // ----- Metrics -----------------------------------------------------------

  datatype Event = Event(tier: Tier, outcome: Outcome, latencyMs: real, falsePositive: bool)

  /** A snapshot of the four per-tier tables. */
  datatype Tables = Tables(
    decisions: map<Tier, nat>,
    deduped: map<Tier, nat>,
    falsePositives: map<Tier, nat>,
    latency: map<Tier, seq<real>>)

  const EMPTY := Tables(
    map[L0 := 0, L1 := 0, L2 := 0, RAPTOR := 0],
    map[L0 := 0, L1 := 0, L2 := 0, RAPTOR := 0],
    map[L0 := 0, L1 := 0, L2 := 0, RAPTOR := 0],
    map[L0 := [], L1 := [], L2 := [], RAPTOR := []])

  function Tally(table: map<Tier, nat>, tier: Tier): nat {
    if tier in table then table[tier] else 0
  }

  function Samples(table: map<Tier, seq<real>>, tier: Tier): seq<real> {
    if tier in table then table[tier] else []
  }

  class DedupMetrics {
    var decisions: map<Tier, nat>
    var deduped: map<Tier, nat>
    var falsePositives: map<Tier, nat>
    var latency: map<Tier, seq<real>>

    ghost function Snapshot(): Tables
      reads this
    {
      Tables(decisions, deduped, falsePositives, latency)
    }

    constructor ()
      ensures Snapshot() == EMPTY
    {
      decisions := EMPTY.decisions;
      deduped := EMPTY.deduped;
      falsePositives := EMPTY.falsePositives;
      latency := EMPTY.latency;
    }

    method RecordDecision(ev: Event)
      modifies this
      ensures Snapshot() == Recorded(old(Snapshot()), ev)
    {
      decisions := decisions[ev.tier := Tally(decisions, ev.tier) + 1];
      if ev.outcome == Deduped {
        deduped := deduped[ev.tier := Tally(deduped, ev.tier) + 1];
      }
      if ev.falsePositive {
        falsePositives := falsePositives[ev.tier := Tally(falsePositives, ev.tier) + 1];
      }
      var arr := Samples(latency, ev.tier) + [ev.latencyMs];
      if |arr| > MAX_SAMPLES {
        arr := arr[1..];
      }
      latency := latency[ev.tier := arr];
    }
  }

  function Recorded(m: Tables, ev: Event): Tables {
    var arr := Samples(m.latency, ev.tier) + [ev.latencyMs];
    Tables(
      m.decisions[ev.tier := Tally(m.decisions, ev.tier) + 1],
      if ev.outcome == Deduped then m.deduped[ev.tier := Tally(m.deduped, ev.tier) + 1] else m.deduped,
      if ev.falsePositive then m.falsePositives[ev.tier := Tally(m.falsePositives, ev.tier) + 1] else m.falsePositives,
      m.latency[ev.tier := if |arr| > MAX_SAMPLES then arr[1..] else arr])
  }

  function AfterAll(events: seq<Event>): Tables {
    if events == [] then EMPTY else Recorded(AfterAll(events[..|events| - 1]), events[|events| - 1])
  }

  function LatenciesOf(events: seq<Event>, tier: Tier): seq<real> {
    if events == [] then []
    else
      var last := events[|events| - 1];
      LatenciesOf(events[..|events| - 1], tier) + if last.tier == tier then [last.latencyMs] else []
  }

  function FpRate(m: Tables, tier: Tier): real {
    var decisions := Tally(m.decisions, tier);
    if decisions == 0 then 0.0 else Tally(m.falsePositives, tier) as real / decisions as real
  }

  /** Over any run from empty metrics, each tier holds its latest samples, in order. */
  lemma {:induction false} LatencyOverRuns(events: seq<Event>, tier: Tier)
    ensures Samples(AfterAll(events).latency, tier) == LastN(LatenciesOf(events, tier), 1000)
  {
    if events != [] {
      var n := |events| - 1;
      LatencyOverRuns(events[..n], tier);
      WindowStep(LatenciesOf(events[..n], tier), events[n].latencyMs, MAX_SAMPLES);
      RecordedSamples(AfterAll(events[..n]), events[n], tier);
    }
  }

  lemma RecordedSamples(m: Tables, ev: Event, tier: Tier)
    requires |Samples(m.latency, tier)| <= MAX_SAMPLES
    ensures Samples(Recorded(m, ev).latency, tier) ==
            var w := Samples(m.latency, tier);
            if ev.tier != tier then w
            else if |w| < MAX_SAMPLES then w + [ev.latencyMs] else w[1..] + [ev.latencyMs]
  {}

  /** How many of the events are of a tier, and of those how many collapsed, or were false positives. */
  function Decided(events: seq<Event>, tier: Tier): nat {
    if events == [] then 0
    else Decided(events[..|events| - 1], tier) + if events[|events| - 1].tier == tier then 1 else 0
  }

  function Collapsed(events: seq<Event>, tier: Tier): nat {
    if events == [] then 0
    else
      var last := events[|events| - 1];
      Collapsed(events[..|events| - 1], tier) + if last.tier == tier && last.outcome.Deduped? then 1 else 0
  }

  function FalseAlarms(events: seq<Event>, tier: Tier): nat {
    if events == [] then 0
    else
      var last := events[|events| - 1];
      FalseAlarms(events[..|events| - 1], tier) + if last.tier == tier && last.falsePositive then 1 else 0
  }

  /** The three tables count exactly these events. */
  lemma {:induction false} TablesCount(events: seq<Event>, tier: Tier)
    ensures var m := AfterAll(events);
            && Tally(m.decisions, tier) == Decided(events, tier)
            && Tally(m.deduped, tier) == Collapsed(events, tier)
            && Tally(m.falsePositives, tier) == FalseAlarms(events, tier)
  {
    if events != [] {
      TablesCount(events[..|events| - 1], tier);
      hide AfterAll;
    }
  }

  /** The false-positive rate is the share of decisions that were false positives, zero without any. */
  lemma RateIsShare(events: seq<Event>, tier: Tier)
    ensures var rate := FpRate(AfterAll(events), tier);
            && (Decided(events, tier) == 0 ==> rate == 0.0)
            && rate * (Decided(events, tier) as real) == FalseAlarms(events, tier) as real
  {
    hide AfterAll, Decided, FalseAlarms, Collapsed;
    TablesCount(events, tier);
    FewerFalseAlarms(events, tier);
  }

  lemma {:induction false} FewerFalseAlarms(events: seq<Event>, tier: Tier)
    ensures FalseAlarms(events, tier) <= Decided(events, tier)
  {
    if events != [] {
      FewerFalseAlarms(events[..|events| - 1], tier);
    }
  }

  /** Every decision is counted, no count exceeds it, and the false-positive rate is a rate. */
  lemma {:induction false} CountsOverRuns(events: seq<Event>, tier: Tier)
    ensures var m := AfterAll(events);
            && Tally(m.decisions, tier) == |LatenciesOf(events, tier)|
            && Tally(m.deduped, tier) <= Tally(m.decisions, tier)
            && Tally(m.falsePositives, tier) <= Tally(m.decisions, tier)
            && 0.0 <= FpRate(m, tier) <= 1.0
  {
    if events != [] {
      CountsOverRuns(events[..|events| - 1], tier);
    }
    RateInRange(Tally(AfterAll(events).falsePositives, tier), Tally(AfterAll(events).decisions, tier));
  }

  lemma RateInRange(part: nat, whole: nat)
    requires part <= whole
    ensures whole > 0 ==> 0.0 <= part as real / whole as real <= 1.0
  {
    if whole > 0 {
      var q := part as real / whole as real;
      assert q * whole as real == part as real;
    }
  }
}
