/** Importance scores and the selection of items to keep verbatim (src/importance.ts). */
module Importance {
  import opened Sorting

  // ----- The score ---------------------------------------------------------

  const MS_PER_HOUR := 3600000.0

  /** What a caller may tune; `DEFAULT_OPTIONS` stands in for what is left out. */
  datatype ScoreOptions = ScoreOptions(decayRatePerHour: real, maxDecay: real, recencyThresholdMs: real)

  const DEFAULT_OPTIONS := ScoreOptions(0.05, 0.7, 300000.0)

  function Min(a: real, b: real): real {
    if a <= b then a else b
  }

  function Max(a: real, b: real): real {
    if a >= b then a else b
  }

  function AgeDecay(ageMs: real, options: ScoreOptions): real {
    if ageMs <= 0.0 then 0.0 else Min(options.maxDecay, ageMs / MS_PER_HOUR * options.decayRatePerHour)
  }

  function RecencyBoost(ageMs: real, options: ScoreOptions): real {
    if ageMs < options.recencyThresholdMs then 1.2 else 1.0
  }

  function RetentionBoost(userFlagged: bool): real {
    if userFlagged then 3.0 else 1.0
  }

  function Product(multiplier: real, freshness: real, recency: real, retention: real): real {
    multiplier * freshness * recency * retention
  }

  /** The composite score of an item with the given type multiplier. */
  function Score(multiplier: real, timestamp: real, now: real, userFlagged: bool, options: ScoreOptions): (s: real)
    ensures s >= 0.01
  {
    var ageMs := Max(0.0, now - timestamp);
    Max(0.01, Product(multiplier, 1.0 - AgeDecay(ageMs, options), RecencyBoost(ageMs, options), RetentionBoost(userFlagged)))
  }

  /** What a flag is worth: three times the score, unless the floor hides it. */
  lemma FlagTriples(multiplier: real, timestamp: real, now: real, options: ScoreOptions)
    ensures var plain, flagged := Score(multiplier, timestamp, now, false, options), Score(multiplier, timestamp, now, true, options);
            (plain > 0.01 ==> flagged == 3.0 * plain) && plain <= flagged
  {
    var ageMs := Max(0.0, now - timestamp);
    TripleProduct(multiplier, 1.0 - AgeDecay(ageMs, options), RecencyBoost(ageMs, options));
  }

  lemma TripleProduct(m: real, f: real, r: real)
    ensures Product(m, f, r, 3.0) == 3.0 * Product(m, f, r, 1.0)
  {}

  /**
   * The score over an item's life, with the default options: a fifth more within five minutes, then
   * a twentieth less for every hour, down to three tenths after fourteen hours; a time in the future
   * counts as now.
   */
  lemma ScoreOverTime(multiplier: real, timestamp: real, minutes: real)
    ensures var s := Score(multiplier, timestamp, timestamp + minutes * 60000.0, false, DEFAULT_OPTIONS);
            && (minutes <= 0.0 ==> s == Max(0.01, multiplier * 1.2))
            && (0.0 <= minutes < 5.0 ==> s == Max(0.01, multiplier * (1.0 - minutes / 1200.0) * 1.2))
            && (5.0 <= minutes <= 840.0 ==> s == Max(0.01, multiplier * (1.0 - minutes / 1200.0)))
            && (840.0 <= minutes ==> s == Max(0.01, multiplier * 0.3))
  {
    var age := Max(0.0, minutes * 60000.0);
    assert age / MS_PER_HOUR * 0.05 == age / 72000000.0;
    assert minutes >= 0.0 ==> age / 72000000.0 == minutes / 1200.0;
  }

  /** With these options no item of any type ever gains score as time passes. */
  ghost predicate NeverGrows(options: ScoreOptions) {
    forall multiplier: real, timestamp: real, now: real, later: real, userFlagged: bool :: now <= later ==>
      Score(multiplier, timestamp, later, userFlagged, options) <= Score(multiplier, timestamp, now, userFlagged, options)
  }

  /** A decay that neither runs backwards nor takes away more than everything. */
  predicate SoundDecay(options: ScoreOptions) {
    && options.decayRatePerHour >= 0.0 && options.maxDecay >= 0.0
    && (options.maxDecay <= 1.0 || options.decayRatePerHour == 0.0)
  }

  lemma OlderDecaysMore(young: real, aged: real, options: ScoreOptions)
    requires SoundDecay(options) && 0.0 <= young <= aged
    ensures 0.0 <= AgeDecay(young, options) <= AgeDecay(aged, options) <= 1.0
  {
    assert young > 0.0 ==> 0.0 <= young / MS_PER_HOUR <= aged / MS_PER_HOUR;
    RateKeepsOrder(options.decayRatePerHour, young / MS_PER_HOUR, aged / MS_PER_HOUR);
  }

  lemma RateKeepsOrder(rate: real, g: real, f: real)
    requires rate >= 0.0 && 0.0 <= g <= f
    ensures 0.0 <= g * rate <= f * rate
    ensures rate == 0.0 ==> f * rate == 0.0
  {}

  lemma ScoreNeverGrows(multiplier: real, timestamp: real, now: real, later: real, userFlagged: bool, options: ScoreOptions)
    requires SoundDecay(options) && now <= later
    ensures Score(multiplier, timestamp, later, userFlagged, options) <= Score(multiplier, timestamp, now, userFlagged, options)
  {
    hide AgeDecay, SoundDecay, Product;
    var young, aged := Max(0.0, now - timestamp), Max(0.0, later - timestamp);
    OlderDecaysMore(young, aged, options);
    FresherScoresMore(
      multiplier, 1.0 - AgeDecay(aged, options), RecencyBoost(aged, options),
      1.0 - AgeDecay(young, options), RecencyBoost(young, options), RetentionBoost(userFlagged));
  }

  /** The score of an unflagged item made at time 0, as a plain product. */
  lemma ScoreAtAge(multiplier: real, age: real, options: ScoreOptions)
    requires age >= 0.0
    ensures Score(multiplier, 0.0, age, false, options) ==
            Max(0.01, multiplier * (1.0 - AgeDecay(age, options)) * RecencyBoost(age, options))
  {
    assert Max(0.0, age - 0.0) == age;
  }

  /** A negative rate makes old items gain without end. */
  lemma NegativeRateGrows(options: ScoreOptions)
    requires options.decayRatePerHour < 0.0
    ensures !NeverGrows(options)
  {
    var rate := options.decayRatePerHour;
    var hours := Max(1.0, Max(options.recencyThresholdMs / MS_PER_HOUR, options.maxDecay / rate));
    assert hours * rate <= options.maxDecay by {
      var q := options.maxDecay / rate;
      assert q * rate == options.maxDecay;
      ScaleFlipsOrder(rate, q, hours);
    }
    var age, later := hours * MS_PER_HOUR, (hours + 1.0) * MS_PER_HOUR;
    assert age / MS_PER_HOUR == hours && later / MS_PER_HOUR == hours + 1.0;
    assert (hours + 1.0) * rate == hours * rate + rate;
    assert hours * rate < 0.0;
    assert AgeDecay(age, options) == hours * rate && AgeDecay(later, options) == hours * rate + rate;
    ScoreAtAge(1.0, age, options);
    ScoreAtAge(1.0, later, options);
  }

  lemma ScaleFlipsOrder(k: real, g: real, f: real)
    requires k < 0.0 && g <= f
    ensures f * k <= g * k
  {}

  /** A negative cap makes an item gain as soon as it is not new. */
  lemma NegativeCapGrows(options: ScoreOptions)
    requires options.decayRatePerHour >= 0.0 && options.maxDecay < 0.0
    ensures !NeverGrows(options)
  {
    var t := options.recencyThresholdMs;
    var age := if t > 0.0 then t / 2.0 else 1.0;
    ScaleKeepsOrder(options.decayRatePerHour, 0.0, age / MS_PER_HOUR);
    assert AgeDecay(age, options) == options.maxDecay && AgeDecay(0.0, options) == 0.0;
    ScoreAtAge(1.0, age, options);
    ScoreAtAge(1.0, 0.0, options);
  }

  /** A cap above one turns the score around, and a negative multiplier then makes it grow. */
  lemma CapAboveOneGrows(options: ScoreOptions)
    requires options.decayRatePerHour > 0.0 && options.maxDecay > 1.0
    ensures !NeverGrows(options)
  {
    var rate, cap := options.decayRatePerHour, options.maxDecay;
    var hours := cap / rate;
    assert hours * rate == cap && hours > 0.0;
    var age := hours * MS_PER_HOUR;
    assert age / MS_PER_HOUR == hours && AgeDecay(age, options) == cap;
    var multiplier := -1.0 / (cap - 1.0);
    assert multiplier * (1.0 - cap) == 1.0 && multiplier < 0.0;
    ScoreAtAge(multiplier, age, options);
    ScoreAtAge(multiplier, 0.0, options);
  }

  /**
   * What a younger item of the same type gets, an older one never exceeds, whatever the multiplier:
   * this holds of exactly the options with a sound decay, the default ones among them.
   */
  lemma ScoreNeverGrowsIff(options: ScoreOptions)
    ensures NeverGrows(options) <==> SoundDecay(options)
    ensures NeverGrows(DEFAULT_OPTIONS)
  {
    hide Score;
    forall multiplier: real, timestamp: real, now: real, later: real, userFlagged: bool, o: ScoreOptions |
      SoundDecay(o) && now <= later
      ensures Score(multiplier, timestamp, later, userFlagged, o) <= Score(multiplier, timestamp, now, userFlagged, o)
    {
      ScoreNeverGrows(multiplier, timestamp, now, later, userFlagged, o);
    }
    if options.decayRatePerHour < 0.0 {
      NegativeRateGrows(options);
    } else if options.maxDecay < 0.0 {
      NegativeCapGrows(options);
    } else if !SoundDecay(options) {
      CapAboveOneGrows(options);
    }
  }

  lemma FresherScoresMore(m: real, f: real, r: real, f': real, r': real, b: real)
    requires 0.0 <= f <= f' && 0.0 <= r <= r' && b > 0.0
    ensures Max(0.01, Product(m, f, r, b)) <= Max(0.01, Product(m, f', r', b))
  {
    ScaleKeepsOrder(r, f, f');
    ScaleKeepsOrder(f', r, r');
    Regroup(m, f, r, b);
    Regroup(m, f', r', b);
    ScaleKeepsOrder(m * b, f * r, f' * r');
    assert m < 0.0 ==> m * b < 0.0;
  }

  lemma Regroup(m: real, d: real, r: real, b: real)
    ensures Product(m, d, r, b) == (m * b) * (d * r)
  {}

  lemma ScaleKeepsOrder(k: real, g: real, f: real)
    requires 0.0 <= g <= f
    ensures k >= 0.0 ==> k * g <= k * f
    ensures k < 0.0 ==> k * g <= 0.0
  {}

  // ----- The selection -----------------------------------------------------

  datatype ScoredItem = ScoredItem(id: string, finalScore: real)

  /** A score to reach: a number, or one no item reaches. */
  datatype Threshold = Finite(value: real) | Unreachable

  predicate Reaches(item: ScoredItem, t: Threshold) {
    t.Finite? && item.finalScore >= t.value
  }

  function Ceil(x: real): int {
    -((-x).Floor)
  }

  function Scores(items: seq<ScoredItem>): (s: seq<real>)
    ensures |s| == |items| && forall i :: 0 <= i < |items| ==> s[i] == items[i].finalScore
  {
    seq(|items|, i requires 0 <= i < |items| => items[i].finalScore)
  }

  function CutoffIndex(n: nat, ratio: real): (i: nat)
    requires n > 0
    ensures i < n
  {
    var wanted := Ceil(n as real * ratio) - 1;
    if wanted < 0 then 0 else if wanted > n - 1 then n - 1 else wanted
  }

  /** The score at place `i` of the descending order. */
  function Descending(s: seq<real>, i: nat): real
    requires i < |s|
  {
    Sort(s)[|s| - 1 - i]
  }

  function PreservationCutoff(items: seq<ScoredItem>, ratio: real): Threshold {
    if items == [] then Unreachable
    else if ratio >= 1.0 then Finite(0.0)
    else if ratio <= 0.0 then Unreachable
    else Finite(Descending(Scores(items), CutoffIndex(|items|, ratio)))
  }

  function ReachingIds(items: seq<ScoredItem>, t: Threshold): set<string> {
    set i | 0 <= i < |items| && Reaches(items[i], t) :: items[i].id
  }

  function ItemsToPreserve(items: seq<ScoredItem>, ratio: real): set<string> {
    ReachingIds(items, PreservationCutoff(items, ratio))
  }

  predicate DistinctIds(items: seq<ScoredItem>) {
    forall i, j :: 0 <= i < j < |items| ==> items[i].id != items[j].id
  }

  /** A ratio of one or more keeps all scores that are not negative; none or less keeps nothing. */
  lemma ExtremeShares(items: seq<ScoredItem>, ratio: real)
    ensures ratio <= 0.0 ==> ItemsToPreserve(items, ratio) == {}
    ensures ratio >= 1.0 ==> ItemsToPreserve(items, ratio) == set i | 0 <= i < |items| && items[i].finalScore >= 0.0 :: items[i].id
  {}

  lemma CeilBounds(n: nat, ratio: real)
    requires n > 0 && 0.0 < ratio < 1.0
    ensures 1 <= Ceil(n as real * ratio) <= n
    ensures CutoffIndex(n, ratio) == Ceil(n as real * ratio) - 1
  {
    var x := n as real * ratio;
    assert 0.0 < x < n as real;
  }

  /** The ids of the items at or above a score, counted. */
  lemma {:induction false} ReachingCount(items: seq<ScoredItem>, t: real)
    requires DistinctIds(items)
    ensures |ReachingIds(items, Finite(t))| == AtLeast(Scores(items), t)
    decreases |items|
  {
    var ids := ReachingIds(items, Finite(t));
    if items == [] {
      assert ids == {};
    } else {
      var rest := items[1..];
      ReachingCount(rest, t);
      var later := ReachingIds(rest, Finite(t));
      assert Scores(items)[1..] == Scores(rest);
      assert items[0].id !in later;
      forall id
        ensures id in ids <==> id in later || (Reaches(items[0], Finite(t)) && id == items[0].id)
      {
        if id in later {
          var i :| 0 <= i < |rest| && Reaches(rest[i], Finite(t)) && rest[i].id == id;
          assert items[i + 1].id == id;
        }
        if id in ids {
          var i :| 0 <= i < |items| && Reaches(items[i], Finite(t)) && items[i].id == id;
          assert i > 0 ==> rest[i - 1] == items[i];
        }
      }
      assert ids == if Reaches(items[0], Finite(t)) then later + {items[0].id} else later;
    }
  }

  /** At least the wanted share is kept, and fewer items than that score strictly above the cutoff. */
  lemma PreservedShare(items: seq<ScoredItem>, ratio: real)
    requires items != [] && 0.0 < ratio < 1.0 && DistinctIds(items)
    ensures var wanted := Ceil(|items| as real * ratio);
            var t := PreservationCutoff(items, ratio);
            && |ItemsToPreserve(items, ratio)| >= wanted
            && t.Finite? && |items| - AtMost(Scores(items), t.value) < wanted
  {
    hide Ceil, CutoffIndex, Descending, AtMost, ReachingIds, Scores;
    CeilBounds(|items|, ratio);
    CutoffCounts(items, CutoffIndex(|items|, ratio));
  }

  /** The score at place `k` of the descending order has more than `k` items at or above it. */
  lemma CutoffCounts(items: seq<ScoredItem>, k: nat)
    requires k < |items| && DistinctIds(items)
    ensures var x := Descending(Scores(items), k);
            |ReachingIds(items, Finite(x))| >= k + 1 && |items| - AtMost(Scores(items), x) <= k
  {
    hide Sort, AtMost, AtLeast, ReachingIds, DistinctIds;
    OrderStatistic(Scores(items), |items| - 1 - k);
    ReachingCount(items, Descending(Scores(items), k));
  }

  /** For any ratio, everything kept outscores everything dropped. */
  lemma KeptOutscoreDropped(items: seq<ScoredItem>, ratio: real, i: nat, j: nat)
    requires DistinctIds(items) && i < |items| && j < |items|
    requires items[i].id in ItemsToPreserve(items, ratio) && items[j].id !in ItemsToPreserve(items, ratio)
    ensures items[i].finalScore > items[j].finalScore
  {
    hide PreservationCutoff;
    var t := PreservationCutoff(items, ratio);
    var p :| 0 <= p < |items| && Reaches(items[p], t) && items[p].id == items[i].id;
    assert p == i;
    assert !Reaches(items[j], t);
  }

  lemma CeilMonotone(x: real, y: real)
    requires x <= y
    ensures Ceil(x) <= Ceil(y)
  {
    assert (-y).Floor <= (-x).Floor by {
      assert (-y).Floor as real <= -y <= -x;
    }
  }

  /** Raising the ratio only adds items; up to 1 and beyond it does so unless a score is negative. */
  lemma LargerShareKeepsMore(items: seq<ScoredItem>, low: real, high: real)
    requires low <= high
    requires high < 1.0 || forall i :: 0 <= i < |items| ==> items[i].finalScore >= 0.0
    ensures ItemsToPreserve(items, low) <= ItemsToPreserve(items, high)
  {
    hide Sort;
    var a, b := PreservationCutoff(items, low), PreservationCutoff(items, high);
    if items != [] && 0.0 < low && high < 1.0 {
      LargerShareLowersCutoff(|items|, low, high);
    }
    assert forall i :: 0 <= i < |items| && Reaches(items[i], a) ==> Reaches(items[i], b);
  }

  lemma LargerShareLowersCutoff(n: nat, low: real, high: real)
    requires n > 0 && 0.0 < low <= high < 1.0
    ensures CutoffIndex(n, low) <= CutoffIndex(n, high)
  {
    CeilBounds(n, low);
    CeilBounds(n, high);
    assert n as real > 0.0;
    ScaleKeepsOrder(n as real, low, high);
    CeilMonotone(n as real * low, n as real * high);
  }
}
