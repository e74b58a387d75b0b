/**
 * Sequential rollout of the dedup tiers (src/canary.ts): tiers are enabled one at a time, and a
 * tier whose p95 latency is over the budget is disabled for good.
 */
module Canary {
  import opened Messages
  import opened Monitoring

  const ORDER: seq<Tier> := [L0, L1, L2, RAPTOR]

  datatype Config = Config(
    l0Enabled: bool, l1Enabled: bool, l2Enabled: bool, raptorEnabled: bool,
    p95BudgetMs: real)

  datatype State = State(config: Config, enabled: set<Tier>, disabled: set<Tier>, step: nat)

  type Metrics = map<Tier, seq<real>>

  predicate OverBudget(metrics: Metrics, tier: Tier, budget: real) {
    P95(Samples(metrics, tier)) > budget
  }

  function Flag(config: Config, tier: Tier): bool {
    match tier
    case L0 => config.l0Enabled
    case L1 => config.l1Enabled
    case L2 => config.l2Enabled
    case RAPTOR => config.raptorEnabled
  }

  function WithFlag(config: Config, tier: Tier, on: bool): Config {
    match tier
    case L0 => config.(l0Enabled := on)
    case L1 => config.(l1Enabled := on)
    case L2 => config.(l2Enabled := on)
    case RAPTOR => config.(raptorEnabled := on)
  }

  function TierSet(ts: seq<Tier>): set<Tier> {
    set t | t in ts
  }

  /** What holds of every state a controller built on `base` can reach. */
  ghost predicate Reachable(s: State, base: Config) {
    && 1 <= s.step <= |ORDER|
    && s.enabled !! s.disabled
    && s.enabled + s.disabled == TierSet(ORDER[..s.step])
    && s.config.p95BudgetMs == base.p95BudgetMs
    && (forall t :: t != L0 ==> (Flag(s.config, t) <==> t in s.enabled))
    && (s.config.l0Enabled <==> base.l0Enabled && L0 in s.enabled)
  }

  function Initial(base: Config): State {
    State(base.(l1Enabled := false, l2Enabled := false, raptorEnabled := false), {L0}, {}, 1)
  }

  /** The next tier of the order that has not been tried. */
  function NextTier(s: State, from: nat): (r: Option<Tier>)
    requires from <= |ORDER|
    decreases |ORDER| - from
  {
    if from == |ORDER| then None
    else if ORDER[from] !in s.enabled && ORDER[from] !in s.disabled then Some(ORDER[from])
    else NextTier(s, from + 1)
  }

  function SteppedForward(s: State): State {
    var next := NextTier(s, 0);
    if next.None? then s
    else State(WithFlag(s.config, next.value, true), s.enabled + {next.value}, s.disabled, s.step + 1)
  }

  /** The tiers an evaluation disables, in order. */
  function Breaching(s: State, metrics: Metrics, from: nat): (ts: seq<Tier>)
    requires from <= |ORDER|
    ensures forall t :: t in ts <==> t in ORDER[from..] && t in s.enabled && OverBudget(metrics, t, s.config.p95BudgetMs)
    decreases |ORDER| - from
  {
    if from == |ORDER| then []
    else
      var t := ORDER[from];
      assert ORDER[from..] == [t] + ORDER[from + 1..];
      (if t in s.enabled && OverBudget(metrics, t, s.config.p95BudgetMs) then [t] else []) + Breaching(s, metrics, from + 1)
  }

  function Disabled(s: State, tier: Tier): State {
    State(WithFlag(s.config, tier, false), s.enabled - {tier}, s.disabled + {tier}, s.step)
  }

  function DisabledAll(s: State, ts: seq<Tier>): State
    decreases |ts|
  {
    if ts == [] then s else DisabledAll(Disabled(s, ts[0]), ts[1..])
  }

  function Evaluated(s: State, metrics: Metrics): State {
    DisabledAll(s, Breaching(s, metrics, 0))
  }

  /** Without a sample a tier is over no budget that is not negative. */
  lemma UnmeasuredTierStays(s: State, metrics: Metrics, tier: Tier)
    requires s.config.p95BudgetMs >= 0.0 && (tier !in metrics || metrics[tier] == [])
    ensures tier !in Breaching(s, metrics, 0)
  {
    P95OfFew(0.0);
  }

  /** A tier with one sample stays exactly when that sample is within the budget. */
  lemma SingleSampleDecides(s: State, metrics: Metrics, tier: Tier, x: real)
    requires tier in s.enabled && tier in metrics && metrics[tier] == [x]
    ensures tier in Breaching(s, metrics, 0) <==> x > s.config.p95BudgetMs
  {
    P95OfFew(x);
    EveryTierInOrder(tier);
    assert ORDER[0..] == ORDER;
  }

  /** How far along the rollout a tier comes. */
  function Rank(t: Tier): nat {
    match t
    case L0 => 0
    case L1 => 1
    case L2 => 2
    case RAPTOR => 3
  }

  lemma RankInTail(from: nat, t: Tier)
    requires from <= |ORDER| && t in ORDER[from..]
    ensures Rank(t) >= from
  {
    var i :| 0 <= i < |ORDER[from..]| && ORDER[from..][i] == t;
    assert ORDER[from + i] == t;
  }

  ghost predicate Ascending(ts: seq<Tier>) {
    forall i, j :: 0 <= i < j < |ts| ==> Rank(ts[i]) < Rank(ts[j])
  }

  /** The disabled tiers are reported in the order of the rollout. */
  lemma {:induction false} BreachingInOrder(s: State, metrics: Metrics, from: nat)
    requires from <= |ORDER|
    ensures Ascending(Breaching(s, metrics, from))
    decreases |ORDER| - from
  {
    hide OverBudget, Breaching, Ascending, Rank;
    if from < |ORDER| {
      var t, rest := ORDER[from], Breaching(s, metrics, from + 1);
      BreachingInOrder(s, metrics, from + 1);
      BreachingStep(s, s, metrics, from);
      RankAt(from);
      forall i | 0 <= i < |rest|
        ensures Rank(rest[i]) > from
      {
        assert rest[i] in rest;
        RankInTail(from + 1, rest[i]);
      }
      AscendingCons(t, rest);
    } else {
      BreachingEnd(s, s, metrics);
      NothingAscends();
    }
  }

  lemma RankAt(i: nat)
    requires i < |ORDER|
    ensures Rank(ORDER[i]) == i
  {}

  lemma AscendingCons(t: Tier, rest: seq<Tier>)
    requires Ascending(rest) && forall i :: 0 <= i < |rest| ==> Rank(rest[i]) > Rank(t)
    ensures Ascending([t] + rest)
  {}

  lemma NothingAscends()
    ensures Ascending([])
  {}

  // ----- Every reachable state ---------------------------------------------

  /** The tiers are tried in their order: L0 to begin with, then L1, L2, and RAPTOR last. */
  lemma TriedInOrder(s: State, base: Config)
    requires Reachable(s, base)
    ensures forall t :: t in s.enabled || t in s.disabled <==> Rank(t) < s.step
    ensures NextTier(s, 0).Some? <==> s.step < 4
    ensures (s.config.l1Enabled <==> L1 in s.enabled) && (s.config.l2Enabled <==> L2 in s.enabled)
    ensures s.config.raptorEnabled <==> RAPTOR in s.enabled
    ensures NextTier(s, 0).Some? ==> Rank(NextTier(s, 0).value) == s.step
  {
    forall t
      ensures t in s.enabled + s.disabled <==> Rank(t) < s.step
    {
      assert ORDER[Rank(t)] == t;
      assert t in ORDER[..s.step] <==> Rank(t) < s.step by {
        if Rank(t) < s.step {
          assert ORDER[..s.step][Rank(t)] == t;
        }
      }
    }
  }

  lemma EveryTierInOrder(t: Tier)
    ensures t in ORDER
  {
    assert ORDER[0] == L0 && ORDER[1] == L1 && ORDER[2] == L2 && ORDER[3] == RAPTOR;
  }

  lemma StepStaysReachable(s: State, base: Config)
    requires Reachable(s, base)
    ensures Reachable(SteppedForward(s), base)
    ensures NextTier(s, 0) == if s.step < |ORDER| then Some(ORDER[s.step]) else None
    ensures s.step < |ORDER| ==> SteppedForward(s).step == s.step + 1
    ensures SteppedForward(s).disabled == s.disabled
  {
    var tried := TierSet(ORDER[..s.step]);
    assert forall i :: 0 <= i < |ORDER| ==> (ORDER[i] in tried <==> i < s.step) by {
      forall i | 0 <= i < |ORDER|
        ensures ORDER[i] in tried <==> i < s.step
      {
        if i < s.step {
          assert ORDER[..s.step][i] == ORDER[i];
        }
      }
    }
    NextTierIsUntried(s, 0, s.step);
    if s.step < |ORDER| {
      assert ORDER[..s.step + 1] == ORDER[..s.step] + [ORDER[s.step]];
      assert TierSet(ORDER[..s.step + 1]) == tried + {ORDER[s.step]};
    }
  }

  lemma {:induction false} NextTierIsUntried(s: State, from: nat, step: nat)
    requires from <= step <= |ORDER|
    requires forall i :: 0 <= i < |ORDER| ==> (ORDER[i] in s.enabled + s.disabled <==> i < step)
    ensures NextTier(s, from) == if step < |ORDER| then Some(ORDER[step]) else None
    decreases |ORDER| - from
  {
    if from < step {
      assert ORDER[from] in s.enabled + s.disabled;
      NextTierIsUntried(s, from + 1, step);
    } else if from < |ORDER| {
      assert ORDER[from] !in s.enabled + s.disabled;
    }
  }

  lemma {:induction false} DisablingStaysReachable(s: State, ts: seq<Tier>, base: Config)
    requires Reachable(s, base) && forall t :: t in ts ==> t in s.enabled + s.disabled
    ensures var r := DisabledAll(s, ts);
            && Reachable(r, base) && r.step == s.step
            && r.enabled == s.enabled - TierSet(ts) && r.disabled == s.disabled + TierSet(ts)
    decreases |ts|
  {
    if ts != [] {
      var d := Disabled(s, ts[0]);
      assert ts[0] in ts;
      assert d.enabled + d.disabled == s.enabled + s.disabled;
      assert Reachable(d, base);
      assert forall t :: t in ts[1..] ==> t in ts;
      DisablingStaysReachable(d, ts[1..], base);
      assert TierSet(ts) == {ts[0]} + TierSet(ts[1..]);
    }
  }

  /** An evaluation leaves enabled exactly the tiers that were and are within the budget. */
  lemma EvaluationKeepsFastTiers(s: State, metrics: Metrics, base: Config)
    requires Reachable(s, base)
    ensures var r := Evaluated(s, metrics);
            && Reachable(r, base) && r.step == s.step
            && (forall t :: t in r.enabled <==> t in s.enabled && !OverBudget(metrics, t, base.p95BudgetMs))
            && r.disabled == s.disabled + TierSet(Breaching(s, metrics, 0))
  {
    var ts := Breaching(s, metrics, 0);
    assert ORDER[0..] == ORDER;
    forall t | t in s.enabled
      ensures t in ts <==> OverBudget(metrics, t, base.p95BudgetMs)
    {
      EveryTierInOrder(t);
    }
    DisablingStaysReachable(s, ts, base);
  }

  datatype Op = StepForward | Evaluate(metrics: Metrics)

  function After(s: State, op: Op): State {
    match op
    case StepForward => SteppedForward(s)
    case Evaluate(metrics) => Evaluated(s, metrics)
  }

  function AfterAll(s: State, ops: seq<Op>): State
    decreases |ops|
  {
    if ops == [] then s else AfterAll(After(s, ops[0]), ops[1..])
  }

  lemma InitialReachable(base: Config)
    ensures Reachable(Initial(base), base)
  {
    assert ORDER[..1] == [L0] && TierSet([L0]) == {L0};
  }

  /** Over any run the state stays consistent, and a disabled tier never returns. */
  lemma {:induction false} RunsStayReachable(s: State, ops: seq<Op>, base: Config)
    requires Reachable(s, base)
    ensures var r := AfterAll(s, ops);
            && Reachable(r, base) && s.step <= r.step
            && s.disabled <= r.disabled && r.enabled !! s.disabled
    decreases |ops|
  {
    if ops != [] {
      StepStaysReachable(s, base);
      if ops[0].Evaluate? {
        EvaluationKeepsFastTiers(s, ops[0].metrics, base);
      }
      RunsStayReachable(After(s, ops[0]), ops[1..], base);
    }
  }

  // ----- The controller ----------------------------------------------------

  class CanaryController {
    ghost const base: Config
    var config: Config
    var enabled: set<Tier>
    var disabled: set<Tier>
    var step: nat

    ghost function View(): State
      reads this
    {
      State(config, enabled, disabled, step)
    }

    ghost predicate Valid()
      reads this
    {
      Reachable(View(), base)
    }

    constructor (base: Config)
      ensures Valid() && View() == Initial(base) && this.base == base
    {
      this.base := base;
      config := base.(l1Enabled := false, l2Enabled := false, raptorEnabled := false);
      enabled, disabled, step := {L0}, {}, 1;
      new;
      InitialReachable(base);
    }

    method SetEnabled(tier: Tier, on: bool)
      modifies this
      ensures config == WithFlag(old(config), tier, on) && step == old(step)
      ensures enabled == if on then old(enabled) + {tier} else old(enabled) - {tier}
      ensures disabled == if on then old(disabled) - {tier} else old(disabled)
    {
      config := WithFlag(config, tier, on);
      if on {
        enabled, disabled := enabled + {tier}, disabled - {tier};
      } else {
        enabled := enabled - {tier};
      }
    }

    method StepForward() returns (tier: Option<Tier>)
      requires Valid()
      modifies this
      ensures Valid() && View() == SteppedForward(old(View())) && tier == NextTier(old(View()), 0)
    {
      StepStaysReachable(View(), base);
      for i := 0 to |ORDER|
        invariant View() == old(View()) && NextTier(View(), 0) == NextTier(View(), i)
      {
        if ORDER[i] !in enabled && ORDER[i] !in disabled {
          SetEnabled(ORDER[i], true);
          step := step + 1;
          assert disabled == old(disabled);
          return Some(ORDER[i]);
        }
      }
      return None;
    }

    method Evaluate(metrics: Metrics) returns (disabledNow: seq<Tier>)
      requires Valid()
      modifies this
      ensures Valid() && View() == Evaluated(old(View()), metrics)
      ensures disabledNow == Breaching(old(View()), metrics, 0)
    {
      hide OverBudget, Reachable, Breaching, DisabledAll, ORDER, WithFlag;
      ghost var was := View();
      EvaluationKeepsFastTiers(was, metrics, base);
      disabledNow := [];
      for i := 0 to |ORDER|
        invariant config.p95BudgetMs == was.config.p95BudgetMs
        invariant disabledNow + Breaching(was, metrics, i) == Breaching(was, metrics, 0)
        invariant forall k :: i <= k < |ORDER| ==> (ORDER[k] in enabled <==> ORDER[k] in was.enabled)
        invariant DisabledAll(View(), Breaching(was, metrics, i)) == Evaluated(was, metrics)
      {
        BreachingStep(was, View(), metrics, i);
        OrderDistinct(i);
        var breached := EvaluateTier(ORDER[i], metrics);
        if breached {
          disabledNow := disabledNow + [ORDER[i]];
        }
      }
      BreachingEnd(was, View(), metrics);
    }

    /** Disable one tier when it is enabled and over the budget. */
    method EvaluateTier(tier: Tier, metrics: Metrics) returns (breached: bool)
      modifies this
      ensures breached <==> tier in old(enabled) && OverBudget(metrics, tier, old(config.p95BudgetMs))
      ensures View() == if breached then Disabled(old(View()), tier) else old(View())
      ensures config.p95BudgetMs == old(config.p95BudgetMs)
    {
      if tier !in enabled {
        return false;
      }
      var lat := P95(Samples(metrics, tier));
      if lat > config.p95BudgetMs {
        DisableForReason(tier);
        return true;
      }
      return false;
    }

    method DisableForReason(tier: Tier)
      modifies this
      ensures View() == Disabled(old(View()), tier)
    {
      SetEnabled(tier, false);
      disabled := disabled + {tier};
    }
  }

  lemma OrderDistinct(i: nat)
    requires i < |ORDER|
    ensures forall k :: i < k < |ORDER| ==> ORDER[k] != ORDER[i]
  {}

  lemma BreachingStep(was: State, now: State, metrics: Metrics, i: nat)
    requires i < |ORDER|
    ensures var t, rest := ORDER[i], Breaching(was, metrics, i + 1);
            if t in was.enabled && OverBudget(metrics, t, was.config.p95BudgetMs)
            then Breaching(was, metrics, i) == [t] + rest
                 && DisabledAll(now, Breaching(was, metrics, i)) == DisabledAll(Disabled(now, t), rest)
            else Breaching(was, metrics, i) == rest
  {
    hide OverBudget;
  }

  lemma BreachingEnd(was: State, now: State, metrics: Metrics)
    ensures Breaching(was, metrics, |ORDER|) == [] && DisabledAll(now, []) == now
  {}

  function Without(ts: seq<Tier>, seen: set<Tier>): (r: seq<Tier>)
    ensures forall t :: t in r <==> t in ts && t !in seen
    ensures forall i, j :: 0 <= i < j < |r| ==> r[i] != r[j]
  {
    if ts == [] then []
    else if ts[0] in seen then Without(ts[1..], seen)
    else [ts[0]] + Without(ts[1..], seen + {ts[0]})
  }

  /**
   * The full rollout. `feed` answers the n-th request for metrics, so it may depend on anything.
   * For every feed the loop ends after three steps with all four tiers tried, the reported tiers
   * are exactly the disabled ones, each once, and every tier left enabled meets the budget on the
   * last metrics, which are asked for with the configuration of the `last` state before them.
   */
  method RunCanary(feed: (nat, nat, Config) -> Metrics, base: Config)
    returns (controller: CanaryController, reported: seq<Tier>, ghost last: State)
    ensures fresh(controller) && controller.Valid() && controller.base == base
    ensures controller.step == |ORDER|
    ensures TierSet(reported) == controller.disabled
    ensures forall i, j :: 0 <= i < j < |reported| ==> reported[i] != reported[j]
    ensures Reachable(last, base) && last.step == |ORDER|
    ensures var metrics := feed(|ORDER| - 1, |ORDER|, last.config);
            && controller.View() == Evaluated(last, metrics)
            && forall t :: t in controller.enabled ==> !OverBudget(metrics, t, base.p95BudgetMs)
  {
    hide OverBudget, Evaluated, Breaching;
    controller := new CanaryController(base);
    var allDisabled: seq<Tier> := [];
    var steps := 0;
    while true
      invariant fresh(controller) && controller.Valid() && controller.base == base
      invariant steps == controller.step - 1
      invariant TierSet(allDisabled) == controller.disabled
      decreases |ORDER| - steps
    {
      StepStaysReachable(controller.View(), base);
      var tier := controller.StepForward();
      if tier.None? {
        break;
      }
      var metrics := feed(steps, controller.step, controller.config);
      EvaluationKeepsFastTiers(controller.View(), metrics, base);
      var disabledNow := controller.Evaluate(metrics);
      assert TierSet(allDisabled + disabledNow) == TierSet(allDisabled) + TierSet(disabledNow);
      allDisabled := allDisabled + disabledNow;
      steps := steps + 1;
      if steps > |ORDER| + 1 {
        break;
      }
    }
    last := controller.View();
    var lastMetrics := feed(steps, controller.step, controller.config);
    EvaluationKeepsFastTiers(controller.View(), lastMetrics, base);
    var disabledLast := controller.Evaluate(lastMetrics);
    assert TierSet(allDisabled + disabledLast) == TierSet(allDisabled) + TierSet(disabledLast);
    reported := Without(allDisabled + disabledLast, {});
    assert TierSet(reported) == TierSet(allDisabled + disabledLast);
  }
}
