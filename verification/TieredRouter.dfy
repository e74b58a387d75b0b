/**
 * Tiered recall routing (src/tieredRouter.ts): a result cache in front of two searches. `route`
 * is asynchronous, so it is modelled by the segments that run between its awaits; any number of
 * calls may be suspended at once and resume in any order.
 */
module TieredRouting {
  import opened Messages
  import opened JsMaps
  import opened Lru

  /** A cache key: the digest of session, query and result count. */
  datatype Key = Key(digest: string)

  datatype SearchHit = SearchHit(checkpointId: string, score: real)

  datatype Tier = L0 | L1 | L2

  datatype CacheEntry = CacheEntry(key: Key, hits: seq<SearchHit>, tier: Tier)

  datatype Counters = Counters(
    totalQueries: nat,
    l0Hits: nat, l0Misses: nat,
    l1Hits: nat, l1Misses: nat,
    l2Hits: nat, l2Misses: nat)

  datatype Config = Config(cacheSize: int, fts5MaxBm25: Option<real>)

  datatype RouterState = RouterState(cache: OrderedMap<Key, CacheEntry>, n: Counters)

  /** One query, with what the text search will return for it: nothing when that search throws. */
  datatype Query = Query(key: Key, k: nat, bypassCache: bool, fts5Hits: seq<SearchHit>)

  /** Where a call stands after a segment: settled, or suspended at one of the two awaits. */
  datatype Call =
    | Answered(hits: seq<SearchHit>, tier: Tier)
    | Rejected
    | Hydrating(key: Key, fts5Hits: seq<SearchHit>)
    | Searching(key: Key, k: nat)

  const L1_CONFIDENCE := 0.7

  /** The text search is trusted when calibrated, complete, and its best score is high enough. */
  predicate L1Suffices(q: Query, config: Config) {
    && |q.fts5Hits| > 0 && config.fts5MaxBm25.Some?
    && q.fts5Hits[0].score >= L1_CONFIDENCE * config.fts5MaxBm25.value
    && |q.fts5Hits| >= q.k
  }

  function Take(hits: seq<SearchHit>, k: nat): seq<SearchHit> {
    if |hits| <= k then hits else hits[..k]
  }

  /** The hits whose checkpoint the store still lists. */
  function Hydrated(hits: seq<SearchHit>, listed: set<string>): seq<SearchHit> {
    if hits == [] then []
    else (if hits[0].checkpointId in listed then [hits[0]] else []) + Hydrated(hits[1..], listed)
  }

  // ----- The segments ------------------------------------------------------

  /** From the call to its first suspension. */
  function Begin(s: RouterState, q: Query, config: Config): (RouterState, Call) {
    var n := s.n.(totalQueries := s.n.totalQueries + 1);
    if !q.bypassCache && q.key in s.cache.values then
      (RouterState(Promoted(s.cache, q.key), n.(l0Hits := n.l0Hits + 1)), Answered(s.cache.values[q.key].hits, L0))
    else
      var m := if q.bypassCache then n else n.(l0Misses := n.l0Misses + 1);
      if L1Suffices(q, config) then
        (s.(n := m.(l1Hits := m.l1Hits + 1)), Hydrating(q.key, Take(q.fts5Hits, q.k)))
      else
        (s.(n := m.(l1Misses := m.l1Misses + 1)), Searching(q.key, q.k))
  }

  function Cached(s: RouterState, key: Key, hits: seq<SearchHit>, tier: Tier, config: Config): RouterState {
    s.(cache := Stored(s.cache, key, CacheEntry(key, hits, tier), config.cacheSize))
  }

  /** Hydration is back with the listed checkpoints, or has thrown, and with it the call. */
  function EndHydration(s: RouterState, call: Call, listed: Option<set<string>>, config: Config): (RouterState, Call)
    requires call.Hydrating?
  {
    if listed.None? then (s, Rejected)
    else
      var hits := Hydrated(call.fts5Hits, listed.value);
      (Cached(s, call.key, hits, L1, config), Answered(hits, L1))
  }

  /** The vector search is back; nothing when it found nothing or has thrown. */
  function EndSearch(s: RouterState, call: Call, found: seq<SearchHit>, config: Config): (RouterState, Call)
    requires call.Searching?
  {
    if |found| > 0 then
      var hits := Take(found, call.k);
      (Cached(s, call.key, hits, L2, config).(n := s.n.(l2Hits := s.n.l2Hits + 1)), Answered(hits, L2))
    else (s.(n := s.n.(l2Misses := s.n.l2Misses + 1)), Answered([], L2))
  }

  function Peeked(s: RouterState, key: Key): (RouterState, Option<seq<SearchHit>>) {
    if key in s.cache.values then
      (RouterState(Promoted(s.cache, key), s.n.(l0Hits := s.n.l0Hits + 1)), Some(s.cache.values[key].hits))
    else (s, None)
  }

  // ----- What the segments answer ------------------------------------------

  lemma HydratedStep(hits: seq<SearchHit>, listed: set<string>)
    requires hits != []
    ensures Hydrated(hits, listed) ==
            if hits[0].checkpointId in listed then [hits[0]] + Hydrated(hits[1..], listed) else Hydrated(hits[1..], listed)
  {}

  lemma HitsAssociate(a: seq<SearchHit>, b: seq<SearchHit>, c: seq<SearchHit>)
    ensures a + (b + c) == a + b + c
  {}

  lemma {:induction false} HydratedConcat(a: seq<SearchHit>, b: seq<SearchHit>, listed: set<string>)
    ensures Hydrated(a + b, listed) == Hydrated(a, listed) + Hydrated(b, listed)
  {
    if a == [] {
      assert a + b == b;
    } else {
      hide Hydrated;
      HydratedConcat(a[1..], b, listed);
      HydratedStep(a, listed);
      HydratedStep(a + b, listed);
      assert (a + b)[1..] == a[1..] + b && (a + b)[0] == a[0];
      HitsAssociate([a[0]], Hydrated(a[1..], listed), Hydrated(b, listed));
    }
  }

  lemma {:induction false} HydratedMembers(hits: seq<SearchHit>, listed: set<string>)
    ensures forall h :: h in Hydrated(hits, listed) <==> h in hits && h.checkpointId in listed
    ensures (forall h :: h in hits ==> h.checkpointId in listed) ==> Hydrated(hits, listed) == hits
  {
    if hits != [] {
      HydratedMembers(hits[1..], listed);
      assert forall h :: h in hits[1..] ==> h in hits;
    }
  }

  /**
   * Hydration answers with exactly those text hits that the store still lists, in their order and
   * with their repeats: with all of them when all are listed, and piece by piece in general.
   */
  lemma HydrationReply(s: RouterState, call: Call, listed: set<string>, config: Config)
    requires call.Hydrating?
    ensures var reply := EndHydration(s, call, Some(listed), config).1;
            && reply.Answered? && reply.tier == L1
            && (forall h :: h in reply.hits <==> h in call.fts5Hits && h.checkpointId in listed)
            && ((forall h :: h in call.fts5Hits ==> h.checkpointId in listed) ==> reply.hits == call.fts5Hits)
            && forall a, b :: a + b == call.fts5Hits ==>
                 reply.hits == EndHydration(s, call.(fts5Hits := a), Some(listed), config).1.hits
                             + EndHydration(s, call.(fts5Hits := b), Some(listed), config).1.hits
  {
    HydratedMembers(call.fts5Hits, listed);
    forall a, b | a + b == call.fts5Hits
      ensures Hydrated(call.fts5Hits, listed) == Hydrated(a, listed) + Hydrated(b, listed)
    {
      HydratedConcat(a, b, listed);
    }
  }

  /**
   * Where a call goes that the cache does not answer: the text search suffices when it is
   * calibrated, found the wanted number, and its best score reaches seven tenths of the
   * calibrated one; then its first k hits are hydrated, else the vector search is asked for k.
   */
  lemma UncachedCallGoes(s: RouterState, q: Query, config: Config)
    requires q.bypassCache || q.key !in s.cache.values
    ensures var call := Begin(s, q, config).1;
            && Begin(s, q, config).0.cache == s.cache
            && (call.Hydrating? <==>
                0 < |q.fts5Hits| && q.k <= |q.fts5Hits| && config.fts5MaxBm25.Some?
                && 10.0 * q.fts5Hits[0].score >= 7.0 * config.fts5MaxBm25.value)
            && (call.Hydrating? ==> call.key == q.key && |call.fts5Hits| == q.k && call.fts5Hits <= q.fts5Hits)
            && (!call.Hydrating? ==> call == Searching(q.key, q.k))
  {}

  /** The vector search answers with its first k hits, all of them when there are fewer. */
  lemma SearchReply(s: RouterState, call: Call, found: seq<SearchHit>, config: Config)
    requires call.Searching?
    ensures var reply := EndSearch(s, call, found, config).1;
            && reply.Answered? && reply.tier == L2 && reply.hits <= found
            && |reply.hits| == if |found| < call.k then |found| else call.k
    ensures found == [] ==> EndSearch(s, call, found, config).0.cache == s.cache
  {}

  /** What a search or a hydration answered is what the next call with that key gets from the cache. */
  lemma AnswerIsRemembered(s: RouterState, call: Call, found: seq<SearchHit>, listed: set<string>, config: Config, q: Query)
    requires s.cache.Valid() && !q.bypassCache
    ensures call.Searching? && found != [] && q.key == call.key ==>
              var (t, reply) := EndSearch(s, call, found, config);
              Begin(t, q, config).1 == Answered(reply.hits, L0)
    ensures call.Hydrating? && q.key == call.key ==>
              var (t, reply) := EndHydration(s, call, Some(listed), config);
              Begin(t, q, config).1 == Answered(reply.hits, L0)
  {
    hide Stored, Promoted, Hydrated, L1Suffices;
    if call.Searching? {
      TouchValues(s.cache, call.key, CacheEntry(call.key, Take(found, call.k), L2), config.cacheSize);
    } else if call.Hydrating? {
      TouchValues(s.cache, call.key, CacheEntry(call.key, Hydrated(call.fts5Hits, listed), L1), config.cacheSize);
    }
  }

  class TieredRouter {
    const config: Config
    const cacheMap: JsMap<Key, CacheEntry>
    var totalQueries: nat
    var l0Hits: nat
    var l0Misses: nat
    var l1Hits: nat
    var l1Misses: nat
    var l2Hits: nat
    var l2Misses: nat

    ghost predicate Valid()
      reads this, cacheMap
    {
      cacheMap.Valid()
    }

    ghost function State(): RouterState
      reads this, cacheMap
    {
      RouterState(cacheMap.View(), Counters(totalQueries, l0Hits, l0Misses, l1Hits, l1Misses, l2Hits, l2Misses))
    }

    constructor (config: Config)
      ensures Valid() && this.config == config && fresh(cacheMap)
      ensures State() == RouterState(OrderedMap([], map[]), Counters(0, 0, 0, 0, 0, 0, 0))
    {
      this.config := config;
      cacheMap := new JsMap();
      totalQueries, l0Hits, l0Misses, l1Hits, l1Misses, l2Hits, l2Misses := 0, 0, 0, 0, 0, 0, 0;
    }

    /** Move a cached entry to the recent end: delete, then set again. */
    method Promote(key: Key)
      requires Valid() && key in cacheMap.values
      modifies cacheMap
      ensures Valid() && cacheMap.View() == Promoted(old(cacheMap.View()), key)
    {
      var cached := cacheMap.values[key];
      cacheMap.Delete(key);
      cacheMap.Set(key, cached);
    }

    method CacheResult(key: Key, hits: seq<SearchHit>, tier: Tier)
      requires Valid()
      modifies cacheMap
      ensures Valid() && State() == Cached(old(State()), key, hits, tier, config)
    {
      if key in cacheMap.values {
        cacheMap.Delete(key);
      } else if cacheMap.Size() >= config.cacheSize {
        if cacheMap.Size() > 0 {
          cacheMap.Delete(cacheMap.keys[0]);
        }
      }
      cacheMap.Set(key, CacheEntry(key, hits, tier));
    }

    method RouteUntilAwait(q: Query) returns (call: Call)
      requires Valid()
      modifies this, cacheMap
      ensures Valid() && (State(), call) == Begin(old(State()), q, config)
    {
      totalQueries := totalQueries + 1;
      if !q.bypassCache {
        if q.key in cacheMap.values {
          var cached := cacheMap.values[q.key];
          l0Hits := l0Hits + 1;
          Promote(q.key);
          return Answered(cached.hits, L0);
        }
        l0Misses := l0Misses + 1;
      }
      if L1Suffices(q, config) {
        l1Hits := l1Hits + 1;
        return Hydrating(q.key, Take(q.fts5Hits, q.k));
      }
      l1Misses := l1Misses + 1;
      return Searching(q.key, q.k);
    }

    method RouteAfterHydration(call: Call, listed: Option<set<string>>) returns (reply: Call)
      requires Valid() && call.Hydrating?
      modifies this, cacheMap
      ensures Valid() && (State(), reply) == EndHydration(old(State()), call, listed, config)
    {
      if listed.None? {
        return Rejected;
      }
      var hits := Hydrated(call.fts5Hits, listed.value);
      CacheResult(call.key, hits, L1);
      return Answered(hits, L1);
    }

    method RouteAfterSearch(call: Call, found: seq<SearchHit>) returns (reply: Call)
      requires Valid() && call.Searching?
      modifies this, cacheMap
      ensures Valid() && (State(), reply) == EndSearch(old(State()), call, found, config)
    {
      if |found| > 0 {
        l2Hits := l2Hits + 1;
        var hits := Take(found, call.k);
        CacheResult(call.key, hits, L2);
        return Answered(hits, L2);
      }
      l2Misses := l2Misses + 1;
      return Answered([], L2);
    }

    method PeekCache(key: Key) returns (hits: Option<seq<SearchHit>>)
      requires Valid()
      modifies this, cacheMap
      ensures Valid() && (State(), hits) == Peeked(old(State()), key)
    {
      if key !in cacheMap.values {
        return None;
      }
      var cached := cacheMap.values[key];
      l0Hits := l0Hits + 1;
      Promote(key);
      return Some(cached.hits);
    }

    method ClearCache()
      requires Valid()
      modifies cacheMap
      ensures Valid() && State() == old(State()).(cache := OrderedMap([], map[]))
    {
      cacheMap.Clear();
    }
  }

  // ----- Every interleaving ------------------------------------------------

  /** What the host may do next; a suspended call is picked by its position. */
  datatype Step =
    | Start(q: Query)
    | HydrationDone(i: nat, listed: Option<set<string>>)
    | SearchDone(i: nat, found: seq<SearchHit>)
    | Peek(key: Key)
    | ClearCache

  /** The router, its suspended calls, and a history of what has touched the cache. */
  datatype World = World(
    s: RouterState,
    suspended: seq<Call>,
    routedL0: nat,
    peeked: nat,
    bypassed: nat,
    log: seq<Touch<Key, CacheEntry>>)

  const INITIAL := World(RouterState(OrderedMap([], map[]), Counters(0, 0, 0, 0, 0, 0, 0)), [], 0, 0, 0, [])

  function Next(w: World, step: Step, config: Config): World {
    match step
    case Start(q) =>
      var (s, call) := Begin(w.s, q, config);
      var bypassed := w.bypassed + if q.bypassCache then 1 else 0;
      if call.Answered? then w.(s := s, routedL0 := w.routedL0 + 1, log := w.log + [Hit(q.key)])
      else w.(s := s, suspended := w.suspended + [call], bypassed := bypassed)
    case HydrationDone(i, listed) =>
      if i < |w.suspended| && w.suspended[i].Hydrating? then
        var call := w.suspended[i];
        var (s, reply) := EndHydration(w.s, call, listed, config);
        w.(s := s, suspended := w.suspended[..i] + w.suspended[i + 1..],
           log := if listed.None? then w.log else w.log + [Store(call.key, CacheEntry(call.key, reply.hits, L1))])
      else w
    case SearchDone(i, found) =>
      if i < |w.suspended| && w.suspended[i].Searching? then
        var call := w.suspended[i];
        var (s, reply) := EndSearch(w.s, call, found, config);
        w.(s := s, suspended := w.suspended[..i] + w.suspended[i + 1..],
           log := if found == [] then w.log else w.log + [Store(call.key, CacheEntry(call.key, reply.hits, L2))])
      else w
    case Peek(key) =>
      var (s, hits) := Peeked(w.s, key);
      if hits.None? then w else w.(s := s, peeked := w.peeked + 1, log := w.log + [Hit(key)])
    case ClearCache => w.(s := w.s.(cache := OrderedMap([], map[])), log := [])
  }

  function RunAll(steps: seq<Step>, config: Config): World {
    if steps == [] then INITIAL
    else Next(RunAll(steps[..|steps| - 1], config), steps[|steps| - 1], config)
  }

  function SearchesIn(calls: seq<Call>): nat {
    if calls == [] then 0 else (if calls[0].Searching? then 1 else 0) + SearchesIn(calls[1..])
  }

  lemma {:induction false} SearchesConcat(a: seq<Call>, b: seq<Call>)
    ensures SearchesIn(a + b) == SearchesIn(a) + SearchesIn(b)
  {
    if a == [] {
      assert a + b == b;
    } else {
      assert (a + b)[1..] == a[1..] + b;
      SearchesConcat(a[1..], b);
    }
  }

  lemma SearchesWithout(calls: seq<Call>, i: nat)
    requires i < |calls|
    ensures SearchesIn(calls) == SearchesIn(calls[..i] + calls[i + 1..]) + if calls[i].Searching? then 1 else 0
  {
    hide SearchesIn;
    var a, one, b := calls[..i], [calls[i]], calls[i + 1..];
    SearchesOfOne(calls[i]);
    SearchesAround(a, one, b);
    assert calls == a + (one + b);
  }

  lemma SearchesOfOne(call: Call)
    ensures SearchesIn([call]) == if call.Searching? then 1 else 0
  {
    assert [call][1..] == [];
  }

  lemma SearchesAround(a: seq<Call>, one: seq<Call>, b: seq<Call>)
    ensures SearchesIn(a + (one + b)) == SearchesIn(a + b) + SearchesIn(one)
  {
    hide SearchesIn;
    SearchesConcat(a, one + b);
    SearchesConcat(one, b);
    SearchesConcat(a, b);
  }

  /** The books balance at an await point: every query is accounted for by exactly one tier. */
  ghost predicate Balanced(w: World) {
    var n := w.s.n;
    && n.totalQueries == w.routedL0 + n.l1Hits + n.l1Misses
    && n.l1Misses == n.l2Hits + n.l2Misses + SearchesIn(w.suspended)
    && n.l0Hits == w.routedL0 + w.peeked
    && n.totalQueries == w.routedL0 + n.l0Misses + w.bypassed
  }

  lemma NextKeepsBalance(w: World, step: Step, config: Config)
    requires Balanced(w)
    ensures Balanced(Next(w, step, config))
  {
    hide Stored, Promoted, Hydrated;
    match step
    case Start(q) =>
      var call := Begin(w.s, q, config).1;
      SearchesConcat(w.suspended, [call]);
    case HydrationDone(i, _) =>
      if i < |w.suspended| {
        SearchesWithout(w.suspended, i);
      }
    case SearchDone(i, _) =>
      if i < |w.suspended| {
        SearchesWithout(w.suspended, i);
      }
    case Peek(_) =>
    case ClearCache =>
  }

  lemma NextKeepsRecent(w: World, step: Step, config: Config)
    requires HoldsRecent(w.s.cache, w.log, config.cacheSize)
    ensures var next := Next(w, step, config); HoldsRecent(next.s.cache, next.log, config.cacheSize)
  {
    hide HoldsRecent, Stored, Promoted, Hydrated;
    match step
    case Start(q) =>
      if Begin(w.s, q, config).1.Answered? {
        HitKeepsRecent(w.s.cache, w.log, config.cacheSize, q.key);
      }
    case HydrationDone(i, listed) =>
      if i < |w.suspended| && w.suspended[i].Hydrating? && listed.Some? {
        var call := w.suspended[i];
        var hits := EndHydration(w.s, call, listed, config).1.hits;
        StoreKeepsRecent(w.s.cache, w.log, config.cacheSize, call.key, CacheEntry(call.key, hits, L1));
      }
    case SearchDone(i, found) =>
      if i < |w.suspended| && w.suspended[i].Searching? && found != [] {
        var call := w.suspended[i];
        StoreKeepsRecent(w.s.cache, w.log, config.cacheSize, call.key, CacheEntry(call.key, Take(found, call.k), L2));
      }
    case Peek(key) =>
      if key in w.s.cache.values {
        HitKeepsRecent(w.s.cache, w.log, config.cacheSize, key);
      }
    case ClearCache => EmptyHoldsRecent(config.cacheSize);
  }

  lemma EmptyHoldsRecent(cacheSize: int)
    ensures HoldsRecent<Key, CacheEntry>(OrderedMap([], map[]), [], cacheSize)
  {}

  /**
   * In every interleaving of concurrent calls, peeks and clears, at every await point the
   * counters balance and the cache holds exactly the most recently touched keys.
   */
  lemma {:induction false} EveryInterleaving(steps: seq<Step>, config: Config)
    ensures var w := RunAll(steps, config); Balanced(w) && HoldsRecent(w.s.cache, w.log, config.cacheSize)
  {
    if steps == [] {
      EmptyHoldsRecent(config.cacheSize);
    } else {
      var before := RunAll(steps[..|steps| - 1], config);
      EveryInterleaving(steps[..|steps| - 1], config);
      NextKeepsBalance(before, steps[|steps| - 1], config);
      NextKeepsRecent(before, steps[|steps| - 1], config);
    }
  }

  /**
   * In every interleaving, a call is answered from the cache if and only if it does not bypass it,
   * its key has been touched, and fewer distinct other keys than the capacity since then.
   */
  lemma CacheAnswersIff(steps: seq<Step>, config: Config, q: Query)
    ensures var w := RunAll(steps, config);
            Begin(w.s, q, config).1.Answered? <==>
            && !q.bypassCache
            && (exists i :: 0 <= i < |w.log| && w.log[i].key == q.key)
            && |TouchedSince(w.log, q.key)| < Capacity(config.cacheSize)
  {
    hide Promoted, HoldsRecent, RunAll, Balanced, TouchedSince;
    EveryInterleaving(steps, config);
    var w := RunAll(steps, config);
    HeldIffFewTouchedSince(w.s.cache, w.log, config.cacheSize, q.key);
  }

  /** A cache answer is the result last stored under that key, whatever ran in between. */
  lemma CacheAnswersAreLastStored(steps: seq<Step>, config: Config, q: Query)
    ensures var w := RunAll(steps, config);
            var call := Begin(w.s, q, config).1;
            call.Answered? ==>
              !q.bypassCache && q.key in LastStored(w.log) && call.hits == LastStored(w.log)[q.key].hits
  {
    hide Promoted, HoldsRecent, LastStored, RunAll, Balanced;
    var w := RunAll(steps, config);
    EveryInterleaving(steps, config);
    if !q.bypassCache && q.key in w.s.cache.values {
      HeldIsLastStored(w.s.cache, w.log, config.cacheSize, q.key);
    }
  }
}
