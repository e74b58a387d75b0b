/**
 * Least-recently-used eviction on an insertion-ordered map, as the router's result cache does it
 * (src/tieredRouter.ts), and why the cache always holds the most recently touched keys.
 */
module Lru {
  import opened JsMaps
  import opened Windows

  /** The number of entries the cache can hold: inserting never leaves it empty. */
  function Capacity(cacheSize: int): (c: nat)
    ensures c >= 1
  {
    if cacheSize >= 1 then cacheSize else 1
  }

  /** A hit moves the entry to the recent end: delete, then set again. */
  function Promoted<K, V>(m: OrderedMap<K, V>, k: K): OrderedMap<K, V>
    requires k in m.values
  {
    m.Deleted(k).Updated(k, m.values[k])
  }

  /** Room for key `k`: drop its old entry, or else the oldest one when the cache is full. */
  function Evicted<K, V>(m: OrderedMap<K, V>, k: K, cacheSize: int): OrderedMap<K, V> {
    if k in m.values then m.Deleted(k)
    else if |m.keys| >= cacheSize && |m.keys| > 0 then m.Deleted(m.keys[0])
    else m
  }

  function Stored<K, V>(m: OrderedMap<K, V>, k: K, v: V, cacheSize: int): OrderedMap<K, V> {
    Evicted(m, k, cacheSize).Updated(k, v)
  }

  // ----- The reference: a log of touches -----------------------------------

  datatype Touch<K, V> = Hit(key: K) | Store(key: K, value: V)

  /** The distinct keys of the log in order of their last touch. */
  function Recent<K(==, !new), V>(log: seq<Touch<K, V>>): (ks: seq<K>)
    ensures Distinct(ks) && |ks| <= |log|
    ensures forall k :: k in ks <==> exists i :: 0 <= i < |log| && log[i].key == k
  {
    if log == [] then []
    else
      var k := log[|log| - 1].key;
      var before := Recent(log[..|log| - 1]);
      RemoveKeepsOthers(before, k);
      Remove(before, k) + [k]
  }

  /** The value last stored for every key. */
  function LastStored<K, V>(log: seq<Touch<K, V>>): map<K, V> {
    if log == [] then map[]
    else
      var before := LastStored(log[..|log| - 1]);
      match log[|log| - 1]
      case Hit(_) => before
      case Store(k, v) => before[k := v]
  }

  /** The keys touched after the last touch of `k`. */
  function TouchedSince<K(==, !new), V>(log: seq<Touch<K, V>>, k: K): set<K> {
    if log == [] || log[|log| - 1].key == k then {}
    else TouchedSince(log[..|log| - 1], k) + {log[|log| - 1].key}
  }

  /** The cache holds exactly the most recently touched keys, in order, with their last values. */
  ghost predicate HoldsRecent<K(!new), V>(m: OrderedMap<K, V>, log: seq<Touch<K, V>>, cacheSize: int) {
    && m.Valid()
    && m.keys == LastN(Recent(log), Capacity(cacheSize))
    && forall k :: k in m.keys ==> k in LastStored(log) && m.values[k] == LastStored(log)[k]
  }

  lemma LastNDistinct<K>(s: seq<K>, n: nat)
    requires Distinct(s)
    ensures Distinct(LastN(s, n))
  {}

  /** Touching a key in the full order shows in the last `c` keys as a move or an eviction. */
  lemma TouchLastN<K>(s: seq<K>, k: K, c: nat)
    requires Distinct(s) && c >= 1
    ensures LastN(Remove(s, k) + [k], c) == Touched(LastN(s, c), k, c)
  {
    if k in s {
      var i :| 0 <= i < |s| && s[i] == k;
      hide Remove, LastN, Touched, Distinct;
      TouchAt(s, i, c);
    } else {
      TouchNew(s, k, c);
    }
  }

  lemma TouchNew<K>(s: seq<K>, k: K, c: nat)
    requires k !in s && c >= 1
    ensures LastN(Remove(s, k) + [k], c) == Touched(LastN(s, c), k, c)
  {
    hide Remove, LastN;
    assert Remove(s, k) == s;
    WindowStep(s, k, c);
    LastNSlice(s, c);
    assert k !in LastN(s, c);
  }

  function Touched<K(==)>(w: seq<K>, k: K, c: nat): seq<K> {
    (if k in w then Remove(w, k) else if |w| >= c > 0 then w[1..] else w) + [k]
  }

  lemma TouchAt<K>(s: seq<K>, i: nat, c: nat)
    requires Distinct(s) && c >= 1 && i < |s|
    ensures LastN(Remove(s, s[i]) + [s[i]], c) == Touched(LastN(s, c), s[i], c)
  {
    if i >= |s| - |LastN(s, c)| {
      TouchInside(s, i, c);
    } else {
      TouchInto(s, i, c);
    }
  }

  lemma TouchInside<K>(s: seq<K>, i: nat, c: nat)
    requires Distinct(s) && c >= 1 && |s| - |LastN(s, c)| <= i < |s|
    ensures LastN(Remove(s, s[i]) + [s[i]], c) == Touched(LastN(s, c), s[i], c)
  {
    hide Distinct, Remove, LastN, Touched;
    var cut := if |s| <= c then 0 else |s| - c;
    LastNSlice(s, c);
    LastNSlice(s[..i] + s[i + 1..] + [s[i]], c);
    RemoveAt(s, i);
    MoveInside(s, i, cut);
    LastNDistinct(s, c);
    SuffixMembers(s, cut, i);
    TouchedInside(s[cut..], i - cut, c);
  }

  lemma TouchedInside<K>(w: seq<K>, j: nat, c: nat)
    requires Distinct(w) && j < |w|
    ensures Touched(w, w[j], c) == w[..j] + w[j + 1..] + [w[j]]
  {
    RemoveAt(w, j);
  }

  lemma TouchInto<K>(s: seq<K>, i: nat, c: nat)
    requires Distinct(s) && c >= 1 && i < |s| - |LastN(s, c)|
    ensures LastN(Remove(s, s[i]) + [s[i]], c) == Touched(LastN(s, c), s[i], c)
  {
    hide Distinct, Remove;
    var cut := |s| - c;
    RemoveAt(s, i);
    SuffixMembers(s, cut, i);
    MoveInto(s, i, cut);
  }

  lemma MoveInside<K>(s: seq<K>, i: nat, cut: nat)
    requires cut <= i < |s|
    ensures (s[..i] + s[i + 1..] + [s[i]])[cut..] == s[cut..][..i - cut] + s[cut..][i - cut + 1..] + [s[i]]
  {
    assert s[cut..][..i - cut] == s[..i][cut..] && s[cut..][i - cut + 1..] == s[i + 1..];
  }

  lemma MoveInto<K>(s: seq<K>, i: nat, cut: nat)
    requires i < cut < |s|
    ensures (s[..i] + s[i + 1..] + [s[i]])[cut..] == s[cut..][1..] + [s[i]]
  {}

  lemma SuffixMembers<K>(s: seq<K>, cut: nat, i: nat)
    requires Distinct(s) && cut <= |s| && i < |s|
    ensures s[i] in s[cut..] <==> i >= cut
    ensures i >= cut ==> s[cut..][i - cut] == s[i]
  {}

  /** The keys of the cache after a touch, whether it is a hit or a store. */
  lemma TouchKeys<K, V>(m: OrderedMap<K, V>, k: K, v: V, cacheSize: int)
    requires m.Valid() && |m.keys| <= Capacity(cacheSize)
    ensures Stored(m, k, v, cacheSize).Valid() && Stored(m, k, v, cacheSize).keys == Touched(m.keys, k, Capacity(cacheSize))
    ensures k in m.values ==> Promoted(m, k).Valid() && Promoted(m, k).keys == Touched(m.keys, k, Capacity(cacheSize))
  {
    assert k in m.values <==> k in SetOf(m.keys);
    DeletedValid(m, k);
    RemoveKeepsOthers(m.keys, k);
    var e := Evicted(m, k, cacheSize);
    if k !in m.values && |m.keys| >= cacheSize && |m.keys| > 0 {
      DeletedValid(m, m.keys[0]);
    }
    UpdatedValid(e, k, v);
    assert k !in SetOf(e.keys);
    if k in m.values {
      UpdatedValid(m.Deleted(k), k, m.values[k]);
    }
  }

  /** A touch changes only the value of the touched key. */
  lemma TouchValues<K, V>(m: OrderedMap<K, V>, k: K, v: V, cacheSize: int)
    requires m.Valid()
    ensures var s := Stored(m, k, v, cacheSize).values;
            k in s && s[k] == v && forall x :: x in s && x != k ==> x in m.values && s[x] == m.values[x]
    ensures k in m.values ==> Promoted(m, k).values == m.values
  {
    assert k in m.values ==> m.values - {k} + map[k := m.values[k]] == m.values;
  }

  lemma LastKeyRecent<K(!new), V>(log: seq<Touch<K, V>>, t: Touch<K, V>)
    ensures Recent(log + [t]) == Remove(Recent(log), t.key) + [t.key]
    ensures LastStored(log + [t]) == if t.Hit? then LastStored(log) else LastStored(log)[t.key := t.value]
  {
    assert (log + [t])[..|log|] == log;
  }

  lemma StoreKeepsRecent<K(!new), V>(m: OrderedMap<K, V>, log: seq<Touch<K, V>>, cacheSize: int, k: K, v: V)
    requires HoldsRecent(m, log, cacheSize)
    ensures HoldsRecent(Stored(m, k, v, cacheSize), log + [Store(k, v)], cacheSize)
  {
    hide Stored, Evicted, Promoted, Recent, LastStored, Remove, Distinct;
    LastKeyRecent(log, Store(k, v));
    TouchLastN(Recent(log), k, Capacity(cacheSize));
    TouchKeys(m, k, v, cacheSize);
    TouchValues(m, k, v, cacheSize);
    KeysAreValues(m);
    KeysAreValues(Stored(m, k, v, cacheSize));
  }

  lemma HitKeepsRecent<K(!new), V>(m: OrderedMap<K, V>, log: seq<Touch<K, V>>, cacheSize: int, k: K)
    requires HoldsRecent(m, log, cacheSize) && k in m.values
    ensures HoldsRecent(Promoted(m, k), log + [Hit(k)], cacheSize)
  {
    hide Stored, Evicted, Promoted, Recent, LastStored, Remove, Distinct;
    LastKeyRecent(log, Hit(k));
    TouchLastN(Recent(log), k, Capacity(cacheSize));
    TouchKeys(m, k, m.values[k], cacheSize);
    TouchValues(m, k, m.values[k], cacheSize);
    KeysAreValues(m);
    KeysAreValues(Promoted(m, k));
  }

  lemma HeldIsLastStored<K(!new), V>(m: OrderedMap<K, V>, log: seq<Touch<K, V>>, cacheSize: int, k: K)
    requires HoldsRecent(m, log, cacheSize) && k in m.values
    ensures k in LastStored(log) && m.values[k] == LastStored(log)[k]
  {
    hide LastStored, Recent, LastN;
    KeysAreValues(m);
  }

  // ----- Any trace ---------------------------------------------------------

  datatype Event<K, V> = Find(key: K) | Insert(key: K, value: V) | Clear

  datatype Trace<K(==), V> = Trace(cache: OrderedMap<K, V>, log: seq<Touch<K, V>>)

  function After<K, V>(t: Trace<K, V>, e: Event<K, V>, cacheSize: int): Trace<K, V> {
    match e
    case Find(k) => if k in t.cache.values then Trace(Promoted(t.cache, k), t.log + [Hit(k)]) else t
    case Insert(k, v) => Trace(Stored(t.cache, k, v, cacheSize), t.log + [Store(k, v)])
    case Clear => Trace(OrderedMap([], map[]), [])
  }

  function AfterAll<K, V>(events: seq<Event<K, V>>, cacheSize: int): Trace<K, V> {
    if events == [] then Trace(OrderedMap([], map[]), [])
    else After(AfterAll(events[..|events| - 1], cacheSize), events[|events| - 1], cacheSize)
  }

  lemma {:induction false} CacheIsRecent<K(!new), V>(events: seq<Event<K, V>>, cacheSize: int)
    ensures var t := AfterAll(events, cacheSize); HoldsRecent(t.cache, t.log, cacheSize)
  {
    if events != [] {
      var before := AfterAll(events[..|events| - 1], cacheSize);
      CacheIsRecent(events[..|events| - 1], cacheSize);
      match events[|events| - 1]
      case Find(k) =>
        if k in before.cache.values {
          HitKeepsRecent(before.cache, before.log, cacheSize, k);
        }
      case Insert(k, v) => StoreKeepsRecent(before.cache, before.log, cacheSize, k, v);
      case Clear =>
    }
  }

  /** In the full order, the keys behind a key are those touched since. */
  lemma {:induction false} RecentAfter<K(!new), V>(log: seq<Touch<K, V>>, i: nat)
    requires i < |Recent(log)|
    ensures TouchedSince(log, Recent(log)[i]) == SetOf(Recent(log)[i + 1..])
  {
    hide Distinct, Remove, SetOf;
    var n := |log| - 1;
    var last := log[n].key;
    var before := Recent(log[..n]);
    var ks := Recent(log);
    assert ks == Remove(before, last) + [last];
    RemoveKeepsOthers(before, last);
    if i < |ks| - 1 {
      var k := Remove(before, last)[i];
      assert k in Remove(before, last);
      var j :| 0 <= j < |before| && before[j] == k;
      RecentAfter(log[..n], j);
      BehindAfterTouch(before, j, last, i);
    } else {
      NothingBehind(ks);
    }
  }

  lemma NothingBehind<K>(ks: seq<K>)
    ensures SetOf(ks[|ks|..]) == {}
  {}

  lemma BehindAfterTouch<K>(ks: seq<K>, j: nat, last: K, i: nat)
    requires Distinct(ks) && j < |ks| && ks[j] != last
    requires i < |Remove(ks, last)| && Remove(ks, last)[i] == ks[j]
    ensures SetOf(ks[j + 1..]) + {last} == SetOf((Remove(ks, last) + [last])[i + 1..])
  {
    hide Remove;
    var r := Remove(ks, last);
    assert (r + [last])[i + 1..] == r[i + 1..] + [last];
    if l :| 0 <= l < |ks| && ks[l] == last {
      RemoveAt(ks, l);
      BehindAfterMove(ks, j, l, r, i);
    } else {
      assert last !in ks && r == ks && i == j;
    }
  }

  lemma BehindAfterMove<K>(ks: seq<K>, j: nat, l: nat, r: seq<K>, i: nat)
    requires Distinct(ks) && j < |ks| && l < |ks| && j != l
    requires r == ks[..l] + ks[l + 1..] && i < |r| && r[i] == ks[j]
    ensures SetOf(ks[j + 1..]) + {ks[l]} == SetOf(r[i + 1..] + [ks[l]])
  {
    assert i == if j < l then j else j - 1 by {
      assert r[if j < l then j else j - 1] == ks[j];
      assert ks[if i < l then i else i + 1] == r[i];
    }
    if j < l {
      assert r[i + 1..] == ks[j + 1..l] + ks[l + 1..];
      assert ks[j + 1..] == ks[j + 1..l] + [ks[l]] + ks[l + 1..];
    } else {
      assert r[i + 1..] == ks[j + 1..];
    }
  }

  lemma {:induction false} DistinctCount<K>(ks: seq<K>)
    requires Distinct(ks)
    ensures |SetOf(ks)| == |ks|
  {
    if ks != [] {
      DistinctCount(ks[1..]);
      assert SetOf(ks) == {ks[0]} + SetOf(ks[1..]);
    }
  }

  /** A key is held exactly when it was touched, and few enough others since. */
  lemma HeldIffFewTouchedSince<K(!new), V>(m: OrderedMap<K, V>, log: seq<Touch<K, V>>, cacheSize: int, k: K)
    requires HoldsRecent(m, log, cacheSize)
    ensures k in m.values <==>
            (exists i :: 0 <= i < |log| && log[i].key == k) && |TouchedSince(log, k)| < Capacity(cacheSize)
  {
    hide Recent, LastStored, LastN;
    KeysAreValues(m);
    var ks := Recent(log);
    if k in ks {
      var i :| 0 <= i < |ks| && ks[i] == k;
      RecentAfter(log, i);
      DistinctCount(ks[i + 1..]);
      InWindowIff(ks, Capacity(cacheSize), i);
    } else {
      LastNSlice(ks, Capacity(cacheSize));
    }
  }

  /**
   * After any trace, a key is cached exactly when it has been touched and fewer distinct other
   * keys than the capacity have been touched since.
   */
  lemma CachedIffFewTouchedSince<K(!new), V>(events: seq<Event<K, V>>, cacheSize: int, k: K)
    ensures var t := AfterAll(events, cacheSize);
            k in t.cache.values <==>
            (exists i :: 0 <= i < |t.log| && t.log[i].key == k) && |TouchedSince(t.log, k)| < Capacity(cacheSize)
  {
    hide After, HoldsRecent, TouchedSince;
    CacheIsRecent(events, cacheSize);
    var t := AfterAll(events, cacheSize);
    HeldIffFewTouchedSince(t.cache, t.log, cacheSize, k);
  }

  lemma InWindowIff<K>(ks: seq<K>, c: nat, i: nat)
    requires Distinct(ks) && i < |ks|
    ensures ks[i] in LastN(ks, c) <==> |ks| - i <= c
  {
    LastNSlice(ks, c);
    SuffixMembers(ks, if |ks| <= c then 0 else |ks| - c, i);
  }

  // ----- Inclusion ---------------------------------------------------------

  /** An access looks a key up and stores the fetched value on a miss. */
  function Access<K, V>(m: OrderedMap<K, V>, k: K, fetched: V, cacheSize: int): OrderedMap<K, V> {
    if k in m.values then Promoted(m, k) else Stored(m, k, fetched, cacheSize)
  }

  function AccessAll<K, V>(accesses: seq<(K, V)>, cacheSize: int): OrderedMap<K, V> {
    if accesses == [] then OrderedMap([], map[])
    else
      var n := |accesses| - 1;
      Access(AccessAll(accesses[..n], cacheSize), accesses[n].0, accesses[n].1, cacheSize)
  }

  function Hits<K, V>(accesses: seq<(K, V)>): seq<Touch<K, V>> {
    seq(|accesses|, i requires 0 <= i < |accesses| => Hit(accesses[i].0))
  }

  lemma AccessKeys<K, V>(m: OrderedMap<K, V>, k: K, fetched: V, cacheSize: int)
    requires m.Valid() && |m.keys| <= Capacity(cacheSize)
    ensures Access(m, k, fetched, cacheSize).Valid()
    ensures Access(m, k, fetched, cacheSize).keys == Touched(m.keys, k, Capacity(cacheSize))
  {
    hide Stored, Promoted, Touched;
    TouchKeys(m, k, fetched, cacheSize);
  }

  lemma {:induction false} AccessesHoldRecent<K(!new), V>(accesses: seq<(K, V)>, cacheSize: int)
    ensures AccessAll(accesses, cacheSize).Valid()
    ensures AccessAll(accesses, cacheSize).keys == LastN(Recent(Hits(accesses)), Capacity(cacheSize))
  {
    hide Access, Recent, Touched;
    if accesses != [] {
      var n := |accesses| - 1;
      AccessesHoldRecent(accesses[..n], cacheSize);
      var m := AccessAll(accesses[..n], cacheSize);
      var k := accesses[n].0;
      assert Hits(accesses) == Hits<K, V>(accesses[..n]) + [Hit(k)];
      LastKeyRecent(Hits<K, V>(accesses[..n]), Hit(k));
      TouchLastN(Recent(Hits(accesses[..n])), k, Capacity(cacheSize));
      AccessKeys(m, k, accesses[n].1, cacheSize);
    }
  }

  /** A smaller cache holds the most recent part of what a larger one holds, after any accesses. */
  lemma SmallerCacheIncluded<K(!new), V>(accesses: seq<(K, V)>, small: int, large: int)
    requires small <= large
    ensures AccessAll(accesses, small).keys == LastN(AccessAll(accesses, large).keys, Capacity(small))
    ensures forall k :: k in AccessAll(accesses, small).values ==> k in AccessAll(accesses, large).values
  {
    hide AccessAll, Recent, Distinct;
    AccessesHoldRecent(accesses, small);
    AccessesHoldRecent(accesses, large);
    KeysAreValues(AccessAll(accesses, small));
    KeysAreValues(AccessAll(accesses, large));
  }
}
