/**
 * Pruning of obsolete file reads (src/supersede.ts). How a message relates to file paths is
 * decided by regular expressions there; here it is a function from a message to its paths and
 * the one kind of operation they share.
 */
module Superseding {
  import opened Messages

  datatype Path = Path(name: string)

  /** The paths a message names, in order and with repeats, all read or all written. */
  datatype FileOps = FileOps(paths: seq<Path>, isWrite: bool)

  type Classifier = EngineMessage -> FileOps

  predicate Names(ops: Classifier, m: EngineMessage, p: Path) {
    p in ops(m).paths
  }

  predicate Reads(ops: Classifier, m: EngineMessage, p: Path) {
    !ops(m).isWrite && Names(ops, m, p)
  }

  predicate Writes(ops: Classifier, m: EngineMessage, p: Path) {
    ops(m).isWrite && Names(ops, m, p)
  }

  function TimesNamed(paths: seq<Path>, p: Path): (n: nat)
    ensures n > 0 <==> p in paths
  {
    if paths == [] then 0
    else
      var last := |paths| - 1;
      TimesNamed(paths[..last], p) + if paths[last] == p then 1 else 0
  }

  /** Some message of `ms` names the path. */
  ghost predicate Mentioned(ops: Classifier, ms: seq<EngineMessage>, p: Path) {
    exists i :: 0 <= i < |ms| && Names(ops, ms[i], p)
  }

  /** Message `i` reads a path that a later message names, or that it names twice itself. */
  ghost predicate ObsoleteFor(ops: Classifier, ms: seq<EngineMessage>, i: nat, p: Path)
    requires i < |ms|
  {
    Reads(ops, ms[i], p) && (TimesNamed(ops(ms[i]).paths, p) >= 2 || Mentioned(ops, ms[i + 1..], p))
  }

  ghost predicate Obsolete(ops: Classifier, ms: seq<EngineMessage>, i: nat)
    requires i < |ms|
  {
    exists p :: ObsoleteFor(ops, ms, i, p)
  }

  // ----- The search --------------------------------------------------------

  /** The last index below `n` that writes path `p`, or -1. */
  ghost function LastWrite(ops: Classifier, ms: seq<EngineMessage>, n: nat, p: Path): (w: int)
    requires n <= |ms|
    ensures -1 <= w < n
    ensures w >= 0 ==> Writes(ops, ms[w], p)
    ensures forall i :: w < i < n ==> !Writes(ops, ms[i], p)
  {
    if n == 0 then -1
    else if Writes(ops, ms[n - 1], p) then n - 1
    else LastWrite(ops, ms, n - 1, p)
  }

  /** The indexes below `n` that read path `p`, one entry per naming. */
  ghost function ReadLog(ops: Classifier, ms: seq<EngineMessage>, n: nat, p: Path): (log: seq<nat>)
    requires n <= |ms|
  {
    if n == 0 then []
    else ReadLog(ops, ms, n - 1, p) + Repeated(if ops(ms[n - 1]).isWrite then 0 else TimesNamed(ops(ms[n - 1]).paths, p), n - 1)
  }

  function Repeated(times: nat, i: nat): (r: seq<nat>)
    ensures |r| == times && forall k :: 0 <= k < times ==> r[k] == i
    ensures forall x :: x in r <==> times > 0 && x == i
  {
    if times == 0 then [] else [i] + Repeated(times - 1, i)
  }

  ghost predicate AllButLast(log: seq<nat>, i: nat) {
    |log| > 1 && i in log[..|log| - 1]
  }

  lemma {:induction false} ReadLogMembers(ops: Classifier, ms: seq<EngineMessage>, n: nat, p: Path)
    requires n <= |ms|
    ensures forall i: nat :: i in ReadLog(ops, ms, n, p) <==> i < n && Reads(ops, ms[i], p)
  {
    if n > 0 {
      ReadLogMembers(ops, ms, n - 1, p);
    }
  }

  /** An index is in the log but not last there when it is read again later, or named twice. */
  lemma {:induction false} NotLastInLog(ops: Classifier, ms: seq<EngineMessage>, n: nat, p: Path, i: nat)
    requires n <= |ms|
    ensures AllButLast(ReadLog(ops, ms, n, p), i) <==>
            i < n && Reads(ops, ms[i], p) &&
            (TimesNamed(ops(ms[i]).paths, p) >= 2 || exists r :: i < r < n && Reads(ops, ms[r], p))
  {
    hide AllButLast, Repeated, TimesNamed;
    if n == 0 {
      NotLastInNothing(i);
    } else {
      NotLastInLog(ops, ms, n - 1, p, i);
      ReadLogMembers(ops, ms, n - 1, p);
      var before := ReadLog(ops, ms, n - 1, p);
      if Reads(ops, ms[n - 1], p) {
        EntriesBeforeLast(before, TimesNamed(ops(ms[n - 1]).paths, p), n - 1, i);
      } else {
        assert Repeated(0, n - 1) == [];
        assert ReadLog(ops, ms, n, p) == before;
      }
    }
  }

  lemma NotLastInNothing(i: nat)
    ensures !AllButLast([], i)
  {}

  /** All but the last entry, when the last naming message is logged `times` times. */
  lemma EntriesBeforeLast(before: seq<nat>, times: nat, last: nat, i: nat)
    requires times > 0
    ensures AllButLast(before + Repeated(times, last), i) <==> i in before || (i == last && times >= 2)
  {
    var log := before + Repeated(times, last);
    assert log[..|log| - 1] == before + Repeated(times, last)[..times - 1];
    if times >= 2 {
      assert Repeated(times, last)[..times - 1][0] == last;
    }
  }

  method RecordWrites(lastWriteAt: map<Path, nat>, paths: seq<Path>, i: nat) returns (updated: map<Path, nat>)
    ensures updated == lastWriteAt + map p | p in paths :: i
  {
    updated := lastWriteAt;
    for j := 0 to |paths|
      invariant updated == lastWriteAt + map p | p in paths[..j] :: i
    {
      updated := updated[paths[j] := i];
    }
    assert paths[..|paths|] == paths;
  }

  /** What a map from paths to index lists holds for a path, nothing for one that is absent. */
  function Entries(log: map<Path, seq<nat>>, p: Path): seq<nat> {
    if p in log then log[p] else []
  }

  method RecordRead(readsByPath: map<Path, seq<nat>>, path: Path, i: nat) returns (updated: map<Path, seq<nat>>)
    ensures forall p :: Entries(updated, p) == Entries(readsByPath, p) + if p == path then [i] else []
  {
    updated := readsByPath;
    if path !in updated {
      updated := updated[path := []];
    }
    updated := updated[path := updated[path] + [i]];
  }

  /** `updated` extends `log` by one entry `i` for every naming in `paths`. */
  ghost predicate Recorded(updated: map<Path, seq<nat>>, log: map<Path, seq<nat>>, paths: seq<Path>, i: nat) {
    forall p :: Entries(updated, p) == Entries(log, p) + Repeated(TimesNamed(paths, p), i)
  }

  method RecordReads(readsByPath: map<Path, seq<nat>>, paths: seq<Path>, i: nat)
    returns (updated: map<Path, seq<nat>>)
    ensures Recorded(updated, readsByPath, paths, i)
  {
    updated := readsByPath;
    for j := 0 to |paths|
      invariant Recorded(updated, readsByPath, paths[..j], i)
    {
      ghost var before := updated;
      updated := RecordRead(updated, paths[j], i);
      RecordedStep(updated, before, readsByPath, paths, j, i);
    }
    assert paths[..|paths|] == paths;
  }

  lemma RecordedStep(updated: map<Path, seq<nat>>, before: map<Path, seq<nat>>, log: map<Path, seq<nat>>,
                     paths: seq<Path>, j: nat, i: nat)
    requires j < |paths| && Recorded(before, log, paths[..j], i)
    requires forall p :: Entries(updated, p) == Entries(before, p) + if p == paths[j] then [i] else []
    ensures Recorded(updated, log, paths[..j + 1], i)
  {
    hide Entries, Repeated, TimesNamed;
    forall p
      ensures Entries(updated, p) == Entries(log, p) + Repeated(TimesNamed(paths[..j + 1], p), i)
    {
      RepeatedStep(paths, j, p, i);
      var logged, more := Repeated(TimesNamed(paths[..j], p), i), if p == paths[j] then [i] else [];
      ConcatAssociates(Entries(log, p), logged, more);
    }
  }

  lemma ConcatAssociates(a: seq<nat>, b: seq<nat>, c: seq<nat>)
    ensures a + (b + c) == a + b + c
  {}

  lemma RepeatedStep(paths: seq<Path>, j: nat, p: Path, i: nat)
    requires j < |paths|
    ensures Repeated(TimesNamed(paths[..j + 1], p), i) ==
            Repeated(TimesNamed(paths[..j], p), i) + if p == paths[j] then [i] else []
  {
    assert paths[..j + 1][..j] == paths[..j];
    var times := TimesNamed(paths[..j], p);
    assert Repeated(times + 1, i) == Repeated(times, i) + [i];
  }

  /** The members of a set below `n` in ascending order: the spread and numeric sort of a JavaScript Set. */
  function Ascending(s: set<nat>, n: nat): (out: seq<nat>)
    ensures forall k :: k in out <==> k in s && k < n
    ensures forall j :: 0 <= j < |out| ==> out[j] < n
    ensures forall j, k :: 0 <= j < k < |out| ==> out[j] < out[k]
  {
    if n == 0 then []
    else Ascending(s, n - 1) + if n - 1 in s then [n - 1] else []
  }

  ghost predicate OverwrittenFor(ops: Classifier, ms: seq<EngineMessage>, i: nat, p: Path)
    requires i < |ms|
  {
    Reads(ops, ms[i], p) && LastWrite(ops, ms, |ms|, p) > i
  }

  ghost predicate OverwrittenLater(ops: Classifier, ms: seq<EngineMessage>, i: nat)
    requires i < |ms|
  {
    exists p :: OverwrittenFor(ops, ms, i, p)
  }

  ghost predicate EarlierRead(ops: Classifier, ms: seq<EngineMessage>, i: nat) {
    exists p :: AllButLast(ReadLog(ops, ms, |ms|, p), i)
  }

  lemma MentionedLater(ops: Classifier, ms: seq<EngineMessage>, i: nat, p: Path)
    requires i < |ms|
    ensures Mentioned(ops, ms[i + 1..], p) <==>
            LastWrite(ops, ms, |ms|, p) > i || exists r :: i < r < |ms| && Reads(ops, ms[r], p)
  {
    var later := ms[i + 1..];
    if LastWrite(ops, ms, |ms|, p) > i {
      assert Names(ops, later[LastWrite(ops, ms, |ms|, p) - i - 1], p);
    }
    if r :| i < r < |ms| && Reads(ops, ms[r], p) {
      assert Names(ops, later[r - i - 1], p);
    }
    if Mentioned(ops, later, p) {
      var k :| 0 <= k < |later| && Names(ops, later[k], p);
      assert Reads(ops, ms[i + 1 + k], p) || Writes(ops, ms[i + 1 + k], p);
    }
  }

  lemma ObsoleteForCases(ops: Classifier, ms: seq<EngineMessage>, i: nat, p: Path)
    requires i < |ms|
    ensures ObsoleteFor(ops, ms, i, p) <==>
            OverwrittenFor(ops, ms, i, p) || AllButLast(ReadLog(ops, ms, |ms|, p), i)
  {
    MentionedLater(ops, ms, i, p);
    NotLastInLog(ops, ms, |ms|, p, i);
  }

  lemma ObsoleteCases(ops: Classifier, ms: seq<EngineMessage>, i: nat)
    requires i < |ms|
    ensures Obsolete(ops, ms, i) <==>
            OverwrittenLater(ops, ms, i) || EarlierRead(ops, ms, i)
  {
    hide ObsoleteFor, OverwrittenFor, AllButLast;
    forall p
      ensures ObsoleteFor(ops, ms, i, p) <==>
              OverwrittenFor(ops, ms, i, p) || AllButLast(ReadLog(ops, ms, |ms|, p), i)
    {
      ObsoleteForCases(ops, ms, i, p);
    }
    if Obsolete(ops, ms, i) {
      var p :| ObsoleteFor(ops, ms, i, p);
      assert OverwrittenFor(ops, ms, i, p) || AllButLast(ReadLog(ops, ms, |ms|, p), i);
    }
    if p :| OverwrittenFor(ops, ms, i, p) {
      assert ObsoleteFor(ops, ms, i, p);
    }
    if p :| AllButLast(ReadLog(ops, ms, |ms|, p), i) {
      assert ObsoleteFor(ops, ms, i, p);
    }
  }

  /** Exactly the obsolete messages are found, listed in ascending order. */
  method FindSuperseded(ops: Classifier, ms: seq<EngineMessage>) returns (found: seq<nat>)
    ensures forall i: nat :: i in found <==> i < |ms| && Obsolete(ops, ms, i)
    ensures forall j, k :: 0 <= j < k < |found| ==> found[j] < found[k]
  {
    hide Obsolete, OverwrittenLater, EarlierRead;
    var lastWriteAt := CollectLastWrites(ops, ms);
    var overwritten := CollectOverwritten(ops, ms, lastWriteAt);
    var readsByPath := CollectReads(ops, ms);
    var earlier := CollectEarlierReads(ops, ms, readsByPath);
    var superseded := overwritten + earlier;
    forall i: nat | i < |ms|
      ensures i in superseded <==> Obsolete(ops, ms, i)
    {
      ObsoleteCases(ops, ms, i);
    }
    return Ascending(superseded, |ms|);
  }

  ghost predicate WritesRecorded(lastWriteAt: map<Path, nat>, ops: Classifier, ms: seq<EngineMessage>, n: nat)
    requires n <= |ms|
  {
    forall p :: LastWrite(ops, ms, n, p) == if p in lastWriteAt then lastWriteAt[p] else -1
  }

  method CollectLastWrites(ops: Classifier, ms: seq<EngineMessage>) returns (lastWriteAt: map<Path, nat>)
    ensures WritesRecorded(lastWriteAt, ops, ms, |ms|)
  {
    lastWriteAt := map[];
    for i := 0 to |ms|
      invariant WritesRecorded(lastWriteAt, ops, ms, i)
    {
      if ops(ms[i]).isWrite {
        lastWriteAt := RecordWrites(lastWriteAt, ops(ms[i]).paths, i);
      }
      assert forall p :: LastWrite(ops, ms, i + 1, p) == if Writes(ops, ms[i], p) then i else LastWrite(ops, ms, i, p);
    }
  }

  method CollectReads(ops: Classifier, ms: seq<EngineMessage>) returns (readsByPath: map<Path, seq<nat>>)
    ensures forall p :: Entries(readsByPath, p) == ReadLog(ops, ms, |ms|, p)
  {
    readsByPath := map[];
    for i := 0 to |ms|
      invariant forall p :: Entries(readsByPath, p) == ReadLog(ops, ms, i, p)
    {
      if !ops(ms[i]).isWrite {
        readsByPath := RecordReads(readsByPath, ops(ms[i]).paths, i);
      }
    }
  }

  /** The reads that a later write to one of their paths overtakes. */
  method CollectOverwritten(ops: Classifier, ms: seq<EngineMessage>, lastWriteAt: map<Path, nat>)
    returns (superseded: set<nat>)
    requires WritesRecorded(lastWriteAt, ops, ms, |ms|)
    ensures forall i: nat :: i in superseded <==> i < |ms| && OverwrittenLater(ops, ms, i)
  {
    superseded := {};
    for i := 0 to |ms|
      invariant forall k: nat :: k in superseded <==> k < i && OverwrittenLater(ops, ms, k)
    {
      var paths := ops(ms[i]).paths;
      ghost var before := superseded;
      for j := 0 to |paths|
        invariant superseded == before || superseded == before + {i}
        invariant i in superseded <==> exists k :: 0 <= k < j && OverwrittenFor(ops, ms, i, paths[k])
      {
        if ops(ms[i]).isWrite {
          continue;
        }
        if paths[j] in lastWriteAt && i < lastWriteAt[paths[j]] {
          assert OverwrittenFor(ops, ms, i, paths[j]);
          superseded := superseded + {i};
        }
      }
      assert forall p :: OverwrittenFor(ops, ms, i, p) ==> p in paths;
    }
  }

  /** Of the reads logged for each path, all but the last. */
  method CollectEarlierReads(ghost ops: Classifier, ghost ms: seq<EngineMessage>, readsByPath: map<Path, seq<nat>>)
    returns (superseded: set<nat>)
    requires forall p :: Entries(readsByPath, p) == ReadLog(ops, ms, |ms|, p)
    ensures forall i: nat :: i in superseded <==> EarlierRead(ops, ms, i)
  {
    hide ReadLog;
    superseded := {};
    var todo := readsByPath.Keys;
    while todo != {}
      invariant todo <= readsByPath.Keys
      invariant forall i: nat :: i in superseded <==> exists p :: p !in todo && AllButLast(Entries(readsByPath, p), i)
      decreases todo
    {
      var p :| p in todo;
      todo := todo - {p};
      var idxs := readsByPath[p];
      if |idxs| > 1 {
        var stale := idxs[..|idxs| - 1];
        superseded := superseded + set i | i in stale;
      }
    }
    forall i: nat
      ensures i in superseded <==> EarlierRead(ops, ms, i)
    {
      if EarlierRead(ops, ms, i) {
        var p :| AllButLast(ReadLog(ops, ms, |ms|, p), i);
        assert AllButLast(Entries(readsByPath, p), i);
      }
    }
  }

  // ----- What survives -----------------------------------------------------

  ghost function Survivors(ops: Classifier, ms: seq<EngineMessage>): (kept: seq<EngineMessage>)
    ensures |kept| <= |ms|
  {
    if ms == [] then []
    else (if Obsolete(ops, ms, 0) then [] else [ms[0]]) + Survivors(ops, ms[1..])
  }

  /** Only the messages after it decide whether a message is obsolete. */
  lemma ObsoleteShift(ops: Classifier, ms: seq<EngineMessage>, i: nat)
    requires i < |ms|
    ensures Obsolete(ops, ms[i..], 0) <==> Obsolete(ops, ms, i)
  {
    assert ms[i..][1..] == ms[i + 1..];
    if p :| ObsoleteFor(ops, ms, i, p) {
      assert ObsoleteFor(ops, ms[i..], 0, p);
    }
    if p :| ObsoleteFor(ops, ms[i..], 0, p) {
      assert ObsoleteFor(ops, ms, i, p);
    }
  }

  lemma SurvivorsStep(ops: Classifier, ms: seq<EngineMessage>, i: nat)
    requires i < |ms|
    ensures Survivors(ops, ms[i..]) ==
            (if Obsolete(ops, ms, i) then [] else [ms[i]]) + Survivors(ops, ms[i + 1..])
  {
    hide Obsolete;
    ObsoleteShift(ops, ms, i);
    assert ms[i..][1..] == ms[i + 1..];
  }

  method Supersede(ops: Classifier, ms: seq<EngineMessage>) returns (kept: seq<EngineMessage>)
    ensures kept == Survivors(ops, ms)
  {
    hide Obsolete, Survivors;
    var found := FindSuperseded(ops, ms);
    var drop := set i | i in found;
    kept := [];
    assert ms[0..] == ms;
    for i := 0 to |ms|
      invariant kept + Survivors(ops, ms[i..]) == Survivors(ops, ms)
    {
      SurvivorsStep(ops, ms, i);
      if i !in drop {
        kept := kept + [ms[i]];
      }
    }
    assert Survivors(ops, ms[|ms|..]) == [];
  }

  lemma {:induction false} SurvivorsNameLess(ops: Classifier, ms: seq<EngineMessage>, p: Path)
    ensures Mentioned(ops, Survivors(ops, ms), p) ==> Mentioned(ops, ms, p)
  {
    if ms != [] && Mentioned(ops, Survivors(ops, ms), p) {
      SurvivorsNameLess(ops, ms[1..], p);
      var kept, rest := Survivors(ops, ms), Survivors(ops, ms[1..]);
      var i :| 0 <= i < |kept| && Names(ops, kept[i], p);
      if |kept| == |rest| || i > 0 {
        assert kept[i] == rest[i - (|kept| - |rest|)];
        var k :| 0 <= k < |ms[1..]| && Names(ops, ms[1..][k], p);
        assert Names(ops, ms[k + 1], p);
      }
    }
  }

  /** Nothing that survives is obsolete among the survivors. */
  lemma {:induction false} SurvivorsAreCurrent(ops: Classifier, ms: seq<EngineMessage>)
    ensures forall i :: 0 <= i < |Survivors(ops, ms)| ==> !Obsolete(ops, Survivors(ops, ms), i)
  {
    if ms != [] {
      SurvivorsAreCurrent(ops, ms[1..]);
      var kept, rest := Survivors(ops, ms), Survivors(ops, ms[1..]);
      forall i | 0 <= i < |kept|
        ensures !Obsolete(ops, kept, i)
      {
        if !Obsolete(ops, ms, 0) {
          assert kept == [ms[0]] + rest;
          forall p
            ensures !ObsoleteFor(ops, kept, i, p)
          {
            if i == 0 {
              assert kept[1..] == rest;
              assert !ObsoleteFor(ops, ms, 0, p);
              SurvivorsNameLess(ops, ms[1..], p);
            } else {
              assert kept[i + 1..] == rest[i..];
              assert !Obsolete(ops, rest, i - 1) && !ObsoleteFor(ops, rest, i - 1, p);
            }
          }
        } else {
          assert kept == rest;
        }
      }
    }
  }

  lemma {:induction false} CurrentAllSurvive(ops: Classifier, ms: seq<EngineMessage>)
    requires forall i :: 0 <= i < |ms| ==> !Obsolete(ops, ms, i)
    ensures Survivors(ops, ms) == ms
  {
    if ms != [] {
      forall i | 0 <= i < |ms[1..]|
        ensures !Obsolete(ops, ms[1..], i)
      {
        assert ms[1..][i + 1..] == ms[i + 1 + 1..];
        assert !Obsolete(ops, ms, i + 1);
        forall p
          ensures !ObsoleteFor(ops, ms[1..], i, p)
        {
          assert !ObsoleteFor(ops, ms, i + 1, p);
        }
      }
      CurrentAllSurvive(ops, ms[1..]);
    }
  }

  /** Pruning twice prunes no more than pruning once. */
  lemma SupersedeIdempotent(ops: Classifier, ms: seq<EngineMessage>)
    ensures Survivors(ops, Survivors(ops, ms)) == Survivors(ops, ms)
  {
    SurvivorsAreCurrent(ops, ms);
    CurrentAllSurvive(ops, Survivors(ops, ms));
  }

  /** Normal form: a surviving read names its path once and is the last message to name it. */
  lemma SurvivingReadIsLast(ops: Classifier, ms: seq<EngineMessage>, i: nat, j: nat, p: Path)
    requires i < |Survivors(ops, ms)| && Reads(ops, Survivors(ops, ms)[i], p)
    ensures TimesNamed(ops(Survivors(ops, ms)[i]).paths, p) == 1
    ensures i < j < |Survivors(ops, ms)| ==> !Names(ops, Survivors(ops, ms)[j], p)
  {
    var kept := Survivors(ops, ms);
    SurvivorsAreCurrent(ops, ms);
    assert !Obsolete(ops, kept, i) && !ObsoleteFor(ops, kept, i, p);
    if i < j < |kept| {
      assert kept[i + 1..][j - i - 1] == kept[j];
    }
  }

  /** Messages no pruning may touch: writes, and messages without paths. */
  predicate Untouchable(ops: Classifier, m: EngineMessage) {
    ops(m).isWrite || ops(m).paths == []
  }

  function OnlyUntouchable(ops: Classifier, ms: seq<EngineMessage>): seq<EngineMessage> {
    if ms == [] then []
    else (if Untouchable(ops, ms[0]) then [ms[0]] else []) + OnlyUntouchable(ops, ms[1..])
  }

  lemma UntouchableIsCurrent(ops: Classifier, ms: seq<EngineMessage>, i: nat)
    requires i < |ms| && Untouchable(ops, ms[i])
    ensures !Obsolete(ops, ms, i)
  {}

  lemma {:induction false} UntouchablesKept(ops: Classifier, ms: seq<EngineMessage>)
    ensures OnlyUntouchable(ops, Survivors(ops, ms)) == OnlyUntouchable(ops, ms)
  {
    hide Obsolete;
    if ms != [] {
      UntouchablesKept(ops, ms[1..]);
      if Untouchable(ops, ms[0]) {
        UntouchableIsCurrent(ops, ms, 0);
      }
      if Obsolete(ops, ms, 0) {
        assert Survivors(ops, ms) == Survivors(ops, ms[1..]);
      } else {
        assert Survivors(ops, ms)[1..] == Survivors(ops, ms[1..]);
      }
    }
  }

  /** The last message to name a path. */
  function LastNaming(ops: Classifier, ms: seq<EngineMessage>, p: Path): Option<EngineMessage> {
    if ms == [] then None
    else
      var later := LastNaming(ops, ms[1..], p);
      if later.Some? then later else if Names(ops, ms[0], p) then Some(ms[0]) else None
  }

  lemma {:induction false} LastNamingFinds(ops: Classifier, ms: seq<EngineMessage>, p: Path)
    ensures LastNaming(ops, ms, p).Some? <==> Mentioned(ops, ms, p)
  {
    if ms != [] {
      LastNamingFinds(ops, ms[1..], p);
      if Mentioned(ops, ms[1..], p) {
        var k :| 0 <= k < |ms[1..]| && Names(ops, ms[1..][k], p);
        assert Names(ops, ms[k + 1], p);
      }
      if Mentioned(ops, ms, p) {
        var k :| 0 <= k < |ms| && Names(ops, ms[k], p);
        assert k > 0 ==> ms[1..][k - 1] == ms[k];
      }
    }
  }

  /** With at most one path named per message, the last operation on every path survives. */
  lemma {:induction false} LastOperationSurvives(ops: Classifier, ms: seq<EngineMessage>, p: Path)
    requires forall i :: 0 <= i < |ms| ==> |ops(ms[i]).paths| <= 1
    ensures LastNaming(ops, Survivors(ops, ms), p) == LastNaming(ops, ms, p)
  {
    if ms != [] {
      LastOperationSurvives(ops, ms[1..], p);
      LastNamingFinds(ops, ms[1..], p);
      if Obsolete(ops, ms, 0) {
        var q :| ObsoleteFor(ops, ms, 0, q);
        assert ops(ms[0]).paths == [q] && TimesNamed(ops(ms[0]).paths[..0], q) == 0;
        assert Survivors(ops, ms) == Survivors(ops, ms[1..]);
      } else {
        assert Survivors(ops, ms)[1..] == Survivors(ops, ms[1..]);
      }
    }
  }

  /** The index of the last message to name a path, or -1. */
  ghost function LastNamed(ops: Classifier, ms: seq<EngineMessage>, p: Path): (i: int)
    ensures -1 <= i < |ms|
    ensures i >= 0 ==> Names(ops, ms[i], p)
    ensures forall j :: i < j < |ms| ==> !Names(ops, ms[j], p)
  {
    if ms == [] then -1
    else
      var last := |ms| - 1;
      if Names(ops, ms[last], p) then last else LastNamed(ops, ms[..last], p)
  }

  /** Message `i` names each of its paths once, and only `p` may be named again after it. */
  ghost predicate OnlyAgain(ops: Classifier, ms: seq<EngineMessage>, i: nat, p: Path)
    requires i < |ms|
  {
    forall q :: Names(ops, ms[i], q) ==>
      TimesNamed(ops(ms[i]).paths, q) == 1 && (q == p || !Mentioned(ops, ms[i + 1..], q))
  }

  lemma LastNamingCurrentIff(ops: Classifier, ms: seq<EngineMessage>, i: nat, p: Path)
    requires i < |ms| && Names(ops, ms[i], p) && !Mentioned(ops, ms[i + 1..], p)
    ensures !Obsolete(ops, ms, i) <==> ops(ms[i]).isWrite || OnlyAgain(ops, ms, i, p)
  {
    hide Mentioned, TimesNamed;
    forall q
      ensures !ops(ms[i]).isWrite && Names(ops, ms[i], q) ==>
                (!ObsoleteFor(ops, ms, i, q) <==>
                 TimesNamed(ops(ms[i]).paths, q) == 1 && (q == p || !Mentioned(ops, ms[i + 1..], q)))
    {
      assert TimesNamed(ops(ms[i]).paths, q) > 0 <==> q in ops(ms[i]).paths;
    }
  }

  /** The survivors name a path exactly when a message that is not obsolete does. */
  lemma {:induction false} SurvivorsMentionIff(ops: Classifier, ms: seq<EngineMessage>, p: Path)
    ensures Mentioned(ops, Survivors(ops, ms), p) <==>
            exists i :: 0 <= i < |ms| && Names(ops, ms[i], p) && !Obsolete(ops, ms, i)
  {
    hide Obsolete;
    if ms != [] {
      var rest := ms[1..];
      SurvivorsMentionIff(ops, rest, p);
      forall i | 0 <= i < |rest|
        ensures Obsolete(ops, rest, i) <==> Obsolete(ops, ms, i + 1)
      {
        ObsoleteShift(ops, rest, i);
        ObsoleteShift(ops, ms, i + 1);
        assert rest[i..] == ms[i + 1..];
      }
      if i :| 0 <= i < |rest| && Names(ops, rest[i], p) && !Obsolete(ops, rest, i) {
        assert Names(ops, ms[i + 1], p) && !Obsolete(ops, ms, i + 1);
      }
      if i :| 0 <= i < |ms| && Names(ops, ms[i], p) && !Obsolete(ops, ms, i) && i > 0 {
        assert Names(ops, rest[i - 1], p) && !Obsolete(ops, rest, i - 1);
      }
      MentionedCons(ops, if Obsolete(ops, ms, 0) then [] else [ms[0]], Survivors(ops, rest), p);
    }
  }

  lemma MentionedCons(ops: Classifier, a: seq<EngineMessage>, b: seq<EngineMessage>, p: Path)
    ensures Mentioned(ops, a + b, p) <==> Mentioned(ops, a, p) || Mentioned(ops, b, p)
    ensures |a| == 1 ==> (Mentioned(ops, a, p) <==> Names(ops, a[0], p))
  {
    if i :| 0 <= i < |a| && Names(ops, a[i], p) {
      assert Names(ops, (a + b)[i], p);
    }
    if i :| 0 <= i < |b| && Names(ops, b[i], p) {
      assert Names(ops, (a + b)[|a| + i], p);
    }
    if i :| 0 <= i < |a + b| && Names(ops, (a + b)[i], p) && i >= |a| {
      assert Names(ops, b[i - |a|], p);
    }
  }

  /**
   * A path is still named after pruning if and only if some message writes it, or the last one to
   * name it names each of its paths once and none of the others is named again later.
   */
  lemma PathSurvivesIff(ops: Classifier, ms: seq<EngineMessage>, p: Path)
    ensures var last := LastNamed(ops, ms, p);
            Mentioned(ops, Survivors(ops, ms), p) <==>
            (exists i :: 0 <= i < |ms| && Writes(ops, ms[i], p)) || (last >= 0 && OnlyAgain(ops, ms, last, p))
  {
    hide Obsolete, OnlyAgain;
    var last := LastNamed(ops, ms, p);
    SurvivorsMentionIff(ops, ms, p);
    if i :| 0 <= i < |ms| && Writes(ops, ms[i], p) {
      UntouchableIsCurrent(ops, ms, i);
    }
    if last >= 0 {
      assert !Mentioned(ops, ms[last + 1..], p);
      LastNamingCurrentIff(ops, ms, last, p);
    }
    forall i | 0 <= i < |ms| && i != last && Reads(ops, ms[i], p)
      ensures Obsolete(ops, ms, i)
    {
      NamedAgainIsObsolete(ops, ms, i, last, p);
    }
  }

  lemma NamedAgainIsObsolete(ops: Classifier, ms: seq<EngineMessage>, i: nat, j: nat, p: Path)
    requires i < j < |ms| && Reads(ops, ms[i], p) && Names(ops, ms[j], p)
    ensures Obsolete(ops, ms, i)
  {
    assert Names(ops, ms[i + 1..][j - i - 1], p);
    assert ObsoleteFor(ops, ms, i, p);
  }

  lemma {:induction false} LastNamingAt(ops: Classifier, ms: seq<EngineMessage>, p: Path)
    ensures var last := LastNamed(ops, ms, p);
            LastNaming(ops, ms, p) == if last >= 0 then Some(ms[last]) else None
  {
    if ms != [] {
      LastNamingAt(ops, ms[1..], p);
      var last, later := LastNamed(ops, ms, p), LastNamed(ops, ms[1..], p);
      assert last > 0 ==> Names(ops, ms[1..][last - 1], p);
    }
  }

  lemma {:induction false} LastNamingOfSurvivors(ops: Classifier, ms: seq<EngineMessage>, p: Path)
    ensures var last := LastNamed(ops, ms, p);
            LastNaming(ops, Survivors(ops, ms), p) == LastNaming(ops, ms, p) <==> last < 0 || !Obsolete(ops, ms, last)
  {
    hide Obsolete;
    if ms != [] {
      var rest, last := ms[1..], LastNamed(ops, ms, p);
      LastNamingOfSurvivors(ops, rest, p);
      LastNamingAt(ops, rest, p);
      var kept := Survivors(ops, rest);
      assert ([ms[0]] + kept)[1..] == kept;
      assert Survivors(ops, ms) == if Obsolete(ops, ms, 0) then kept else [ms[0]] + kept;
      assert LastNamed(ops, rest, p) >= 0 ==> Names(ops, ms[LastNamed(ops, rest, p) + 1], p);
      if last > 0 {
        assert Names(ops, rest[last - 1], p) && LastNamed(ops, rest, p) == last - 1;
        ObsoleteShift(ops, rest, last - 1);
        ObsoleteShift(ops, ms, last);
        assert rest[last - 1..] == ms[last..];
        if Reads(ops, ms[0], p) {
          NamedAgainIsObsolete(ops, ms, 0, last, p);
        }
        if Writes(ops, ms[last], p) {
          UntouchableIsCurrent(ops, ms, last);
        }
      }
    }
  }

  /**
   * The last operation on a path is the same before and after pruning if and only if it is a
   * write, or names each of its paths once and none of the others is named again later.
   */
  lemma LastOperationSurvivesIff(ops: Classifier, ms: seq<EngineMessage>, p: Path)
    ensures var last := LastNamed(ops, ms, p);
            LastNaming(ops, Survivors(ops, ms), p) == LastNaming(ops, ms, p) <==>
            last < 0 || ops(ms[last]).isWrite || OnlyAgain(ops, ms, last, p)
  {
    hide Obsolete, OnlyAgain, LastNaming;
    var last := LastNamed(ops, ms, p);
    LastNamingOfSurvivors(ops, ms, p);
    if last >= 0 {
      assert !Mentioned(ops, ms[last + 1..], p);
      LastNamingCurrentIff(ops, ms, last, p);
    }
  }

  /** With two paths in one message a path can vanish: its only read goes with the other path. */
  lemma PathCanVanish()
    ensures exists ops: Classifier, ms: seq<EngineMessage>, p ::
              Mentioned(ops, ms, p) && !Mentioned(ops, Survivors(ops, ms), p)
  {
    var a, b := Path("a.ts"), Path("b.ts");
    var both := EngineMessage(User, "a b", None, None, None);
    var one := EngineMessage(User, "b", None, None, None);
    var ops: Classifier := m => FileOps(if m == both then [a, b] else [b], false);
    var ms := [both, one];
    assert Names(ops, ms[0], a);
    assert ms[1..] == [one] && Names(ops, ms[1..][0], b);
    assert Reads(ops, ms[0], b);
    assert ObsoleteFor(ops, ms, 0, b);
    assert Survivors(ops, ms) == Survivors(ops, [one]);
    SurvivorsNameLess(ops, [one], a);
    assert !Names(ops, one, a) by { assert a.name[0] != b.name[0]; }
    assert !Mentioned(ops, [one], a);
  }
}
