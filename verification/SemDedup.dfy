/**
 * Greedy semantic deduplication (src/vector-read.ts): within one session, of every pair of
 * checkpoints that are too similar the one with fewer tokens is marked as removed. The cosine is
 * an arbitrary function of the two embeddings, in listing order.
 */
module SemDedup {
  datatype Status = Unset | Active | Removed | DupResolved

  type Cosine = (seq<real>, seq<real>) -> real

  class Row {
    const embedding: seq<real>
    const tokenEstimate: int
    var dedupStatus: Status

    constructor (embedding: seq<real>, tokenEstimate: int, dedupStatus: Status)
      ensures this.embedding == embedding && this.tokenEstimate == tokenEstimate && this.dedupStatus == dedupStatus
    {
      this.embedding, this.tokenEstimate, this.dedupStatus := embedding, tokenEstimate, dedupStatus;
    }
  }

  // ----- What a pass may do ------------------------------------------------

  /** Rows `i` and `j` are too similar, compared in listing order. */
  predicate Clash(rows: seq<Row>, cosine: Cosine, thr: real, i: nat, j: nat)
    requires i < |rows| && j < |rows|
  {
    if i <= j then cosine(rows[i].embedding, rows[j].embedding) > thr
    else cosine(rows[j].embedding, rows[i].embedding) > thr
  }

  /** Row `i` is preferred to row `j`: more tokens, then listed earlier. */
  predicate Preferred(rows: seq<Row>, i: nat, j: nat)
    requires i < |rows| && j < |rows|
  {
    rows[i].tokenEstimate > rows[j].tokenEstimate || (rows[i].tokenEstimate == rows[j].tokenEstimate && i < j)
  }

  /** Which rows are still in use. */
  ghost function InUse(rows: seq<Row>): (flags: seq<bool>)
    reads rows
  {
    seq(|rows|, i requires 0 <= i < |rows| reads rows => rows[i].dedupStatus != Removed)
  }

  function CountTrue(flags: seq<bool>): nat {
    if flags == [] then 0 else (if flags[0] then 1 else 0) + CountTrue(flags[1..])
  }

  lemma {:induction false} CountUpdate(flags: seq<bool>, i: nat)
    requires i < |flags| && flags[i]
    ensures CountTrue(flags[i := false]) == CountTrue(flags) - 1
  {
    if i > 0 {
      assert flags[i := false][1..] == flags[1..][i - 1 := false];
      CountUpdate(flags[1..], i - 1);
    } else {
      assert flags[0 := false][1..] == flags[1..];
    }
  }

  ghost predicate NoClash(rows: seq<Row>, cosine: Cosine, thr: real, flags: seq<bool>)
    requires |flags| == |rows|
  {
    forall i, j :: 0 <= i < j < |rows| && flags[i] && flags[j] ==> !Clash(rows, cosine, thr, i, j)
  }

  /** Row `k` was there to take the place of row `r`. */
  ghost predicate Replaces(rows: seq<Row>, cosine: Cosine, thr: real, before: seq<bool>, k: nat, r: nat)
    requires |before| == |rows| && r < |rows|
  {
    k < |rows| && k != r && before[k] && Clash(rows, cosine, thr, k, r) && Preferred(rows, k, r)
  }

  ghost predicate OnlyReplaced(rows: seq<Row>, cosine: Cosine, thr: real, before: seq<bool>, after: seq<bool>)
    requires |before| == |after| == |rows|
  {
    && (forall i :: 0 <= i < |rows| && after[i] ==> before[i])
    && (forall r :: 0 <= r < |rows| && before[r] && !after[r] ==> exists k :: Replaces(rows, cosine, thr, before, k, r))
  }

  /** The outcome of a pass: no clash is left, and every removed row had a preferred rival. */
  ghost predicate Deduplicated(rows: seq<Row>, cosine: Cosine, thr: real, before: seq<bool>, after: seq<bool>) {
    && |before| == |after| == |rows|
    && NoClash(rows, cosine, thr, after)
    && OnlyReplaced(rows, cosine, thr, before, after)
  }

  // ----- The pass ----------------------------------------------------------

  /** The checkpoints in use, with their places in the listing. */
  method Listed(rows: seq<Row>) returns (cps: seq<Row>, ghost at: seq<nat>)
    ensures |cps| == |at|
    ensures forall p :: 0 <= p < |at| ==> at[p] < |rows| && cps[p] == rows[at[p]] && rows[at[p]].dedupStatus != Removed
    ensures forall p, q :: 0 <= p < q < |at| ==> at[p] < at[q]
    ensures forall i :: 0 <= i < |rows| && rows[i].dedupStatus != Removed ==> i in at
  {
    cps, at := [], [];
    for i := 0 to |rows|
      invariant |cps| == |at|
      invariant forall p :: 0 <= p < |at| ==> at[p] < i && cps[p] == rows[at[p]] && rows[at[p]].dedupStatus != Removed
      invariant forall p, q :: 0 <= p < q < |at| ==> at[p] < at[q]
      invariant forall k :: 0 <= k < i && rows[k].dedupStatus != Removed ==> k in at
    {
      if rows[i].dedupStatus != Removed {
        cps, at := cps + [rows[i]], at + [i];
      }
    }
  }

  /** Settle one pair: of two rows in use that clash, the less preferred one is removed. */
  method SettlePair(a: Row, b: Row, cosine: Cosine, thr: real,
                    ghost rows: seq<Row>, ghost i: nat, ghost j: nat, ghost before: seq<bool>)
    returns (removed: nat)
    requires i < j < |rows| && |before| == |rows| && a == rows[i] && b == rows[j]
    requires forall p, q :: 0 <= p < q < |rows| ==> rows[p] != rows[q]
    requires OnlyReplaced(rows, cosine, thr, before, InUse(rows))
    modifies a, b
    ensures OnlyReplaced(rows, cosine, thr, before, InUse(rows))
    ensures !(InUse(rows)[i] && InUse(rows)[j] && Clash(rows, cosine, thr, i, j))
    ensures forall k :: 0 <= k < |rows| && InUse(rows)[k] ==> old(InUse(rows))[k]
    ensures CountTrue(InUse(rows)) + removed == CountTrue(old(InUse(rows)))
    ensures forall k :: 0 <= k < |rows| && rows[k].dedupStatus != old(rows[k].dedupStatus) ==> rows[k].dedupStatus == Removed
  {
    if a.dedupStatus == Removed || b.dedupStatus == Removed {
      return 0;
    }
    if cosine(a.embedding, b.embedding) > thr {
      var keep := if a.tokenEstimate >= b.tokenEstimate then a else b;
      var drop := if keep == a then b else a;
      ghost var d, k := if keep == a then j else i, if keep == a then i else j;
      ghost var was := InUse(rows);
      drop.dedupStatus := Removed;
      assert InUse(rows) == was[d := false];
      CountUpdate(was, d);
      assert Replaces(rows, cosine, thr, before, k, d);
      return 1;
    }
    return 0;
  }

  /** The pairs before position (i, j) of the scan over the listed rows are settled. */
  ghost predicate Settled(rows: seq<Row>, cosine: Cosine, thr: real, flags: seq<bool>, at: seq<nat>, i: nat, j: nat)
    requires |flags| == |rows| && forall p :: 0 <= p < |at| ==> at[p] < |rows|
  {
    forall p, q :: 0 <= p < q < |at| && (p < i || (p == i && q < j)) && flags[at[p]] && flags[at[q]] ==>
                     !Clash(rows, cosine, thr, at[p], at[q])
  }

  lemma AllSettled(rows: seq<Row>, cosine: Cosine, thr: real, before: seq<bool>, after: seq<bool>, at: seq<nat>)
    requires |before| == |after| == |rows| && forall p :: 0 <= p < |at| ==> at[p] < |rows|
    requires forall p, q :: 0 <= p < q < |at| ==> at[p] < at[q]
    requires forall i :: 0 <= i < |rows| && before[i] ==> i in at
    requires OnlyReplaced(rows, cosine, thr, before, after) && Settled(rows, cosine, thr, after, at, |at|, 0)
    ensures Deduplicated(rows, cosine, thr, before, after)
  {
    forall i, j | 0 <= i < j < |rows| && after[i] && after[j]
      ensures !Clash(rows, cosine, thr, i, j)
    {
      var p :| 0 <= p < |at| && at[p] == i;
      var q :| 0 <= q < |at| && at[q] == j;
      assert p < q;
    }
  }

  method VectorSemDedup(rows: seq<Row>, cosine: Cosine, thr: real) returns (removed: nat)
    requires forall p, q :: 0 <= p < q < |rows| ==> rows[p] != rows[q]
    modifies rows
    ensures Deduplicated(rows, cosine, thr, old(InUse(rows)), InUse(rows))
    ensures removed == CountTrue(old(InUse(rows))) - CountTrue(InUse(rows))
    ensures forall k :: 0 <= k < |rows| && rows[k].dedupStatus != old(rows[k].dedupStatus) ==> rows[k].dedupStatus == Removed
  {
    hide OnlyReplaced, Deduplicated, CountTrue, Clash;
    ghost var before := InUse(rows);
    var cps;
    ghost var at;
    cps, at := Listed(rows);
    assert forall i :: 0 <= i < |rows| && before[i] ==> i in at;
    NothingReplaced(rows, cosine, thr, before);
    removed := 0;
    for i := 0 to |cps|
      invariant OnlyReplaced(rows, cosine, thr, before, InUse(rows))
      invariant removed == CountTrue(before) - CountTrue(InUse(rows))
      invariant forall k :: 0 <= k < |rows| && rows[k].dedupStatus != old(rows[k].dedupStatus) ==> rows[k].dedupStatus == Removed
      invariant Settled(rows, cosine, thr, InUse(rows), at, i, 0)
    {
      for j := i + 1 to |cps|
        invariant OnlyReplaced(rows, cosine, thr, before, InUse(rows))
        invariant removed == CountTrue(before) - CountTrue(InUse(rows))
        invariant forall k :: 0 <= k < |rows| && rows[k].dedupStatus != old(rows[k].dedupStatus) ==> rows[k].dedupStatus == Removed
        invariant Settled(rows, cosine, thr, InUse(rows), at, i, j)
      {
        ghost var was := InUse(rows);
        var dropped := SettlePair(cps[i], cps[j], cosine, thr, rows, at[i], at[j], before);
        removed := removed + dropped;
        SettledStep(rows, cosine, thr, was, InUse(rows), at, i, j);
      }
    }
    AllSettled(rows, cosine, thr, before, InUse(rows), at);
  }

  lemma NothingReplaced(rows: seq<Row>, cosine: Cosine, thr: real, flags: seq<bool>)
    requires |flags| == |rows|
    ensures OnlyReplaced(rows, cosine, thr, flags, flags)
  {}

  lemma SettledStep(rows: seq<Row>, cosine: Cosine, thr: real, was: seq<bool>, now: seq<bool>, at: seq<nat>, i: nat, j: nat)
    requires |was| == |now| == |rows| && forall p :: 0 <= p < |at| ==> at[p] < |rows|
    requires i < j < |at| && Settled(rows, cosine, thr, was, at, i, j)
    requires forall k :: 0 <= k < |rows| && now[k] ==> was[k]
    requires !(now[at[i]] && now[at[j]] && Clash(rows, cosine, thr, at[i], at[j]))
    ensures Settled(rows, cosine, thr, now, at, i, j + 1)
  {}

  // ----- What follows ------------------------------------------------------

  /** Each row of the path is preferred to the one before it and clashes with it. */
  ghost predicate Path(rows: seq<Row>, cosine: Cosine, thr: real, path: seq<nat>) {
    && (forall p :: 0 <= p < |path| ==> path[p] < |rows|)
    && (forall p :: 0 <= p && p + 1 < |path| ==>
          Clash(rows, cosine, thr, path[p + 1], path[p]) && Preferred(rows, path[p + 1], path[p]))
  }

  ghost function PreferredTo(rows: seq<Row>, r: nat): set<nat>
    requires r < |rows|
  {
    set k: nat | k < |rows| && Preferred(rows, k, r)
  }

  /** Every removed row reaches a surviving one along clashes with ever more preferred rows. */
  lemma {:induction false} RemovedReachesSurvivor(rows: seq<Row>, cosine: Cosine, thr: real, before: seq<bool>, after: seq<bool>, r: nat)
    requires Deduplicated(rows, cosine, thr, before, after) && r < |rows| && before[r]
    ensures exists path :: Path(rows, cosine, thr, path) && path != [] && path[0] == r && after[path[|path| - 1]]
    decreases PreferredTo(rows, r)
  {
    if after[r] {
      assert Path(rows, cosine, thr, [r]);
    } else {
      var k :| Replaces(rows, cosine, thr, before, k, r);
      assert k in PreferredTo(rows, r) && k !in PreferredTo(rows, k);
      RemovedReachesSurvivor(rows, cosine, thr, before, after, k);
      var path :| Path(rows, cosine, thr, path) && path != [] && path[0] == k && after[path[|path| - 1]];
      var longer := [r] + path;
      forall p | 0 <= p && p + 1 < |longer|
        ensures Clash(rows, cosine, thr, longer[p + 1], longer[p]) && Preferred(rows, longer[p + 1], longer[p])
      {
        if p > 0 {
          assert longer[p] == path[p - 1] && longer[p + 1] == path[p - 1 + 1];
        }
      }
      assert Path(rows, cosine, thr, longer) && longer[|longer| - 1] == path[|path| - 1];
    }
  }

  /** The first row with the largest token estimate survives. */
  lemma LargestSurvives(rows: seq<Row>, cosine: Cosine, thr: real, before: seq<bool>, after: seq<bool>, m: nat)
    requires Deduplicated(rows, cosine, thr, before, after) && m < |rows| && before[m]
    requires forall i :: 0 <= i < |rows| && before[i] && i != m ==> Preferred(rows, m, i)
    ensures after[m]
  {}

  /** A second pass removes nothing. */
  lemma SecondPassIdle(rows: seq<Row>, cosine: Cosine, thr: real, before: seq<bool>, after: seq<bool>, again: seq<bool>)
    requires Deduplicated(rows, cosine, thr, before, after) && Deduplicated(rows, cosine, thr, after, again)
    ensures again == after && CountTrue(after) - CountTrue(again) == 0
  {
    assert forall r :: 0 <= r < |rows| && after[r] ==> again[r];
  }

  /**
   * The outcome of a pass on the embeddings themselves: of two rows still in use the cosine is at
   * most the threshold, and a removed row was over it with one of more tokens, or of as many and
   * listed earlier.
   */
  lemma OutcomeOnEmbeddings(rows: seq<Row>, cosine: Cosine, thr: real, before: seq<bool>, after: seq<bool>)
    requires Deduplicated(rows, cosine, thr, before, after)
    ensures forall i, j :: 0 <= i < j < |rows| && after[i] && after[j] ==>
              cosine(rows[i].embedding, rows[j].embedding) <= thr
    ensures forall r :: 0 <= r < |rows| && before[r] && !after[r] ==>
              exists k :: 0 <= k < |rows| && k != r && before[k]
                && rows[k].tokenEstimate >= rows[r].tokenEstimate && (k > r ==> rows[k].tokenEstimate > rows[r].tokenEstimate)
                && (if k < r then cosine(rows[k].embedding, rows[r].embedding) else cosine(rows[r].embedding, rows[k].embedding)) > thr
  {
    forall r | 0 <= r < |rows| && before[r] && !after[r]
      ensures exists k :: 0 <= k < |rows| && k != r && before[k]
                && rows[k].tokenEstimate >= rows[r].tokenEstimate && (k > r ==> rows[k].tokenEstimate > rows[r].tokenEstimate)
                && (if k < r then cosine(rows[k].embedding, rows[r].embedding) else cosine(rows[r].embedding, rows[k].embedding)) > thr
    {
      var k :| Replaces(rows, cosine, thr, before, k, r);
    }
  }
}
