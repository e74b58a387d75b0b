/**
 * The drop-boundary guards (src/boundary.ts): the tool-pair rule, the anchor floor,
 * and the search for the largest prefix that can be dropped under both.
 */
module Boundary {
  import opened Messages

  predicate IsToolResult(m: EngineMessage) {
    m.role == Tool && Truthy(m.toolName)
  }

  predicate HasToolUse(m: EngineMessage) {
    Truthy(m.toolName) && m.role != Tool
  }

  /** A name, not an empty one, makes a message of role tool a result and any other message a call. */
  lemma NamedToolMessages(m: EngineMessage, name: string)
    requires m.toolName == Some(name)
    ensures IsToolResult(m) <==> m.role == Tool && name != ""
    ensures HasToolUse(m) <==> m.role != Tool && name != ""
    ensures !IsToolResult(m.(toolName := None)) && !HasToolUse(m.(toolName := None))
  {}

  predicate IsUser(m: EngineMessage) {
    m.role == User
  }

  // ----- The tool-pair rule ------------------------------------------------

  /** The nearest tool call before index `r`, or -1: the owner of a result at `r`. */
  function Owner(ms: seq<EngineMessage>, r: nat): (o: int)
    requires r <= |ms|
    ensures -1 <= o < r
    ensures o >= 0 ==> HasToolUse(ms[o])
    ensures forall i :: o < i < r ==> !HasToolUse(ms[i])
  {
    if r == 0 then -1
    else if HasToolUse(ms[r - 1]) then r - 1
    else Owner(ms, r - 1)
  }

  /** No result kept by a cut at `c` has lost its owner. Cuts outside the list are safe. */
  ghost predicate PairSafe(ms: seq<EngineMessage>, c: int) {
    0 < c < |ms| ==>
      forall r :: c <= r < |ms| && IsToolResult(ms[r]) ==> Owner(ms, r) >= c
  }

  /** A view the provider accepts: every tool result has a tool call somewhere before it. */
  ghost predicate OrphanFree(ms: seq<EngineMessage>) {
    forall r :: 0 <= r < |ms| && IsToolResult(ms[r]) ==> HasCall(ms[..r])
  }

  ghost predicate HasCall(ms: seq<EngineMessage>) {
    exists i :: 0 <= i < |ms| && HasToolUse(ms[i])
  }

  /** The single forward pass that tracks the most recent tool call. */
  method IsPairSafe(ms: seq<EngineMessage>, dropEnd: int) returns (safe: bool)
    ensures safe <==> PairSafe(ms, dropEnd)
  {
    if dropEnd <= 0 || dropEnd >= |ms| {
      return true;
    }
    var lastToolCall := -1;
    for i := 0 to |ms|
      invariant lastToolCall == Owner(ms, i)
      invariant forall r :: dropEnd <= r < i && IsToolResult(ms[r]) ==> Owner(ms, r) >= dropEnd
    {
      if HasToolUse(ms[i]) {
        lastToolCall := i;
      }
      if i >= dropEnd && IsToolResult(ms[i]) {
        // a tool result is never itself a call, so the tracker still holds its owner
        if lastToolCall == -1 {
          return false;
        }
        if lastToolCall < dropEnd {
          return false;
        }
      }
    }
    return true;
  }

  /** Ownership by position is orphan-freedom of the kept slice, read on its own. */
  lemma PairSafeIffSliceOrphanFree(ms: seq<EngineMessage>, c: nat)
    requires 0 < c < |ms|
    ensures PairSafe(ms, c) <==> OrphanFree(ms[c..])
  {
    var kept := ms[c..];
    forall r | c <= r < |ms| && IsToolResult(ms[r])
      ensures Owner(ms, r) >= c <==> HasCall(kept[..r - c])
    {
      var o := Owner(ms, r);
      if o >= c {
        assert kept[..r - c][o - c] == ms[o];
      }
    }
    if OrphanFree(kept) {
      forall r | c <= r < |ms| && IsToolResult(ms[r])
        ensures Owner(ms, r) >= c
      {
        assert kept[r - c] == ms[r];
      }
    }
    if PairSafe(ms, c) {
      forall q | 0 <= q < |kept| && IsToolResult(kept[q])
        ensures HasCall(kept[..q])
      {
        assert kept[q] == ms[c + q];
      }
    }
  }

  /** Cutting a kept slice again is one deeper cut of the original list. */
  lemma PairSafeComposes(ms: seq<EngineMessage>, c: nat, d: nat)
    requires c <= |ms| && 0 < d
    ensures PairSafe(ms[c..], d) <==> PairSafe(ms, c + d)
  {
    if c + d < |ms| {
      PairSafeIffSliceOrphanFree(ms[c..], d);
      PairSafeIffSliceOrphanFree(ms, c + d);
      assert ms[c..][d..] == ms[c + d..];
    }
  }

  /**
   * A cut computed once and replayed after the transcript has grown
   * (extensions/mega-events/context-handler.ts) stays pair-safe exactly when the kept part
   * already holds a tool call or the new messages bring their own.
   */
  lemma ReplayedCutSafeIff(ms: seq<EngineMessage>, added: seq<EngineMessage>, c: nat)
    requires 0 < c <= |ms| && added != []
    ensures PairSafe(ms + added, c) <==>
            PairSafe(ms, c) && (HasCall(ms[c..]) || OrphanFree(added))
  {
    PairSafeIffSliceOrphanFree(ms + added, c);
    assert (ms + added)[c..] == ms[c..] + added;
    if c < |ms| {
      PairSafeIffSliceOrphanFree(ms, c);
    }
    OrphanFreeConcat(ms[c..], added);
  }

  lemma OrphanFreeConcat(a: seq<EngineMessage>, b: seq<EngineMessage>)
    ensures OrphanFree(a + b) <==> OrphanFree(a) && (HasCall(a) || OrphanFree(b))
  {
    var ab := a + b;
    forall r | 0 <= r < |a|
      ensures ab[r] == a[r] && ab[..r] == a[..r]
    {}
    forall r | 0 <= r < |b|
      ensures ab[|a| + r] == b[r]
      ensures HasCall(ab[..|a| + r]) <==> HasCall(a) || HasCall(b[..r])
    {
      assert ab[..|a| + r] == a + b[..r];
      HasCallConcat(a, b[..r]);
    }
    if OrphanFree(ab) && !HasCall(a) {
      forall r | 0 <= r < |b| && IsToolResult(b[r])
        ensures HasCall(b[..r])
      {
        assert IsToolResult(ab[|a| + r]);
      }
    }
    if OrphanFree(ab) {
      forall r | 0 <= r < |a| && IsToolResult(a[r])
        ensures HasCall(a[..r])
      {
        assert IsToolResult(ab[r]);
      }
    }
    if OrphanFree(a) && (HasCall(a) || OrphanFree(b)) {
      forall r | 0 <= r < |ab| && IsToolResult(ab[r])
        ensures HasCall(ab[..r])
      {
        if r >= |a| {
          assert ab[|a| + (r - |a|)] == b[r - |a|];
          assert HasCall(ab[..|a| + (r - |a|)]);
        }
      }
    }
  }

  lemma HasCallConcat(a: seq<EngineMessage>, b: seq<EngineMessage>)
    ensures HasCall(a + b) <==> HasCall(a) || HasCall(b)
  {
    if HasCall(a) {
      var i :| 0 <= i < |a| && HasToolUse(a[i]);
      assert (a + b)[i] == a[i];
    }
    if HasCall(b) {
      var i :| 0 <= i < |b| && HasToolUse(b[i]);
      assert (a + b)[|a| + i] == b[i];
    }
  }

  // ----- The anchor floor --------------------------------------------------

  function UserCount(ms: seq<EngineMessage>): (n: nat)
    ensures n <= |ms|
  {
    if ms == [] then 0
    else (if IsUser(ms[0]) then 1 else 0) + UserCount(ms[1..])
  }

  lemma {:induction false} UserCountConcat(a: seq<EngineMessage>, b: seq<EngineMessage>)
    ensures UserCount(a + b) == UserCount(a) + UserCount(b)
  {
    if a == [] {
      assert a + b == b;
    } else {
      assert (a + b)[1..] == a[1..] + b;
      UserCountConcat(a[1..], b);
    }
  }

  /** JavaScript's `slice(c)` for a start that is not negative. */
  function SliceFrom(ms: seq<EngineMessage>, c: int): (s: seq<EngineMessage>)
    requires c >= 0
  {
    if c <= |ms| then ms[c..] else []
  }

  /** A deeper cut never keeps more user messages. */
  lemma UsersKeptAntitone(ms: seq<EngineMessage>, c: nat, d: nat)
    requires c <= d
    ensures UserCount(SliceFrom(ms, d)) <= UserCount(SliceFrom(ms, c))
  {
    if d <= |ms| {
      assert ms[c..] == ms[c..d] + ms[d..];
      UserCountConcat(ms[c..d], ms[d..]);
    }
  }

  /** `us` lists, in order, the indexes of the user messages of `ms`. */
  ghost predicate UserIndexes(ms: seq<EngineMessage>, us: seq<nat>) {
    && (forall j :: 0 <= j < |us| ==> us[j] < |ms| && IsUser(ms[us[j]]))
    && (forall j, k :: 0 <= j < k < |us| ==> us[j] < us[k])
    && (forall i :: 0 <= i < |ms| && IsUser(ms[i]) ==> i in us)
  }

  /**
   * The two anchor tests agree: the suffix from `c` keeps at least `n` user messages
   * exactly when `c` does not pass the n-th user message from the end.
   */
  lemma AnchorIndexMatchesCount(ms: seq<EngineMessage>, us: seq<nat>, n: nat, c: nat)
    requires UserIndexes(ms, us) && 1 <= n <= |us|
    ensures UserCount(SliceFrom(ms, c)) >= n <==> c <= us[|us| - n]
  {
    hide UserIndexes, UserCount;
    UserIndexesAt(ms, us, |us| - n);
    SuffixCountFromIndexes(ms, us, |us| - n);
    var anchor := us[|us| - n];
    if c <= anchor {
      UsersKeptAntitone(ms, c, anchor);
    } else {
      UsersKeptAntitone(ms, anchor + 1, c);
      UserDropped(ms, anchor);
    }
  }

  lemma UserIndexesAt(ms: seq<EngineMessage>, us: seq<nat>, j: nat)
    requires UserIndexes(ms, us) && j < |us|
    ensures us[j] < |ms| && IsUser(ms[us[j]])
  {}

  lemma UserDropped(ms: seq<EngineMessage>, u: nat)
    requires u < |ms| && IsUser(ms[u])
    ensures UserCount(ms[u..]) == 1 + UserCount(SliceFrom(ms, u + 1))
  {
    assert ms[u..][1..] == ms[u + 1..];
  }

  lemma {:induction false} SuffixCountFromIndexes(ms: seq<EngineMessage>, us: seq<nat>, j: nat)
    requires UserIndexes(ms, us) && j < |us|
    ensures UserCount(ms[us[j]..]) == |us| - j
    decreases |us| - j
  {
    hide UserIndexes, UserCount;
    UserIndexesAt(ms, us, j);
    var next := if j + 1 < |us| then us[j + 1] else |ms|;
    if j + 1 < |us| {
      SuffixCountFromIndexes(ms, us, j + 1);
    }
    NoUsersBetween(ms, us, j, next);
    UserDropped(ms, us[j]);
    UsersSkipped(ms, us[j] + 1, next);
  }

  lemma UsersSkipped(ms: seq<EngineMessage>, from: nat, to: nat)
    requires from <= to <= |ms| && UserCount(ms[from..to]) == 0
    ensures UserCount(ms[from..]) == UserCount(ms[to..])
  {
    assert ms[from..] == ms[from..to] + ms[to..];
    UserCountConcat(ms[from..to], ms[to..]);
  }

  lemma NoUsersBetween(ms: seq<EngineMessage>, us: seq<nat>, j: nat, next: nat)
    requires UserIndexes(ms, us) && j < |us| && next == if j + 1 < |us| then us[j + 1] else |ms|
    ensures us[j] < next <= |ms| && UserCount(ms[us[j] + 1..next]) == 0
  {
    var between := ms[us[j] + 1..next];
    forall i | 0 <= i < |between|
      ensures !IsUser(between[i])
    {
      var at := us[j] + 1 + i;
      assert between[i] == ms[at];
      assert at !in us by {
        assert forall k :: 0 <= k < |us| ==> us[k] <= us[j] || us[k] >= next;
      }
    }
    NoUsersInside(between);
  }

  lemma {:induction false} NoUsersInside(ms: seq<EngineMessage>)
    requires forall i :: 0 <= i < |ms| ==> !IsUser(ms[i])
    ensures UserCount(ms) == 0
  {
    if ms != [] {
      NoUsersInside(ms[1..]);
    }
  }

  lemma UserIndexesCount(ms: seq<EngineMessage>, us: seq<nat>)
    requires UserIndexes(ms, us)
    ensures UserCount(ms) == |us|
  {
    if us == [] {
      NoUsersInside(ms);
    } else {
      var u := us[0];
      assert ms == ms[..u] + ms[u..];
      forall i | 0 <= i < u
        ensures !IsUser(ms[i])
      {}
      NoUsersInside(ms[..u]);
      UserCountConcat(ms[..u], ms[u..]);
      SuffixCountFromIndexes(ms, us, 0);
    }
  }

  // ----- The search --------------------------------------------------------

  /** A cut both guards allow: pair-safe, and at least `n` user messages are kept. */
  ghost predicate Cuttable(ms: seq<EngineMessage>, c: int, n: int) {
    c > 0 && PairSafe(ms, c) && UserCount(SliceFrom(ms, c)) >= n
  }

  /** The largest cut at or below `bound` that both guards allow, 0 when there is none. */
  ghost function LargestCut(ms: seq<EngineMessage>, bound: int, n: int): (c: nat)
    ensures c > 0 ==> c <= bound && Cuttable(ms, c, n)
    ensures forall d :: c < d <= bound ==> !Cuttable(ms, d, n)
    decreases bound
  {
    if bound <= 0 then 0
    else if Cuttable(ms, bound, n) then bound
    else LargestCut(ms, bound - 1, n)
  }

  lemma LargestCutIs(ms: seq<EngineMessage>, bound: int, n: int, c: nat)
    requires c == 0 || (c <= bound && Cuttable(ms, c, n))
    requires forall d :: c < d <= bound ==> !Cuttable(ms, d, n)
    ensures LargestCut(ms, bound, n) == c
  {}

  /** The anchor floor in force: `n` when it is positive and the list has that many user messages. */
  function EffectiveAnchor(ms: seq<EngineMessage>, n: int): (a: nat) {
    if n > 0 && UserCount(ms) >= n then n else 0
  }

  /** What `computeDropRange` promises: the end of the largest safe drop at or below `keepFrom`. */
  ghost function DropEnd(ms: seq<EngineMessage>, keepFrom: int, n: int): (c: nat)
    ensures c <= |ms|
    ensures c > 0 ==> 0 < c <= keepFrom < |ms|
  {
    if keepFrom <= 0 || keepFrom >= |ms| then 0
    else LargestCut(ms, keepFrom, EffectiveAnchor(ms, n))
  }

  method CollectUserIndexes(ms: seq<EngineMessage>) returns (userIndexes: seq<nat>)
    ensures UserIndexes(ms, userIndexes)
  {
    userIndexes := [];
    for i := 0 to |ms|
      invariant UserIndexes(ms[..i], userIndexes)
    {
      assert ms[..i + 1] == ms[..i] + [ms[i]];
      if IsUser(ms[i]) {
        userIndexes := userIndexes + [i];
      }
    }
    assert ms[..|ms|] == ms;
  }

  /** Index-bound search: cap the cut at the anchor user message, then walk down over unsafe cuts. */
  method ComputeDropRange(ms: seq<EngineMessage>, keepFrom: int, anchorUserMessages: int)
    returns (dropStart: nat, dropEnd: nat)
    ensures dropStart == 0
    ensures dropEnd == DropEnd(ms, keepFrom, anchorUserMessages)
  {
    hide PairSafe, UserCount, UserIndexes, LargestCut;
    if keepFrom <= 0 || keepFrom >= |ms| {
      return 0, 0;
    }
    var userIndexes := CollectUserIndexes(ms);
    UserIndexesCount(ms, userIndexes);

    var anchorActive := anchorUserMessages > 0 && |userIndexes| >= anchorUserMessages;
    var anchorStart := if anchorActive then userIndexes[|userIndexes| - anchorUserMessages] else keepFrom;
    var upperBound := if anchorActive && anchorStart < keepFrom then anchorStart else keepFrom;
    ghost var n := EffectiveAnchor(ms, anchorUserMessages);
    forall c | 0 < c <= keepFrom
      ensures Cuttable(ms, c, n) <==> PairSafe(ms, c) && c <= upperBound
    {
      if anchorActive {
        AnchorIndexMatchesCount(ms, userIndexes, n, c);
      }
    }

    dropStart, dropEnd := 0, upperBound;
    while dropEnd > 0
      invariant dropEnd <= upperBound
      invariant forall d :: dropEnd < d <= keepFrom ==> !Cuttable(ms, d, n)
    {
      var safe := IsPairSafe(ms, dropEnd);
      if safe {
        break;
      }
      dropEnd := dropEnd - 1;
    }
    LargestCutIs(ms, keepFrom, n, dropEnd);
  }

  /** `dropBefore` as a view: the kept suffix. */
  ghost function DropView(ms: seq<EngineMessage>, keepFrom: int, n: int): (view: seq<EngineMessage>) {
    ms[DropEnd(ms, keepFrom, n)..]
  }

  method DropBefore(ms: seq<EngineMessage>, keepFrom: int, anchorUserMessages: int)
    returns (kept: seq<EngineMessage>)
    ensures kept == DropView(ms, keepFrom, anchorUserMessages)
  {
    var dropStart, dropEnd := ComputeDropRange(ms, keepFrom, anchorUserMessages);
    if dropStart == dropEnd {
      return ms;
    }
    return ms[dropEnd..];
  }

  /** The promise of the drop range, spelled out on the messages themselves. */
  lemma DropRangeIsLargestSafe(ms: seq<EngineMessage>, keepFrom: int, n: int)
    requires 0 < keepFrom < |ms|
    ensures var e := DropEnd(ms, keepFrom, n);
            && (e > 0 ==> e <= keepFrom && OrphanFree(ms[e..]))
            && (n > 0 && UserCount(ms) >= n ==> UserCount(ms[e..]) >= n)
            && (forall d :: e < d <= keepFrom ==>
                  !OrphanFree(ms[d..]) || (0 < n <= UserCount(ms) && UserCount(ms[d..]) < n))
  {
    var e := DropEnd(ms, keepFrom, n);
    if e > 0 {
      PairSafeIffSliceOrphanFree(ms, e);
    } else {
      assert ms[e..] == ms;
    }
    forall d | e < d <= keepFrom
      ensures !OrphanFree(ms[d..]) || (0 < n <= UserCount(ms) && UserCount(ms[d..]) < n)
    {
      PairSafeIffSliceOrphanFree(ms, d);
      assert !Cuttable(ms, d, EffectiveAnchor(ms, n));
    }
  }

  function Min(a: int, b: int): int {
    if a <= b then a else b
  }

  /** Some pair-safe cut at or below `keepFrom` lies past a user message. */
  ghost predicate CutPastUser(ms: seq<EngineMessage>, keepFrom: int)
    requires keepFrom < |ms|
  {
    exists d :: 0 < d <= keepFrom && PairSafe(ms, d) && UserCount(ms[..d]) > 0
  }

  /**
   * "Never drop the most recent n user messages" holds if and only if the request is out of
   * range, the list has that many user messages, or no pair-safe cut within the request lies past
   * a user message.
   */
  lemma RecentUsersKeptIff(ms: seq<EngineMessage>, keepFrom: int, n: int)
    requires n > 0
    ensures UserCount(DropView(ms, keepFrom, n)) >= Min(n, UserCount(ms)) <==>
            keepFrom <= 0 || keepFrom >= |ms| || UserCount(ms) >= n || !CutPastUser(ms, keepFrom)
  {
    hide UserCount, PairSafe, LargestCut;
    var e := DropEnd(ms, keepFrom, n);
    UsersSplit(ms, e);
    if e == 0 {
      assert ms[e..] == ms;
    }
    if 0 < keepFrom < |ms| && UserCount(ms) < n {
      forall d | 0 < d <= keepFrom && PairSafe(ms, d)
        ensures d <= e && UserCount(ms[..d]) <= UserCount(ms[..e])
      {
        assert Cuttable(ms, d, 0);
        UsersInPrefix(ms, d, e);
      }
    }
  }

  lemma UsersSplit(ms: seq<EngineMessage>, c: nat)
    requires c <= |ms|
    ensures UserCount(ms) == UserCount(ms[..c]) + UserCount(ms[c..])
  {
    assert ms == ms[..c] + ms[c..];
    UserCountConcat(ms[..c], ms[c..]);
  }

  lemma UsersInPrefix(ms: seq<EngineMessage>, d: nat, e: nat)
    requires d <= e <= |ms|
    ensures UserCount(ms[..d]) <= UserCount(ms[..e])
  {
    assert ms[..e][..d] == ms[..d];
    UsersSplit(ms[..e], d);
  }

  /** With fewer user messages than the floor, the only one can be dropped. */
  lemma FloorOffBelowAnchor()
    ensures exists ms: seq<EngineMessage> :: UserCount(ms) == 1 && DropEnd(ms, 1, 2) == 1 && UserCount(ms[1..]) == 0
  {
    var user := EngineMessage(User, "hi", None, None, None);
    var reply := EngineMessage(Assistant, "ok", None, None, None);
    var ms := [user, reply];
    assert ms[1..] == [reply] && [reply][1..] == [];
    assert UserCount([reply]) == 0 && UserCount(ms) == 1;
    assert PairSafe(ms, 1) && Cuttable(ms, 1, 0);
  }
}
