/** The last part of a growing list: what a bounded buffer keeps. */
module Windows {
  function LastN<T>(s: seq<T>, n: nat): (w: seq<T>)
    ensures |w| == if |s| <= n then |s| else n
  {
    if |s| <= n then s else s[|s| - n..]
  }

  lemma LastNSlice<T>(s: seq<T>, n: nat)
    ensures LastN(s, n) == s[if |s| <= n then 0 else |s| - n..]
  {}

  /** Appending to a full window drops its first element. */
  lemma WindowStep<T>(s: seq<T>, x: T, n: nat)
    requires n > 0
    ensures LastN(s + [x], n) == if |LastN(s, n)| < n then LastN(s, n) + [x] else LastN(s, n)[1..] + [x]
  {}
}
