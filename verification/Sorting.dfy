/** Sorted copies and the order statistics read from them. */
module Sorting {
  predicate Sorted(s: seq<real>) {
    forall i, j :: 0 <= i < j < |s| ==> s[i] <= s[j]
  }

  function Insert(x: real, s: seq<real>): (r: seq<real>)
    ensures |r| == |s| + 1 && r[0] == if s == [] || x <= s[0] then x else s[0]
  {
    if s == [] || x <= s[0] then [x] + s else [s[0]] + Insert(x, s[1..])
  }

  lemma {:induction false} InsertSorted(x: real, s: seq<real>)
    requires Sorted(s)
    ensures Sorted(Insert(x, s))
  {
    if s != [] && x > s[0] {
      InsertSorted(x, s[1..]);
      assert s[0] <= Insert(x, s[1..])[0];
    }
  }

  lemma {:induction false} InsertPermutes(x: real, s: seq<real>)
    ensures multiset(Insert(x, s)) == multiset(s) + multiset{x}
  {
    if s != [] && x > s[0] {
      InsertPermutes(x, s[1..]);
      assert s == [s[0]] + s[1..];
    }
  }

  /** `[...s].sort((a, b) => a - b)`. */
  function Sort(s: seq<real>): (r: seq<real>)
    ensures Sorted(r) && multiset(r) == multiset(s) && |r| == |s|
  {
    if s == [] then []
    else
      assert s == [s[0]] + s[1..];
      var rest := Sort(s[1..]);
      InsertSorted(s[0], rest);
      InsertPermutes(s[0], rest);
      Insert(s[0], rest)
  }

  /** How many elements are at most `x`. */
  function AtMost(s: seq<real>, x: real): (n: nat)
    ensures n <= |s|
  {
    if s == [] then 0 else (if s[0] <= x then 1 else 0) + AtMost(s[1..], x)
  }

  /** How many elements are at least `x`. */
  function AtLeast(s: seq<real>, x: real): (n: nat)
    ensures n <= |s|
  {
    if s == [] then 0 else (if s[0] >= x then 1 else 0) + AtLeast(s[1..], x)
  }

  lemma {:induction false} CountsConcat(a: seq<real>, b: seq<real>, x: real)
    ensures AtMost(a + b, x) == AtMost(a, x) + AtMost(b, x)
    ensures AtLeast(a + b, x) == AtLeast(a, x) + AtLeast(b, x)
  {
    if a == [] {
      assert a + b == b;
    } else {
      assert (a + b)[1..] == a[1..] + b;
      CountsConcat(a[1..], b, x);
    }
  }

  lemma {:induction false} CountsInsert(y: real, s: seq<real>, x: real)
    ensures AtMost(Insert(y, s), x) == AtMost(s, x) + if y <= x then 1 else 0
    ensures AtLeast(Insert(y, s), x) == AtLeast(s, x) + if y >= x then 1 else 0
  {
    if s != [] {
      if y <= s[0] {
        assert ([y] + s)[1..] == s;
      } else {
        CountsInsert(y, s[1..], x);
        assert ([s[0]] + Insert(y, s[1..]))[1..] == Insert(y, s[1..]);
      }
    }
  }

  lemma {:induction false} CountsSort(s: seq<real>, x: real)
    ensures AtMost(Sort(s), x) == AtMost(s, x)
    ensures AtLeast(Sort(s), x) == AtLeast(s, x)
  {
    if s != [] {
      CountsSort(s[1..], x);
      CountsInsert(s[0], Sort(s[1..]), x);
    }
  }

  lemma {:induction false} AllAtMost(s: seq<real>, x: real)
    requires forall i :: 0 <= i < |s| ==> s[i] <= x
    ensures AtMost(s, x) == |s|
  {
    if s != [] {
      AllAtMost(s[1..], x);
    }
  }

  lemma {:induction false} AllAtLeast(s: seq<real>, x: real)
    requires forall i :: 0 <= i < |s| ==> s[i] >= x
    ensures AtLeast(s, x) == |s|
  {
    if s != [] {
      AllAtLeast(s[1..], x);
    }
  }

  lemma SortedAtMost(r: seq<real>, i: nat)
    requires Sorted(r) && i < |r|
    ensures AtMost(r, r[i]) >= i + 1
  {
    hide AtMost;
    assert r == r[..i + 1] + r[i + 1..];
    CountsConcat(r[..i + 1], r[i + 1..], r[i]);
    AllAtMost(r[..i + 1], r[i]);
  }

  lemma SortedAtLeast(r: seq<real>, i: nat)
    requires Sorted(r) && i < |r|
    ensures AtLeast(r, r[i]) >= |r| - i
  {
    hide AtLeast;
    assert r == r[..i] + r[i..];
    CountsConcat(r[..i], r[i..], r[i]);
    AllAtLeast(r[i..], r[i]);
  }

  /** What the element at place `i` of the sorted copy says about the original list. */
  lemma OrderStatistic(s: seq<real>, i: nat)
    requires i < |s|
    ensures var x := Sort(s)[i];
            x in s && AtMost(s, x) >= i + 1 && AtLeast(s, x) >= |s| - i
  {
    hide Sort, AtMost, AtLeast, Sorted;
    var r := Sort(s);
    assert r[i] in multiset(r) && r[i] in multiset(s);
    CountsSort(s, r[i]);
    SortedAtMost(r, i);
    SortedAtLeast(r, i);
  }
}
