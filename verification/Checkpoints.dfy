/**
 * Checkpoint ids (src/store.ts): sequential numbers printed with zero padding, and read back
 * with `parseInt` to find the next one.
 */
module Checkpoints {
  import opened Messages
  import opened JsStrings

  // ----- Printing ----------------------------------------------------------

  function Digit(d: nat): (c: char)
    requires d < 10
  {
    "0123456789"[d]
  }

  function DigitValue(c: char): (d: int)
  {
    if '0' <= c <= '9' then c as int - '0' as int else -1
  }

  lemma DigitRoundTrip(d: nat)
    requires d < 10
    ensures DigitValue(Digit(d)) == d
  {}

  /** `String(n)`. */
  function Decimal(n: nat): (s: string)
    ensures s != ""
  {
    if n < 10 then [Digit(n)] else Decimal(n / 10) + [Digit(n % 10)]
  }

  function PadStart(s: string, width: nat): string
    decreases width - |s|
  {
    if |s| >= width then s else PadStart("0" + s, width)
  }

  const PREFIX := "chkpt_"

  function CheckpointId(n: nat): string {
    PREFIX + PadStart(Decimal(n), 3)
  }

  // ----- Parsing -----------------------------------------------------------

  /** The value of the leading digits of `s`, read after `acc`. */
  function DigitsValue(s: string, acc: nat): nat {
    if s != "" && DigitValue(s[0]) >= 0 then DigitsValue(s[1..], acc * 10 + DigitValue(s[0])) else acc
  }

  /** `parseInt(s, 10)`: white space, a sign, then leading digits; NaN without any. */
  function ParseInt(s: string): Option<int> {
    ParseTrimmed(TrimStart(s))
  }

  function ParseTrimmed(t: string): Option<int> {
    var negative := t != "" && t[0] == '-';
    var u := if t != "" && (t[0] == '-' || t[0] == '+') then t[1..] else t;
    if u == "" || DigitValue(u[0]) < 0 then None
    else
      var v: int := DigitsValue(u, 0);
      Some(if negative then -v else v)
  }

  /** The number of an id: the first `chkpt_` is removed wherever it stands. */
  function NumberOf(id: string): Option<int> {
    var i := IndexOf(id, PREFIX);
    ParseInt(if i == -1 then id else id[..i] + id[i + |PREFIX|..])
  }

  lemma {:induction false} DigitsConcat(a: string, b: string, acc: nat)
    requires forall i :: 0 <= i < |a| ==> DigitValue(a[i]) >= 0
    ensures DigitsValue(a + b, acc) == DigitsValue(b, DigitsValue(a, acc))
  {
    if a == "" {
      assert a + b == b;
    } else {
      assert (a + b)[1..] == a[1..] + b;
      DigitsConcat(a[1..], b, acc * 10 + DigitValue(a[0]));
    }
  }

  lemma {:induction false} DecimalRoundTrip(n: nat)
    ensures DigitsValue(Decimal(n), 0) == n
    ensures forall i :: 0 <= i < |Decimal(n)| ==> DigitValue(Decimal(n)[i]) >= 0
  {
    DigitRoundTrip(n % 10);
    if n < 10 {
      assert [Digit(n)][1..] == "";
    } else {
      DecimalRoundTrip(n / 10);
      DigitsConcat(Decimal(n / 10), [Digit(n % 10)], 0);
      assert [Digit(n % 10)][1..] == "";
    }
  }

  lemma {:induction false} PaddingKeepsValue(s: string, width: nat)
    requires forall i :: 0 <= i < |s| ==> DigitValue(s[i]) >= 0
    ensures var p := PadStart(s, width);
            && DigitsValue(p, 0) == DigitsValue(s, 0) && |p| >= |s|
            && forall i :: 0 <= i < |p| ==> DigitValue(p[i]) >= 0
    decreases width - |s|
  {
    if |s| < width {
      assert ("0" + s)[1..] == s;
      PaddingKeepsValue("0" + s, width);
    }
  }

  lemma ParseDigits(p: string)
    requires p != "" && forall i :: 0 <= i < |p| ==> DigitValue(p[i]) >= 0
    ensures ParseInt(p) == Some(DigitsValue(p, 0))
  {
    hide ParseInt, DigitsValue, DigitValue;
    ParseSigned("", p);
    assert "" + p == p;
  }

  lemma DigitIsPlain(c: char)
    requires DigitValue(c) >= 0
    ensures !IsSpace(c) && c != '-' && c != '+'
  {}

  lemma NumberOfPrefixed(prefix: string, p: string)
    requires prefix == PREFIX
    ensures NumberOf(prefix + p) == ParseInt(p)
  {
    hide ParseInt, IndexOf;
    IndexOfPrefix(prefix, p);
    assert (prefix + p)[..0] + (prefix + p)[|prefix|..] == p;
  }

  /** Reading a printed id gives back its number. */
  lemma IdRoundTrip(n: nat)
    ensures NumberOf(CheckpointId(n)) == Some(n)
  {
    hide NumberOf, ParseInt, DigitsValue, Decimal, PadStart;
    DecimalRoundTrip(n);
    PaddingKeepsValue(Decimal(n), 3);
    ParseDigits(PadStart(Decimal(n), 3));
    NumberOfPrefixed(PREFIX, PadStart(Decimal(n), 3));
  }

  lemma {:induction false} DecimalStarts(n: nat)
    ensures n > 0 ==> Decimal(n)[0] != '0'
  {
    if n >= 10 {
      DecimalStarts(n / 10);
    } else {
      assert n > 0 ==> Digit(n) != '0';
    }
  }

  lemma {:induction false} PaddedTo(s: string, width: nat)
    ensures var p := PadStart(s, width);
            && |p| == (if |s| < width then width else |s|) && p[|p| - |s|..] == s
            && forall i :: 0 <= i < |p| - |s| ==> p[i] == '0'
    decreases width - |s|
  {
    if |s| < width {
      PaddedTo("0" + s, width);
      var p := PadStart(s, width);
      assert p[|p| - |s| - 1..] == "0" + s;
      assert p[|p| - |s|..] == ("0" + s)[1..];
      assert p[|p| - |s| - 1] == p[|p| - |s| - 1..][0];
    }
  }

  /** An id is `chkpt_` and at least three digits, and never more than three if it starts with a zero. */
  lemma IdShape(n: nat)
    requires n > 0
    ensures var id := CheckpointId(n);
            && |id| >= 9 && id[..6] == "chkpt_"
            && (forall i :: 6 <= i < |id| ==> '0' <= id[i] <= '9')
            && (|id| > 9 ==> id[6] != '0')
  {
    hide DigitsValue, Decimal, PadStart;
    DecimalRoundTrip(n);
    DecimalStarts(n);
    PaddingKeepsValue(Decimal(n), 3);
    PaddedTo(Decimal(n), 3);
    var p, id := PadStart(Decimal(n), 3), CheckpointId(n);
    assert PREFIX == "chkpt_" && |PREFIX| == 6;
    assert forall i :: 6 <= i < |id| ==> id[i] == p[i - 6] && DigitValue(p[i - 6]) >= 0;
  }

  /** The first and the thousandth id. */
  lemma FirstIds()
    ensures CheckpointId(1) == "chkpt_001" && CheckpointId(1000) == "chkpt_1000"
  {
    assert Decimal(1) == "1" && PadStart("1", 3) == PadStart("01", 3) == PadStart("001", 3) == "001";
    assert Decimal(10) == "10" && Decimal(100) == "100" && Decimal(1000) == "1000";
  }

  // ----- Reading any id ----------------------------------------------------

  /** A text of decimal digits. */
  predicate AllDigits(s: string) {
    s != "" && forall i :: 0 <= i < |s| ==> '0' <= s[i] <= '9'
  }

  lemma TrimStartDrops(spaces: string, s: string)
    requires AllSpace(spaces) && s != "" && !IsSpace(s[0])
    ensures TrimStart(spaces + s) == s
  {
    var t := spaces + s;
    assert t[|spaces|] == s[0];
    assert LeadingSpaces(t) == |spaces|;
  }

  /** White space, a sign and what follows the digits do not count, except that a minus negates. */
  lemma ParseIntReads(spaces: string, sign: string, digits: string, rest: string)
    requires AllSpace(spaces) && sign in ["", "+", "-"] && AllDigits(digits)
    requires rest == "" || !('0' <= rest[0] <= '9')
    ensures var v: int := DigitsValue(digits, 0);
            ParseInt(spaces + (sign + (digits + rest))) == Some(if sign == "-" then -v else v)
  {
    hide ParseInt, IsSpace, DigitsValue;
    var u := digits + rest;
    assert u[0] == digits[0] && DigitValue(u[0]) >= 0;
    ParseSigned(sign, u);
    ParseSkips(spaces, sign + u);
    DigitsConcat(digits, rest, 0);
    DigitsEnd(rest, DigitsValue(digits, 0));
  }

  lemma ParseSigned(sign: string, u: string)
    requires sign in ["", "+", "-"] && u != "" && DigitValue(u[0]) >= 0
    ensures var v: int := DigitsValue(u, 0);
            ParseInt(sign + u) == Some(if sign == "-" then -v else v) && !IsSpace((sign + u)[0])
  {
    hide IsSpace, DigitsValue, DigitValue;
    var t := sign + u;
    DigitIsPlain(u[0]);
    SignIsPlain();
    if sign == "" {
      assert t == u;
    } else {
      assert t[0] == sign[0] && t[1..] == u;
    }
    TrimStartDrops("", t);
    assert "" + t == t;
  }

  lemma ParseSkips(spaces: string, t: string)
    requires AllSpace(spaces) && t != "" && !IsSpace(t[0])
    ensures ParseInt(spaces + t) == ParseInt(t)
  {
    hide ParseTrimmed, IsSpace;
    TrimStartDrops(spaces, t);
    TrimStartDrops("", t);
    assert "" + t == t;
  }

  lemma SignIsPlain()
    ensures !IsSpace('+') && !IsSpace('-')
  {}

  lemma DigitsEnd(rest: string, acc: nat)
    requires rest == "" || !('0' <= rest[0] <= '9')
    ensures DigitsValue(rest, acc) == acc
  {}

  /** The number of an id is read from what is left when the first `chkpt_` is taken out of it. */
  lemma NumberOfAnywhere(a: string, b: string)
    requires !Contains(a, "chkpt_")
    ensures NumberOf(a + "chkpt_" + b) == ParseInt(a + b) && NumberOf(a) == ParseInt(a)
  {
    hide ParseInt, IndexOf;
    var id := a + PREFIX + b;
    FoundAfter(a, PREFIX, b);
    assert id[..|a|] == a && id[|a| + |PREFIX|..] == b;
    LacksPrefix(a);
  }

  lemma LacksPrefix(a: string)
    requires !Contains(a, PREFIX)
    ensures IndexOf(a, PREFIX) == -1
  {}

  // ----- Assigning ids -----------------------------------------------------

  /** The largest number among the ids, 0 when there is none. */
  function MaxNumber(ids: seq<string>): nat {
    if ids == [] then 0
    else
      var last := |ids| - 1;
      var m := MaxNumber(ids[..last]);
      var n := NumberOf(ids[last]);
      if n.Some? && n.value > m then n.value else m
  }

  lemma {:induction false} NumberAtMostMax(ids: seq<string>, i: nat)
    requires i < |ids| && NumberOf(ids[i]).Some?
    ensures NumberOf(ids[i]).value <= MaxNumber(ids)
    decreases |ids|
  {
    hide NumberOf;
    var last := |ids| - 1;
    if i < last {
      assert ids[..last][i] == ids[i];
      NumberAtMostMax(ids[..last], i);
    }
  }

  /** The largest number is one of the numbers, or none is positive. */
  lemma {:induction false} MaxIsReached(ids: seq<string>)
    ensures MaxNumber(ids) > 0 ==> exists i :: 0 <= i < |ids| && NumberOf(ids[i]) == Some(MaxNumber(ids))
    decreases |ids|
  {
    hide NumberOf;
    if ids != [] {
      var last := |ids| - 1;
      MaxIsReached(ids[..last]);
      if MaxNumber(ids) == MaxNumber(ids[..last]) && MaxNumber(ids) > 0 {
        var i :| 0 <= i < |ids[..last]| && NumberOf(ids[..last][i]) == Some(MaxNumber(ids));
        assert ids[..last][i] == ids[i];
      }
    }
  }

  function NextCheckpointId(ids: seq<string>): string {
    CheckpointId(MaxNumber(ids) + 1)
  }

  /** The next id is new, whatever ids the list already holds. */
  lemma NextIdIsFresh(ids: seq<string>)
    ensures NextCheckpointId(ids) !in ids
  {
    hide NumberOf, CheckpointId;
    IdRoundTrip(MaxNumber(ids) + 1);
    forall i | 0 <= i < |ids|
      ensures ids[i] != NextCheckpointId(ids)
    {
      if NumberOf(ids[i]).Some? {
        NumberAtMostMax(ids, i);
      }
    }
  }

  /** The checkpoint list of one session, by id. */
  class CheckpointList {
    var ids: seq<string>

    constructor ()
      ensures ids == []
    {
      ids := [];
    }

    method AppendNext() returns (id: string)
      modifies this
      ensures id == NextCheckpointId(old(ids)) && id !in old(ids)
      ensures ids == old(ids) + [id]
    {
      NextIdIsFresh(ids);
      id := NextCheckpointId(ids);
      ids := ids + [id];
    }
  }

  function AppendAll(ids: seq<string>, count: nat): seq<string> {
    if count == 0 then ids
    else
      var before := AppendAll(ids, count - 1);
      before + [NextCheckpointId(before)]
  }

  /** From the empty list, any run of appends assigns exactly the ids of 1, 2, ... in order. */
  lemma {:induction false} RunAssignsOneToN(count: nat)
    ensures var ids := AppendAll([], count);
            && |ids| == count && MaxNumber(ids) == count
            && (forall i :: 0 <= i < count ==> ids[i] == CheckpointId(i + 1))
            && (forall i, j :: 0 <= i < j < count ==> ids[i] != ids[j])
  {
    hide NumberOf, CheckpointId;
    if count > 0 {
      RunAssignsOneToN(count - 1);
      var before, ids := AppendAll([], count - 1), AppendAll([], count);
      assert ids[..count - 1] == before;
      IdRoundTrip(count);
      NextIdIsFresh(before);
      assert ids == before + [CheckpointId(count)];
    }
  }
}
