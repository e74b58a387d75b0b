/**
 * Splitting an oversized text for the embedding server (src/httpEmbedder.ts): where each piece
 * ends, what the pieces add up to, and when a piece is larger than the budget.
 */
module Chunking {
  import opened JsStrings

  /** `Math.ceil(length / charsPerToken)`. */
  function EstimateTokens(length: nat, charsPerToken: nat): nat
    requires charsPerToken > 0
  {
    (length + charsPerToken - 1) / charsPerToken
  }

  lemma EstimateExceedsIff(length: nat, charsPerToken: nat, tokens: nat)
    requires charsPerToken > 0
    ensures EstimateTokens(length, charsPerToken) > tokens <==> length > tokens * charsPerToken
  {
    var e := EstimateTokens(length, charsPerToken);
    var r := (length + charsPerToken - 1) % charsPerToken;
    assert length + charsPerToken - 1 == e * charsPerToken + r;
    if e > tokens {
      assert e * charsPerToken >= (tokens + 1) * charsPerToken;
    } else {
      assert e * charsPerToken <= tokens * charsPerToken;
    }
  }

  // ----- Where a piece ends ------------------------------------------------

  /** The end of the piece that starts at `start`: a boundary in the back half, or a hard cut. */
  function PieceEnd(text: string, start: nat, maxChars: nat): (end: nat)
    requires start < |text| && maxChars >= 1
    ensures start < end <= |text|
    ensures end <= start + maxChars + 2
    ensures end < |text| ==> end >= start + maxChars / 2 + 1
  {
    if start + maxChars >= |text| then |text|
    else
      var hard := start + maxChars;
      var windowStart := start + maxChars / 2;
      var para := LastIndexOf(text, "\n\n", hard);
      var sentence := LastIndexOf(text, ". ", hard);
      var space := LastIndexOf(text, " ", hard);
      if para >= windowStart then para + 2
      else if sentence >= windowStart then sentence + 2
      else if space >= windowStart then space + 1
      else hard
  }

  /** The consecutive pieces from `start` on, blank ones included. */
  function Pieces(text: string, start: nat, maxChars: nat): (ps: seq<string>)
    requires start <= |text| && maxChars >= 1
    decreases |text| - start
  {
    if start == |text| then []
    else
      var end := PieceEnd(text, start, maxChars);
      [text[start..end]] + Pieces(text, end, maxChars)
  }

  predicate IsBlank(s: string) {
    Trim(s) == ""
  }

  function DropBlank(ps: seq<string>): seq<string> {
    if ps == [] then []
    else (if IsBlank(ps[0]) then [] else [ps[0]]) + DropBlank(ps[1..])
  }

  function Chunks(text: string, maxTokens: nat, charsPerToken: nat): seq<string>
    requires maxTokens >= 1 && charsPerToken >= 1
  {
    var maxChars := maxTokens * charsPerToken;
    if |text| <= maxChars then [text] else DropBlank(Pieces(text, 0, maxChars))
  }

  method ChunkText(text: string, maxTokens: nat, charsPerToken: nat) returns (chunks: seq<string>)
    requires maxTokens >= 1 && charsPerToken >= 1
    ensures chunks == Chunks(text, maxTokens, charsPerToken)
  {
    var maxChars := maxTokens * charsPerToken;
    if |text| <= maxChars {
      return [text];
    }
    chunks := SplitText(text, maxChars);
  }

  method FindEnd(text: string, start: nat, maxChars: nat) returns (end: nat)
    requires start < |text| && maxChars >= 1
    ensures end == PieceEnd(text, start, maxChars)
  {
    end := if start + maxChars < |text| then start + maxChars else |text|;
    if end < |text| {
      var windowStart := start + maxChars / 2;
      var para := LastIndexOf(text, "\n\n", end);
      var sentence := LastIndexOf(text, ". ", end);
      var space := LastIndexOf(text, " ", end);
      if para >= windowStart {
        end := para + 2;
      } else if sentence >= windowStart {
        end := sentence + 2;
      } else if space >= windowStart {
        end := space + 1;
      }
    }
  }

  /** The window scan of `chunkText`. */
  method SplitText(text: string, maxChars: nat) returns (chunks: seq<string>)
    requires maxChars >= 1
    ensures chunks == DropBlank(Pieces(text, 0, maxChars))
  {
    hide PieceEnd, Trim;
    chunks := [];
    var start := 0;
    while start < |text|
      invariant start <= |text|
      invariant chunks + DropBlank(Pieces(text, start, maxChars)) == DropBlank(Pieces(text, 0, maxChars))
    {
      var end := FindEnd(text, start, maxChars);
      var piece := text[start..end];
      ghost var rest := Pieces(text, end, maxChars);
      assert Pieces(text, start, maxChars)[0] == piece && Pieces(text, start, maxChars)[1..] == rest;
      if |Trim(piece)| > 0 {
        chunks := chunks + [piece];
      }
      start := end;
    }
  }

  // ----- What the pieces are -----------------------------------------------

  function Joined(ps: seq<string>): string {
    if ps == [] then "" else ps[0] + Joined(ps[1..])
  }

  /** The pieces tile the text, in order. */
  lemma {:induction false} PiecesTile(text: string, start: nat, maxChars: nat)
    requires start <= |text| && maxChars >= 1
    ensures Joined(Pieces(text, start, maxChars)) == text[start..]
    decreases |text| - start
  {
    if start < |text| {
      var end := PieceEnd(text, start, maxChars);
      PiecesTile(text, end, maxChars);
      assert Pieces(text, start, maxChars)[1..] == Pieces(text, end, maxChars);
      assert text[start..end] + text[end..] == text[start..];
    }
  }

  ghost predicate Sized(ps: seq<string>, maxChars: nat) {
    && (forall i :: 0 <= i < |ps| ==> 0 < |ps[i]| <= maxChars + 2)
    && (forall i :: 0 <= i < |ps| - 1 ==> |ps[i]| >= maxChars / 2 + 1)
  }

  /** No piece is empty or exceeds the budget by more than two, and all but the last fill half of it. */
  lemma {:induction false} PieceSizes(text: string, start: nat, maxChars: nat)
    requires start <= |text| && maxChars >= 1
    ensures Sized(Pieces(text, start, maxChars), maxChars)
    decreases |text| - start
  {
    if start < |text| {
      var end := PieceEnd(text, start, maxChars);
      PieceSizes(text, end, maxChars);
      SizedCons(text[start..end], Pieces(text, end, maxChars), maxChars);
    }
  }

  lemma SizedCons(p: string, ps: seq<string>, maxChars: nat)
    requires Sized(ps, maxChars) && 0 < |p| <= maxChars + 2
    requires ps != [] ==> |p| >= maxChars / 2 + 1
    ensures Sized([p] + ps, maxChars)
  {}

  /** Hence the number of pieces is bounded by the text length. */
  lemma {:induction false} PieceCount(text: string, start: nat, maxChars: nat)
    requires start <= |text| && maxChars >= 1
    ensures var n := |Pieces(text, start, maxChars)|;
            n > 0 ==> (n - 1) * (maxChars / 2 + 1) < |text| - start
    decreases |text| - start
  {
    hide PieceEnd;
    if start < |text| {
      var end := PieceEnd(text, start, maxChars);
      PieceCount(text, end, maxChars);
      var rest := Pieces(text, end, maxChars);
      assert Pieces(text, start, maxChars) == [text[start..end]] + rest;
      OneMoreTimes(|rest|, maxChars / 2 + 1);
    }
  }

  lemma OneMoreTimes(n: int, h: nat)
    ensures n * h == (n - 1) * h + h
  {}

  function NonSpace(s: string): (r: string) {
    if s == "" then "" else (if IsSpace(s[0]) then "" else [s[0]]) + NonSpace(s[1..])
  }

  lemma {:induction false} NonSpaceConcat(a: string, b: string)
    ensures NonSpace(a + b) == NonSpace(a) + NonSpace(b)
  {
    if a == "" {
      assert a + b == b;
    } else {
      assert (a + b)[1..] == a[1..] + b;
      NonSpaceConcat(a[1..], b);
    }
  }

  lemma {:induction false} NonSpaceEmptyIff(s: string)
    ensures NonSpace(s) == "" <==> AllSpace(s)
  {
    if s != "" {
      NonSpaceEmptyIff(s[1..]);
      assert AllSpace(s) ==> AllSpace(s[1..]);
      assert s == [s[0]] + s[1..];
    }
  }

  lemma {:induction false} DropBlankKeepsText(ps: seq<string>)
    ensures NonSpace(Joined(DropBlank(ps))) == NonSpace(Joined(ps))
  {
    if ps != [] {
      DropBlankKeepsText(ps[1..]);
      NonSpaceConcat(ps[0], Joined(ps[1..]));
      if IsBlank(ps[0]) {
        TrimEmptyIffAllSpace(ps[0]);
        NonSpaceEmptyIff(ps[0]);
        assert DropBlank(ps) == DropBlank(ps[1..]);
      } else {
        assert DropBlank(ps)[1..] == DropBlank(ps[1..]);
        NonSpaceConcat(ps[0], Joined(DropBlank(ps[1..])));
      }
    }
  }

  /** Chunking loses nothing but white space. */
  lemma ChunksKeepText(text: string, maxTokens: nat, charsPerToken: nat)
    requires maxTokens >= 1 && charsPerToken >= 1
    ensures NonSpace(Joined(Chunks(text, maxTokens, charsPerToken))) == NonSpace(text)
  {
    var maxChars := maxTokens * charsPerToken;
    if |text| <= maxChars {
      assert Joined([text]) == text + Joined([]) == text;
    } else {
      PiecesTile(text, 0, maxChars);
      DropBlankKeepsText(Pieces(text, 0, maxChars));
    }
  }

  /** A text is chunked into nothing exactly when it is over the budget and all white space. */
  lemma NoChunksIff(text: string, maxTokens: nat, charsPerToken: nat)
    requires maxTokens >= 1 && charsPerToken >= 1
    ensures Chunks(text, maxTokens, charsPerToken) == [] <==> |text| > maxTokens * charsPerToken && AllSpace(text)
  {
    ChunksKeepText(text, maxTokens, charsPerToken);
    NonSpaceEmptyIff(text);
    var maxChars := maxTokens * charsPerToken;
    if |text| > maxChars && AllSpace(text) {
      PiecesTile(text, 0, maxChars);
      BlankPiecesDropped(Pieces(text, 0, maxChars));
    }
  }

  lemma {:induction false} BlankPiecesDropped(ps: seq<string>)
    requires AllSpace(Joined(ps))
    ensures DropBlank(ps) == []
  {
    if ps != [] {
      var rest := Joined(ps[1..]);
      assert forall i :: 0 <= i < |rest| ==> rest[i] == Joined(ps)[|ps[0]| + i];
      assert forall i :: 0 <= i < |ps[0]| ==> ps[0][i] == Joined(ps)[i];
      BlankPiecesDropped(ps[1..]);
      TrimEmptyIffAllSpace(ps[0]);
    }
  }

  /** The last match of `pat` that starts within [lo, hi]. */
  ghost predicate LastWithin(text: string, pat: string, lo: int, hi: int, i: int) {
    lo <= i <= hi && MatchesAt(text, pat, i) && forall j :: i < j <= hi ==> !MatchesAt(text, pat, j)
  }

  ghost predicate NoneWithin(text: string, pat: string, lo: int, hi: int) {
    forall j :: lo <= j <= hi ==> !MatchesAt(text, pat, j)
  }

  /**
   * Paragraph before sentence before word: a piece cut short of the text ends just after the last
   * boundary of the best kind that starts in the back half of its window, and in mid-word only
   * when no boundary of any kind does.
   */
  lemma BestBoundaryChosen(text: string, start: nat, maxChars: nat)
    requires start + maxChars < |text| && maxChars >= 1
    ensures var end, lo, hi := PieceEnd(text, start, maxChars), start + maxChars / 2, start + maxChars;
            || LastWithin(text, "\n\n", lo, hi, end - 2)
            || (NoneWithin(text, "\n\n", lo, hi) && LastWithin(text, ". ", lo, hi, end - 2))
            || (NoneWithin(text, "\n\n", lo, hi) && NoneWithin(text, ". ", lo, hi) && LastWithin(text, " ", lo, hi, end - 1))
            || (NoneWithin(text, "\n\n", lo, hi) && NoneWithin(text, ". ", lo, hi) && NoneWithin(text, " ", lo, hi) && end == hi)
  {
    hide MatchesAt, LastIndexOf;
  }

  // ----- The budget --------------------------------------------------------

  /** The boundary that decides the end of the piece at `start` straddles or touches the hard limit. */
  ghost predicate BoundaryAtLimit(text: string, start: nat, maxChars: nat)
    requires start + maxChars < |text|
  {
    var hard := start + maxChars;
    var windowStart := start + maxChars / 2;
    var para, sentence := LastIndexOf(text, "\n\n", hard), LastIndexOf(text, ". ", hard);
    if para >= windowStart then para >= hard - 1
    else if sentence >= windowStart then sentence >= hard - 1
    else text[hard] == ' '
  }

  /** A piece is estimated over the token budget exactly when its boundary lies at the hard limit. */
  lemma PieceOverBudgetIff(text: string, start: nat, maxTokens: nat, charsPerToken: nat)
    requires start < |text| && maxTokens >= 1 && charsPerToken >= 1
    ensures var maxChars := maxTokens * charsPerToken;
            maxChars >= 1 &&
            (EstimateTokens(PieceEnd(text, start, maxChars) - start, charsPerToken) > maxTokens <==>
             start + maxChars < |text| && BoundaryAtLimit(text, start, maxChars))
  {
    var maxChars := maxTokens * charsPerToken;
    assert maxChars >= 1 by { assert maxTokens * charsPerToken >= 1 * charsPerToken; }
    EstimateExceedsIff(PieceEnd(text, start, maxChars) - start, charsPerToken, maxTokens);
    if start + maxChars < |text| {
      var hard := start + maxChars;
      assert text[hard..hard + 1] == [text[hard]];
      assert MatchesAt(text, " ", hard) <==> text[hard] == ' ';
    }
  }

  /** Some piece of the scan from `start` on is not blank and ends at a boundary at its hard limit. */
  ghost predicate LimitHitFrom(text: string, start: nat, maxChars: nat)
    requires start <= |text| && maxChars >= 1
    decreases |text| - start
  {
    start < |text| &&
    var end := PieceEnd(text, start, maxChars);
    || (start + maxChars < |text| && BoundaryAtLimit(text, start, maxChars) && !IsBlank(text[start..end]))
    || LimitHitFrom(text, end, maxChars)
  }

  ghost predicate SomeOverBudget(chunks: seq<string>, maxTokens: nat, charsPerToken: nat)
    requires charsPerToken >= 1
  {
    exists i :: 0 <= i < |chunks| && EstimateTokens(|chunks[i]|, charsPerToken) > maxTokens
  }

  lemma OverBudgetCons(chunk: string, rest: seq<string>, maxTokens: nat, charsPerToken: nat)
    requires charsPerToken >= 1
    ensures SomeOverBudget([chunk] + rest, maxTokens, charsPerToken) <==>
            EstimateTokens(|chunk|, charsPerToken) > maxTokens || SomeOverBudget(rest, maxTokens, charsPerToken)
  {
    hide EstimateTokens;
    var all := [chunk] + rest;
    assert all[0] == chunk;
    if i :| 0 <= i < |rest| && EstimateTokens(|rest[i]|, charsPerToken) > maxTokens {
      assert all[i + 1] == rest[i];
    }
    if i :| 0 <= i < |all| && EstimateTokens(|all[i]|, charsPerToken) > maxTokens && i > 0 {
      assert rest[i - 1] == all[i];
    }
  }

  lemma {:induction false} PiecesOverBudgetIff(text: string, start: nat, maxTokens: nat, charsPerToken: nat)
    requires start <= |text| && maxTokens >= 1 && charsPerToken >= 1 && maxTokens * charsPerToken >= 1
    ensures var maxChars := maxTokens * charsPerToken;
            SomeOverBudget(DropBlank(Pieces(text, start, maxChars)), maxTokens, charsPerToken) <==>
            LimitHitFrom(text, start, maxChars)
    decreases |text| - start
  {
    hide PieceEnd, EstimateTokens, BoundaryAtLimit, IsBlank, SomeOverBudget;
    var maxChars := maxTokens * charsPerToken;
    if start == |text| {
      NoneOverBudget(maxTokens, charsPerToken);
    } else {
      var end := PieceEnd(text, start, maxChars);
      var piece, rest := text[start..end], Pieces(text, end, maxChars);
      PiecesOverBudgetIff(text, end, maxTokens, charsPerToken);
      PieceOverBudgetIff(text, start, maxTokens, charsPerToken);
      OverBudgetCons(piece, DropBlank(rest), maxTokens, charsPerToken);
      assert Pieces(text, start, maxChars) == [piece] + rest && ([piece] + rest)[1..] == rest;
      assert DropBlank([piece] + rest) == if IsBlank(piece) then DropBlank(rest) else [piece] + DropBlank(rest);
      assert |piece| == end - start;
    }
  }

  lemma NoneOverBudget(maxTokens: nat, charsPerToken: nat)
    requires charsPerToken >= 1
    ensures !SomeOverBudget([], maxTokens, charsPerToken)
  {}

  /**
   * "Every chunk is at most the token budget" fails exactly when the text is over the budget and
   * the scan over it meets a boundary at the hard limit of a piece that is not blank.
   */
  lemma ChunkOverBudgetIff(text: string, maxTokens: nat, charsPerToken: nat)
    requires maxTokens >= 1 && charsPerToken >= 1
    ensures var maxChars := maxTokens * charsPerToken;
            maxChars >= 1 &&
            (SomeOverBudget(Chunks(text, maxTokens, charsPerToken), maxTokens, charsPerToken) <==>
             |text| > maxChars && LimitHitFrom(text, 0, maxChars))
  {
    hide LimitHitFrom, Pieces, DropBlank, EstimateTokens, SomeOverBudget;
    var maxChars := maxTokens * charsPerToken;
    assert maxChars >= 1 by { assert maxTokens * charsPerToken >= 1 * charsPerToken; }
    if |text| <= maxChars {
      NoneOverBudget(maxTokens, charsPerToken);
      OverBudgetCons(text, [], maxTokens, charsPerToken);
      assert [text] + [] == [text];
      EstimateExceedsIff(|text|, charsPerToken, maxTokens);
    } else {
      PiecesOverBudgetIff(text, 0, maxTokens, charsPerToken);
    }
  }

  /** The excess of two is reached: a chunk estimated at three tokens where one is the budget. */
  lemma ChunkCanExceedByTwo()
    ensures exists text :: Chunks(text, 1, 1) != [] && EstimateTokens(|Chunks(text, 1, 1)[0]|, 1) == 3
  {
    var text := "a\n\nb";
    assert text[1..3] == "\n\n";
    assert MatchesAt(text, "\n\n", 1);
    assert PieceEnd(text, 0, 1) == 3;
    var piece := text[0..3];
    assert Pieces(text, 0, 1)[0] == piece;
    assert !AllSpace(piece) by { assert piece[0] == 'a'; }
    TrimEmptyIffAllSpace(piece);
    assert Chunks(text, 1, 1)[0] == piece;
  }

  // ----- The embedder's use of it ------------------------------------------

  /** The texts `embed` sends to the server, one request each. */
  function EmbedRequests(text: string, batchTokens: nat, charsPerToken: nat): seq<string>
    requires batchTokens >= 1 && charsPerToken >= 1
  {
    if EstimateTokens(|text|, charsPerToken) > batchTokens then Chunks(text, batchTokens, charsPerToken) else [text]
  }

  /**
   * The estimate sends a text to the chunker exactly when the chunker will split it, so every text
   * keeps its non-space characters; only an oversized blank text results in no request at all.
   */
  lemma EmbedSplitsExactly(text: string, batchTokens: nat, charsPerToken: nat)
    requires batchTokens >= 1 && charsPerToken >= 1
    ensures var rs := EmbedRequests(text, batchTokens, charsPerToken);
            && rs == Chunks(text, batchTokens, charsPerToken)
            && NonSpace(Joined(rs)) == NonSpace(text)
            && (rs == [] <==> |text| > batchTokens * charsPerToken && AllSpace(text))
  {
    EstimateExceedsIff(|text|, charsPerToken, batchTokens);
    ChunksKeepText(text, batchTokens, charsPerToken);
    NoChunksIff(text, batchTokens, charsPerToken);
  }
}
