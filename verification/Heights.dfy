/** Splitting heights into gaps and bins. The code works on 64-bit unsigned numbers, whose addition
    wraps around; the model writes that out wherever a sum can leave the type. */
module Heights {
  import opened Common

  /** One more than the largest uint64. */
  const W: int := 0x1_0000_0000_0000_0000

  /** Addition of two uint64 values. */
  function Plus(a: nat, b: nat): (c: nat)
    requires a < W && b < W
    ensures c < W
  {
    if a + b < W then a + b else a + b - W
  }

  datatype Gap = Gap(start: int, stop: int)

  datatype BinError = EndBeforeStart | NoBatchSize

  // ----- bins -----

  /** Bins needed for `len` heights, `b` to a bin. */
  function BinCount(len: nat, b: nat): (n: nat)
    requires b > 0
    ensures n == 0 <==> len == 0
  {
    if len == 0 then 0 else 1 + BinCount(if len <= b then 0 else len - b, b)
  }

  /** The heights k full bins hold: k * b. */
  function Span(b: nat, k: nat): nat {
    if k == 0 then 0 else Span(b, k - 1) + b
  }

  lemma {:induction false} SpanIsProduct(b: nat, k: nat)
    ensures Span(b, k) == k * b
  {
    if k > 0 { SpanIsProduct(b, k - 1); }
  }

  lemma {:induction false} SpanGrows(b: nat, i: nat, k: nat)
    requires i <= k
    ensures Span(b, i) <= Span(b, k)
  {
    if i < k { SpanGrows(b, i, k - 1); }
  }

  /** The bins hold all heights, and one bin less would not. */
  lemma {:induction false} BinCountBounds(len: nat, b: nat)
    requires b > 0
    ensures len <= Span(b, BinCount(len, b)) < len + b
    ensures len > 0 ==> Span(b, BinCount(len, b) - 1) < len
  {
    if len > 0 {
      BinCountBounds(if len <= b then 0 else len - b, b);
      if len > b { assert Span(b, BinCount(len, b) - 1) == Span(b, BinCount(len - b, b)); }
    }
  }

  /** What the code computes: the quotient, and one more if something is left over. */
  lemma DivideRoundingUp(len: nat, b: nat)
    requires b > 0
    ensures BinCount(len, b) == if len % b == 0 then len / b else len / b + 1
  {
    var n := BinCount(len, b);
    BinCountBounds(len, b);
    SpanIsProduct(b, n);
    if len > 0 {
      SpanIsProduct(b, n - 1);
      if Span(b, n) == len { QuotientIs(len, b, n, 0); } else { QuotientIs(len, b, n - 1, len - Span(b, n - 1)); }
    }
  }

  lemma QuotientIs(x: nat, b: nat, q: nat, r: nat)
    requires x == q * b + r && r < b
    ensures x / b == q && x % b == r
  {
    var d := x / b;
    assert x == d * b + x % b;
    assert d < q ==> (d + 1) * b <= q * b;
    assert d > q ==> (q + 1) * b <= d * b;
  }

  /** The end of the last bin, rounded up to a whole bin, is still a uint64. */
  predicate Fits(start: nat, end: nat, b: nat)
    requires start <= end && b > 0
  {
    start + Span(b, BinCount(end - start + 1, b)) < 0x1_0000_0000_0000_0000
  }

  /** A bound a caller can read off: there is room for one more bin above the end. */
  lemma RoomAboveFits(start: nat, end: nat, b: nat)
    requires start <= end && b > 0 && end + b < 0x1_0000_0000_0000_0000
    ensures Fits(start, end, b)
  {
    BinCountBounds(end - start + 1, b);
  }

  /** What the bins of a range are meant to be. */
  ghost predicate Binned(bins: seq<seq<int>>, start: nat, end: nat, b: nat) {
    && Flatten(bins) == Range(start, end + 1)
    && (forall i :: 0 <= i < |bins| ==> 1 <= |bins[i]| <= b)
    && (forall i :: 0 <= i < |bins| - 1 ==> |bins[i]| == b)
  }

  lemma RangeExtends(lo: int, mid: int, hi: int)
    requires lo <= mid <= hi
    ensures Range(lo, mid) + Range(mid, hi) == Range(lo, hi)
  {
  }

  /** One bin: the heights from `from` below `next`, and none above `end`. */
  method FillBin(from: nat, next: nat, end: nat) returns (bin: seq<int>)
    requires from < W && next < W && end < W
    ensures bin == Range(from, if next <= end then next else end + 1)
  {
    bin := [];
    var j := from;
    while j < next && j <= end
      invariant from <= j < W
      invariant j > from ==> j <= next && j <= end + 1
      invariant bin == Range(from, j)
      decreases next - j
    {
      RangeExtends(from, j, j + 1);
      bin := bin + [j];
      j := j + 1;
    }
  }

  method NumberOfBins(length: nat, batchSize: nat) returns (n: nat)
    requires batchSize > 0
    ensures n == BinCount(length, batchSize)
    ensures n == 0 <==> length == 0
  {
    n := length / batchSize;
    if length % batchSize != 0 { n := n + 1; }
    DivideRoundingUp(length, batchSize);
  }

  /** The full contract: what the bins are, and exactly when they are what was asked for. */
  ghost predicate BinsOutcome(bins: seq<seq<int>>, start: nat, end: nat, b: nat)
    requires start <= end && b > 0
  {
    if end - start + 1 == W then bins == [] && !Fits(start, end, b)
    else if Fits(start, end, b) then Binned(bins, start, end, b)
    else
      && |bins| == BinCount(end - start + 1, b) > 0 && bins[|bins| - 1] == []
      && Flatten(bins) == Range(start, start + Span(b, |bins| - 1))
      && start + Span(b, |bins| - 1) <= end
  }

  lemma NoBinsForAll(b: nat)
    requires 0 < b < W
    ensures !Fits(0, W - 1, b)
  {
    BinCountBounds(W, b);
  }

  method GetBlockHeightBins(startingBlock: nat, endingBlock: nat, batchSize: nat)
    returns (r: Result<seq<seq<int>>, BinError>)
    requires startingBlock < W && endingBlock < W && batchSize < W
    ensures r.Err? <==> endingBlock < startingBlock || batchSize == 0
    ensures r.Ok? ==> BinsOutcome(r.value, startingBlock, endingBlock, batchSize)
    ensures r.Ok? ==> (Flatten(r.value) == Range(startingBlock, endingBlock + 1)
                       <==> Fits(startingBlock, endingBlock, batchSize))
  {
    if endingBlock < startingBlock { return Err(EndBeforeStart); }
    if batchSize == 0 { return Err(NoBatchSize); }
    var length := Plus(endingBlock - startingBlock, 1);
    var numberOfBins := NumberOfBins(length, batchSize);
    var bins: seq<seq<int>> := [];
    var from := startingBlock;
    while |bins| < numberOfBins
      invariant |bins| <= numberOfBins && from < W
      invariant |bins| < numberOfBins ==> from == startingBlock + Span(batchSize, |bins|)
      invariant bins == BinList(startingBlock, endingBlock, batchSize, |bins|)
      decreases numberOfBins - |bins|
    {
      BinStep(startingBlock, endingBlock, batchSize, numberOfBins, |bins|);
      var nextBinStart := Plus(from, batchSize);
      var bin := FillBin(from, nextBinStart, endingBlock);
      from, bins := nextBinStart, bins + [bin];
    }
    if length != 0 { WholeBinList(startingBlock, endingBlock, batchSize); } else { NoBinsForAll(batchSize); }
    return Ok(bins);
  }

  function BinAt(start: nat, end: nat, b: nat, i: nat): seq<int> {
    var from := start + Span(b, i);
    if from + b >= W then [] else Range(from, if from + b <= end then from + b else end + 1)
  }

  function BinList(start: nat, end: nat, b: nat, n: nat): (bins: seq<seq<int>>)
    ensures |bins| == n
  {
    if n == 0 then [] else BinList(start, end, b, n - 1) + [BinAt(start, end, b, n - 1)]
  }

  /** All bins but the last are full and follow one another. */
  lemma {:induction false} FullBins(start: nat, end: nat, b: nat, k: nat)
    requires start <= end < W && 0 < b < W && end - start + 1 < W && k < BinCount(end - start + 1, b)
    ensures Flatten(BinList(start, end, b, k)) == Range(start, start + Span(b, k))
  {
    if k > 0 {
      FullBins(start, end, b, k - 1);
      FullBin(start, end, b, k - 1);
      FlattenAppend(BinList(start, end, b, k - 1), BinAt(start, end, b, k - 1));
      RangeExtends(start, start + Span(b, k - 1), start + Span(b, k));
    }
  }

  lemma FullBin(start: nat, end: nat, b: nat, i: nat)
    requires start <= end < W && 0 < b < W && end - start + 1 < W && i + 1 < BinCount(end - start + 1, b)
    ensures BinAt(start, end, b, i) == Range(start + Span(b, i), start + Span(b, i + 1))
    ensures |BinAt(start, end, b, i)| == b
  {
    BinStep(start, end, b, BinCount(end - start + 1, b), i);
  }

  lemma {:induction false} BinListAt(start: nat, end: nat, b: nat, n: nat, i: nat)
    requires i < n
    ensures BinList(start, end, b, n)[i] == BinAt(start, end, b, i)
  {
    if i < n - 1 { BinListAt(start, end, b, n - 1, i); }
  }

  lemma BinSizes(start: nat, end: nat, b: nat)
    requires start <= end < W && 0 < b < W && end - start + 1 < W && Fits(start, end, b)
    ensures var bins := BinList(start, end, b, BinCount(end - start + 1, b));
            && (forall i :: 0 <= i < |bins| ==> 1 <= |bins[i]| <= b)
            && (forall i :: 0 <= i < |bins| - 1 ==> |bins[i]| == b)
  {
    var n := BinCount(end - start + 1, b);
    forall i | 0 <= i < n
      ensures 1 <= |BinList(start, end, b, n)[i]| <= b && (i < n - 1 ==> |BinList(start, end, b, n)[i]| == b)
    {
      BinListAt(start, end, b, n, i);
      BinStep(start, end, b, n, i);
    }
  }

  lemma AllBins(start: nat, end: nat, b: nat, n: nat)
    requires start <= end < W && 0 < b < W && end - start + 1 < W && n == BinCount(end - start + 1, b)
    ensures Flatten(BinList(start, end, b, n)) == Range(start, start + Span(b, n - 1)) + BinAt(start, end, b, n - 1)
  {
    FullBins(start, end, b, n - 1);
    FlattenAppend(BinList(start, end, b, n - 1), BinAt(start, end, b, n - 1));
  }

  lemma BinsThatFit(start: nat, end: nat, b: nat, n: nat)
    requires start <= end < W && 0 < b < W && end - start + 1 < W
    requires n == BinCount(end - start + 1, b) && Fits(start, end, b)
    ensures Binned(BinList(start, end, b, n), start, end, b)
  {
    AllBins(start, end, b, n);
    BinStep(start, end, b, n, n - 1);
    BinSizes(start, end, b);
    RangeExtends(start, start + Span(b, n - 1), end + 1);
  }

  lemma WholeBinList(start: nat, end: nat, b: nat)
    requires start <= end < W && 0 < b < W && end - start + 1 < W
    ensures BinsOutcome(BinList(start, end, b, BinCount(end - start + 1, b)), start, end, b)
  {
    var n := BinCount(end - start + 1, b);
    if Fits(start, end, b) {
      BinsThatFit(start, end, b, n);
    } else {
      AllBins(start, end, b, n);
      BinStep(start, end, b, n, n - 1);
      BinListAt(start, end, b, n, n - 1);
    }
  }

  /** Where the next bin starts and ends: only the last can run over the end or out of the type. */
  lemma BinStep(start: nat, end: nat, b: nat, n: nat, i: nat)
    requires start <= end < W && 0 < b < W && end - start + 1 < W && i < n == BinCount(end - start + 1, b)
    ensures i < n - 1 ==> start + Span(b, i) + b <= end
    ensures i == n - 1 ==> start + Span(b, i) <= end < start + Span(b, i) + b
    ensures i == n - 1 ==> (start + Span(b, i) + b < W <==> Fits(start, end, b))
  {
    BinCountBounds(end - start + 1, b);
    if i < n - 1 { SpanGrows(b, i + 1, n - 1); }
  }

  // ----- gaps from a list of heights -----

  function GapHeights(gaps: seq<Gap>): seq<int> {
    if gaps == [] then [] else GapHeights(gaps[..|gaps| - 1]) + Range(gaps[|gaps| - 1].start, gaps[|gaps| - 1].stop + 1)
  }

  lemma GapHeightsAppend(gaps: seq<Gap>, g: Gap)
    ensures GapHeights(gaps + [g]) == GapHeights(gaps) + Range(g.start, g.stop + 1)
  {
    assert (gaps + [g])[..|gaps|] == gaps;
  }

  /** The largest uint64 is nowhere followed by zero. */
  predicate NoWrap(heights: seq<int>) {
    forall i :: 0 <= i < |heights| - 1 ==> !(heights[i] == 0xFFFF_FFFF_FFFF_FFFF && heights[i + 1] == 0)
  }

  predicate Ascending(heights: seq<int>) {
    forall i, j :: 0 <= i < j < |heights| ==> heights[i] <= heights[j]
  }

  /** Every gap is a non-empty run and no gap is continued by the next. */
  predicate Maximal(gaps: seq<Gap>) {
    && (forall k :: 0 <= k < |gaps| ==> gaps[k].start <= gaps[k].stop)
    && (forall k :: 0 <= k < |gaps| - 1 ==> gaps[k + 1].start != gaps[k].stop + 1)
  }

  /** The first i heights are spelled out by the gaps so far and the run that is still open. */
  ghost predicate Open(heights: seq<int>, i: nat, gaps: seq<Gap>, start: int) {
    && 1 <= i <= |heights| && start <= heights[i - 1]
    && Maximal(gaps) && (gaps != [] ==> start != gaps[|gaps| - 1].stop + 1)
    && GapHeights(gaps) + Range(start, heights[i - 1] + 1) == heights[..i]
  }

  /** All heights are spelled out. */
  ghost predicate Spelled(heights: seq<int>, gaps: seq<Gap>) {
    Maximal(gaps) && GapHeights(gaps) == heights
  }

  lemma ClosedText(heights: seq<int>, i: nat, gaps: seq<Gap>, start: int)
    requires Open(heights, i, gaps, start)
    ensures GapHeights(gaps + [Gap(start, heights[i - 1])]) == heights[..i]
  {
    GapHeightsAppend(gaps, Gap(start, heights[i - 1]));
  }

  lemma OneHeight(heights: seq<int>, i: nat)
    requires i < |heights|
    ensures heights[..i] + Range(heights[i], heights[i] + 1) == heights[..i + 1]
  {
    assert Range(heights[i], heights[i] + 1) == [heights[i]];
  }

  lemma RunCloses(heights: seq<int>, i: nat, gaps: seq<Gap>, start: int)
    requires Open(heights, i, gaps, start) && i < |heights| && heights[i] != heights[i - 1] + 1
    ensures Open(heights, i + 1, gaps + [Gap(start, heights[i - 1])], heights[i])
  {
    MaximalAppend(gaps, Gap(start, heights[i - 1]));
    ClosedText(heights, i, gaps, start);
    OneHeight(heights, i);
  }

  lemma MaximalAppend(gaps: seq<Gap>, g: Gap)
    requires Maximal(gaps) && g.start <= g.stop && (gaps != [] ==> g.start != gaps[|gaps| - 1].stop + 1)
    ensures Maximal(gaps + [g])
  {
  }

  lemma LastRunCloses(heights: seq<int>, gaps: seq<Gap>, start: int)
    requires Open(heights, |heights|, gaps, start)
    ensures Spelled(heights, gaps + [Gap(start, heights[|heights| - 1])])
  {
    MaximalAppend(gaps, Gap(start, heights[|heights| - 1]));
    GapHeightsAppend(gaps, Gap(start, heights[|heights| - 1]));
    assert heights[..|heights|] == heights;
  }

  lemma RunContinues(heights: seq<int>, i: nat, gaps: seq<Gap>, start: int)
    requires Open(heights, i, gaps, start) && i < |heights| && heights[i] == heights[i - 1] + 1
    ensures Open(heights, i + 1, gaps, start)
  {
    RangeExtends(start, heights[i], heights[i] + 1);
    assert heights[..i + 1] == heights[..i] + [heights[i]];
  }

  /** The gaps and the open run never hold more than the heights so far, and hold fewer once the sum
      lastHeight + 1 has wrapped around. */
  ghost predicate Budget(heights: seq<int>, i: nat, gaps: seq<Gap>, start: int) {
    && 1 <= i <= |heights| && 0 <= start < W
    && |GapHeights(gaps)| + |Range(start, heights[i - 1] + 1)| <= i
    && (!NoWrap(heights[..i]) ==> |GapHeights(gaps)| + |Range(start, heights[i - 1] + 1)| < i)
  }

  predicate Uint64s(heights: seq<int>) { forall i :: 0 <= i < |heights| ==> 0 <= heights[i] < W }

  lemma NoWrapNext(heights: seq<int>, i: nat)
    requires 1 <= i < |heights|
    ensures NoWrap(heights[..i + 1]) <==> NoWrap(heights[..i]) && !(heights[i - 1] == W - 1 && heights[i] == 0)
  {
    var more, most := heights[..i + 1], heights[..i];
    assert forall j :: 0 <= j < i ==> more[j] == most[j] == heights[j];
    if NoWrap(more) {
      assert !(more[i - 1] == W - 1 && more[i] == 0);
      forall j | 0 <= j < i - 1 ensures !(most[j] == W - 1 && most[j + 1] == 0) {
        assert !(more[j] == W - 1 && more[j + 1] == 0);
      }
    }
  }

  lemma BudgetStep(heights: seq<int>, i: nat, gaps: seq<Gap>, start: int)
    requires Uint64s(heights) && i < |heights| && Budget(heights, i, gaps, start)
    ensures if heights[i] != Plus(heights[i - 1], 1)
            then Budget(heights, i + 1, gaps + [Gap(start, heights[i - 1])], heights[i])
            else Budget(heights, i + 1, gaps, start)
  {
    GapHeightsAppend(gaps, Gap(start, heights[i - 1]));
    NoWrapNext(heights, i);
  }

  /** The loop has gone through the first i heights. */
  ghost predicate Running(heights: seq<int>, i: nat, gaps: seq<Gap>, start: int) {
    Budget(heights, i, gaps, start) && (NoWrap(heights) ==> Open(heights, i, gaps, start))
  }

  /** The loop is done: everything is spelled out, or something is missing. */
  ghost predicate Finished(heights: seq<int>, gaps: seq<Gap>) {
    if NoWrap(heights) then Spelled(heights, gaps) else |GapHeights(gaps)| < |heights|
  }

  lemma RunStarts(heights: seq<int>)
    requires Uint64s(heights) && heights != []
    ensures Running(heights, 1, [], heights[0])
  {
    assert Range(heights[0], heights[0] + 1) == [heights[0]] == heights[..1];
  }

  lemma RunSteps(heights: seq<int>, i: nat, gaps: seq<Gap>, start: int)
    requires Uint64s(heights) && i < |heights| && Running(heights, i, gaps, start)
    ensures if heights[i] != Plus(heights[i - 1], 1)
            then Running(heights, i + 1, gaps + [Gap(start, heights[i - 1])], heights[i])
            else Running(heights, i + 1, gaps, start)
  {
    BudgetStep(heights, i, gaps, start);
    if NoWrap(heights) {
      if heights[i] != Plus(heights[i - 1], 1) {
        RunCloses(heights, i, gaps, start);
      } else {
        RunContinues(heights, i, gaps, start);
      }
    }
  }

  lemma RunEnds(heights: seq<int>, gaps: seq<Gap>, start: int)
    requires Running(heights, |heights|, gaps, start)
    ensures Finished(heights, gaps + [Gap(start, heights[|heights| - 1])])
  {
    if NoWrap(heights) { LastRunCloses(heights, gaps, start); } else { BudgetSpent(heights, gaps, start); }
  }

  /** The gaps spell out exactly the given heights, in order and with repetitions, unless the list
      holds a single height, when there is no gap at all, or has the largest height followed by zero. */
  method MissingHeightsToGaps(heights: seq<int>) returns (gaps: seq<Gap>)
    requires Uint64s(heights)
    ensures |heights| == 1 ==> gaps == []
    ensures GapHeights(gaps) == heights <==> |heights| != 1 && NoWrap(heights)
    ensures NoWrap(heights) ==> Maximal(gaps)
  {
    if |heights| == 0 { return []; }
    gaps := [];
    var start := heights[0];
    var lastHeight := start;
    var i := 1;
    RunStarts(heights);
    while i < |heights|
      invariant 1 <= i <= |heights|
      invariant lastHeight == heights[i - 1]
      invariant i < |heights| ==> Running(heights, i, gaps, start)
      invariant i == 1 ==> gaps == []
      invariant i == |heights| > 1 ==> Finished(heights, gaps)
    {
      gaps, start := NextHeight(heights, i, gaps, start, lastHeight);
      lastHeight := heights[i];
      i := i + 1;
    }
    if |heights| > 1 { FinishedMeans(heights, gaps); }
  }

  /** The body of the loop: a height that does not continue the run closes it, and the last one closes
      its own. */
  method NextHeight(heights: seq<int>, i: nat, gaps: seq<Gap>, start: int, lastHeight: int)
    returns (gaps': seq<Gap>, start': int)
    requires Uint64s(heights) && 1 <= i < |heights| && lastHeight == heights[i - 1] && Running(heights, i, gaps, start)
    ensures i + 1 < |heights| ==> Running(heights, i + 1, gaps', start')
    ensures i + 1 == |heights| ==> Finished(heights, gaps')
  {
    var height := heights[i];
    gaps', start' := gaps, start;
    HeightDone(heights, i, gaps, start);
    if height != Plus(lastHeight, 1) {
      gaps' := gaps + [Gap(start, lastHeight)];
      start' := height;
    }
    if i + 1 == |heights| {
      gaps' := gaps' + [Gap(start', height)];
    }
  }

  lemma HeightDone(heights: seq<int>, i: nat, gaps: seq<Gap>, start: int)
    requires Uint64s(heights) && 1 <= i < |heights| && Running(heights, i, gaps, start)
    ensures var breaks := heights[i] != Plus(heights[i - 1], 1);
            var gaps' := if breaks then gaps + [Gap(start, heights[i - 1])] else gaps;
            var start' := if breaks then heights[i] else start;
            && Running(heights, i + 1, gaps', start')
            && (i + 1 == |heights| ==> Finished(heights, gaps' + [Gap(start', heights[i])]))
  {
    RunSteps(heights, i, gaps, start);
    if heights[i] != Plus(heights[i - 1], 1) {
      MaybeEnds(heights, i, gaps + [Gap(start, heights[i - 1])], heights[i]);
    } else {
      MaybeEnds(heights, i, gaps, start);
    }
  }

  lemma MaybeEnds(heights: seq<int>, i: nat, gaps: seq<Gap>, start: int)
    requires i < |heights| && Running(heights, i + 1, gaps, start)
    ensures i + 1 == |heights| ==> Finished(heights, gaps + [Gap(start, heights[i])])
  {
    if i + 1 == |heights| { RunEnds(heights, gaps, start); }
  }

  lemma FinishedMeans(heights: seq<int>, gaps: seq<Gap>)
    requires Finished(heights, gaps)
    ensures GapHeights(gaps) == heights <==> NoWrap(heights)
    ensures NoWrap(heights) ==> Maximal(gaps)
  {
  }

  lemma BudgetSpent(heights: seq<int>, gaps: seq<Gap>, start: int)
    requires Budget(heights, |heights|, gaps, start) && !NoWrap(heights)
    ensures |GapHeights(gaps + [Gap(start, heights[|heights| - 1])])| < |heights|
  {
    assert heights[..|heights|] == heights;
    GapHeightsAppend(gaps, Gap(start, heights[|heights| - 1]));
  }

  lemma AscendingDoesNotWrap(heights: seq<int>)
    requires Ascending(heights)
    ensures NoWrap(heights)
  {
    assert forall i :: 0 <= i < |heights| - 1 ==> heights[i] <= heights[i + 1];
  }
}
