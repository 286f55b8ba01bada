/**
  The forecast of the next cycle start (`calculateNextPeriod` in
  `src/hooks/useAppLogic.ts`).
*/
module Predictor {
  import opened Wrappers
  import opened Types
  import opened Seqs
  import opened CycleIndex

  function Sum(s: seq<int>): int {
    if |s| == 0 then 0 else s[0] + Sum(s[1..])
  }

  /**
    `Math.round(a / b)` for `b > 0`: the nearest integer, halves rounded up,
    characterised by `a - r * b` lying in `[-b/2, b/2)`.
  */
  function RoundDiv(a: int, b: int): (r: int)
    requires b > 0
    ensures -b <= 2 * (a - r * b) < b
  {
    (2 * a + b) / (2 * b)
  }

  /** The day gaps between every two consecutive starts, newest first, dropped or not. */
  function Diffs(sorted: seq<Cycle>): (r: seq<int>)
    ensures |r| == if |sorted| == 0 then 0 else |sorted| - 1
    ensures forall k :: 0 <= k < |r| ==> r[k] == sorted[k].startDate - sorted[k + 1].startDate
  {
    seq(if |sorted| == 0 then 0 else |sorted| - 1,
        (k: int) requires 0 <= k < |sorted| - 1 => sorted[k].startDate - sorted[k + 1].startDate)
  }

  /** The test of `if (length > 0)`. */
  predicate Positive(g: int) {
    g > 0
  }

  /**
    The history fed to the forecast: the day gaps between consecutive starts of
    the newest-first list, keeping exactly the positive ones, in order.
  */
  function Gaps(sorted: seq<Cycle>): (r: seq<int>)
    ensures forall k :: 0 <= k < |r| ==> r[k] > 0
    ensures |sorted| > 0 ==> |r| <= |sorted| - 1
  {
    if |sorted| < 2 then []
    else
      var length := sorted[0].startDate - sorted[1].startDate;
      (if length > 0 then [length] else []) + Gaps(sorted[1..])
  }

  /** Peeling the newest gap off the list of all gaps. */
  lemma DiffsStep(sorted: seq<Cycle>)
    requires |sorted| >= 2
    ensures Diffs(sorted) == [sorted[0].startDate - sorted[1].startDate] + Diffs(sorted[1..])
  {
    var d, t := Diffs(sorted), Diffs(sorted[1..]);
    forall k | 0 <= k < |d|
      ensures d[k] == ([sorted[0].startDate - sorted[1].startDate] + t)[k]
    {
      if k > 0 {
        assert t[k - 1] == sorted[1..][k - 1].startDate - sorted[1..][k].startDate;
      }
    }
  }

  /**
    The history is exactly the positive gaps between consecutive starts, in
    order: none is lost and nothing else is added.
  */
  lemma {:induction false} GapsKeepPositiveDiffs(sorted: seq<Cycle>)
    ensures Gaps(sorted) == Filter(Diffs(sorted), Positive)
    decreases |sorted|
  {
    if |sorted| >= 2 {
      DiffsStep(sorted);
      GapsKeepPositiveDiffs(sorted[1..]);
      var d := Diffs(sorted);
      assert d[1..] == Diffs(sorted[1..]);
    }
  }

  /**
    `calculateNextPeriod()`: no forecast without cycles; otherwise the newest
    start plus a forecast length. That length is the default with one cycle or
    no positive gap, the rounded mean gap with one or two positive gaps, and the
    rounded average of two regression forecasts with three or more. `poly` and
    `expo` stand for the rounded predictions of the degree-2 polynomial and of
    the exponential fit of the external regression library.
  */
  function CalculateNextPeriod(sorted: seq<Cycle>, defaults: DefaultCycleData,
                               poly: seq<int> -> int, expo: seq<int> -> int): (r: Option<Day>)
    ensures r.None? <==> |sorted| == 0
    ensures |sorted| == 1 ==> r == Some(sorted[0].startDate + defaults.averageCycleLength)
    ensures |sorted| >= 2 && |Gaps(sorted)| == 0 ==> r == Some(sorted[0].startDate + defaults.averageCycleLength)
    ensures |sorted| >= 2 && 0 < |Gaps(sorted)| < 3 ==>
      var n := |Gaps(sorted)|;
      r.Some? && -n <= 2 * (Sum(Gaps(sorted)) - (r.value - sorted[0].startDate) * n) < n
    ensures |sorted| >= 2 && |Gaps(sorted)| >= 3 ==>
      var both := poly(Gaps(sorted)) + expo(Gaps(sorted));
      r.Some? && (both == 2 * (r.value - sorted[0].startDate) || both == 2 * (r.value - sorted[0].startDate) - 1)
  {
    if |sorted| == 0 then None
    else
      var lastPeriodStart := sorted[0].startDate;
      if |sorted| == 1 then Some(lastPeriodStart + defaults.averageCycleLength)
      else
        var cycleLengths := Gaps(sorted);
        if |cycleLengths| < 3 then
          var avg := if |cycleLengths| > 0 then RoundDiv(Sum(cycleLengths), |cycleLengths|)
                     else defaults.averageCycleLength;
          Some(lastPeriodStart + avg)
        else
          var nextLength := RoundDiv(poly(cycleLengths) + expo(cycleLengths), 2);
          Some(lastPeriodStart + nextLength)
  }

  /**
    For a newest-first list the dropped gaps are all zero, so the kept gaps add
    up to the whole span from the oldest start to the newest.
  */
  lemma {:induction false} GapsSpan(sorted: seq<Cycle>)
    requires SortedDesc(sorted)
    requires |sorted| > 0
    ensures Sum(Gaps(sorted)) == sorted[0].startDate - sorted[|sorted| - 1].startDate
    decreases |sorted|
  {
    if |sorted| >= 2 {
      var length := sorted[0].startDate - sorted[1].startDate;
      var head := if length > 0 then [length] else [];
      assert Gaps(sorted) == head + Gaps(sorted[1..]);
      SumConcat(head, Gaps(sorted[1..]));
      GapsSpan(sorted[1..]);
    }
  }

  lemma {:induction false} SumConcat(a: seq<int>, b: seq<int>)
    ensures Sum(a + b) == Sum(a) + Sum(b)
    decreases |a|
  {
    if |a| > 0 {
      assert (a + b)[1..] == a[1..] + b;
      SumConcat(a[1..], b);
    } else {
      assert a + b == b;
    }
  }

  /**
    With distinct start dates no gap is dropped, and gap `k` is the display
    length of the cycle at position `k + 1`: the forecast reads the same lengths
    the classifier uses.
  */
  lemma {:induction false} GapsOfStrictIndex(sorted: seq<Cycle>, defaults: DefaultCycleData)
    requires StrictDesc(sorted)
    requires |sorted| > 0
    ensures |Gaps(sorted)| == |sorted| - 1
    ensures forall k :: 0 <= k < |sorted| - 1 ==>
      Gaps(sorted)[k] == sorted[k].startDate - sorted[k + 1].startDate == DisplayLength(sorted, k + 1, defaults)
    decreases |sorted|
  {
    if |sorted| >= 2 {
      var tail := sorted[1..];
      GapsOfStrictIndex(tail, defaults);
      forall k | 0 <= k < |sorted| - 1
        ensures Gaps(sorted)[k] == sorted[k].startDate - sorted[k + 1].startDate == DisplayLength(sorted, k + 1, defaults)
      {
        IntervalsTile(sorted, k + 1, defaults);
        if k > 0 {
          assert Gaps(sorted)[k] == Gaps(tail)[k - 1];
        }
      }
    }
  }

  /**
    With one or two positive gaps in a newest-first list, the forecast length is
    the whole span divided by the number of gaps, rounded.
  */
  lemma MeanForecastIsSpanOverGaps(sorted: seq<Cycle>, defaults: DefaultCycleData,
                                   poly: seq<int> -> int, expo: seq<int> -> int)
    requires SortedDesc(sorted)
    requires |sorted| >= 2 && 0 < |Gaps(sorted)| < 3
    ensures var n := |Gaps(sorted)|;
      var len := CalculateNextPeriod(sorted, defaults, poly, expo).value - sorted[0].startDate;
      -n <= 2 * ((sorted[0].startDate - sorted[|sorted| - 1].startDate) - len * n) < n
  {
    GapsSpan(sorted);
  }

  /** One cycle starting on day 19723 (1 January 2024) and a 28-day default: day 19751 (29 January). */
  lemma SingleCycleForecast(poly: seq<int> -> int, expo: seq<int> -> int)
    ensures CalculateNextPeriod([Cycle(None, 19723, 5, None, None)], DefaultCycleData(28, 5), poly, expo)
         == Some(19751)
  {
  }

  /**
    Starts on 26 February, 29 January and 1 January 2024 (two 28-day gaps, too
    few for the regression): the mean gap, 28 days after the newest start.
  */
  lemma TwoGapForecast(poly: seq<int> -> int, expo: seq<int> -> int)
    ensures CalculateNextPeriod([Cycle(None, 19779, 5, None, None), Cycle(None, 19751, 5, None, None),
                                 Cycle(None, 19723, 5, None, None)], DefaultCycleData(30, 5), poly, expo)
         == Some(19779 + 28)
  {
    var s := [Cycle(None, 19779, 5, None, None), Cycle(None, 19751, 5, None, None), Cycle(None, 19723, 5, None, None)];
    assert s[1..][1..] == [Cycle(None, 19723, 5, None, None)];
    assert Gaps(s) == [28, 28];
  }
}
