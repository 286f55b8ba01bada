/**
  The chart helpers of `src/hooks/useAppLogic.ts`: the dense per-day series of
  one cycle (`prepareChartData`), the height of its Y axis (`getMaxYValue`) and
  the coloured phase bands drawn behind it (`getPhaseBoundaries`).
*/
module Chart {
  import opened Wrappers
  import opened Seqs
  import opened Types
  import opened CycleIndex
  import opened Classifier
  import opened Aggregator

  /**
    The zero-based slot of the series that an event is counted in: its cycle
    day minus one, provided `getCycleInfo` places it in cycle `n` on a day the
    series has. `None` when the event is skipped.
  */
  function Slot(sorted: seq<Cycle>, defaults: DefaultCycleData, n: int, len: nat, e: Event): (r: Option<nat>)
    ensures r.Some? ==> r.value < len
  {
    var info := GetCycleInfo(sorted, defaults, e.date);
    if && info.cycleDay.Some? && info.cycleDay.value != 0
       && info.cycleNumber.Some? && info.cycleNumber.value == n
       && 1 <= info.cycleDay.value <= len
    then Some(info.cycleDay.value - 1)
    else None
  }

  /** `getCycleInfo` places the event in cycle `n` on day `day`. */
  function LandsOn(sorted: seq<Cycle>, defaults: DefaultCycleData, n: int, day: int): Event -> bool {
    (e: Event) =>
      var info := GetCycleInfo(sorted, defaults, e.date);
      info.cycleNumber.Some? && info.cycleNumber.value == n && info.cycleDay == Some(day)
  }

  /** Events of type `t` placed in cycle `n` on day `day`. */
  function Lands(sorted: seq<Cycle>, defaults: DefaultCycleData, n: int, day: int, t: EventType): Event -> bool {
    (e: Event) => e.eventType == t && LandsOn(sorted, defaults, n, day)(e)
  }

  /** Events counted somewhere in a series of `len` days. */
  function Counted(sorted: seq<Cycle>, defaults: DefaultCycleData, n: int, len: nat): Event -> bool {
    (e: Event) => Slot(sorted, defaults, n, len, e).Some?
  }

  /** For a day the series has, the slot is that day's exactly when the event lands on it. */
  lemma SlotIsDay(sorted: seq<Cycle>, defaults: DefaultCycleData, n: int, len: nat, e: Event, k: nat)
    requires k < len
    ensures Slot(sorted, defaults, n, len, e) == Some(k) <==> LandsOn(sorted, defaults, n, k + 1)(e)
  {
  }

  /** The series before any event is counted: days 1..len with zero counters. */
  function InitialPoints(len: int, periodLength: int): (r: seq<ChartDataPoint>)
    ensures |r| == if len > 0 then len else 0
    ensures forall k :: 0 <= k < |r| ==>
      r[k].cycleDay == k + 1 && r[k].phase == GetCyclePhase(k + 1, periodLength)
    ensures forall k, t :: 0 <= k < |r| ==> r[k].counts.Get(t) == 0
  {
    seq(if len > 0 then len else 0, (k: int) => ChartDataPoint(k + 1, NoCounts, GetCyclePhase(k + 1, periodLength)))
  }

  /** One step of the `forEach` of `prepareChartData`: count `e` on its day, or skip it. */
  function Record(sorted: seq<Cycle>, defaults: DefaultCycleData, n: int, points: seq<ChartDataPoint>, e: Event): (r: seq<ChartDataPoint>)
    ensures |r| == |points|
    ensures forall k :: 0 <= k < |r| ==> r[k].cycleDay == points[k].cycleDay && r[k].phase == points[k].phase
  {
    match Slot(sorted, defaults, n, |points|, e)
    case None => points
    case Some(k) => points[k := points[k].(counts := points[k].counts.Bump(e.eventType))]
  }

  /** Counting one event adds one to the counter of its type on its day and nowhere else. */
  lemma RecordCounts(sorted: seq<Cycle>, defaults: DefaultCycleData, n: int, points: seq<ChartDataPoint>, e: Event, k: nat, t: EventType)
    requires k < |points|
    ensures Record(sorted, defaults, n, points, e)[k].counts.Get(t) ==
            points[k].counts.Get(t) + (if Lands(sorted, defaults, n, k + 1, t)(e) then 1 else 0)
  {
    SlotIsDay(sorted, defaults, n, |points|, e, k);
  }

  /** The events of a list, counted one after the other (a left fold of `Record`). */
  function Accumulate(sorted: seq<Cycle>, defaults: DefaultCycleData, n: int, points: seq<ChartDataPoint>, evs: seq<Event>): (r: seq<ChartDataPoint>)
    ensures |r| == |points|
    ensures forall k :: 0 <= k < |r| ==> r[k].cycleDay == points[k].cycleDay && r[k].phase == points[k].phase
    decreases |evs|
  {
    if |evs| == 0 then points
    else Accumulate(sorted, defaults, n, Record(sorted, defaults, n, points, evs[0]), evs[1..])
  }

  /** After the fold, each counter has grown by the number of events of its type landing on its day. */
  lemma {:induction false} AccumulateCounts(sorted: seq<Cycle>, defaults: DefaultCycleData, n: int, points: seq<ChartDataPoint>, evs: seq<Event>, k: nat, t: EventType)
    requires k < |points|
    ensures Accumulate(sorted, defaults, n, points, evs)[k].counts.Get(t) ==
            points[k].counts.Get(t) + Count(evs, Lands(sorted, defaults, n, k + 1, t))
    decreases |evs|
  {
    if |evs| > 0 {
      var next := Record(sorted, defaults, n, points, evs[0]);
      AccumulateCounts(sorted, defaults, n, next, evs[1..], k, t);
      RecordCounts(sorted, defaults, n, points, evs[0], k, t);
      CountStep(evs, Lands(sorted, defaults, n, k + 1, t));
    }
  }

  /** The sum of all counters of a series. */
  function SeriesTotal(points: seq<ChartDataPoint>): nat {
    if |points| == 0 then 0 else points[0].counts.Total() + SeriesTotal(points[1..])
  }

  /** Bumping one counter of one day adds one to the series total. */
  lemma {:induction false} SeriesTotalBump(points: seq<ChartDataPoint>, k: nat, t: EventType)
    requires k < |points|
    ensures SeriesTotal(points[k := points[k].(counts := points[k].counts.Bump(t))]) == SeriesTotal(points) + 1
    decreases |points|
  {
    var q := points[k := points[k].(counts := points[k].counts.Bump(t))];
    if k > 0 {
      assert q[1..] == points[1..][k - 1 := points[k].(counts := points[k].counts.Bump(t))];
      SeriesTotalBump(points[1..], k - 1, t);
    } else {
      assert q[1..] == points[1..];
    }
  }

  /** A series whose counters are all zero has total zero. */
  lemma {:induction false} SeriesTotalZero(points: seq<ChartDataPoint>)
    requires forall k, t :: 0 <= k < |points| ==> points[k].counts.Get(t) == 0
    ensures SeriesTotal(points) == 0
    decreases |points|
  {
    if |points| > 0 {
      SeriesTotalZero(points[1..]);
      var c := points[0].counts;
      assert c.Get(Nice) == 0 && c.Get(Mean) == 0 && c.Get(Argument) == 0 && c.Get(Gift) == 0 && c.Get(Food) == 0;
    }
  }

  /** The fold adds one to the series total per event it does not skip. */
  lemma {:induction false} AccumulateTotal(sorted: seq<Cycle>, defaults: DefaultCycleData, n: int, points: seq<ChartDataPoint>, evs: seq<Event>)
    ensures SeriesTotal(Accumulate(sorted, defaults, n, points, evs)) ==
            SeriesTotal(points) + Count(evs, Counted(sorted, defaults, n, |points|))
    decreases |evs|
  {
    if |evs| > 0 {
      var next := Record(sorted, defaults, n, points, evs[0]);
      AccumulateTotal(sorted, defaults, n, next, evs[1..]);
      CountStep(evs, Counted(sorted, defaults, n, |points|));
      match Slot(sorted, defaults, n, |points|, evs[0])
      case None =>
      case Some(k) =>
        SeriesTotalBump(points, k, evs[0].eventType);
    }
  }

  /** Whether `prepareChartData` accepts the position `n`. */
  predicate ValidCycle(sorted: seq<Cycle>, n: int) {
    |sorted| != 0 && 0 <= n < |sorted|
  }

  /**
    `prepareChartData(n)`: one point per day of cycle `n`, days 1..displayLength
    in ascending order, each labelled with the phase of its day and counting the
    events of the cycle that `getCycleInfo` places on it. An invalid position
    gives no points.
  */
  function PrepareChartData(sorted: seq<Cycle>, defaults: DefaultCycleData, events: seq<Event>, n: int): (r: seq<ChartDataPoint>)
    ensures !ValidCycle(sorted, n) ==> r == []
    ensures ValidCycle(sorted, n) ==>
      var len := DisplayLength(sorted, n, defaults);
      |r| == (if len > 0 then len else 0)
    ensures ValidCycle(sorted, n) ==> forall k :: 0 <= k < |r| ==>
      r[k].cycleDay == k + 1 && r[k].phase == GetCyclePhase(k + 1, sorted[n].periodLength)
  {
    if |sorted| == 0 || n >= |sorted| || n < 0 then []
    else
      var cycle := CycleWithLength(sorted, sorted[n], n, defaults);
      Accumulate(sorted, defaults, n, InitialPoints(cycle.displayLength.value, cycle.periodLength),
                 GetEventsForCycle(sorted, defaults, events, n))
  }

  /**
    The counter of type `t` on day `k + 1` is the number of events of cycle `n`
    of that type that `getCycleInfo` places on that day of that cycle.
  */
  lemma ChartCounts(sorted: seq<Cycle>, defaults: DefaultCycleData, events: seq<Event>, n: int, k: nat, t: EventType)
    requires k < |PrepareChartData(sorted, defaults, events, n)|
    ensures PrepareChartData(sorted, defaults, events, n)[k].counts.Get(t) ==
            Count(GetEventsForCycle(sorted, defaults, events, n), Lands(sorted, defaults, n, k + 1, t))
  {
    var cycle := CycleWithLength(sorted, sorted[n], n, defaults);
    var init := InitialPoints(cycle.displayLength.value, cycle.periodLength);
    AccumulateCounts(sorted, defaults, n, init, GetEventsForCycle(sorted, defaults, events, n), k, t);
  }

  /**
    The counters of the whole series add up to the events of the cycle that are
    not skipped, hence to at most the number of events of the cycle.
  */
  lemma ChartTotal(sorted: seq<Cycle>, defaults: DefaultCycleData, events: seq<Event>, n: int)
    requires ValidCycle(sorted, n)
    ensures var r := PrepareChartData(sorted, defaults, events, n);
      SeriesTotal(r) == Count(GetEventsForCycle(sorted, defaults, events, n), Counted(sorted, defaults, n, |r|))
    ensures SeriesTotal(PrepareChartData(sorted, defaults, events, n)) <= |GetEventsForCycle(sorted, defaults, events, n)|
  {
    var cycle := CycleWithLength(sorted, sorted[n], n, defaults);
    var init := InitialPoints(cycle.displayLength.value, cycle.periodLength);
    SeriesTotalZero(init);
    AccumulateTotal(sorted, defaults, n, init, GetEventsForCycle(sorted, defaults, events, n));
  }

  /**
    With distinct start dates no event of the cycle is skipped: the series
    counts every one of them exactly once.
  */
  lemma ChartCountsEveryEvent(sorted: seq<Cycle>, defaults: DefaultCycleData, events: seq<Event>, n: int)
    requires StrictDesc(sorted)
    requires ValidCycle(sorted, n)
    ensures SeriesTotal(PrepareChartData(sorted, defaults, events, n)) == |GetEventsForCycle(sorted, defaults, events, n)|
  {
    var r := PrepareChartData(sorted, defaults, events, n);
    var evs := GetEventsForCycle(sorted, defaults, events, n);
    ChartTotal(sorted, defaults, events, n);
    forall k | 0 <= k < |evs|
      ensures Counted(sorted, defaults, n, |r|)(evs[k])
    {
      assert evs[k] in evs;
      LocateInStrictIndex(sorted, defaults, n, evs[k].date);
    }
    CountAll(evs, Counted(sorted, defaults, n, |r|));
  }

  /**
    `getMaxYValue(data)`: one more than the largest day total, and 1 for an
    empty series.
  */
  method GetMaxYValue(data: seq<ChartDataPoint>) returns (r: int)
    ensures r >= 1
    ensures forall k :: 0 <= k < |data| ==> data[k].counts.Total() < r
    ensures |data| == 0 ==> r == 1
    ensures |data| > 0 ==> exists k :: 0 <= k < |data| && r == data[k].counts.Total() + 1
  {
    if |data| == 0 {
      return 1;
    }
    var maxValue := 0;
    var i := 0;
    while i < |data|
      invariant 0 <= i <= |data|
      invariant forall k :: 0 <= k < i ==> data[k].counts.Total() <= maxValue
      invariant i > 0 ==> exists k :: 0 <= k < i && maxValue == data[k].counts.Total()
      invariant i == 0 ==> maxValue == 0
    {
      var dayTotal := data[i].counts.Total();
      if dayTotal > maxValue {
        maxValue := dayTotal;
      } else if i == 0 {
        assert maxValue == data[0].counts.Total();
      }
      i := i + 1;
    }
    r := if maxValue + 1 > 1 then maxValue + 1 else 1;
  }

  /**
    One shaded band of the chart; `end` is `None` where the source computes it
    from a missing cycle (`undefined`).
  */
  datatype PhaseBand = PhaseBand(phase: Phase, start: int, end: Option<int>, color: string)

  const MenstruationColor := "rgba(248, 113, 113, 0.1)"
  const FollicularColor := "rgba(250, 204, 21, 0.1)"
  const OvulationColor := "rgba(34, 197, 94, 0.1)"
  const LutealColor := "rgba(96, 165, 250, 0.1)"

  /** The first band of phase `ph`, if any. */
  function BandOf(bands: seq<PhaseBand>, ph: Phase): (r: Option<PhaseBand>)
    ensures r.Some? ==> r.value in bands && r.value.phase == ph
    ensures r.None? <==> forall k :: 0 <= k < |bands| ==> bands[k].phase != ph
  {
    if |bands| == 0 then None
    else if bands[0].phase == ph then Some(bands[0])
    else BandOf(bands[1..], ph)
  }

  /** Looking a phase up in two lists of bands joined: the first list wins. */
  lemma {:induction false} BandOfConcat(a: seq<PhaseBand>, b: seq<PhaseBand>, ph: Phase)
    ensures BandOf(a + b, ph) == if BandOf(a, ph).Some? then BandOf(a, ph) else BandOf(b, ph)
    decreases |a|
  {
    if |a| == 0 {
      assert a + b == b;
    } else {
      assert (a + b)[1..] == a[1..] + b;
      BandOfConcat(a[1..], b, ph);
    }
  }

  /** The number of days of the band chart: the display length, or the default for a negative selection. */
  function BandLength(sorted: seq<Cycle>, defaults: DefaultCycleData, selected: int): int
    requires selected < |sorted|
  {
    if selected >= 0 then DisplayLength(sorted, selected, defaults) else defaults.averageCycleLength
  }

  /** The menstruation band `[1, periodLength]`, always drawn. */
  function MenstruationBand(periodLength: Option<int>): seq<PhaseBand> {
    [PhaseBand(Menstruation, 1, periodLength, MenstruationColor)]
  }

  /** The follicular band `[periodLength + 1, 13]`, drawn for a period shorter than 13 days. */
  function FollicularBand(periodLength: Option<int>): seq<PhaseBand> {
    if periodLength.Some? && periodLength.value < 13
    then [PhaseBand(Follicular, periodLength.value + 1, Some(13), FollicularColor)] else []
  }

  /** The ovulation band `[14, 14]`, drawn for a cycle of at least 14 days. */
  function OvulationBand(len: int): seq<PhaseBand> {
    if len >= 14 then [PhaseBand(Ovulation, 14, Some(14), OvulationColor)] else []
  }

  /** The luteal band `[15, len]`, drawn for a cycle longer than 14 days. */
  function LutealBand(len: int): seq<PhaseBand> {
    if len > 14 then [PhaseBand(Luteal, 15, Some(len), LutealColor)] else []
  }

  /** The bands of a cycle with period `periodLength` shown `len` days long, in drawing order. */
  function Boundaries(periodLength: Option<int>, len: int): (r: seq<PhaseBand>)
    ensures r != [] && r[0] == PhaseBand(Menstruation, 1, periodLength, MenstruationColor)
    ensures forall k, j :: 0 <= k < j < |r| ==> r[k].phase != r[j].phase
  {
    MenstruationBand(periodLength) + FollicularBand(periodLength) + OvulationBand(len) + LutealBand(len)
  }

  /**
    Which bands are drawn: follicular `[p + 1, 13]` only for a period shorter
    than 13 days, ovulation `[14, 14]` only for a cycle of at least 14 days,
    luteal `[15, len]` only for a longer one, and never an Unknown band.
  */
  lemma BoundariesBands(periodLength: Option<int>, len: int)
    ensures var r := Boundaries(periodLength, len);
      && BandOf(r, Unknown).None?
      && BandOf(r, Menstruation) == Some(PhaseBand(Menstruation, 1, periodLength, MenstruationColor))
      && BandOf(r, Follicular) == (if periodLength.Some? && periodLength.value < 13
                                   then Some(PhaseBand(Follicular, periodLength.value + 1, Some(13), FollicularColor))
                                   else None)
      && BandOf(r, Ovulation) == (if len >= 14 then Some(PhaseBand(Ovulation, 14, Some(14), OvulationColor)) else None)
      && BandOf(r, Luteal) == (if len > 14 then Some(PhaseBand(Luteal, 15, Some(len), LutealColor)) else None)
  {
    BoundariesBand(periodLength, len, Unknown);
    BoundariesBand(periodLength, len, Menstruation);
    BoundariesBand(periodLength, len, Follicular);
    BoundariesBand(periodLength, len, Ovulation);
    BoundariesBand(periodLength, len, Luteal);
  }

  /** The band of phase `ph`: the one piece of `Boundaries` that can hold it. */
  lemma BoundariesBand(periodLength: Option<int>, len: int, ph: Phase)
    ensures BandOf(Boundaries(periodLength, len), ph) ==
      match ph
      case Unknown => None
      case Menstruation => BandOf(MenstruationBand(periodLength), ph)
      case Follicular => BandOf(FollicularBand(periodLength), ph)
      case Ovulation => BandOf(OvulationBand(len), ph)
      case Luteal => BandOf(LutealBand(len), ph)
  {
    var m, f, o, l := MenstruationBand(periodLength), FollicularBand(periodLength), OvulationBand(len), LutealBand(len);
    BandOfAtMostOne(m, ph);
    BandOfAtMostOne(f, ph);
    BandOfAtMostOne(o, ph);
    BandOfAtMostOne(l, ph);
    BandOfConcat(m, f, ph);
    BandOfConcat(m + f, o, ph);
    BandOfConcat(m + f + o, l, ph);
  }

  /** In a list of at most one band, a phase is found exactly when it is that band's. */
  lemma BandOfAtMostOne(bands: seq<PhaseBand>, ph: Phase)
    requires |bands| <= 1
    ensures BandOf(bands, ph) == if |bands| == 1 && bands[0].phase == ph then Some(bands[0]) else None
  {
  }

  /**
    `getPhaseBoundaries()` for the selected position `selected`. A negative
    selection reads past the list: the cycle is `undefined`, its period length
    too, so the menstruation band has no end and the follicular test fails.
  */
  function GetPhaseBoundaries(sorted: seq<Cycle>, defaults: DefaultCycleData, selected: int): (r: seq<PhaseBand>)
    ensures r == [] <==> |sorted| == 0 || selected >= |sorted|
    ensures r != [] ==> r == Boundaries(if selected >= 0 then Some(sorted[selected].periodLength) else None,
                                        BandLength(sorted, defaults, selected))
  {
    if |sorted| == 0 || selected >= |sorted| then []
    else
      var periodLength: Option<int> := if selected >= 0 then Some(sorted[selected].periodLength) else None;
      Boundaries(periodLength, BandLength(sorted, defaults, selected))
  }

  /** Some band of phase `ph` spans day `d`. */
  predicate Covers(bands: seq<PhaseBand>, ph: Phase, d: int) {
    exists k :: 0 <= k < |bands| && bands[k].phase == ph && bands[k].start <= d && bands[k].end.Some? && d <= bands[k].end.value
  }

  /** A band found by `BandOf` that spans `d` covers `d`. */
  lemma CoversByBandOf(bands: seq<PhaseBand>, ph: Phase, d: int)
    requires BandOf(bands, ph).Some?
    requires BandOf(bands, ph).value.start <= d
    requires BandOf(bands, ph).value.end.Some? && d <= BandOf(bands, ph).value.end.value
    ensures Covers(bands, ph, d)
  {
    var b := BandOf(bands, ph).value;
    assert b in bands;
    var k :| 0 <= k < |bands| && bands[k] == b;
  }

  /**
    Every day `d` of a cycle of period `p` shown `len` days long lies in the
    band of the phase `IntendedPhase` gives it, day 14 included.
  */
  lemma BoundariesFollowIntendedPhase(p: int, len: int, d: int)
    requires 1 <= d <= len
    ensures Covers(Boundaries(Some(p), len), IntendedPhase(d, p), d)
  {
    var ph := IntendedPhase(d, p);
    BoundariesBand(Some(p), len, ph);
    CoversByBandOf(Boundaries(Some(p), len), ph, d);
  }

  /**
    The bands follow the intended phase rule: every day of the selected cycle
    lies in the band of the phase `IntendedPhase` gives it, day 14 included.
  */
  lemma BandsFollowIntendedPhase(sorted: seq<Cycle>, defaults: DefaultCycleData, selected: nat, d: int)
    requires selected < |sorted|
    requires 1 <= d <= DisplayLength(sorted, selected, defaults)
    ensures Covers(GetPhaseBoundaries(sorted, defaults, selected), IntendedPhase(d, sorted[selected].periodLength), d)
  {
    BoundariesFollowIntendedPhase(sorted[selected].periodLength, DisplayLength(sorted, selected, defaults), d);
  }

  /**
    The labels of `getCyclePhase` and the bands disagree on one day only: day
    14 of a cycle whose period is shorter than 14 days is labelled Follicular
    but drawn in the Ovulation band.
  */
  lemma LabelsMatchBandsExceptDay14(sorted: seq<Cycle>, defaults: DefaultCycleData, selected: nat, d: int)
    requires selected < |sorted|
    requires 1 <= d <= DisplayLength(sorted, selected, defaults)
    ensures d != 14 || sorted[selected].periodLength >= 14 ==>
      Covers(GetPhaseBoundaries(sorted, defaults, selected), GetCyclePhase(d, sorted[selected].periodLength), d)
    ensures d == 14 && sorted[selected].periodLength < 14 ==>
      GetCyclePhase(d, sorted[selected].periodLength) == Follicular &&
      Covers(GetPhaseBoundaries(sorted, defaults, selected), Ovulation, d)
  {
    BandsFollowIntendedPhase(sorted, defaults, selected, d);
    PhaseDiffersOnlyAtDay14(d, sorted[selected].periodLength);
  }
}
