/**
  The date classifier of `src/hooks/useAppLogic.ts`: which cycle a date falls
  in (`getCycleInfo`) and the phase label of a cycle day (`getCyclePhase`).
*/
module Classifier {
  import opened Wrappers
  import opened Types
  import opened CycleIndex

  /**
    The loop of `getCycleInfo` from position `from` on: the first cycle whose
    interval holds `date`, or all-`None`.
  */
  function Scan(sorted: seq<Cycle>, defaults: DefaultCycleData, date: Day, from: nat): (r: CycleInfo)
    requires from <= |sorted|
    ensures r.cycleNumber.None? <==> forall j :: from <= j < |sorted| ==> !InCycle(sorted, defaults, j, date)
    ensures r.cycleNumber.None? ==> r == CycleInfo(None, None, None)
    ensures r.cycleNumber.Some? ==>
      var i := r.cycleNumber.value;
      && from <= i < |sorted|
      && InCycle(sorted, defaults, i, date)
      && (forall j :: from <= j < i ==> !InCycle(sorted, defaults, j, date))
      && r.cycleDay == Some(date - sorted[i].startDate + 1)
      && r.cycle == Some(CycleWithLength(sorted, sorted[i], i, defaults))
    decreases |sorted| - from
  {
    if from == |sorted| then CycleInfo(None, None, None)
    else
      var cycle := sorted[from];
      var cycleWithLength := CycleWithLength(sorted, cycle, from, defaults);
      var cycleEnd := cycle.startDate + cycleWithLength.displayLength.value - 1;
      if cycle.startDate <= date <= cycleEnd then
        assert InCycle(sorted, defaults, from, date);
        CycleInfo(Some(from), Some(date - cycle.startDate + 1), Some(cycleWithLength))
      else
        Scan(sorted, defaults, date, from + 1)
  }

  /**
    `getCycleInfo(date)`: the most recent cycle whose interval
    `[start, start + displayLength - 1]` holds `date`, with the 1-based day of
    `date` in it; all-`None` when no interval holds it.
  */
  function GetCycleInfo(sorted: seq<Cycle>, defaults: DefaultCycleData, date: Day): (r: CycleInfo)
    ensures |sorted| == 0 ==> r == CycleInfo(None, None, None)
    ensures r.cycleNumber.None? <==> forall j :: 0 <= j < |sorted| ==> !InCycle(sorted, defaults, j, date)
    ensures r.cycleNumber.None? ==> r == CycleInfo(None, None, None)
    ensures r.cycleNumber.Some? ==>
      var i := r.cycleNumber.value;
      && i < |sorted|
      && InCycle(sorted, defaults, i, date)
      && (forall j :: 0 <= j < i ==> !InCycle(sorted, defaults, j, date))
      && r.cycleDay == Some(date - sorted[i].startDate + 1)
      && 1 <= r.cycleDay.value <= DisplayLength(sorted, i, defaults)
      && r.cycle == Some(CycleWithLength(sorted, sorted[i], i, defaults))
      && r.cycle.value.periodLength == sorted[i].periodLength
  {
    if |sorted| == 0 then CycleInfo(None, None, None)
    else Scan(sorted, defaults, date, 0)
  }

  /**
    With distinct start dates the intervals are disjoint, so a date inside the
    interval of cycle `i` is classified as cycle `i`, at day `date - start + 1`.
  */
  lemma LocateInStrictIndex(sorted: seq<Cycle>, defaults: DefaultCycleData, i: nat, date: Day)
    requires StrictDesc(sorted)
    requires i < |sorted|
    requires InCycle(sorted, defaults, i, date)
    ensures GetCycleInfo(sorted, defaults, date).cycleNumber == Some(i)
    ensures GetCycleInfo(sorted, defaults, date).cycleDay == Some(date - sorted[i].startDate + 1)
  {
    if i > 0 {
      IntervalsTile(sorted, i, defaults);
      forall j | 0 <= j < i
        ensures !InCycle(sorted, defaults, j, date)
      {
        assert sorted[j].startDate >= sorted[i - 1].startDate;
      }
    }
  }

  /**
    With distinct start dates every date from the oldest start to the last day of
    the current cycle is classified: the intervals leave no gap.
  */
  lemma {:induction false} CoverageOfStrictIndex(sorted: seq<Cycle>, defaults: DefaultCycleData, date: Day)
    requires StrictDesc(sorted)
    requires |sorted| > 0
    requires sorted[|sorted| - 1].startDate <= date < sorted[0].startDate + defaults.averageCycleLength
    ensures GetCycleInfo(sorted, defaults, date).cycleNumber.Some?
  {
    var i := Newest(sorted, date);
    if i > 0 {
      IntervalsTile(sorted, i, defaults);
    }
    assert InCycle(sorted, defaults, i, date);
  }

  /** The most recent position whose start date is not after `date`. */
  function Newest(sorted: seq<Cycle>, date: Day): (i: nat)
    requires |sorted| > 0 && sorted[|sorted| - 1].startDate <= date
    ensures i < |sorted| && sorted[i].startDate <= date
    ensures i > 0 ==> sorted[i - 1].startDate > date
  {
    NewestFrom(sorted, date, 0)
  }

  function NewestFrom(sorted: seq<Cycle>, date: Day, from: nat): (i: nat)
    requires from < |sorted| && sorted[|sorted| - 1].startDate <= date
    requires from > 0 ==> sorted[from - 1].startDate > date
    ensures from <= i < |sorted| && sorted[i].startDate <= date
    ensures i > 0 ==> sorted[i - 1].startDate > date
    decreases |sorted| - from
  {
    if sorted[from].startDate <= date then from else NewestFrom(sorted, date, from + 1)
  }

  /**
    `getCyclePhase(day, periodLength)` as written: the test `day <= 14` comes
    before `day === 14`, so the Ovulation branch is unreachable and day 14 is
    Follicular (or Menstruation when the period lasts 14 days or more).
  */
  function GetCyclePhase(day: int, periodLength: int): (r: Phase)
    ensures r != Ovulation
    ensures r == Unknown <==> day == 0
    ensures r == Menstruation <==> day != 0 && day <= periodLength
    ensures r == Follicular <==> day != 0 && periodLength < day <= 14
    ensures r == Luteal <==> day > 14 && day > periodLength
  {
    if day == 0 then Unknown
    else if day <= periodLength then Menstruation
    else if day <= 14 then Follicular
    else if day == 14 then Ovulation
    else Luteal
  }

  /**
    The phase rule with the ovulation day reachable, as the ordering of the
    tests evidently intends: day 14 is Ovulation once the period is over.
  */
  function IntendedPhase(day: int, periodLength: int): Phase {
    if day == 0 then Unknown
    else if day <= periodLength then Menstruation
    else if day < 14 then Follicular
    else if day == 14 then Ovulation
    else Luteal
  }

  /**
    The written rule and the intended one agree on every day but one: day 14 of
    a cycle whose period is shorter than 14 days, which the written rule labels
    Follicular instead of Ovulation.
  */
  lemma PhaseDiffersOnlyAtDay14(day: int, periodLength: int)
    ensures GetCyclePhase(day, periodLength) != IntendedPhase(day, periodLength) <==> day == 14 && periodLength < 14
    ensures day == 14 && periodLength < 14 ==>
      GetCyclePhase(day, periodLength) == Follicular && IntendedPhase(day, periodLength) == Ovulation
  {
  }

  /** With the default five-day period, day 14 is labelled Follicular. */
  lemma Day14IsFollicular()
    ensures GetCyclePhase(14, 5) == Follicular
    ensures GetCyclePhase(14, 14) == Menstruation
    ensures GetCyclePhase(15, 5) == Luteal
  {
  }
}
