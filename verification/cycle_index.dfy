/**
  The cycle index of `src/hooks/useAppLogic.ts`: the cycles ordered newest
  first (`sortedCycles`) and the length each cycle is displayed with
  (`getCycleWithLength`).
*/
module CycleIndex {
  import opened Wrappers
  import opened Seqs
  import opened Types

  /** Start dates never increase along the list (index 0 is the most recent cycle). */
  ghost predicate SortedDesc(s: seq<Cycle>) {
    forall i, j :: 0 <= i < j < |s| ==> s[i].startDate >= s[j].startDate
  }

  /** Start dates strictly decrease: no two cycles share a start date. */
  ghost predicate StrictDesc(s: seq<Cycle>) {
    forall i, j :: 0 <= i < j < |s| ==> s[i].startDate > s[j].startDate
  }

  /** Insert `c` into a newest-first list, before every cycle with the same start date. */
  function Insert(c: Cycle, s: seq<Cycle>): (r: seq<Cycle>)
    requires SortedDesc(s)
    ensures SortedDesc(r)
    ensures multiset(r) == multiset(s) + multiset{c}
    ensures |r| > 0 && (r[0] == c || (|s| > 0 && r[0] == s[0]))
  {
    if |s| == 0 then [c]
    else if c.startDate >= s[0].startDate then [c] + s
    else
      var rest := Insert(c, s[1..]);
      assert s == [s[0]] + s[1..];
      InsertAfterHead(s[0], rest);
      [s[0]] + rest
  }

  /** Prefixing a list with a cycle no older than its head keeps it sorted. */
  lemma InsertAfterHead(h: Cycle, rest: seq<Cycle>)
    requires SortedDesc(rest)
    requires |rest| > 0 ==> h.startDate >= rest[0].startDate
    ensures SortedDesc([h] + rest)
  {
    var r := [h] + rest;
    forall i, j | 0 <= i < j < |r| ensures r[i].startDate >= r[j].startDate {
      if i > 0 {
        assert r[i] == rest[i - 1] && r[j] == rest[j - 1];
      } else {
        assert r[j] == rest[j - 1];
        assert rest[0].startDate >= rest[j - 1].startDate;
      }
    }
  }

  /**
    `[...cycles].sort((a, b) => b.startDate - a.startDate)`: the same cycles,
    newest first. The sort is stable (`SortIsStable`).
  */
  function SortedCycles(cycles: seq<Cycle>): (r: seq<Cycle>)
    ensures SortedDesc(r)
    ensures multiset(r) == multiset(cycles)
    ensures |r| == |cycles|
  {
    if |cycles| == 0 then []
    else
      assert cycles == [cycles[0]] + cycles[1..];
      Insert(cycles[0], SortedCycles(cycles[1..]))
  }

  /** Cycles starting on `day`. */
  function StartsOn(day: Day): Cycle -> bool {
    (c: Cycle) => c.startDate == day
  }

  /**
    Insertion puts `c` after the cycles of its start date that are newer, that
    is none, and before those already there.
  */
  lemma {:induction false} InsertTies(c: Cycle, s: seq<Cycle>, day: Day)
    requires SortedDesc(s)
    ensures Filter(Insert(c, s), StartsOn(day)) ==
            (if c.startDate == day then [c] else []) + Filter(s, StartsOn(day))
    decreases |s|
  {
    var p := StartsOn(day);
    if |s| == 0 {
    } else if c.startDate >= s[0].startDate {
      assert ([c] + s)[1..] == s;
    } else {
      var rest := Insert(c, s[1..]);
      InsertTies(c, s[1..], day);
      assert ([s[0]] + rest)[1..] == rest;
    }
  }

  /**
    JavaScript's sort is stable: the cycles sharing a start date keep the order
    they were stored in.
  */
  lemma {:induction false} SortIsStable(cycles: seq<Cycle>, day: Day)
    ensures Filter(SortedCycles(cycles), StartsOn(day)) == Filter(cycles, StartsOn(day))
    decreases |cycles|
  {
    if |cycles| > 0 {
      SortIsStable(cycles[1..], day);
      InsertTies(cycles[0], SortedCycles(cycles[1..]), day);
    }
  }

  /**
    `getCycleWithLength(cycle, index)` over the newest-first list `sorted`.
    The most recent cycle is shown with the default length; an older one with
    the number of days until the next more recent start, unless that gap is not
    positive. An index with no more recent neighbour falls back to the default.
  */
  function CycleWithLength(sorted: seq<Cycle>, cycle: Cycle, index: int, defaults: DefaultCycleData): (r: Cycle)
    ensures r.id == cycle.id && r.startDate == cycle.startDate && r.periodLength == cycle.periodLength
    ensures r.displayLength.Some?
    ensures index == 0 ==> r.displayLength == Some(defaults.averageCycleLength) && r.calculatedLength == cycle.calculatedLength
    ensures 0 < index <= |sorted| ==>
      && r.calculatedLength == Some(sorted[index - 1].startDate - cycle.startDate)
      && (r.calculatedLength.value > 0 ==> r.displayLength == r.calculatedLength)
      && (r.calculatedLength.value <= 0 ==> r.displayLength == Some(defaults.averageCycleLength))
    ensures (index < 0 || index > |sorted|) ==> r.calculatedLength.None? && r.displayLength == Some(defaults.averageCycleLength)
  {
    if index == 0 then
      cycle.(displayLength := Some(defaults.averageCycleLength))
    else if 0 <= index - 1 < |sorted| then
      var calculatedLength := sorted[index - 1].startDate - cycle.startDate;
      cycle.(calculatedLength := Some(calculatedLength),
             displayLength := Some(if calculatedLength > 0 then calculatedLength else defaults.averageCycleLength))
    else
      cycle.(calculatedLength := None, displayLength := Some(defaults.averageCycleLength))
  }

  /** The display length of the cycle at position `i` of `sorted`. */
  function DisplayLength(sorted: seq<Cycle>, i: nat, defaults: DefaultCycleData): int
    requires i < |sorted|
  {
    CycleWithLength(sorted, sorted[i], i, defaults).displayLength.value
  }

  /** `date` lies in `[start, start + displayLength - 1]` of the cycle at position `i`. */
  predicate InCycle(sorted: seq<Cycle>, defaults: DefaultCycleData, i: int, date: Day) {
    && 0 <= i < |sorted|
    && sorted[i].startDate <= date <= sorted[i].startDate + DisplayLength(sorted, i, defaults) - 1
  }

  /** Every cycle is displayed at least one day long whenever the default length is. */
  lemma DisplayLengthPositive(sorted: seq<Cycle>, i: nat, defaults: DefaultCycleData)
    requires i < |sorted|
    requires defaults.averageCycleLength >= 1
    ensures DisplayLength(sorted, i, defaults) >= 1
  {
  }

  /**
    With distinct start dates, an older cycle's interval ends the day before the
    next more recent cycle starts: consecutive intervals neither overlap nor leave
    a gap.
  */
  lemma {:induction false} IntervalsTile(sorted: seq<Cycle>, i: nat, defaults: DefaultCycleData)
    requires StrictDesc(sorted)
    requires 0 < i < |sorted|
    ensures sorted[i].startDate + DisplayLength(sorted, i, defaults) == sorted[i - 1].startDate
  {
    assert sorted[i - 1].startDate > sorted[i].startDate;
  }
}
