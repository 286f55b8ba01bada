/**
  Event filtering and statistics of `src/hooks/useAppLogic.ts`:
  `getEventsForCycle` and `calculateStats`.
*/
module Aggregator {
  import opened Wrappers
  import opened Seqs
  import opened Types
  import opened CycleIndex
  import opened Classifier

  /**
    `getEventsForCycle(cycleNumber)`: the events dated inside the interval of
    the cycle at that position, in their original order; nothing for a position
    outside the list.
  */
  function GetEventsForCycle(sorted: seq<Cycle>, defaults: DefaultCycleData, events: seq<Event>, cycleNumber: int): (r: seq<Event>)
    ensures (cycleNumber < 0 || cycleNumber >= |sorted|) ==> r == []
    ensures forall e :: e in r ==> InCycle(sorted, defaults, cycleNumber, e.date)
  {
    if cycleNumber >= |sorted| || cycleNumber < 0 then []
    else Filter(events, (e: Event) => InCycle(sorted, defaults, cycleNumber, e.date))
  }

  /**
    The events of a cycle are those of `events` inside its interval, each as
    often as it occurs, in their original order.
  */
  lemma CycleEventsContents(sorted: seq<Cycle>, defaults: DefaultCycleData, events: seq<Event>, cycleNumber: int)
    ensures Subsequence(GetEventsForCycle(sorted, defaults, events, cycleNumber), events)
    ensures forall e :: multiset(GetEventsForCycle(sorted, defaults, events, cycleNumber))[e] ==
                        if 0 <= cycleNumber < |sorted| && InCycle(sorted, defaults, cycleNumber, e.date) then multiset(events)[e] else 0
  {
    if 0 <= cycleNumber < |sorted| {
      FilterContents(events, (e: Event) => InCycle(sorted, defaults, cycleNumber, e.date));
    }
  }

  /** Events of type `t`. */
  function OfType(t: EventType): Event -> bool {
    (e: Event) => e.eventType == t
  }

  /**
    The phase `calculateStats` files an event's date under: the label of its
    day in the cycle that `getCycleInfo` finds, or `None` when no cycle holds it.
  */
  function EventPhase(sorted: seq<Cycle>, defaults: DefaultCycleData, date: Day): (r: Option<Phase>)
    ensures r.Some? ==> r.value in {Menstruation, Follicular, Luteal}
  {
    var info := GetCycleInfo(sorted, defaults, date);
    if info.cycleDay.Some? && info.cycleDay.value != 0 && info.cycle.Some? then
      Some(GetCyclePhase(info.cycleDay.value, info.cycle.value.periodLength))
    else None
  }

  /** A date gets a phase exactly when some cycle's interval holds it. */
  lemma EventPhaseLocated(sorted: seq<Cycle>, defaults: DefaultCycleData, date: Day)
    ensures EventPhase(sorted, defaults, date).None? <==> forall j :: 0 <= j < |sorted| ==> !InCycle(sorted, defaults, j, date)
  {
  }

  /** `eventsByType`: one counter per type, adding up to the number of events. */
  function TypeTally(evs: seq<Event>): TypeCounts {
    if |evs| == 0 then NoCounts
    else TypeTally(evs[1..]).Bump(evs[0].eventType)
  }

  /** The type counters add up to the number of events. */
  lemma {:induction false} TypeTallyTotal(evs: seq<Event>)
    ensures TypeTally(evs).Total() == |evs|
    decreases |evs|
  {
    if |evs| > 0 {
      TypeTallyTotal(evs[1..]);
    }
  }
  /** Each counter of `eventsByType` holds the number of events of its type. */
  lemma {:induction false} TypeTallyCounts(evs: seq<Event>, t: EventType)
    ensures TypeTally(evs).Get(t) == Count(evs, OfType(t))
    decreases |evs|
  {
    if |evs| > 0 {
      TypeTallyCounts(evs[1..], t);
    }
  }

  /** The classification `calculateStats` applies to an event's date. */
  function PhaseOfDate(sorted: seq<Cycle>, defaults: DefaultCycleData): Day -> Option<Phase> {
    (d: Day) => EventPhase(sorted, defaults, d)
  }

  /** Events of type `t` whose date `phaseOf` files under phase `ph`. */
  function InPhase(phaseOf: Day -> Option<Phase>, ph: Phase, t: EventType): Event -> bool {
    (e: Event) => e.eventType == t && phaseOf(e.date) == Some(ph)
  }

  /** Events that get no cell: their date is in no cycle or has no phase row. */
  function Unfiled(phaseOf: Day -> Option<Phase>): Event -> bool {
    (e: Event) => phaseOf(e.date).None? || phaseOf(e.date) == Some(Unknown)
  }

  /**
    `eventsByPhase` for a classification `phaseOf`. A row stays zero when no
    event is filed under its phase.
  */
  function PhaseTally(phaseOf: Day -> Option<Phase>, evs: seq<Event>): PhaseCounts {
    if |evs| == 0 then NoPhaseCounts
    else
      var rest := PhaseTally(phaseOf, evs[1..]);
      match phaseOf(evs[0].date)
      case None => rest
      case Some(ph) => rest.Bump(ph, evs[0].eventType)
  }

  /**
    Unfiled events are skipped, so the cells and the unfiled events together
    account for every event.
  */
  lemma {:induction false} PhaseTallyTotal(phaseOf: Day -> Option<Phase>, evs: seq<Event>)
    ensures PhaseTally(phaseOf, evs).Total() + Count(evs, Unfiled(phaseOf)) == |evs|
    decreases |evs|
  {
    if |evs| > 0 {
      PhaseTallyTotal(phaseOf, evs[1..]);
      CountStep(evs, Unfiled(phaseOf));
      var rest := PhaseTally(phaseOf, evs[1..]);
      match phaseOf(evs[0].date)
      case None =>
        assert PhaseTally(phaseOf, evs) == rest;
      case Some(q) =>
        assert PhaseTally(phaseOf, evs) == rest.Bump(q, evs[0].eventType);
    }
  }

  /** Bumping cell (`q`, `u`) adds one to that cell and leaves every other cell alone. */
  lemma BumpCell(c: PhaseCounts, q: Phase, u: EventType, ph: Phase, t: EventType)
    requires ph != Unknown
    ensures c.Bump(q, u).Row(ph).Get(t) == c.Row(ph).Get(t) + (if q == ph && u == t then 1 else 0)
  {
    if q == ph {
      assert c.Bump(q, u).Row(ph) == c.Row(ph).Bump(u);
    } else {
      assert c.Bump(q, u).Row(ph) == c.Row(ph);
    }
  }

  /**
    One step of the tally: if cell (`ph`, `t`) counts the events of the tail,
    it counts the events of the whole list.
  */
  lemma PhaseTallyStep(phaseOf: Day -> Option<Phase>, evs: seq<Event>, ph: Phase, t: EventType)
    requires |evs| > 0 && ph != Unknown
    requires PhaseTally(phaseOf, evs[1..]).Row(ph).Get(t) == Count(evs[1..], InPhase(phaseOf, ph, t))
    ensures PhaseTally(phaseOf, evs).Row(ph).Get(t) == Count(evs, InPhase(phaseOf, ph, t))
  {
    var rest := PhaseTally(phaseOf, evs[1..]);
    var e := evs[0];
    CountStep(evs, InPhase(phaseOf, ph, t));
    match phaseOf(e.date)
    case None =>
      assert PhaseTally(phaseOf, evs) == rest;
    case Some(q) =>
      assert PhaseTally(phaseOf, evs) == rest.Bump(q, e.eventType);
      BumpCell(rest, q, e.eventType, ph, t);
  }

  /** Cell (`ph`, `t`) of `eventsByPhase` holds the number of events of type `t` filed under `ph`. */
  lemma {:induction false} PhaseTallyCounts(phaseOf: Day -> Option<Phase>, evs: seq<Event>, ph: Phase, t: EventType)
    requires ph != Unknown
    ensures PhaseTally(phaseOf, evs).Row(ph).Get(t) == Count(evs, InPhase(phaseOf, ph, t))
    decreases |evs|
  {
    if |evs| > 0 {
      PhaseTallyCounts(phaseOf, evs[1..], ph, t);
      PhaseTallyStep(phaseOf, evs, ph, t);
    } else {
      assert PhaseTally(phaseOf, evs) == NoPhaseCounts;
      assert NoPhaseCounts.Row(ph).Get(t) == 0;
    }
  }

  /** The classifier never files a date under Ovulation. */
  lemma NeverOvulation(sorted: seq<Cycle>, defaults: DefaultCycleData)
    ensures forall d :: PhaseOfDate(sorted, defaults)(d) != Some(Ovulation)
  {
  }

  /** A phase row stays zero when no event is filed under its phase. */
  lemma {:induction false} EmptyRow(phaseOf: Day -> Option<Phase>, evs: seq<Event>, ph: Phase)
    requires forall d :: phaseOf(d) != Some(ph)
    ensures PhaseTally(phaseOf, evs).Row(ph) == NoCounts
    decreases |evs|
  {
    if |evs| > 0 {
      EmptyRow(phaseOf, evs[1..], ph);
      var rest := PhaseTally(phaseOf, evs[1..]);
      match phaseOf(evs[0].date)
      case None =>
        assert PhaseTally(phaseOf, evs) == rest;
      case Some(q) =>
        assert PhaseTally(phaseOf, evs) == rest.Bump(q, evs[0].eventType);
    }
  }

  /** Every counter of a type tally holds the number of events of its type. */
  lemma TypeTallyCountsAll(evs: seq<Event>)
    ensures forall t :: TypeTally(evs).Get(t) == Count(evs, OfType(t))
  {
    forall t ensures TypeTally(evs).Get(t) == Count(evs, OfType(t)) {
      TypeTallyCounts(evs, t);
    }
  }

  /** The events `calculateStats` analyses: all of them, or those of one cycle. */
  function Analysed(sorted: seq<Cycle>, defaults: DefaultCycleData, events: seq<Event>, cycleNumber: Option<int>): seq<Event> {
    if cycleNumber.None? then events else GetEventsForCycle(sorted, defaults, events, cycleNumber.value)
  }

  /**
    `calculateStats(cycleNumber)`: statistics over all events (`None`) or over
    the events of one cycle. The total is the number of analysed events, the
    type counters add up to it, and the phase cells add up to it less the events
    no cycle holds.
  */
  function CalculateStats(sorted: seq<Cycle>, defaults: DefaultCycleData, events: seq<Event>, cycleNumber: Option<int>): (r: Stats)
    ensures r.totalEvents == |Analysed(sorted, defaults, events, cycleNumber)|
    ensures r.eventsByType.Total() == r.totalEvents
    ensures r.eventsByPhase.ovulation == NoCounts
  {
    var eventsToAnalyze := Analysed(sorted, defaults, events, cycleNumber);
    Stats(|eventsToAnalyze|, ByType(eventsToAnalyze), ByPhase(sorted, defaults, eventsToAnalyze))
  }

  /**
    The phase cells add up to the number of analysed events less those no
    cycle holds.
  */
  lemma StatsPhaseTotal(sorted: seq<Cycle>, defaults: DefaultCycleData, events: seq<Event>, cycleNumber: Option<int>)
    ensures var r := CalculateStats(sorted, defaults, events, cycleNumber);
      r.eventsByPhase.Total() + Count(Analysed(sorted, defaults, events, cycleNumber), Unfiled(PhaseOfDate(sorted, defaults))) == r.totalEvents
  {
  }

  /** Each counter of `eventsByType` holds the number of analysed events of its type. */
  lemma StatsCountTypes(sorted: seq<Cycle>, defaults: DefaultCycleData, events: seq<Event>, cycleNumber: Option<int>, t: EventType)
    ensures CalculateStats(sorted, defaults, events, cycleNumber).eventsByType.Get(t) == Count(Analysed(sorted, defaults, events, cycleNumber), OfType(t))
  {
  }

  /** The `eventsByType` part of `calculateStats`. */
  function ByType(evs: seq<Event>): (r: TypeCounts)
    ensures r.Total() == |evs|
    ensures forall t :: r.Get(t) == Count(evs, OfType(t))
  {
    TypeTallyTotal(evs);
    TypeTallyCountsAll(evs);
    TypeTally(evs)
  }

  /** The `eventsByPhase` part of `calculateStats`. */
  function ByPhase(sorted: seq<Cycle>, defaults: DefaultCycleData, evs: seq<Event>): (r: PhaseCounts)
    ensures r.Total() + Count(evs, Unfiled(PhaseOfDate(sorted, defaults))) == |evs|
    ensures r.ovulation == NoCounts
  {
    var phaseOf := PhaseOfDate(sorted, defaults);
    NeverOvulation(sorted, defaults);
    EmptyRow(phaseOf, evs, Ovulation);
    PhaseTallyTotal(phaseOf, evs);
    PhaseTally(phaseOf, evs)
  }

  /**
    Statistics scoped to one cycle file every analysed event under some phase:
    an event inside a cycle's interval is always located, if need be in a more
    recent overlapping cycle.
  */
  lemma ScopedStatsLocateEveryEvent(sorted: seq<Cycle>, defaults: DefaultCycleData, events: seq<Event>, cycleNumber: int)
    ensures var r := CalculateStats(sorted, defaults, events, Some(cycleNumber));
      r.eventsByPhase.Total() == r.totalEvents
  {
    StatsPhaseTotal(sorted, defaults, events, Some(cycleNumber));
    CycleEventsAllFiled(sorted, defaults, events, cycleNumber);
  }

  lemma CycleEventsAllFiled(sorted: seq<Cycle>, defaults: DefaultCycleData, events: seq<Event>, cycleNumber: int)
    ensures Count(Analysed(sorted, defaults, events, Some(cycleNumber)), Unfiled(PhaseOfDate(sorted, defaults))) == 0
  {
    NoneUnlocated(sorted, defaults, GetEventsForCycle(sorted, defaults, events, cycleNumber), cycleNumber);
  }

  /** No event inside the interval of cycle `cycleNumber` is unlocated. */
  lemma {:induction false} NoneUnlocated(sorted: seq<Cycle>, defaults: DefaultCycleData, evs: seq<Event>, cycleNumber: int)
    requires forall e :: e in evs ==> InCycle(sorted, defaults, cycleNumber, e.date)
    ensures Count(evs, Unfiled(PhaseOfDate(sorted, defaults))) == 0
    decreases |evs|
  {
    if |evs| > 0 {
      assert evs[0] in evs;
      assert forall e :: e in evs[1..] ==> e in evs;
      NoneUnlocated(sorted, defaults, evs[1..], cycleNumber);
      EventPhaseLocated(sorted, defaults, evs[0].date);
      CountStep(evs, Unfiled(PhaseOfDate(sorted, defaults)));
    }
  }
}
