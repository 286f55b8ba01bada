/**
  The records of the application, following `src/types/index.ts`.
  Calendar dates are whole day numbers; the time of day never takes part in
  any comparison of the analytics engine, so it is not represented.
*/
module Types {
  import opened Wrappers

  /** A calendar date as a day number (days since some fixed epoch). */
  type Day = int

  /** The five kinds of relationship event (`Event.type`). */
  datatype EventType = Nice | Mean | Argument | Gift | Food

  /**
    A recorded cycle. `calculatedLength` and `displayLength` are filled in by the
    cycle index; stored cycles normally carry neither. The free-text fields
    (`endDate`, `symptoms`, `mood`, `notes`, `ovulationDate`) are not read by
    any modelled operation and are omitted.
  */
  datatype Cycle = Cycle(
    id: Option<int>,
    startDate: Day,
    periodLength: int,
    calculatedLength: Option<int>,
    displayLength: Option<int>)

  /** A dated relationship event; `eventType` is the TypeScript field `type`. */
  datatype Event = Event(id: Option<int>, date: Day, eventType: EventType, notes: string)

  /** The user's fallback settings. */
  datatype DefaultCycleData = DefaultCycleData(averageCycleLength: int, periodLength: int)

  /** The date input of a form: empty (`''`) or holding a date. */
  datatype DateInput = Blank | On(day: Day)

  /** The event form's contents. */
  datatype NewEvent = NewEvent(date: Day, eventType: EventType, notes: string)

  /** The cycle form's contents. */
  datatype NewCycle = NewCycle(startDate: DateInput, periodLength: int)

  /** Where a date falls: cycle position, 1-based day, enriched cycle; all `None` when nowhere. */
  datatype CycleInfo = CycleInfo(cycleNumber: Option<nat>, cycleDay: Option<int>, cycle: Option<Cycle>)

  /** Phase labels produced by the classifier (`Unknown` for a missing day). */
  datatype Phase = Unknown | Menstruation | Follicular | Ovulation | Luteal

  /** One counter per event type. */
  datatype TypeCounts = TypeCounts(nice: nat, mean: nat, argument: nat, gift: nat, food: nat)
  {
    function Get(t: EventType): nat {
      match t
      case Nice => nice
      case Mean => mean
      case Argument => argument
      case Gift => gift
      case Food => food
    }

    /** The sum of all five counters. */
    function Total(): nat {
      Get(Nice) + Get(Mean) + Get(Argument) + Get(Gift) + Get(Food)
    }

    /** Add one to the counter of `t`. */
    function Bump(t: EventType): (r: TypeCounts)
      ensures r.Get(t) == Get(t) + 1
      ensures forall u :: u != t ==> r.Get(u) == Get(u)
      ensures r.Total() == Total() + 1
    {
      TypeCounts(
        if t == Nice then nice + 1 else nice,
        if t == Mean then mean + 1 else mean,
        if t == Argument then argument + 1 else argument,
        if t == Gift then gift + 1 else gift,
        if t == Food then food + 1 else food)
    }
  }

  const NoCounts := TypeCounts(0, 0, 0, 0, 0)

  /** The per-phase table of `Stats.eventsByPhase`. */
  datatype PhaseCounts = PhaseCounts(
    menstruation: TypeCounts,
    follicular: TypeCounts,
    ovulation: TypeCounts,
    luteal: TypeCounts)
  {
    /** The row of a phase; `Unknown` has no row and reads as all zero. */
    function Row(ph: Phase): TypeCounts {
      match ph
      case Menstruation => menstruation
      case Follicular => follicular
      case Ovulation => ovulation
      case Luteal => luteal
      case Unknown => NoCounts
    }

    function Total(): nat {
      menstruation.Total() + follicular.Total() + ovulation.Total() + luteal.Total()
    }

    /** Add one to cell (`ph`, `t`); a phase without a row is ignored. */
    function Bump(ph: Phase, t: EventType): (r: PhaseCounts)
      ensures ph != Unknown ==> r.Row(ph) == Row(ph).Bump(t)
      ensures forall q :: q != ph ==> r.Row(q) == Row(q)
      ensures r.Total() == if ph == Unknown then Total() else Total() + 1
    {
      PhaseCounts(
        if ph == Menstruation then menstruation.Bump(t) else menstruation,
        if ph == Follicular then follicular.Bump(t) else follicular,
        if ph == Ovulation then ovulation.Bump(t) else ovulation,
        if ph == Luteal then luteal.Bump(t) else luteal)
    }
  }

  const NoPhaseCounts := PhaseCounts(NoCounts, NoCounts, NoCounts, NoCounts)

  /** Summary statistics of a list of events. */
  datatype Stats = Stats(totalEvents: nat, eventsByType: TypeCounts, eventsByPhase: PhaseCounts)

  /** One day of the chart series: the five counters and the phase label. */
  datatype ChartDataPoint = ChartDataPoint(cycleDay: int, counts: TypeCounts, phase: Phase)
}
