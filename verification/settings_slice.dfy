/**
  The settings reducer of `src/store/slices/settingsSlice.ts`: the default cycle
  length and period length used wherever a cycle has no measured length.
*/
module SettingsSlice {
  import opened Wrappers
  import opened Types
  import opened CycleIndex

  /** The defaults before the user changes them: a 28-day cycle with a 5-day period. */
  const InitialDefaults := DefaultCycleData(28, 5)

  /** A `Partial<DefaultCycleData>`: the fields given replace the stored ones. */
  datatype DefaultsPatch = DefaultsPatch(averageCycleLength: Option<int>, periodLength: Option<int>)

  datatype SettingsAction =
    | SetDefaultCycleData(data: DefaultCycleData)
    | UpdateDefaultCycleData(patch: DefaultsPatch)

  /** `{ ...defaultCycleData, ...patch }`. */
  function Merge(d: DefaultCycleData, patch: DefaultsPatch): (r: DefaultCycleData)
    ensures r.averageCycleLength == if patch.averageCycleLength.Some? then patch.averageCycleLength.value else d.averageCycleLength
    ensures r.periodLength == if patch.periodLength.Some? then patch.periodLength.value else d.periodLength
  {
    DefaultCycleData(
      match patch.averageCycleLength case Some(n) => n case None => d.averageCycleLength,
      match patch.periodLength case Some(n) => n case None => d.periodLength)
  }

  /** One reducer step: `setDefaultCycleData` replaces the record, `updateDefaultCycleData` merges into it. */
  function Reduce(d: DefaultCycleData, a: SettingsAction): (r: DefaultCycleData)
    ensures a.SetDefaultCycleData? ==> r == a.data
  {
    match a
    case SetDefaultCycleData(data) => data
    case UpdateDefaultCycleData(patch) => Merge(d, patch)
  }

  /** The patch giving every field of `d`. */
  function Full(d: DefaultCycleData): DefaultsPatch {
    DefaultsPatch(Some(d.averageCycleLength), Some(d.periodLength))
  }

  /**
    Merging laws: the empty patch changes nothing, a full patch acts as a
    replacement, merging twice is merging once, and two merges are one merge
    of the combined patch with the later field winning.
  */
  lemma MergeLaws(d: DefaultCycleData, p: DefaultsPatch, q: DefaultsPatch, e: DefaultCycleData)
    ensures Merge(d, DefaultsPatch(None, None)) == d
    ensures Merge(d, Full(e)) == Reduce(d, SetDefaultCycleData(e))
    ensures Merge(Merge(d, p), p) == Merge(d, p)
    ensures Merge(Merge(d, p), q) ==
      Merge(d, DefaultsPatch(if q.averageCycleLength.Some? then q.averageCycleLength else p.averageCycleLength,
                             if q.periodLength.Some? then q.periodLength else p.periodLength))
  {
  }

  /**
    Until the user changes them, the defaults keep every cycle of any list on
    screen for at least one day, and show the most recent one as a 28-day cycle.
  */
  lemma InitialDefaultsSensible(sorted: seq<Cycle>, i: nat)
    requires i < |sorted|
    ensures DisplayLength(sorted, i, InitialDefaults) >= 1
    ensures DisplayLength(sorted, 0, InitialDefaults) == 28
  {
    DisplayLengthPositive(sorted, i, InitialDefaults);
  }
}
