# Cycle and relationship-event tracker: analytics engine and reducers

This project models the core of a menstrual-cycle and relationship-event tracker
in Dafny and proves properties of that model. The tracker is a React/Redux
front end over an Express back end. The core has three parts.

- **Analytics engine** (`src/hooks/useAppLogic.ts`). It has five pieces:
  - the cycle index: cycles sorted newest first, and the length each cycle is displayed with;
  - the date classifier: which cycle a date falls in, on which day, and the phase label of that day;
  - the forecast of the next period start;
  - the event aggregator: the events of one cycle, and statistics by type and by phase;
  - the chart helpers: the per-day series, the Y-axis height, the phase bands and the cycle selector's label.
- **Redux reducers** for cycles, events, settings and authentication (`src/store/slices/*.ts`).
  Each reducer is a pure function from a state and an action to a state.
- **Registration form check** (`validateForm` of `src/components/auth/RegisterForm.tsx`).

Calendar dates are whole day numbers (`Types.Day = int`). The engine's functions
take the already-sorted cycle list, the events and the default settings as
parameters, where the source reads them from the Redux store.

| file | module | what it holds |
|---|---|---|
| wrappers.dfy | Wrappers | `Option` |
| types.dfy | Types | cycles, events, settings, counters, phases, chart points |
| seqs.dfy | Seqs | `Filter`, `Count`, `FirstIndex`, `ReplaceFirst`, and lemmas about them |
| cycle_index.dfy | CycleIndex | `sortedCycles`, `getCycleWithLength` |
| classifier.dfy | Classifier | `getCycleInfo`, `getCyclePhase` |
| predictor.dfy | Predictor | `calculateNextPeriod` |
| aggregator.dfy | Aggregator | `getEventsForCycle`, `calculateStats` |
| chart.dfy | Chart | `prepareChartData`, `getMaxYValue`, `getPhaseBoundaries` |
| display.dfy | Display | `formatCycleDisplay` and decimal rendering |
| records.dfy | Records | update-by-id and delete-by-id, shared by the list reducers |
| cycles_slice.dfy | CyclesSlice | the cycles reducer |
| events_slice.dfy | EventsSlice | the events reducer |
| settings_slice.dfy | SettingsSlice | the settings reducer |
| auth_slice.dfy | AuthSlice | the authentication reducer |
| register_form.dfy | RegisterForm | `validateForm` |

The phase label of a cycle day (`getCyclePhase`, `src/hooks/useAppLogic.ts:172-179`)
is modelled as the code labels it. Its tests run in order: `day <= periodLength`
gives Menstruation, then `day <= 14` gives Follicular (lines 175-176). The test
`day === 14` on line 177 comes after `day <= 14`, so it can never succeed:
Ovulation is never returned and day 14 is Follicular (or Menstruation for a
period of 14 days or more). The same file shows that an Ovulation label was
meant. `calculateStats` sets aside an Ovulation row in its per-phase counters
(line 194), and `getPhaseBoundaries` draws an Ovulation band on day 14
(lines 282-284).

- `Classifier.GetCyclePhase` follows lines 175-177 as they are, and every part
  of the model that labels days uses it.
- `Classifier.IntendedPhase` is the rule the unreachable branch and the
  Ovulation band point to: day 14 beyond the period is Ovulation.
  - `Classifier.PhaseDiffersOnlyAtDay14` proves the two rules differ exactly on
    day 14 of a cycle whose period is shorter than 14 days.
  - `Chart.LabelsMatchBandsExceptDay14` shows the consequence for the chart:
    on that day, the chart's phase bands draw Ovulation while the day's label
    says Follicular.
  - `Aggregator.CalculateStats` and `Aggregator.NeverOvulation` show that the
    Ovulation row of the statistics stays at zero.

## Model

| member | source | states |
|---|---|---|
| CycleIndex.SortedCycles | src/hooks/useAppLogic.ts:12-15 | The result is a permutation of the cycles (same multiset, same length) with start dates non-increasing. |
| CycleIndex.Insert | src/hooks/useAppLogic.ts:12-15 | Inserting into a newest-first list keeps it sorted and adds exactly the one cycle to its multiset. |
| CycleIndex.InsertTies | src/hooks/useAppLogic.ts:12-15 | Inserting a cycle puts it before every cycle already present that starts the same day, and keeps those in their order. |
| CycleIndex.SortIsStable | src/hooks/useAppLogic.ts:12-15 | The cycles starting on any given day appear in the sorted list in the order they were stored, as a stable `Array.prototype.sort` leaves them. |
| CycleIndex.CycleWithLength | src/hooks/useAppLogic.ts:18-42 | At index 0 the display length is the default average and `calculatedLength` is left as it was. At index i>0 the calculated length is start[i-1] - start[i]; the display length is that gap when positive, otherwise the default. Out of range, the default with no calculated length. Id, start and period are kept. |
| CycleIndex.DisplayLengthPositive | src/hooks/useAppLogic.ts:24-33 | Every cycle is displayed at least one day long whenever the default length is at least one. |
| CycleIndex.IntervalsTile | src/hooks/useAppLogic.ts:24-33 | With distinct start dates, an older cycle's interval ends the day before the next more recent cycle starts. |
| Classifier.Scan | src/hooks/useAppLogic.ts:53-68 | The search from position `from` returns the first position whose interval holds the date, with the 1-based day and the enriched cycle; all-None exactly when no later interval holds it. |
| Classifier.GetCycleInfo | src/hooks/useAppLogic.ts:45-71 | With no cycles, all-None. Otherwise the lowest position whose interval holds the date, with cycle day = date - start + 1 within [1, displayLength], and the cycle as `getCycleWithLength` enriches it at that position. All-None exactly when no interval holds the date. |
| Classifier.LocateInStrictIndex | src/hooks/useAppLogic.ts:45-71 | With distinct start dates, a date inside the interval of cycle i is classified as cycle i at day date - start + 1. |
| Classifier.CoverageOfStrictIndex | src/hooks/useAppLogic.ts:45-71 | With distinct start dates, every date from the oldest start to the end of the current cycle is classified. |
| Classifier.GetCyclePhase | src/hooks/useAppLogic.ts:172-179 | Day 0 is Unknown. Day <= period is Menstruation. Period < day <= 14 is Follicular. Day > 14 beyond the period is Luteal. Ovulation is never returned. Each is an if-and-only-if. |
| Classifier.PhaseDiffersOnlyAtDay14 | src/hooks/useAppLogic.ts:172-179 | The rule as coded and the intended rule disagree exactly on day 14 of a period shorter than 14 days: Follicular instead of Ovulation. |
| Classifier.Day14IsFollicular | src/hooks/useAppLogic.ts:172-179 | Worked cases: day 14 with a 5-day period is Follicular; with a 14-day period it is Menstruation; day 15 is Luteal. |
| Aggregator.GetEventsForCycle | src/hooks/useAppLogic.ts:74-91 | An out-of-range position gives no events. Every event returned lies in the cycle's interval. |
| Aggregator.CycleEventsContents | src/hooks/useAppLogic.ts:86-90 | The events of a cycle are an order-preserving subsequence of all events, holding each event inside the interval exactly as often as it occurs and no other. |
| Predictor.RoundDiv | src/hooks/useAppLogic.ts:116 | `Math.round(a / b)` for positive b: the result r satisfies -b <= 2(a - r*b) < b, i.e. the nearest integer with halves rounded up. |
| Predictor.Gaps | src/hooks/useAppLogic.ts:104-113 | The kept day gaps between consecutive starts are all positive, and there are fewer of them than cycles (their exact contents: Predictor.GapsKeepPositiveDiffs). |
| Predictor.GapsKeepPositiveDiffs | src/hooks/useAppLogic.ts:104-113 | The kept gaps are exactly the positive ones among the differences start[k] - start[k+1] of consecutive cycles, in order: a gap is dropped exactly when it is not positive. |
| Predictor.CalculateNextPeriod | src/hooks/useAppLogic.ts:94-133 | No forecast exactly when there are no cycles. One cycle, or no positive gap: newest start + default. One or two gaps: newest start + the rounded mean gap. Three or more: newest start + the rounded average of the two regression predictions. |
| Predictor.GapsSpan | src/hooks/useAppLogic.ts:104-113 | For a newest-first list, only zero gaps are dropped, so the kept gaps add up to the span from the oldest start to the newest. |
| Predictor.GapsOfStrictIndex | src/hooks/useAppLogic.ts:104-113 | With distinct start dates no gap is dropped, and gap k equals the display length the cycle index gives cycle k + 1. |
| Predictor.MeanForecastIsSpanOverGaps | src/hooks/useAppLogic.ts:114-120 | With one or two gaps, the forecast length is the whole span divided by the number of gaps, rounded. |
| Predictor.SingleCycleForecast | src/hooks/useAppLogic.ts:98-103 | Worked case: one cycle and a 28-day default forecast 28 days after its start, whatever the regression would say. |
| Predictor.TwoGapForecast | src/hooks/useAppLogic.ts:114-120 | Worked case: two 28-day gaps forecast 28 days after the newest start, overriding a 30-day default. |
| Aggregator.EventPhaseLocated | src/hooks/useAppLogic.ts:211-214 | An event's date gets a phase exactly when some cycle's interval holds it. |
| Aggregator.TypeTallyTotal | src/hooks/useAppLogic.ts:205-209 | The five type counters add up to the number of events. |
| Aggregator.TypeTallyCounts | src/hooks/useAppLogic.ts:205-209 | The counter of type t holds the number of events of type t. |
| Aggregator.PhaseTallyTotal | src/hooks/useAppLogic.ts:211-223 | The phase cells add up to the number of events less those that get no phase. |
| Aggregator.PhaseTallyCounts | src/hooks/useAppLogic.ts:211-223 | Cell (phase, type) holds the number of events of that type filed under that phase. |
| Aggregator.NeverOvulation | src/hooks/useAppLogic.ts:211-223 | No date is ever filed under Ovulation. |
| Aggregator.EmptyRow | src/hooks/useAppLogic.ts:211-223 | A phase under which no date is filed keeps an all-zero row. |
| Aggregator.ByType | src/hooks/useAppLogic.ts:205-209 | The per-type table counts each type and totals the number of events. |
| Aggregator.ByPhase | src/hooks/useAppLogic.ts:211-223 | The per-phase table totals the events that get a phase, and its Ovulation row is zero. |
| Aggregator.CalculateStats | src/hooks/useAppLogic.ts:182-232 | `totalEvents` is the number of analysed events (all events, or one cycle's). The type counters sum to it. The Ovulation row is all zero. |
| Aggregator.StatsPhaseTotal | src/hooks/useAppLogic.ts:211-225 | The phase cells add up to `totalEvents` less the analysed events that no cycle holds; hence at most `totalEvents`. |
| Aggregator.StatsCountTypes | src/hooks/useAppLogic.ts:205-209 | Each type counter of the statistics holds the number of analysed events of that type. |
| Aggregator.ScopedStatsLocateEveryEvent | src/hooks/useAppLogic.ts:198-223 | Statistics scoped to one cycle file every analysed event under some phase: the phase cells add up to `totalEvents`. |
| Aggregator.NoneUnlocated | src/hooks/useAppLogic.ts:212-213 | An event inside some cycle's interval always gets a phase. |
| Chart.Slot | src/hooks/useAppLogic.ts:162-163 | An event is counted only on a day the series has. |
| Chart.SlotIsDay | src/hooks/useAppLogic.ts:162-164 | For a day the series has, an event is counted on that day exactly when the classifier places it in the cycle on that day. |
| Chart.InitialPoints | src/hooks/useAppLogic.ts:144-155 | The starting series has one point per day 1..len, each with the phase label of its day and all counters zero. |
| Chart.Record | src/hooks/useAppLogic.ts:161-166 | Counting one event keeps the length, the days and the phase labels. |
| Chart.RecordCounts | src/hooks/useAppLogic.ts:163-165 | Counting one event adds one to the counter of its type on the day it lands on, and changes no other counter. |
| Chart.Accumulate | src/hooks/useAppLogic.ts:161-166 | Counting a list of events keeps the length, the days and the phase labels. |
| Chart.AccumulateCounts | src/hooks/useAppLogic.ts:161-166 | After counting a list, each counter has grown by the number of events of its type landing on its day. |
| Chart.SeriesTotalBump | src/hooks/useAppLogic.ts:164 | Adding one to one counter adds one to the series total. |
| Chart.SeriesTotalZero | src/hooks/useAppLogic.ts:145-155 | A series whose counters are all zero totals zero. |
| Chart.AccumulateTotal | src/hooks/useAppLogic.ts:161-166 | Counting a list adds to the series total the number of events that are not skipped. |
| Chart.PrepareChartData | src/hooks/useAppLogic.ts:136-169 | An invalid position gives no points. Otherwise there is one point per displayed day, days 1..displayLength in order, each labelled with the day's phase. |
| Chart.ChartCounts | src/hooks/useAppLogic.ts:157-166 | The counter of type t on day k+1 is the number of the cycle's events of type t placed on that day of that cycle. |
| Chart.ChartTotal | src/hooks/useAppLogic.ts:136-169 | The counters of the whole series add up to the cycle's events that are not skipped, hence to at most the number of the cycle's events. |
| Chart.ChartCountsEveryEvent | src/hooks/useAppLogic.ts:136-169 | With distinct start dates no event of the cycle is skipped: the series total equals the number of the cycle's events. |
| Chart.GetMaxYValue | src/hooks/useAppLogic.ts:235-246 | The result is at least 1 and above every day's total. For a non-empty series it is exactly one more than some day's total; for an empty series it is 1. |
| Chart.BandOf | src/hooks/useAppLogic.ts:274-290 | The band found for a phase is in the list and has that phase; none is found exactly when no band has it. |
| Chart.BandOfConcat | src/hooks/useAppLogic.ts:274-290 | Looking a phase up in two lists joined finds the first list's band when it has one. |
| Chart.Boundaries | src/hooks/useAppLogic.ts:274-290 | The Menstruation band [1, period] always comes first, and no phase gets two bands. |
| Chart.BoundariesBand | src/hooks/useAppLogic.ts:274-290 | The band of each phase comes from the one piece of the list that can hold it; there is never an Unknown band. |
| Chart.BoundariesBands | src/hooks/useAppLogic.ts:274-290 | Menstruation [1, p] is always drawn. Follicular [p+1, 13] is drawn only when p < 13. Ovulation [14, 14] only when the cycle is at least 14 days. Luteal [15, len] only when it is longer. |
| Chart.GetPhaseBoundaries | src/hooks/useAppLogic.ts:268-291 | No bands exactly when there are no cycles or the selection is past the end. Otherwise the bands of the selected cycle's period and display length; a negative selection gives a Menstruation band with no end and no Follicular band. |
| Chart.CoversByBandOf | src/hooks/useAppLogic.ts:274-290 | A phase's band that spans a day covers that day. |
| Chart.BoundariesFollowIntendedPhase | src/hooks/useAppLogic.ts:274-290 | Every day 1..len lies in the band of the phase the intended rule gives it, day 14 included. |
| Chart.BandsFollowIntendedPhase | src/hooks/useAppLogic.ts:268-291 | Every day of the selected cycle lies in the band of its intended phase. |
| Chart.LabelsMatchBandsExceptDay14 | src/hooks/useAppLogic.ts:268-291 | Every day lies in the band of its `getCyclePhase` label, except day 14 of a period shorter than 14 days: that day is labelled Follicular but lies in the Ovulation band. |
| Display.NatToString | src/hooks/useAppLogic.ts:253 | The decimal rendering of a natural number is a non-empty string of digits. |
| Display.NatToStringRoundTrip | src/hooks/useAppLogic.ts:253 | Reading the digits of a natural number back gives the number. |
| Display.IntToString | src/hooks/useAppLogic.ts:253 | The rendering of an integer is a numeral that starts with a minus sign exactly when the integer is negative. |
| Display.ParseNegative | src/hooks/useAppLogic.ts:253 | A minus sign before digits reads as the negated value of the digits. |
| Display.IntToStringRoundTrip | src/hooks/useAppLogic.ts:253 | Reading back a rendered integer gives the integer. |
| Display.IntToStringInjective | src/hooks/useAppLogic.ts:253 | Distinct integers are rendered differently. |
| Display.FormatCycleDisplay | src/hooks/useAppLogic.ts:249-254 | "No Cycles" when there are none. "Current Cycle" for 0 and "Previous Cycle" for 1. Otherwise a numeral that reads back as the position, followed by " Cycles Ago". |
| Display.FormatCycleDisplayInjective | src/hooks/useAppLogic.ts:249-254 | While any cycle is recorded, different positions get different labels. |
| Records.UpdateById | src/store/slices/cyclesSlice.ts:40-43 | Replacing by id keeps the length. It replaces the first element with the payload's id and nothing else. With no match the list is unchanged. |
| Records.DeleteById | src/store/slices/cyclesSlice.ts:52 | Deleting by id leaves no element with the id, adds nothing and never lengthens the list. |
| Records.DeleteByIdContents | src/store/slices/cyclesSlice.ts:52 | Deleting by id keeps exactly the elements with another id, each as often as before, in their original order. |
| Records.DeleteFresh | src/store/slices/cyclesSlice.ts:52 | Deleting an id no element has changes nothing. |
| Records.DeleteIdempotent | src/store/slices/cyclesSlice.ts:52 | Deleting an id twice is deleting it once. |
| Records.DeleteAfterAppend | src/store/slices/cyclesSlice.ts:31 | Deleting the id of an element just appended under a fresh id restores the list. |
| Records.UpdateIdempotent | src/store/slices/cyclesSlice.ts:40-43 | Applying the same update twice is applying it once. |
| Records.DeleteAfterUpdate | src/store/slices/cyclesSlice.ts:40-52 | Deleting the id after updating an element with that id is the same as deleting it. |
| Records.UpdateAfterAppend | src/store/slices/cyclesSlice.ts:31-43 | Updating an element just appended under a fresh id replaces it in place. |
| Records.DistinctTail | src/store/slices/cyclesSlice.ts:30-57 | Below the first element of a list with distinct ids, the ids stay distinct and none repeats the first element's id. |
| Records.DeleteRemovesAtMostOne | src/store/slices/cyclesSlice.ts:52 | With distinct ids, deleting by id removes at most one element. |
| Records.DeleteKeepsDistinct | src/store/slices/cyclesSlice.ts:52 | Deleting by id keeps the ids distinct. |
| Records.UpdateKeepsIds | src/store/slices/cyclesSlice.ts:40-43 | An update by id leaves the id found at every position as it was. |
| Records.UpdateKeepsDistinct | src/store/slices/cyclesSlice.ts:40-43 | An update by id keeps the ids distinct. |
| Records.AppendKeepsDistinct | src/store/slices/cyclesSlice.ts:31 | Appending an element with no id or a fresh one keeps the ids distinct. |
| CyclesSlice.Add | src/store/slices/cyclesSlice.ts:30-38 | The payload is appended at the end. The form is hidden, not editing and blank. The selection is kept. |
| CyclesSlice.Update | src/store/slices/cyclesSlice.ts:39-50 | Only the first cycle with the payload's id is replaced; length and all other cycles are kept; no match leaves the list alone. The form is reset either way. |
| CyclesSlice.Delete | src/store/slices/cyclesSlice.ts:51-57 | No cycle with the id remains. The selection becomes 0 exactly when it is past the end of a non-empty list, and is kept otherwise. The form is untouched. |
| CyclesSlice.SetEditing | src/store/slices/cyclesSlice.ts:64-79 | Editing a cycle loads its start date and period into a shown form. Null hides the form and blanks it. The list and the selection are kept. |
| CyclesSlice.PatchForm | src/store/slices/cyclesSlice.ts:80-82 | Each field given by the patch replaces the form's; the others are kept. |
| CyclesSlice.Reduce | src/store/slices/cyclesSlice.ts:26-90 | Only `setCycles`, `addCycle`, `updateCycle` and `deleteCycle` touch the list. Only a deletion or `setSelectedCycle` moves the selection. `setCycles`, `setSelectedCycle` and `setShowAddCycle` change their one field. Deletion and form patches leave the shown and editing flags alone. Adding, updating, cancelling and `setEditingCycle(null)` reset the form. |
| CyclesSlice.PatchLaws | src/store/slices/cyclesSlice.ts:80-82 | An empty patch is the identity. Two patches are one patch with the later field winning. Patching twice is patching once. |
| CyclesSlice.CancelRestoresForm | src/store/slices/cyclesSlice.ts:83-90 | Cancelling resets the form and keeps the list and the selection; from the initial state it changes nothing. |
| CyclesSlice.DeleteUndoesAdd | src/store/slices/cyclesSlice.ts:30-57 | Adding a cycle with a fresh id and deleting that id restores the list. |
| CyclesSlice.DeleteContents | src/store/slices/cyclesSlice.ts:51-57 | Deletion keeps exactly the cycles with another id, each as often as before, in order. |
| CyclesSlice.DeleteTwice | src/store/slices/cyclesSlice.ts:51-57 | Deleting the same id twice is deleting it once, selection included. |
| CyclesSlice.UpdateTwice | src/store/slices/cyclesSlice.ts:39-50 | Applying the same update twice is applying it once. |
| CyclesSlice.DeleteAfterUpdateCycle | src/store/slices/cyclesSlice.ts:39-57 | Deleting after updating a cycle with that id is deleting. |
| CyclesSlice.UpdateAfterAddCycle | src/store/slices/cyclesSlice.ts:30-50 | Updating a freshly added cycle replaces it in place. |
| CyclesSlice.SelectionStaysInRange | src/store/slices/cyclesSlice.ts:26-90 | From a selection that names a cycle, every action but `setSelectedCycle` and `setCycles` keeps it non-negative and, while the list is non-empty, in range. |
| CyclesSlice.StaleSelectionAfterEmptying | src/store/slices/cyclesSlice.ts:51-57 | With two cycles sharing an id, a deletion that empties the list keeps the old selection, so a later addition leaves it past the end: position 1 selected in a one-cycle list. |
| CyclesSlice.DeleteRepairsSelection | src/store/slices/cyclesSlice.ts:53-56 | After a deletion, any non-negative selection is in range whenever the list is non-empty. |
| CyclesSlice.WellFormedPreserved | src/store/slices/cyclesSlice.ts:26-90 | From distinct ids and a selection naming a cycle (or 0 on an empty list), every action keeps both, provided added cycles carry fresh ids and selections and replacement lists come from the screens' own lists. |
| CyclesSlice.WellFormedRun | src/store/slices/cyclesSlice.ts:26-90 | Over any run of such actions the ids stay distinct and a non-empty list has its selection in range. |
| CyclesSlice.SelectionValidFromInitial | src/store/slices/cyclesSlice.ts:12-90 | From the initial state, such a run never leaves the selection negative or past the end of a non-empty list: the stale selection needs duplicate ids. |
| CyclesSlice.EditingShownPreserved | src/store/slices/cyclesSlice.ts:26-90 | Every action but `setShowAddCycle(false)` keeps the form shown while it edits a cycle. |
| CyclesSlice.EditingShownRun | src/store/slices/cyclesSlice.ts:26-90 | Over any run of actions avoiding `setShowAddCycle(false)`, the form is shown while it edits a cycle. |
| CyclesSlice.HidingWhileEditing | src/store/slices/cyclesSlice.ts:61-79 | Hiding the form after starting an edit leaves a cycle being edited in a hidden form. |
| EventsSlice.Add | src/store/slices/eventsSlice.ts:27-35 | The payload is appended. Editing is cleared, and the form is reset to today, a nice event and no notes. |
| EventsSlice.Update | src/store/slices/eventsSlice.ts:36-47 | Only the first event with the payload's id is replaced; length and all other events are kept; no match leaves the list alone. The form is reset either way. |
| EventsSlice.Delete | src/store/slices/eventsSlice.ts:48-50 | No event with the id remains and the form is untouched. |
| EventsSlice.DeleteContents | src/store/slices/eventsSlice.ts:48-50 | Deletion keeps exactly the events with another id, each as often as before, in order. |
| EventsSlice.SetEditing | src/store/slices/eventsSlice.ts:51-66 | Editing an event loads its date, type and notes into the form. Null resets the form. The list is kept. |
| EventsSlice.PatchForm | src/store/slices/eventsSlice.ts:67-69 | Each field given by the patch replaces the form's; the others are kept. |
| EventsSlice.Reduce | src/store/slices/eventsSlice.ts:23-77 | Only `setEvents`, `addEvent`, `updateEvent` and `deleteEvent` touch the list, and `setEvents` changes nothing else. Deletion leaves the form alone; a form patch keeps the event being edited. Adding, updating, cancelling and `setEditingEvent(null)` reset the form to today. |
| EventsSlice.PatchLaws | src/store/slices/eventsSlice.ts:67-69 | An empty patch is the identity, and two patches are one patch with the later field winning. |
| EventsSlice.FullPatchIsFormOf | src/store/slices/eventsSlice.ts:51-69 | Patching every field with an event's values gives the form that editing that event loads. |
| EventsSlice.CancelKeepsEvents | src/store/slices/eventsSlice.ts:70-77 | Cancelling resets the form and keeps the events; from the initial state it changes nothing. |
| EventsSlice.EditThenCancel | src/store/slices/eventsSlice.ts:51-77 | Starting an edit and cancelling it is the same as cancelling. |
| EventsSlice.DeleteUndoesAdd | src/store/slices/eventsSlice.ts:27-50 | Adding an event with a fresh id and deleting that id restores the list. |
| EventsSlice.DeleteTwice | src/store/slices/eventsSlice.ts:48-50 | Deleting the same id twice is deleting it once. |
| EventsSlice.UpdateTwice | src/store/slices/eventsSlice.ts:36-47 | Applying the same update twice is applying it once. |
| EventsSlice.UpdateAfterAddEvent | src/store/slices/eventsSlice.ts:27-47 | Updating a freshly added event replaces it in place. |
| SettingsSlice.Merge | src/store/slices/settingsSlice.ts:22-24 | Each field present in the partial record replaces the stored one; the others are kept. |
| SettingsSlice.Reduce | src/store/slices/settingsSlice.ts:19-21 | `setDefaultCycleData` replaces the whole record with the payload. |
| SettingsSlice.MergeLaws | src/store/slices/settingsSlice.ts:19-24 | An empty partial is the identity. A full partial acts as `setDefaultCycleData`. Merging twice is merging once. Two merges are one with the later field winning. |
| SettingsSlice.InitialDefaultsSensible | src/store/slices/settingsSlice.ts:8-13 | Under the initial defaults every cycle of any list is displayed at least one day long, and the most recent one as a 28-day cycle. |
| AuthSlice.Initial | src/store/slices/authSlice.ts:19-25 | Signed in exactly when a non-empty token is stored. No user, not loading, no error, and the stored token kept. |
| AuthSlice.OrElse | src/store/slices/authSlice.ts:52 | The error message is used when present and non-empty; otherwise the fallback is used. |
| AuthSlice.Pending | src/store/slices/authSlice.ts:41-101 | Shared shape of a request start: loading is set, the error is cleared when asked, nothing else changes. Which action clears it: AuthSlice.PendingActions. |
| AuthSlice.SignedIn | src/store/slices/authSlice.ts:45-88 | Shared shape of a sign-in: the user is stored, signed in, loading stops; token and error are untouched. Which actions use it: AuthSlice.SignInActions. |
| AuthSlice.Failed | src/store/slices/authSlice.ts:50-109 | Shared shape of a rejection: loading stops and the message or the fallback is stored; user, token and sign-in are untouched. Each rejection's fallback: AuthSlice.RejectionFallbacks. |
| AuthSlice.SignedOut | src/store/slices/authSlice.ts:73-94 | Shared shape of a sign-out: user and token are dropped and the state is signed out, leaving loading and error as they were. Which actions use it: AuthSlice.SignOutActions. |
| AuthSlice.Reduce | src/store/slices/authSlice.ts:31-110 | Only logout and a failed current-user request touch the token, and they drop it. Exactly the three sign-in fulfilments sign in, and exactly logout and a failed current-user request sign out; every other action keeps the sign-in flag. |
| AuthSlice.PendingActions | src/store/slices/authSlice.ts:41-101 | Starting a register, login or profile request sets loading and clears the error. Starting a current-user request sets loading and keeps the error. Nothing else changes. |
| AuthSlice.SignInActions | src/store/slices/authSlice.ts:45-88 | A fulfilled register, login or current-user request stores the user, signs in and stops loading, and changes nothing else. |
| AuthSlice.RejectionFallbacks | src/store/slices/authSlice.ts:50-109 | A rejected register, login or profile request stops loading and stores its message, or "Registration failed", "Login failed" or "Profile update failed" when the message is missing or empty. Nothing else changes. |
| AuthSlice.SignOutActions | src/store/slices/authSlice.ts:73-94 | Logout drops user and token and signs out, keeping loading. A failed current-user request does the same and stops loading. The error is kept. |
| AuthSlice.ProfileFulfilledFrame | src/store/slices/authSlice.ts:102-105 | A fulfilled profile update replaces the user and stops loading; sign-in, token and error are kept. |
| AuthSlice.ErrorMeaningfulStep | src/store/slices/authSlice.ts:50-109 | No step stores an empty error message. |
| AuthSlice.ErrorMeaningfulRun | src/store/slices/authSlice.ts:31-109 | Over any run of actions, the error is absent or a non-empty message. |
| AuthSlice.TokenOnlyKeptOrCleared | src/store/slices/authSlice.ts:38-110 | No action stores a new token: after any run it is the start-up token or nothing. |
| AuthSlice.NoUserWhenSignedOutStep | src/store/slices/authSlice.ts:38-110 | Every action except a fulfilled profile update keeps a signed-out state free of users. |
| AuthSlice.ProfileAfterLogout | src/store/slices/authSlice.ts:102-105 | A profile update that completes after logout stores a user while the state stays signed out. |
| AuthSlice.ClearErrorOnly | src/store/slices/authSlice.ts:31-33 | `clearError` changes only the error, and a second one changes nothing. |
| AuthSlice.LoadingLifecycle | src/store/slices/authSlice.ts:38-110 | Every request start sets loading. Every fulfilment or rejection except logout clears it. Logout leaves it alone. |
| RegisterForm.LeadingSpaces | src/components/auth/RegisterForm.tsx:41 | The leading run counted is all whitespace and is followed by a non-space. |
| RegisterForm.TrailingSpaces | src/components/auth/RegisterForm.tsx:41 | The trailing run counted is all whitespace and is preceded by a non-space. |
| RegisterForm.Trim | src/components/auth/RegisterForm.tsx:41 | A trimmed string is no longer than the input and neither starts nor ends with whitespace. |
| RegisterForm.TrimEmptyIffAllSpace | src/components/auth/RegisterForm.tsx:41 | The trimmed string is empty exactly when the input is all whitespace. |
| RegisterForm.EmailShapeIsPattern | src/components/auth/RegisterForm.tsx:49 | `/\S+@\S+\.\S+/` matches somewhere exactly when some '@' has a non-space before it, then only non-spaces up to a '.', which has a non-space after it. |
| RegisterForm.ValidateForm | src/components/auth/RegisterForm.tsx:38-65 | Each field has an error exactly when its check fails, with that check's message. The confirmation error appears exactly when the passwords differ, whatever else fails. The form is accepted exactly when the map is empty. |
| RegisterForm.AcceptedIff | src/components/auth/RegisterForm.tsx:38-65 | The form is accepted exactly when the username has a non-space and at least 3 characters, the email matches the pattern, the password has at least 6 characters and the confirmation repeats it. |
| RegisterForm.ExampleAccepted | src/components/auth/RegisterForm.tsx:38-65 | Worked case: a complete and consistent form is accepted. |
| RegisterForm.ExampleBlankUsername | src/components/auth/RegisterForm.tsx:41-43 | Worked case: a username of spaces is reported missing, not short. |
| RegisterForm.ExampleShortUsername | src/components/auth/RegisterForm.tsx:43-45 | Worked case: the length check counts spaces the blank check ignores (" a" is too short). |
| RegisterForm.ExampleNoTopLevel | src/components/auth/RegisterForm.tsx:49-51 | Worked case: "a@b." is not an address. |
| RegisterForm.ExampleMismatch | src/components/auth/RegisterForm.tsx:59-61 | Worked case: only the confirmation is reported when it alone is wrong. |

## Left out

- **JavaScript dates.** `Date` objects, time zones, daylight saving and
  `setHours` are left out. Dates are day numbers, so the day-granular
  comparisons of `getCycleInfo` and `getEventsForCycle` become integer
  comparisons. The millisecond division with `Math.round`/`Math.floor` becomes
  integer subtraction.
- **The regression branch of `calculateNextPeriod`** (src/hooks/useAppLogic.ts:121-132).
  The floating-point polynomial and exponential fits of the external
  `regression` library are parameters `poly` and `expo`, read as the already
  rounded predictions. Only the final `Math.round` of their average is modelled.
- **Floating-point division.** `Math.round(x / y)` is modelled as exact rational
  rounding, half up.
- **`getSelectedCycleDateRange`** (src/hooks/useAppLogic.ts:257-265) is locale
  formatting of dates and is not modelled.
- **React and Redux wiring.** The React components, `useMemo`/`useAppSelector`,
  and the thunks, API client, toasts, local-storage middleware, back end and
  `uiSlice` are not part of this model.
  - The engine takes its inputs as parameters.
  - The authentication reducer takes the actions those requests dispatch.
  - `updateUserProfile` is imported by the auth slice but defined nowhere in the
    client; its three actions are modelled abstractly.
- **Cycle free-text fields.** `endDate`, `symptoms`, `mood`, `notes` and
  `ovulationDate` are read by no modelled operation and are omitted.
- **Event types.** The event type is the five-value enumeration. Events with any
  other `type` string, which `calculateStats` would skip in its type count,
  cannot be represented.
- **`undefined` in a partial update.** A partial record is a record of options:
  a field is either absent or replaces the stored value. Explicitly passing
  `undefined` for a field, which would overwrite it, is not modelled.
- **Strings.**
  - String length counts Dafny characters (Unicode scalar values), where
    JavaScript counts UTF-16 code units. A username or password with characters
    outside the Basic Multilingual Plane is shorter here.
  - The whitespace set is the fixed list of ECMAScript WhiteSpace and
    LineTerminator code points written out in `RegisterForm.IsSpace`.
- Display.IntToString: only the decimal digits of an integer are modelled.
  JavaScript renders magnitudes of 10^21 and more in exponent notation, and
  non-integers with a fraction, which a cycle position never is.
- Classifier.GetCyclePhase: takes the period length explicitly. The default
  argument (the settings' period length) is left out because every caller in
  the engine passes one. `!day` for a non-number day (`NaN`, `undefined`) is
  represented only by day 0.
- CyclesSlice.SelectionStaysInRange: excludes `setSelectedCycle` and
  `setCycles`, which the source lets move the selection anywhere. The lemma
  promises only non-negativity once the list is empty, because the source does
  not repair a selection when a deletion empties the list
  (CyclesSlice.StaleSelectionAfterEmptying). That needs two cycles sharing an
  id; with distinct ids the selection stays valid (CyclesSlice.WellFormedRun).
- AuthSlice.NoUserWhenSignedOutStep: excludes a fulfilled profile update, which
  can store a user while signed out (AuthSlice.ProfileAfterLogout).
- Chart.GetMaxYValue: the `!data` test for a missing array has no counterpart,
  since a sequence is always present.
