/**
  The cycles reducer of `src/store/slices/cyclesSlice.ts`: the list of cycles,
  the selected position and the add/edit form, as a state -> action -> state
  function.
*/
module CyclesSlice {
  import opened Wrappers
  import opened Seqs
  import opened Types
  import opened Records

  datatype CyclesState = CyclesState(
    cycles: seq<Cycle>,
    selectedCycle: int,
    showAddCycle: bool,
    editingCycle: Option<Cycle>,
    newCycle: NewCycle)

  /** The empty cycle form: no start date, a five-day period. */
  const BlankCycleForm := NewCycle(Blank, 5)

  const Initial := CyclesState([], 0, false, None, BlankCycleForm)

  /** A `Partial<NewCycle>`: the fields given replace those of the form. */
  datatype CyclePatch = CyclePatch(startDate: Option<DateInput>, periodLength: Option<int>)

  datatype CyclesAction =
    | SetCycles(cycles: seq<Cycle>)
    | AddCycle(cycle: Cycle)
    | UpdateCycle(cycle: Cycle)
    | DeleteCycle(id: int)
    | SetSelectedCycle(index: int)
    | SetShowAddCycle(show: bool)
    | SetEditingCycle(editing: Option<Cycle>)
    | SetNewCycle(patch: CyclePatch)
    | CancelEditCycle

  function CycleId(c: Cycle): Option<int> { c.id }

  /** The form cleared: hidden, not editing, blank. */
  predicate FormReset(s: CyclesState) {
    !s.showAddCycle && s.editingCycle.None? && s.newCycle == BlankCycleForm
  }

  /** `addCycle`: the payload is appended and the form is reset. */
  function Add(s: CyclesState, c: Cycle): (r: CyclesState)
    ensures r.cycles == s.cycles + [c]
    ensures FormReset(r)
    ensures r.selectedCycle == s.selectedCycle
  {
    s.(cycles := s.cycles + [c], showAddCycle := false, editingCycle := None, newCycle := BlankCycleForm)
  }

  /**
    `updateCycle`: the first cycle with the payload's id is replaced (the list
    is left alone when none has it) and the form is reset either way.
  */
  function Update(s: CyclesState, c: Cycle): (r: CyclesState)
    ensures |r.cycles| == |s.cycles|
    ensures (forall j :: 0 <= j < |s.cycles| ==> s.cycles[j].id != c.id) ==> r.cycles == s.cycles
    ensures forall i :: 0 <= i < |s.cycles| && s.cycles[i].id == c.id && (forall j :: 0 <= j < i ==> s.cycles[j].id != c.id) ==>
      r.cycles[i] == c && forall k :: 0 <= k < |s.cycles| && k != i ==> r.cycles[k] == s.cycles[k]
    ensures FormReset(r)
    ensures r.selectedCycle == s.selectedCycle
  {
    s.(cycles := UpdateById(s.cycles, CycleId, c), showAddCycle := false, editingCycle := None, newCycle := BlankCycleForm)
  }

  /**
    `deleteCycle`: every cycle with the id goes; a selection left past the end
    of a non-empty list falls back to the most recent cycle.
  */
  function Delete(s: CyclesState, id: int): (r: CyclesState)
    ensures |r.cycles| <= |s.cycles|
    ensures forall k :: 0 <= k < |r.cycles| ==> r.cycles[k].id != Some(id)
    ensures r.selectedCycle == if s.selectedCycle >= |r.cycles| && |r.cycles| > 0 then 0 else s.selectedCycle
    ensures r.showAddCycle == s.showAddCycle && r.editingCycle == s.editingCycle && r.newCycle == s.newCycle
  {
    var cycles := DeleteById(s.cycles, CycleId, id);
    s.(cycles := cycles, selectedCycle := if s.selectedCycle >= |cycles| && |cycles| > 0 then 0 else s.selectedCycle)
  }

  /** `setEditingCycle`: editing a cycle loads it into the shown form; `null` clears the form. */
  function SetEditing(s: CyclesState, editing: Option<Cycle>): (r: CyclesState)
    ensures r.editingCycle == editing
    ensures editing.Some? ==> r.showAddCycle && r.newCycle == NewCycle(On(editing.value.startDate), editing.value.periodLength)
    ensures editing.None? ==> FormReset(r)
    ensures r.cycles == s.cycles && r.selectedCycle == s.selectedCycle
  {
    match editing
    case Some(c) => s.(editingCycle := editing, newCycle := NewCycle(On(c.startDate), c.periodLength), showAddCycle := true)
    case None => s.(editingCycle := None, newCycle := BlankCycleForm, showAddCycle := false)
  }

  /** `{ ...form, ...patch }`. */
  function PatchForm(form: NewCycle, patch: CyclePatch): (r: NewCycle)
    ensures r.startDate == if patch.startDate.Some? then patch.startDate.value else form.startDate
    ensures r.periodLength == if patch.periodLength.Some? then patch.periodLength.value else form.periodLength
  {
    NewCycle(
      match patch.startDate case Some(d) => d case None => form.startDate,
      match patch.periodLength case Some(p) => p case None => form.periodLength)
  }

  /**
    One reducer step. Only the four list actions touch the list, only a deletion
    or `setSelectedCycle` moves the selection, and every action that finishes or
    abandons an edit leaves the form reset.
  */
  function Reduce(s: CyclesState, a: CyclesAction): (r: CyclesState)
    ensures !(a.SetCycles? || a.AddCycle? || a.UpdateCycle? || a.DeleteCycle?) ==> r.cycles == s.cycles
    ensures !(a.DeleteCycle? || a.SetSelectedCycle?) ==> r.selectedCycle == s.selectedCycle
    ensures a.SetCycles? ==> r == s.(cycles := a.cycles)
    ensures a.SetSelectedCycle? ==> r == s.(selectedCycle := a.index)
    ensures a.SetShowAddCycle? ==> r == s.(showAddCycle := a.show)
    ensures a.DeleteCycle? || a.SetNewCycle? ==> r.showAddCycle == s.showAddCycle && r.editingCycle == s.editingCycle
    ensures a.AddCycle? || a.UpdateCycle? || a.CancelEditCycle? || a == SetEditingCycle(None) ==> FormReset(r)
  {
    match a
    case SetCycles(cycles) => s.(cycles := cycles)
    case AddCycle(c) => Add(s, c)
    case UpdateCycle(c) => Update(s, c)
    case DeleteCycle(id) => Delete(s, id)
    case SetSelectedCycle(index) => s.(selectedCycle := index)
    case SetShowAddCycle(show) => s.(showAddCycle := show)
    case SetEditingCycle(editing) => SetEditing(s, editing)
    case SetNewCycle(patch) => s.(newCycle := PatchForm(s.newCycle, patch))
    case CancelEditCycle => s.(editingCycle := None, showAddCycle := false, newCycle := BlankCycleForm)
  }

  /** The state after a sequence of actions, applied from the first. */
  function Run(s: CyclesState, actions: seq<CyclesAction>): CyclesState
    decreases |actions|
  {
    if |actions| == 0 then s else Run(Reduce(s, actions[0]), actions[1..])
  }

  /** The patch that changes nothing. */
  const EmptyPatch := CyclePatch(None, None)

  /** An empty patch is the identity and a later field wins over an earlier one. */
  lemma PatchLaws(form: NewCycle, p: CyclePatch, q: CyclePatch)
    ensures PatchForm(form, EmptyPatch) == form
    ensures PatchForm(PatchForm(form, p), q) ==
      PatchForm(form, CyclePatch(if q.startDate.Some? then q.startDate else p.startDate,
                                 if q.periodLength.Some? then q.periodLength else p.periodLength))
    ensures PatchForm(PatchForm(form, p), p) == PatchForm(form, p)
  {
  }

  /** Cancelling an edit restores the initial form and touches neither the list nor the selection. */
  lemma CancelRestoresForm(s: CyclesState)
    ensures var r := Reduce(s, CancelEditCycle);
      FormReset(r) && r.cycles == s.cycles && r.selectedCycle == s.selectedCycle
    ensures Reduce(Initial, CancelEditCycle) == Initial
  {
  }

  /** Adding a cycle with a fresh id and deleting that id restores the list. */
  lemma DeleteUndoesAdd(s: CyclesState, c: Cycle, id: int)
    requires c.id == Some(id)
    requires forall k :: 0 <= k < |s.cycles| ==> s.cycles[k].id != Some(id)
    ensures Delete(Add(s, c), id).cycles == s.cycles
  {
    assert Fresh(s.cycles, CycleId, id);
    DeleteAfterAppend(s.cycles, CycleId, c, id);
  }

  /** Deletion keeps exactly the cycles with another id, each as often as before, in order. */
  lemma DeleteContents(s: CyclesState, id: int)
    ensures forall c :: multiset(Delete(s, id).cycles)[c] == if c.id != Some(id) then multiset(s.cycles)[c] else 0
    ensures Subsequence(Delete(s, id).cycles, s.cycles)
  {
    DeleteByIdContents(s.cycles, CycleId, id);
  }

  /** Deleting the same id twice is deleting it once. */
  lemma DeleteTwice(s: CyclesState, id: int)
    ensures Delete(Delete(s, id), id) == Delete(s, id)
  {
    DeleteIdempotent(s.cycles, CycleId, id);
  }

  /** Applying the same update twice is applying it once. */
  lemma UpdateTwice(s: CyclesState, c: Cycle)
    ensures Update(Update(s, c), c) == Update(s, c)
  {
    UpdateIdempotent(s.cycles, CycleId, c);
  }

  /** An updated cycle disappears with its id: deleting after updating is deleting. */
  lemma DeleteAfterUpdateCycle(s: CyclesState, c: Cycle, id: int)
    requires c.id == Some(id)
    ensures Delete(Update(s, c), id).cycles == Delete(s, id).cycles
  {
    DeleteAfterUpdate(s.cycles, CycleId, c, id);
  }

  /** Updating a freshly added cycle replaces it in place. */
  lemma UpdateAfterAddCycle(s: CyclesState, c: Cycle, d: Cycle, id: int)
    requires c.id == Some(id) && d.id == Some(id)
    requires forall k :: 0 <= k < |s.cycles| ==> s.cycles[k].id != Some(id)
    ensures Update(Add(s, c), d).cycles == s.cycles + [d]
  {
    assert Fresh(s.cycles, CycleId, id);
    UpdateAfterAppend(s.cycles, CycleId, c, d, id);
  }

  /**
    Adding, updating and deleting keep a selection that names a cycle within
    range; only `setSelectedCycle` and `setCycles` can move it out. A deletion
    that empties the list keeps the old position, so afterwards it is only
    known to be non-negative.
  */
  lemma SelectionStaysInRange(s: CyclesState, a: CyclesAction)
    requires 0 <= s.selectedCycle < |s.cycles|
    requires !a.SetSelectedCycle? && !a.SetCycles?
    ensures var r := Reduce(s, a);
      0 <= r.selectedCycle && (|r.cycles| > 0 ==> r.selectedCycle < |r.cycles|)
  {
  }

  /**
    A deletion that empties the list leaves the selection where it was, so a
    later addition can find it past the end: with two cycles sharing an id and
    the older one selected, deleting that id and adding a cycle leaves position
    1 selected in a one-cycle list.
  */
  lemma StaleSelectionAfterEmptying(a: Cycle, b: Cycle, c: Cycle)
    requires a.id == Some(7) && b.id == Some(7)
    ensures var s := Initial.(cycles := [a, b], selectedCycle := 1);
      var r := Add(Delete(s, 7), c);
      |r.cycles| == 1 && r.selectedCycle == 1
  {
    var s := Initial.(cycles := [a, b], selectedCycle := 1);
    assert [a, b][1..] == [b] && [b][1..] == [];
    var p := OtherId(CycleId, 7);
    assert CycleId(a) == Some(7) && CycleId(b) == Some(7);
    assert !p(a) && !p(b);
    assert Filter([b], p) == Filter([b][1..], p) == [];
    assert Filter([a, b], p) == Filter([b], p);
  }

  /** A deletion repairs any non-negative selection that falls off the end of a non-empty list. */
  lemma DeleteRepairsSelection(s: CyclesState, id: int)
    requires s.selectedCycle >= 0
    ensures var r := Delete(s, id); |r.cycles| > 0 ==> 0 <= r.selectedCycle < |r.cycles|
  {
  }

  /** The selection names a cycle, or is the initial 0 while the list is empty. */
  predicate SelectionValid(s: CyclesState) {
    0 <= s.selectedCycle && (s.selectedCycle < |s.cycles| || s.selectedCycle == 0)
  }

  /** A valid selection over cycles whose ids are distinct. */
  predicate WellFormed(s: CyclesState) {
    SelectionValid(s) && DistinctIds(s.cycles, CycleId)
  }

  /**
    What the screens dispatching to the reducer take care of: an added cycle
    carries a new id (or none), a selection comes from the listed cycles, and a
    replacement list has distinct ids and still holds the selected position.
  */
  predicate Orderly(s: CyclesState, a: CyclesAction) {
    match a
    case SetCycles(cycles) => DistinctIds(cycles, CycleId) && SelectionValid(s.(cycles := cycles))
    case AddCycle(c) => c.id.Some? ==> Fresh(s.cycles, CycleId, c.id.value)
    case SetSelectedCycle(index) => SelectionValid(s.(selectedCycle := index))
    case _ => true
  }

  /**
    With distinct ids the stale selection cannot arise: a deletion removes at
    most one cycle, so one that empties the list started from a single cycle,
    and position 0 is the only one a valid selection could hold.
  */
  lemma WellFormedPreserved(s: CyclesState, a: CyclesAction)
    requires WellFormed(s) && Orderly(s, a)
    ensures WellFormed(Reduce(s, a))
  {
    match a
    case AddCycle(c) =>
      AppendKeepsDistinct(s.cycles, CycleId, c);
    case UpdateCycle(c) =>
      UpdateKeepsDistinct(s.cycles, CycleId, c);
    case DeleteCycle(id) =>
      DeleteRemovesAtMostOne(s.cycles, CycleId, id);
      DeleteKeepsDistinct(s.cycles, CycleId, id);
    case _ =>
  }

  /** Every action of the run is orderly in the state it meets. */
  predicate OrderlyRun(s: CyclesState, actions: seq<CyclesAction>)
    decreases |actions|
  {
    |actions| == 0 || (Orderly(s, actions[0]) && OrderlyRun(Reduce(s, actions[0]), actions[1..]))
  }

  /**
    From the initial state, an orderly run never leaves a selection past the
    end of the list.
  */
  lemma {:induction false} WellFormedRun(s: CyclesState, actions: seq<CyclesAction>)
    requires WellFormed(s) && OrderlyRun(s, actions)
    ensures WellFormed(Run(s, actions))
    ensures |Run(s, actions).cycles| > 0 ==> Run(s, actions).selectedCycle < |Run(s, actions).cycles|
    decreases |actions|
  {
    if |actions| > 0 {
      WellFormedPreserved(s, actions[0]);
      WellFormedRun(Reduce(s, actions[0]), actions[1..]);
    }
  }

  /** Starting from the initial state, every orderly run keeps the selection on a listed cycle. */
  lemma SelectionValidFromInitial(actions: seq<CyclesAction>)
    requires OrderlyRun(Initial, actions)
    ensures var r := Run(Initial, actions);
      0 <= r.selectedCycle && (|r.cycles| > 0 ==> r.selectedCycle < |r.cycles|)
  {
    WellFormedRun(Initial, actions);
  }

  /**
    While the form edits a cycle it is shown: every action but
    `setShowAddCycle(false)` keeps this.
  */
  predicate EditingShown(s: CyclesState) {
    s.editingCycle.Some? ==> s.showAddCycle
  }

  lemma EditingShownPreserved(s: CyclesState, a: CyclesAction)
    requires EditingShown(s)
    requires a != SetShowAddCycle(false)
    ensures EditingShown(Reduce(s, a))
  {
  }

  /** Over any run avoiding `setShowAddCycle(false)`, the form is shown while it edits a cycle. */
  lemma {:induction false} EditingShownRun(s: CyclesState, actions: seq<CyclesAction>)
    requires EditingShown(s)
    requires forall k :: 0 <= k < |actions| ==> actions[k] != SetShowAddCycle(false)
    ensures EditingShown(Run(s, actions))
    decreases |actions|
  {
    if |actions| > 0 {
      EditingShownPreserved(s, actions[0]);
      EditingShownRun(Reduce(s, actions[0]), actions[1..]);
    }
  }

  /** Hiding the form while editing breaks the pairing. */
  lemma HidingWhileEditing(c: Cycle)
    ensures !EditingShown(Reduce(Reduce(Initial, SetEditingCycle(Some(c))), SetShowAddCycle(false)))
  {
  }
}
