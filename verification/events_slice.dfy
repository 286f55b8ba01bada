/**
  The events reducer of `src/store/slices/eventsSlice.ts`: the list of events
  and the event form. The form's default date is "today", read from the clock
  by the source; here it is the parameter `today`.
*/
module EventsSlice {
  import opened Wrappers
  import opened Seqs
  import opened Types
  import opened Records

  datatype EventsState = EventsState(events: seq<Event>, editingEvent: Option<Event>, newEvent: NewEvent)

  /** The empty event form: today's date, a nice event, no notes. */
  function BlankEventForm(today: Day): NewEvent {
    NewEvent(today, Nice, "")
  }

  function Initial(today: Day): EventsState {
    EventsState([], None, BlankEventForm(today))
  }

  /** A `Partial<NewEvent>`: the fields given replace those of the form. */
  datatype EventPatch = EventPatch(date: Option<Day>, eventType: Option<EventType>, notes: Option<string>)

  datatype EventsAction =
    | SetEvents(events: seq<Event>)
    | AddEvent(event: Event)
    | UpdateEvent(event: Event)
    | DeleteEvent(id: int)
    | SetEditingEvent(editing: Option<Event>)
    | SetNewEvent(patch: EventPatch)
    | CancelEditEvent

  function EventId(e: Event): Option<int> { e.id }

  /** The form of an event being edited. */
  function FormOf(e: Event): NewEvent {
    NewEvent(e.date, e.eventType, e.notes)
  }

  /** Not editing, with the blank form of `today`. */
  predicate FormReset(s: EventsState, today: Day) {
    s.editingEvent.None? && s.newEvent == BlankEventForm(today)
  }

  /** `addEvent`: the payload is appended and the form is reset. */
  function Add(s: EventsState, e: Event, today: Day): (r: EventsState)
    ensures r.events == s.events + [e]
    ensures FormReset(r, today)
  {
    s.(events := s.events + [e], editingEvent := None, newEvent := BlankEventForm(today))
  }

  /**
    `updateEvent`: the first event with the payload's id is replaced (the list
    is left alone when none has it) and the form is reset either way.
  */
  function Update(s: EventsState, e: Event, today: Day): (r: EventsState)
    ensures |r.events| == |s.events|
    ensures (forall j :: 0 <= j < |s.events| ==> s.events[j].id != e.id) ==> r.events == s.events
    ensures forall i :: 0 <= i < |s.events| && s.events[i].id == e.id && (forall j :: 0 <= j < i ==> s.events[j].id != e.id) ==>
      r.events[i] == e && forall k :: 0 <= k < |s.events| && k != i ==> r.events[k] == s.events[k]
    ensures FormReset(r, today)
  {
    s.(events := UpdateById(s.events, EventId, e), editingEvent := None, newEvent := BlankEventForm(today))
  }

  /** `deleteEvent`: the events whose id differs, in order; the form is untouched. */
  function Delete(s: EventsState, id: int): (r: EventsState)
    ensures |r.events| <= |s.events|
    ensures forall k :: 0 <= k < |r.events| ==> r.events[k].id != Some(id)
    ensures r.editingEvent == s.editingEvent && r.newEvent == s.newEvent
  {
    s.(events := DeleteById(s.events, EventId, id))
  }

  /** Deletion keeps exactly the events with another id, each as often as before, in order. */
  lemma DeleteContents(s: EventsState, id: int)
    ensures forall e :: multiset(Delete(s, id).events)[e] == if e.id != Some(id) then multiset(s.events)[e] else 0
    ensures Subsequence(Delete(s, id).events, s.events)
  {
    DeleteByIdContents(s.events, EventId, id);
  }

  /** `setEditingEvent`: editing an event loads it into the form; `null` resets the form. */
  function SetEditing(s: EventsState, editing: Option<Event>, today: Day): (r: EventsState)
    ensures r.editingEvent == editing
    ensures editing.Some? ==> r.newEvent == FormOf(editing.value)
    ensures editing.None? ==> FormReset(r, today)
    ensures r.events == s.events
  {
    match editing
    case Some(e) => s.(editingEvent := editing, newEvent := FormOf(e))
    case None => s.(editingEvent := None, newEvent := BlankEventForm(today))
  }

  /** `{ ...form, ...patch }`. */
  function PatchForm(form: NewEvent, patch: EventPatch): (r: NewEvent)
    ensures r.date == if patch.date.Some? then patch.date.value else form.date
    ensures r.eventType == if patch.eventType.Some? then patch.eventType.value else form.eventType
    ensures r.notes == if patch.notes.Some? then patch.notes.value else form.notes
  {
    NewEvent(
      match patch.date case Some(d) => d case None => form.date,
      match patch.eventType case Some(t) => t case None => form.eventType,
      match patch.notes case Some(n) => n case None => form.notes)
  }

  /**
    One reducer step, on the day `today`. Only the four list actions touch the
    list, a deletion or a form patch leaves the edit alone, and every action
    that finishes or abandons an edit leaves the form reset to `today`.
  */
  function Reduce(s: EventsState, a: EventsAction, today: Day): (r: EventsState)
    ensures !(a.SetEvents? || a.AddEvent? || a.UpdateEvent? || a.DeleteEvent?) ==> r.events == s.events
    ensures a.SetEvents? ==> r == s.(events := a.events)
    ensures a.DeleteEvent? ==> r.editingEvent == s.editingEvent && r.newEvent == s.newEvent
    ensures a.SetNewEvent? ==> r.editingEvent == s.editingEvent
    ensures a.AddEvent? || a.UpdateEvent? || a.CancelEditEvent? || a == SetEditingEvent(None) ==> FormReset(r, today)
  {
    match a
    case SetEvents(events) => s.(events := events)
    case AddEvent(e) => Add(s, e, today)
    case UpdateEvent(e) => Update(s, e, today)
    case DeleteEvent(id) => Delete(s, id)
    case SetEditingEvent(editing) => SetEditing(s, editing, today)
    case SetNewEvent(patch) => s.(newEvent := PatchForm(s.newEvent, patch))
    case CancelEditEvent => s.(editingEvent := None, newEvent := BlankEventForm(today))
  }

  /** An empty patch is the identity and a later field wins over an earlier one. */
  lemma PatchLaws(form: NewEvent, p: EventPatch, q: EventPatch)
    ensures PatchForm(form, EventPatch(None, None, None)) == form
    ensures PatchForm(PatchForm(form, p), q) ==
      PatchForm(form, EventPatch(if q.date.Some? then q.date else p.date,
                                 if q.eventType.Some? then q.eventType else p.eventType,
                                 if q.notes.Some? then q.notes else p.notes))
  {
  }

  /** Patching every field with an event's values gives that event's form, whatever the form held. */
  lemma FullPatchIsFormOf(form: NewEvent, e: Event)
    ensures PatchForm(form, EventPatch(Some(e.date), Some(e.eventType), Some(e.notes))) == FormOf(e)
  {
  }

  /** Cancelling an edit resets the form and leaves the events alone. */
  lemma CancelKeepsEvents(s: EventsState, today: Day)
    ensures var r := Reduce(s, CancelEditEvent, today);
      FormReset(r, today) && r.events == s.events
    ensures Reduce(Initial(today), CancelEditEvent, today) == Initial(today)
  {
  }

  /** Starting an edit and cancelling it is the same as cancelling. */
  lemma EditThenCancel(s: EventsState, e: Event, today: Day)
    ensures Reduce(Reduce(s, SetEditingEvent(Some(e)), today), CancelEditEvent, today) ==
            Reduce(s, CancelEditEvent, today)
  {
  }

  /** Adding an event with a fresh id and deleting that id restores the list. */
  lemma DeleteUndoesAdd(s: EventsState, e: Event, id: int, today: Day)
    requires e.id == Some(id)
    requires forall k :: 0 <= k < |s.events| ==> s.events[k].id != Some(id)
    ensures Delete(Add(s, e, today), id).events == s.events
  {
    assert Fresh(s.events, EventId, id);
    DeleteAfterAppend(s.events, EventId, e, id);
  }

  /** Deleting the same id twice is deleting it once. */
  lemma DeleteTwice(s: EventsState, id: int)
    ensures Delete(Delete(s, id), id) == Delete(s, id)
  {
    DeleteIdempotent(s.events, EventId, id);
  }

  /** Applying the same update twice is applying it once. */
  lemma UpdateTwice(s: EventsState, e: Event, today: Day)
    ensures Update(Update(s, e, today), e, today) == Update(s, e, today)
  {
    UpdateIdempotent(s.events, EventId, e);
  }

  /** Updating a freshly added event replaces it in place. */
  lemma UpdateAfterAddEvent(s: EventsState, e: Event, f: Event, id: int, today: Day)
    requires e.id == Some(id) && f.id == Some(id)
    requires forall k :: 0 <= k < |s.events| ==> s.events[k].id != Some(id)
    ensures Update(Add(s, e, today), f, today).events == s.events + [f]
  {
    assert Fresh(s.events, EventId, id);
    UpdateAfterAppend(s.events, EventId, e, f, id);
  }
}
