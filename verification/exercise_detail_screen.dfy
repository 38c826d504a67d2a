/** `src/components/ExerciseDetailScreen.tsx`: one exercise's history, its
    latest entry, an inline row for adding an entry by hand, and the edit
    modal. The screen's own state is whether the edit modal is open and the
    draft row, if any. The clock, the time zone offset and the new entry's
    id are parameters. */
module ExerciseDetailScreen {
  import opened Optional
  import opened Types
  import Storage
  import LogEntrySheet
  import opened Dates

  /** The inline row being filled in: a local calendar day (the date
      input's `yyyy-MM-dd`) and the four values. */
  datatype Draft = Draft(day: int, values: LogEntrySheet.Values)

  datatype DetailState = DetailState(showEditModal: bool, draft: Option<Draft>)

  /** Both `useState` initial values. */
  const Initial: DetailState := DetailState(false, None)

  /** The header's latest entry is the first row of the history table. */
  lemma {:induction false} LatestHeadsHistory(entries: seq<Entry>, exerciseId: string)
    ensures var h := Storage.ExerciseHistory(entries, exerciseId);
            Storage.LatestEntry(entries, exerciseId) == if h == [] then None else Some(h[0])
  {
  }

  /** `handleAddEntry`: opens the draft row on today's local date,
      prefilled from the latest entry with the same fallbacks as the log
      sheet's state initialisers (the default scheme is not consulted). */
  function AddEntry(st: DetailState, entries: seq<Entry>, exerciseId: string, now: int, offset: int): (r: DetailState)
    ensures r == st.(draft := r.draft)
    ensures r.draft.Some? && r.draft.value.day == LocalDay(now, offset)
    ensures r.draft.value.values == LogEntrySheet.Seed(Storage.LatestEntry(entries, exerciseId))
    ensures r.draft.value.values.sets != 0 && r.draft.value.values.repsText != []
    ensures Storage.LatestEntry(entries, exerciseId).None? ==> r.draft.value.values == LogEntrySheet.Values(3, "10", 0.0, Kg)
  {
    st.(draft := Some(Draft(LocalDay(now, offset), LogEntrySheet.Seed(Storage.LatestEntry(entries, exerciseId)))))
  }

  /** The Add button is disabled while a draft row is open. */
  function AddDisabled(st: DetailState): bool {
    st.draft.Some?
  }

  /** Add disables itself, and saving or cancelling the draft enables it
      again, so at most one draft row exists. */
  lemma AddDisabledWhileDrafting(st: DetailState, entries: seq<Entry>, exerciseId: string, now: int, offset: int, id: string)
    ensures AddDisabled(AddEntry(st, entries, exerciseId, now, offset))
    ensures !AddDisabled(SaveNewEntry(st, exerciseId, id, offset).state)
    ensures !AddDisabled(CancelNewEntry(st))
  {
  }

  /** A state change together with the entry handed to `onSaveEntry`, if
      one was. */
  datatype Step = Step(state: DetailState, saved: Option<Entry>)

  /** The entry a draft becomes: this exercise, the draft's values, no
      comment, at the given instant. */
  function DraftEntry(d: Draft, exerciseId: string, id: string, date: int): (e: Entry)
    ensures e.id == id && e.exerciseId == exerciseId && e.date == date
    ensures LogEntrySheet.EntryValues(e) == d.values && e.comment.None?
  {
    Entry(id, exerciseId, date, d.values.sets, d.values.repsText, d.values.weight, d.values.unit, None)
  }

  /** `handleSaveNewEntry` as written: without a draft nothing happens;
      otherwise the draft is saved at `new Date(newEntry.date)`, midnight
      UTC of the draft's day, and the draft row closes. */
  function SaveNewEntryAsWritten(st: DetailState, exerciseId: string, id: string): (r: Step)
    ensures st.draft.None? ==> r == Step(st, None)
    ensures st.draft.Some? ==> r.state == st.(draft := None) && r.saved.Some?
    ensures r.saved.Some? ==> var e := r.saved.value;
              e.id == id && e.exerciseId == exerciseId && e.date % DayMs == 0 && LocalDay(e.date, 0) == st.draft.value.day
              && LogEntrySheet.EntryValues(e) == st.draft.value.values && e.comment.None?
  {
    match st.draft
    case None => Step(st, None)
    case Some(d) => Step(st.(draft := None), Some(DraftEntry(d, exerciseId, id, DayStartUtc(d.day))))
  }

  /** `handleSaveNewEntry` saving at local midnight of the draft's day, so
      that the history shows the day that was entered. */
  function SaveNewEntry(st: DetailState, exerciseId: string, id: string, offset: int): (r: Step)
    ensures st.draft.None? ==> r == Step(st, None)
    ensures st.draft.Some? ==> r.state == st.(draft := None) && r.saved.Some?
    ensures r.saved.Some? ==> var e := r.saved.value;
              e.id == id && e.exerciseId == exerciseId && LocalDay(e.date, offset) == st.draft.value.day
              && e.date == DayStartLocal(st.draft.value.day, offset)
              && LogEntrySheet.EntryValues(e) == st.draft.value.values && e.comment.None?
  {
    match st.draft
    case None => Step(st, None)
    case Some(d) => Step(st.(draft := None), Some(DraftEntry(d, exerciseId, id, DayStartLocal(d.day, offset))))
  }

  /** As written, an entry added by hand for today shows up in the history
      under yesterday's date wherever local time is behind UTC. */
  lemma {:induction false} AddedTodayShowsYesterday(st: DetailState, entries: seq<Entry>, exerciseId: string, now: int, offset: int, id: string)
    requires -DayMs < offset < 0
    ensures var e := SaveNewEntryAsWritten(AddEntry(st, entries, exerciseId, now, offset), exerciseId, id).saved.value;
            LocalDay(e.date, offset) == LocalDay(now, offset) - 1
  {
    UtcRoundTripWest(LocalDay(now, offset), offset);
  }

  /** `handleCancelNewEntry`: the draft row closes and nothing is saved. */
  function CancelNewEntry(st: DetailState): (r: DetailState)
    ensures r.draft.None? && r.showEditModal == st.showEditModal
  {
    st.(draft := None)
  }

  /** Opening a draft and cancelling it leaves the screen as it was. */
  lemma AddThenCancel(st: DetailState, entries: seq<Entry>, exerciseId: string, now: int, offset: int)
    requires st.draft.None?
    ensures CancelNewEntry(AddEntry(st, entries, exerciseId, now, offset)) == st
  {
  }

  /** Opening a draft and saving it untouched saves the latest entry's
      values (or the defaults) on today's date, and closes the row. */
  lemma AddThenSave(st: DetailState, entries: seq<Entry>, exerciseId: string, now: int, offset: int, id: string)
    requires st.draft.None?
    ensures var r := SaveNewEntry(AddEntry(st, entries, exerciseId, now, offset), exerciseId, id, offset);
            r.state == st && r.saved.Some? && LocalDay(r.saved.value.date, offset) == LocalDay(now, offset)
            && LogEntrySheet.EntryValues(r.saved.value) == LogEntrySheet.Seed(Storage.LatestEntry(entries, exerciseId))
  {
  }

  /** "No history yet" shows when the exercise has no entries and no draft
      row is open. */
  function ShowsPlaceholder(history: seq<Entry>, st: DetailState): bool {
    |history| == 0 && st.draft.None?
  }

  /** The placeholder shows exactly when no stored entry belongs to the
      exercise and there is no draft row. */
  lemma {:induction false} PlaceholderIffNoEntries(entries: seq<Entry>, exerciseId: string, st: DetailState)
    ensures ShowsPlaceholder(Storage.ExerciseHistory(entries, exerciseId), st)
            <==> st.draft.None? && forall e :: e in entries ==> e.exerciseId != exerciseId
  {
    LatestHeadsHistory(entries, exerciseId);
  }

  /** A saved draft lands in the exercise's history once the page stores it. */
  lemma {:induction false} SavedDraftInHistory(data: AppData, st: DetailState, exerciseId: string, id: string, offset: int)
    requires st.draft.Some?
    ensures var e := SaveNewEntry(st, exerciseId, id, offset).saved.value;
            e in Storage.ExerciseHistory(Storage.AddEntry(data, e).data.entries, exerciseId)
  {
    var e := SaveNewEntry(st, exerciseId, id, offset).saved.value;
    assert Storage.AddEntry(data, e).data.entries[|data.entries|] == e;
  }

  /** The pencil button and the modal's close. */
  function OpenEditModal(st: DetailState): (r: DetailState)
    ensures r.showEditModal && r.draft == st.draft
  {
    st.(showEditModal := true)
  }

  function CloseEditModal(st: DetailState): (r: DetailState)
    ensures !r.showEditModal && r.draft == st.draft
  {
    st.(showEditModal := false)
  }

  /** The edit modal's `onSave`: the updated exercise goes to
      `onUpdateExercise` and the modal closes. */
  function EditSaved(st: DetailState, updated: Exercise): (r: (DetailState, Exercise))
    ensures r.1 == updated && !r.0.showEditModal && r.0.draft == st.draft
  {
    (st.(showEditModal := false), updated)
  }
}
