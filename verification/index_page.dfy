/** `src/pages/Index.tsx`: the page that owns the loaded `AppData`, chooses
    which screen to show and routes every change through the storage layer.
    The page's state is its `useState` hooks plus the browser store.

    The page also calls `addWorkoutDay`, `addExercise` and `updateEntry`,
    which `src/lib/storage.ts` does not define. They are parameters here of
    the shape the other storage mutations have: they return the new data and
    the store after saving it. */
module IndexPage {
  import opened Optional
  import opened Types
  import Storage
  import WorkoutDayList
  import Seqs

  datatype View = Workouts | Exercises | ExerciseDetail

  /** `showExerciseModal`: whether the exercise form is open, the exercise
      it edits (none when creating) and the day a new exercise goes to. */
  datatype ExerciseModal = ExerciseModal(isOpen: bool, exercise: Option<Exercise>, workoutDayId: Option<string>)

  const ClosedModal: ExerciseModal := ExerciseModal(false, None, None)

  datatype Page = Page(
    appData: Option<AppData>,
    view: View,
    selectedDay: Option<WorkoutDay>,
    selectedExercise: Option<Exercise>,
    showAddWorkoutModal: bool,
    exerciseModal: ExerciseModal,
    store: Storage.Store)

  /** The storage functions the page uses but the storage layer lacks. */
  datatype ExternalOps = ExternalOps(
    addWorkoutDay: (AppData, string) -> Storage.Saved,
    addExercise: (AppData, Exercise) -> Storage.Saved,
    updateEntry: (AppData, Entry) -> Storage.Saved)

  /** The page as first rendered, before the startup effect. */
  function Mounted(store: Storage.Store): Page {
    Page(None, Workouts, None, None, false, ClosedModal, store)
  }

  /** The page shows what the store holds. */
  predicate Persisted(p: Page) {
    p.appData.Some? ==> Storage.Load(p.store) == p.appData.value
  }

  /** Whether the startup effect replaces the loaded data by the preset plan. */
  predicate NeedsPreset(d: AppData) {
    !d.hasLoadedPreset || |d.workoutDays| == 0
  }

  /** The startup effect: load, fall back to the preset plan when it was
      never loaded or there are no workout days, and hold the result. */
  function Startup(p: Page, presetDays: seq<WorkoutDay>, presetExercises: seq<Exercise>): (r: Page)
    ensures r.appData.Some? && r.appData.value.hasLoadedPreset && Persisted(r)
    ensures r == p.(appData := r.appData, store := r.store)
    ensures !NeedsPreset(Storage.Load(p.store)) ==> r.appData == Some(Storage.Load(p.store)) && r.store == p.store
    ensures NeedsPreset(Storage.Load(p.store)) ==> r.appData == Some(AppData(presetDays, presetExercises, [], true))
  {
    var data := Storage.Load(p.store);
    if NeedsPreset(data) then
      var s := Storage.LoadPresetPlan(presetDays, presetExercises);
      p.(appData := Some(s.data), store := s.store)
    else
      p.(appData := Some(data))
  }

  /** With a non-empty preset the next start keeps what this start loaded:
      the preset is loaded at most once and entries logged since survive. */
  lemma StartupStable(p: Page, q: Page, presetDays: seq<WorkoutDay>, presetExercises: seq<Exercise>)
    requires |presetDays| > 0
    requires q.store == Startup(p, presetDays, presetExercises).store
    ensures Startup(q, presetDays, presetExercises).appData == Startup(p, presetDays, presetExercises).appData
  {
  }

  /** While no workout day is stored, every start loads the preset plan
      again and drops every stored entry; with an empty preset that is
      every start until a day is added. */
  lemma StartupWithoutDays(p: Page, presetDays: seq<WorkoutDay>, presetExercises: seq<Exercise>)
    requires Storage.Load(p.store).workoutDays == []
    ensures Startup(p, presetDays, presetExercises).appData.value.entries == []
    ensures presetDays == [] ==> Storage.Load(Startup(p, presetDays, presetExercises).store).workoutDays == []
  {
  }

  /** `handleSelectDay`. */
  function SelectDay(p: Page, day: WorkoutDay): (r: Page)
    ensures r.view == Exercises && r.selectedDay == Some(day)
    ensures r == p.(view := r.view, selectedDay := r.selectedDay)
  {
    p.(selectedDay := Some(day), view := Exercises)
  }

  /** `handleBackToWorkouts`. */
  function BackToWorkouts(p: Page): (r: Page)
    ensures r.view == Workouts && r.selectedDay.None?
    ensures r == p.(view := r.view, selectedDay := r.selectedDay)
  {
    p.(selectedDay := None, view := Workouts)
  }

  /** `handleSelectExercise`. */
  function SelectExercise(p: Page, exercise: Exercise): (r: Page)
    ensures r.view == ExerciseDetail && r.selectedExercise == Some(exercise)
    ensures r == p.(view := r.view, selectedExercise := r.selectedExercise)
  {
    p.(selectedExercise := Some(exercise), view := ExerciseDetail)
  }

  /** `handleBackToExercises`. */
  function BackToExercises(p: Page): (r: Page)
    ensures r.view == Exercises && r.selectedExercise.None?
    ensures r == p.(view := r.view, selectedExercise := r.selectedExercise)
  {
    p.(selectedExercise := None, view := Exercises)
  }

  /** Going into a day and back, or into an exercise and back, returns to
      the page left. */
  lemma NavigationRoundTrips(p: Page, day: WorkoutDay, exercise: Exercise)
    ensures p.view == Workouts && p.selectedDay.None? ==> BackToWorkouts(SelectDay(p, day)) == p
    ensures p.view == Exercises && p.selectedExercise.None? ==> BackToExercises(SelectExercise(p, exercise)) == p
  {
  }

  /** Holds a storage mutation's result. */
  function Hold(p: Page, s: Storage.Saved): (r: Page)
    ensures r.appData == Some(s.data) && r.store == s.store
  {
    p.(appData := Some(s.data), store := s.store)
  }

  /** `handleSaveEntry`: before the data is loaded nothing happens;
      afterwards the entry is appended and saved. */
  function HandleSaveEntry(p: Page, entry: Entry): (r: Page)
    ensures p.appData.None? ==> r == p
    ensures p.appData.Some? ==> r.appData.Some? && r.appData.value == p.appData.value.(entries := p.appData.value.entries + [entry])
    ensures r == p.(appData := r.appData, store := r.store) && Persisted(r)
  {
    if p.appData.None? then p else Hold(p, Storage.AddEntry(p.appData.value, entry))
  }

  /** `handleUpdateEntry`, through the external `updateEntry`. */
  function HandleUpdateEntry(p: Page, entry: Entry, ops: ExternalOps): (r: Page)
    ensures p.appData.None? ==> r == p
    ensures p.appData.Some? ==> var s := ops.updateEntry(p.appData.value, entry);
              r.appData == Some(s.data) && r.store == s.store
    ensures r == p.(appData := r.appData, store := r.store)
  {
    if p.appData.None? then p else Hold(p, ops.updateEntry(p.appData.value, entry))
  }

  /** `handleUpdateExercise`: the exercise is replaced in storage and
      becomes the selected exercise. */
  function HandleUpdateExercise(p: Page, exercise: Exercise): (r: Page)
    ensures p.appData.None? ==> r == p
    ensures p.appData.Some? ==> r.selectedExercise == Some(exercise) && r.appData.Some?
    ensures p.appData.Some? ==> var (before, after) := (p.appData.value.exercises, r.appData.value.exercises);
              |after| == |before|
              && forall i :: 0 <= i < |before| ==> after[i] == if before[i].id == exercise.id then exercise else before[i]
    ensures p.appData.Some? ==> r.appData.value == p.appData.value.(exercises := r.appData.value.exercises)
    ensures p.appData.Some? ==> r == p.(appData := r.appData, store := r.store, selectedExercise := Some(exercise))
    ensures Persisted(r)
  {
    if p.appData.None? then p
    else Hold(p, Storage.UpdateExercise(p.appData.value, exercise)).(selectedExercise := Some(exercise))
  }

  /** `handleDeleteEntry`. */
  function HandleDeleteEntry(p: Page, entryId: string): (r: Page)
    ensures p.appData.None? ==> r == p
    ensures p.appData.Some? ==> r.appData.Some?
    ensures p.appData.Some? ==> forall e :: e in r.appData.value.entries <==> e in p.appData.value.entries && e.id != entryId
    ensures p.appData.Some? ==> forall e: Entry :: e.id != entryId ==>
              multiset(r.appData.value.entries)[e] == multiset(p.appData.value.entries)[e]
    ensures p.appData.Some? ==> Seqs.Subseq(r.appData.value.entries, p.appData.value.entries)
    ensures p.appData.Some? ==> r.appData.value == p.appData.value.(entries := r.appData.value.entries)
    ensures r == p.(appData := r.appData, store := r.store) && Persisted(r)
  {
    if p.appData.None? then p else Hold(p, Storage.DeleteEntry(p.appData.value, entryId))
  }

  /** `handleAddWorkout`: the day is added through the external
      `addWorkoutDay` and the modal closes. */
  function HandleAddWorkout(p: Page, name: string, ops: ExternalOps): (r: Page)
    ensures p.appData.None? ==> r == p
    ensures p.appData.Some? ==> var s := ops.addWorkoutDay(p.appData.value, name);
              r.appData == Some(s.data) && r.store == s.store && !r.showAddWorkoutModal
    ensures p.appData.Some? ==> r == p.(appData := r.appData, store := r.store, showAddWorkoutModal := false)
  {
    if p.appData.None? then p
    else Hold(p, ops.addWorkoutDay(p.appData.value, name)).(showAddWorkoutModal := false)
  }

  /** `handleAddExercise`: opens the exercise form for creating an exercise
      in the selected day; without a selected day nothing happens. */
  function HandleAddExercise(p: Page): (r: Page)
    ensures p.selectedDay.None? ==> r == p
    ensures p.selectedDay.Some? ==> r == p.(exerciseModal := ExerciseModal(true, None, Some(p.selectedDay.value.id)))
  {
    if p.selectedDay.None? then p
    else p.(exerciseModal := ExerciseModal(true, None, Some(p.selectedDay.value.id)))
  }

  /** Whether a saved exercise updates a stored one: it has a non-empty id
      that some stored exercise has. */
  predicate IsUpdate(d: AppData, exercise: Exercise) {
    exercise.id != [] && exists e :: e in d.exercises && e.id == exercise.id
  }

  /** `handleSaveExercise`: an update replaces the stored exercise and
      selects it; anything else is added through the external
      `addExercise`. The exercise form closes either way. */
  function HandleSaveExercise(p: Page, exercise: Exercise, ops: ExternalOps): (r: Page)
    ensures p.appData.None? ==> r == p
    ensures p.appData.Some? && IsUpdate(p.appData.value, exercise) ==>
              r == Hold(p, Storage.UpdateExercise(p.appData.value, exercise)).(selectedExercise := Some(exercise), exerciseModal := ClosedModal)
    ensures p.appData.Some? && !IsUpdate(p.appData.value, exercise) ==>
              r == Hold(p, ops.addExercise(p.appData.value, exercise)).(exerciseModal := ClosedModal)
  {
    if p.appData.None? then p
    else if IsUpdate(p.appData.value, exercise) then
      Hold(p, Storage.UpdateExercise(p.appData.value, exercise)).(selectedExercise := Some(exercise), exerciseModal := ClosedModal)
    else
      Hold(p, ops.addExercise(p.appData.value, exercise)).(exerciseModal := ClosedModal)
  }

  /** An update through the exercise form keeps the number of exercises and
      puts the saved exercise in place of every stored one with its id. */
  lemma {:induction false} SaveExerciseUpdates(p: Page, exercise: Exercise, ops: ExternalOps)
    requires p.appData.Some? && IsUpdate(p.appData.value, exercise)
    ensures var after := HandleSaveExercise(p, exercise, ops).appData.value.exercises;
            |after| == |p.appData.value.exercises| && exercise in after
            && forall i :: 0 <= i < |after| && after[i].id == exercise.id ==> after[i] == exercise
  {
    var d := p.appData.value;
    var e :| e in d.exercises && e.id == exercise.id;
    var i :| 0 <= i < |d.exercises| && d.exercises[i] == e;
    var after := HandleSaveExercise(p, exercise, ops).appData.value.exercises;
    assert after[i] == exercise;
  }

  /** The modal's close buttons and the Add Workout card. */
  function CloseExerciseModal(p: Page): (r: Page)
    ensures !r.exerciseModal.isOpen && r.exerciseModal.exercise.None? && r.exerciseModal.workoutDayId.None?
    ensures r == p.(exerciseModal := r.exerciseModal)
  {
    p.(exerciseModal := ClosedModal)
  }

  function SetAddWorkoutModal(p: Page, open: bool): (r: Page)
    ensures r.showAddWorkoutModal == open && r == p.(showAddWorkoutModal := r.showAddWorkoutModal)
  {
    p.(showAddWorkoutModal := open)
  }

  /** The defined handlers keep the page and the store in step; the
      external ones do when they save what they return. */
  lemma PersistedPreserved(p: Page, entry: Entry, exercise: Exercise, name: string, day: WorkoutDay, ops: ExternalOps)
    requires Persisted(p)
    ensures Persisted(SelectDay(p, day)) && Persisted(BackToWorkouts(p))
    ensures Persisted(SelectExercise(p, exercise)) && Persisted(BackToExercises(p))
    ensures Persisted(HandleAddExercise(p)) && Persisted(CloseExerciseModal(p))
    ensures p.appData.Some? && Storage.Load(ops.updateEntry(p.appData.value, entry).store) == ops.updateEntry(p.appData.value, entry).data
            ==> Persisted(HandleUpdateEntry(p, entry, ops))
    ensures p.appData.Some? && Storage.Load(ops.addWorkoutDay(p.appData.value, name).store) == ops.addWorkoutDay(p.appData.value, name).data
            ==> Persisted(HandleAddWorkout(p, name, ops))
    ensures p.appData.Some? && Storage.Load(ops.addExercise(p.appData.value, exercise).store) == ops.addExercise(p.appData.value, exercise).data
            ==> Persisted(HandleSaveExercise(p, exercise, ops))
  {
  }

  /** What the page renders. */
  datatype Screen =
    | Loading
    | Detail(exercise: Exercise, entries: seq<Entry>)
    | DayList(day: WorkoutDay, exercises: seq<Exercise>, entries: seq<Entry>, exerciseModal: Option<ExerciseModal>)
    | WorkoutList(days: seq<WorkoutDay>, exercises: seq<Exercise>, entries: seq<Entry>, addWorkoutModal: bool)

  /** The render function's branches, in order. */
  function CurrentScreen(p: Page): (s: Screen)
    ensures s.Loading? <==> p.appData.None?
    ensures s.Detail? <==> p.appData.Some? && p.view == ExerciseDetail && p.selectedExercise.Some?
    ensures s.DayList? <==> p.appData.Some? && p.view == Exercises && p.selectedDay.Some?
    ensures s.Detail? ==> s.exercise == p.selectedExercise.value
    ensures s.DayList? ==> s.day == p.selectedDay.value
    ensures s.DayList? ==> s.exerciseModal.Some? == p.exerciseModal.isOpen
    ensures s.DayList? && s.exerciseModal.Some? ==> s.exerciseModal.value == p.exerciseModal
    ensures s.WorkoutList? ==> s.days == p.appData.value.workoutDays && s.exercises == p.appData.value.exercises
    ensures s.WorkoutList? ==> s.addWorkoutModal == p.showAddWorkoutModal
  {
    match p.appData
    case None => Loading
    case Some(d) =>
      if p.view == ExerciseDetail && p.selectedExercise.Some? then
        Detail(p.selectedExercise.value, d.entries)
      else if p.view == Exercises && p.selectedDay.Some? then
        DayList(p.selectedDay.value, WorkoutDayList.DayExercises(d.exercises, p.selectedDay.value.id), d.entries,
                if p.exerciseModal.isOpen then Some(p.exerciseModal) else None)
      else
        WorkoutList(d.workoutDays, d.exercises, d.entries, p.showAddWorkoutModal)
  }

  /** The exercise list shows exactly the stored exercises of the selected
      day, and every screen shows the stored entries. */
  lemma {:induction false} ScreenContents(p: Page)
    requires p.appData.Some?
    ensures CurrentScreen(p).DayList? ==> forall e :: e in CurrentScreen(p).exercises <==>
              e in p.appData.value.exercises && e.workoutDayId == p.selectedDay.value.id
    ensures CurrentScreen(p).DayList? ==>
              CurrentScreen(p).exercises == WorkoutDayList.DayExercises(p.appData.value.exercises, p.selectedDay.value.id)
    ensures !CurrentScreen(p).Loading? ==> CurrentScreen(p).entries == p.appData.value.entries
  {
  }

  /** A view with nothing selected falls back to the workout list. */
  lemma FallsBackToWorkouts(p: Page)
    requires p.appData.Some?
    requires (p.view == ExerciseDetail && p.selectedExercise.None?) || (p.view == Exercises && p.selectedDay.None?)
    ensures CurrentScreen(p).WorkoutList?
  {
  }
}
