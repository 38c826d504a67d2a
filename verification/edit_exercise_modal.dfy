/** `src/components/EditExerciseModal.tsx`: the form that edits an exercise
    (when one is given) or creates one in a workout day. The new exercise's
    id is a parameter. */
module EditExerciseModal {
  import opened Optional
  import opened Types
  import opened Seqs
  import opened JsText
  import LogEntrySheet

  /** The muscle tags the form offers, in display order. */
  const AvailableTags: seq<string> := ["Chest", "Triceps", "Biceps", "Shoulders", "Back", "Lats", "Legs", "Warmup"]

  /** The scheme and sort order every created exercise starts with. */
  const CreatedScheme: string := "3x8-12"
  const CreatedSortOrder: int := 999

  datatype Form = Form(name: string, muscleTags: seq<string>, isAnchor: bool, notes: string)

  /** The state initialisers: the exercise's own fields when editing, empty
      ones when creating; absent notes read as the empty string. */
  function InitialForm(exercise: Option<Exercise>): (f: Form)
    ensures exercise.None? ==> f == Form("", [], false, "")
    ensures exercise.Some? ==> var e := exercise.value;
              f.name == e.name && f.muscleTags == e.muscleTags && f.isAnchor == e.isAnchor
              && f.notes == e.notes.GetOr("")
  {
    match exercise
    case None => Form("", [], false, "")
    case Some(e) => Form(OrText(e.name, ""), e.muscleTags, e.isAnchor, OrText(e.notes.GetOr(""), ""))
  }

  /** `handleToggleTag`: a selected tag is removed (every copy of it) and
      the others keep their order; an unselected one is appended. */
  function ToggleTag(tags: seq<string>, tag: string): (r: seq<string>)
    ensures tag in r <==> tag !in tags
    ensures forall t :: t != tag ==> (t in r <==> t in tags)
    ensures Distinct(tags) ==> Distinct(r)
    ensures tag !in tags ==> r == tags + [tag]
    ensures tag in tags ==> Subseq(r, tags)
    ensures tag in tags ==> forall t :: t != tag ==> multiset(r)[t] == multiset(tags)[t]
  {
    if tag in tags then
      FilterMembers(tags, Other(tag));
      FilterCount(tags, Other(tag));
      FilterDistinct(tags, Other(tag));
      FilterSubseq(tags, Other(tag));
      Filter(tags, Other(tag))
    else
      tags + [tag]
  }

  /** Selecting an unselected tag and deselecting it again restores the
      selection. */
  lemma {:induction false} ToggleTwiceUnselected(tags: seq<string>, tag: string)
    requires tag !in tags
    ensures ToggleTag(ToggleTag(tags, tag), tag) == tags
  {
    FilterAppend(tags, [tag], Other(tag));
    FilterAll(tags, Other(tag));
    FilterSingle(tag, Other(tag));
  }

  /** Deselecting a selected tag and selecting it again moves it to the end. */
  lemma {:induction false} ToggleTwiceSelected(tags: seq<string>, tag: string)
    requires tag in tags
    ensures ToggleTag(ToggleTag(tags, tag), tag) == Filter(tags, Other(tag)) + [tag]
  {
  }

  /** Why the Save button is disabled: a blank name, or creating without a
      workout day (`undefined` and the empty string are both falsy). */
  function SaveDisabled(form: Form, exercise: Option<Exercise>, workoutDayId: Option<string>): bool {
    Trim(form.name) == [] || (exercise.None? && (workoutDayId.None? || workoutDayId.value == []))
  }

  /** `handleSave`: nothing when the button would be disabled. Editing keeps
      the exercise's id, day, scheme and sort order and replaces the rest;
      creating uses the given id and day with the default scheme and a sort
      order of 999. Name and notes are trimmed; blank notes are left out. */
  function Save(form: Form, exercise: Option<Exercise>, workoutDayId: Option<string>, id: string): (r: Option<Exercise>)
    ensures r.None? <==> SaveDisabled(form, exercise, workoutDayId)
    ensures r.Some? ==> var x := r.value;
              x.name == Trim(form.name) && x.name != [] && x.muscleTags == form.muscleTags
              && x.isAnchor == form.isAnchor && x.notes == NonEmpty(Trim(form.notes))
    ensures r.Some? && exercise.Some? ==> var (x, e) := (r.value, exercise.value);
              x.id == e.id && x.workoutDayId == e.workoutDayId && x.defaultScheme == e.defaultScheme
              && x.sortOrder == e.sortOrder
    ensures r.Some? && exercise.None? ==> var x := r.value;
              x.id == id && Some(x.workoutDayId) == workoutDayId && x.workoutDayId != []
              && x.defaultScheme == CreatedScheme && x.sortOrder == CreatedSortOrder
  {
    var name := Trim(form.name);
    if name == [] then None
    else if exercise.None? && (workoutDayId.None? || workoutDayId.value == []) then None
    else
      var notes := NonEmpty(Trim(form.notes));
      match exercise
      case Some(e) => Some(e.(name := name, muscleTags := form.muscleTags, isAnchor := form.isAnchor, notes := notes))
      case None => Some(Exercise(id, workoutDayId.value, name, form.muscleTags, form.isAnchor, CreatedScheme, notes, CreatedSortOrder))
  }

  /** Non-empty, and no whitespace at either end. */
  predicate Clean(s: string) {
    s != [] && !IsSpace(s[0]) && !IsSpace(s[|s| - 1])
  }

  /** A name and notes already free of surrounding whitespace, with no
      blank notes. */
  predicate Tidy(e: Exercise) {
    Clean(e.name) && (e.notes.Some? ==> Clean(e.notes.value))
  }

  /** Every saved exercise is tidy. */
  lemma {:induction false} SavedIsTidy(form: Form, exercise: Option<Exercise>, workoutDayId: Option<string>, id: string)
    requires Save(form, exercise, workoutDayId, id).Some?
    ensures Tidy(Save(form, exercise, workoutDayId, id).value)
  {
    var x := Save(form, exercise, workoutDayId, id).value;
    TrimmedClean(form.name);
    TrimmedClean(form.notes);
    assert x.name == Trim(form.name);
    assert x.notes == NonEmpty(Trim(form.notes));
  }

  /** What `trim` leaves is clean unless it is empty. */
  lemma TrimmedClean(s: string)
    ensures Trim(s) != [] ==> Clean(Trim(s))
  {
  }

  /** Opening the form on a tidy exercise and saving it untouched gives the
      same exercise back. */
  lemma {:induction false} SaveUnchanged(e: Exercise, workoutDayId: Option<string>, id: string)
    requires Tidy(e)
    ensures Save(InitialForm(Some(e)), Some(e), workoutDayId, id) == Some(e)
  {
    TrimClean(e.name);
    if e.notes.Some? {
      TrimClean(e.notes.value);
    } else {
      assert Trim("") == "";
    }
  }

  /** Saving is stable: reopening a saved exercise and saving again changes
      nothing. */
  lemma {:induction false} SaveTwice(form: Form, exercise: Option<Exercise>, workoutDayId: Option<string>, id: string, id2: string)
    requires Save(form, exercise, workoutDayId, id).Some?
    ensures var x := Save(form, exercise, workoutDayId, id).value;
            Save(InitialForm(Some(x)), Some(x), workoutDayId, id2) == Some(x)
  {
    SavedIsTidy(form, exercise, workoutDayId, id);
    SaveUnchanged(Save(form, exercise, workoutDayId, id).value, workoutDayId, id2);
  }

  /** A created exercise's first log sheet opens at 3 sets of "8-12". */
  lemma CreatedFirstLog(form: Form, workoutDayId: Option<string>, id: string)
    requires Save(form, None, workoutDayId, id).Some?
    ensures LogEntrySheet.InitialForm(None, Save(form, None, workoutDayId, id).value.defaultScheme)
            == LogEntrySheet.Values(3, "8-12", 0.0, Kg)
  {
    LogEntrySheet.InitialFromDefaultScheme(Save(form, None, workoutDayId, id).value.defaultScheme);
  }
}
