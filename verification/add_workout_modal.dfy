/** `src/components/AddWorkoutModal.tsx`: the form that names a new workout
    day. */
module AddWorkoutModal {
  import opened Optional
  import opened JsText

  /** The Add Workout button is disabled while the name is blank. */
  function SaveDisabled(name: string): bool {
    Trim(name) == []
  }

  /** `handleSave`: nothing for a blank name, otherwise the trimmed name is
      handed to `onSave`. */
  function Save(name: string): (r: Option<string>)
    ensures r.None? <==> SaveDisabled(name)
    ensures r.None? <==> forall k :: 0 <= k < |name| ==> IsSpace(name[k])
    ensures r.Some? ==> r.value == Trim(name) && !IsSpace(r.value[0]) && !IsSpace(r.value[|r.value| - 1])
  {
    var trimmed := Trim(name);
    if trimmed == [] then None else Some(trimmed)
  }

  /** The name input's key handler: Enter saves, any other key does
      nothing. */
  function KeyDown(key: string, name: string): (r: Option<string>)
    ensures key == "Enter" ==> r == Save(name)
    ensures key != "Enter" ==> r.None?
  {
    if key == "Enter" then Save(name) else None
  }

  /** A saved name is saved unchanged when entered again. */
  lemma SaveIdempotent(name: string)
    requires Save(name).Some?
    ensures Save(Save(name).value) == Save(name)
  {
    TrimIdempotent(name);
  }
}
