/** The records of `src/lib/types.ts`. Optional fields (`notes?`, `comment?`)
    are `Option`s; every other field is required. Entry dates are integer
    timestamps (milliseconds); weights are reals, because the program only
    copies them. Foreign keys (`workoutDayId`, `exerciseId`) are plain
    strings: nothing here ties them to existing records. */
module Types {
  import opened Optional

  /** `'kg' | 'lbs'`. */
  datatype Unit = Kg | Lbs {

    /** The string the program stores for the unit. */
    function Label(): string {
      match this
      case Kg => "kg"
      case Lbs => "lbs"
    }

    /** The unit button: `u === 'kg' ? 'lbs' : 'kg'`. */
    function Toggle(): (u: Unit)
      ensures u != this
    {
      if this == Kg then Lbs else Kg
    }
  }

  /** Reads a stored unit string; only the two labels are units. */
  function ParseUnit(s: string): (r: Option<Unit>)
    ensures r.Some? <==> s == "kg" || s == "lbs"
    ensures r.Some? ==> r.value.Label() == s
  {
    if s == "kg" then Some(Kg)
    else if s == "lbs" then Some(Lbs)
    else None
  }

  /** The union type and the enumeration are the same thing: every unit is
      read back from its label, and toggling twice is the identity. */
  lemma UnitRoundTrip(u: Unit)
    ensures ParseUnit(u.Label()) == Some(u)
    ensures u.Label() == "kg" || u.Label() == "lbs"
    ensures u.Toggle().Toggle() == u
  {
  }

  datatype WorkoutDay = WorkoutDay(id: string, name: string, sortOrder: int)

  datatype Exercise = Exercise(
    id: string,
    workoutDayId: string,
    name: string,
    muscleTags: seq<string>,
    isAnchor: bool,
    defaultScheme: string,
    notes: Option<string>,
    sortOrder: int)

  /** `repsText` is free text such as "8-12"; `sets` is a number. */
  datatype Entry = Entry(
    id: string,
    exerciseId: string,
    date: int,
    sets: int,
    repsText: string,
    weight: real,
    unit: Unit,
    comment: Option<string>)

  /** The single persisted aggregate: exactly these four fields. */
  datatype AppData = AppData(
    workoutDays: seq<WorkoutDay>,
    exercises: seq<Exercise>,
    entries: seq<Entry>,
    hasLoadedPreset: bool)
}
