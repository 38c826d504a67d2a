/** `src/components/WorkoutDayList.tsx`: the workout days sorted by
    `sortOrder`, one card per day holding the exercises of that day. */
module WorkoutDayList {
  import opened Types
  import opened Seqs

  /** The comparator's key: `(a, b) => a.sortOrder - b.sortOrder`. */
  function DayOrder(d: WorkoutDay): int {
    d.sortOrder
  }

  /** `e => e.workoutDayId === dayId`. */
  function InDay(dayId: string): Exercise -> bool {
    (e: Exercise) => e.workoutDayId == dayId
  }

  /** The exercises of one day, in their stored order. */
  function DayExercises(exercises: seq<Exercise>, dayId: string): (r: seq<Exercise>)
    ensures forall i :: 0 <= i < |r| ==> r[i].workoutDayId == dayId
    ensures forall e :: e in r <==> e in exercises && e.workoutDayId == dayId
    ensures forall e :: multiset(r)[e] == if e.workoutDayId == dayId then multiset(exercises)[e] else 0
    ensures Subseq(r, exercises)
  {
    FilterMembers(exercises, InDay(dayId));
    FilterCount(exercises, InDay(dayId));
    FilterSubseq(exercises, InDay(dayId));
    Filter(exercises, InDay(dayId))
  }

  datatype Card = Card(day: WorkoutDay, exercises: seq<Exercise>)

  /** The days of the cards, in card order. */
  function CardDays(r: seq<Card>): (ds: seq<WorkoutDay>)
    ensures |ds| == |r| && forall i :: 0 <= i < |r| ==> ds[i] == r[i].day
  {
    seq(|r|, i requires 0 <= i < |r| => r[i].day)
  }

  /** `sortedDays.map(day => <WorkoutDayCard exercises={...}>)`: one card per
      day, the days in sort order with days of equal `sortOrder` in their
      stored order, each card with its day's exercises. */
  function Cards(days: seq<WorkoutDay>, exercises: seq<Exercise>): (r: seq<Card>)
    ensures |r| == |days|
    ensures multiset(CardDays(r)) == multiset(days)
    ensures forall i, j :: 0 <= i < j < |r| ==> r[i].day.sortOrder <= r[j].day.sortOrder
    ensures forall k :: Filter(CardDays(r), HasKey(DayOrder, k)) == Filter(days, HasKey(DayOrder, k))
    ensures forall i :: 0 <= i < |r| ==> r[i].exercises == DayExercises(exercises, r[i].day.id)
  {
    var sorted := SortBy(days, DayOrder);
    var r := seq(|sorted|, i requires 0 <= i < |sorted| => Card(sorted[i], DayExercises(exercises, sorted[i].id)));
    assert CardDays(r) == sorted;
    r
  }

  /** An exercise is on some card exactly when a workout day has its day id;
      exercises of a missing day are not listed anywhere. */
  lemma {:induction false} ExerciseListedIffDayExists(days: seq<WorkoutDay>, exercises: seq<Exercise>, e: Exercise)
    requires e in exercises
    ensures (exists i :: 0 <= i < |Cards(days, exercises)| && e in Cards(days, exercises)[i].exercises)
            <==> exists d :: d in days && d.id == e.workoutDayId
  {
    var r := Cards(days, exercises);
    if exists d :: d in days && d.id == e.workoutDayId {
      var d :| d in days && d.id == e.workoutDayId;
      var i := CardOf(days, exercises, d);
      assert e in r[i].exercises;
    }
    if exists i :: 0 <= i < |r| && e in r[i].exercises {
      var i :| 0 <= i < |r| && e in r[i].exercises;
      CardDayStored(days, exercises, i);
    }
  }

  /** Every stored day has a card. */
  lemma {:induction false} CardOf(days: seq<WorkoutDay>, exercises: seq<Exercise>, d: WorkoutDay) returns (i: int)
    requires d in days
    ensures 0 <= i < |Cards(days, exercises)| && Cards(days, exercises)[i].day == d
  {
    var ds := CardDays(Cards(days, exercises));
    assert d in multiset(days);
    assert d in multiset(ds);
    i :| 0 <= i < |ds| && ds[i] == d;
  }

  /** Every card's day is a stored day. */
  lemma {:induction false} CardDayStored(days: seq<WorkoutDay>, exercises: seq<Exercise>, i: int)
    requires 0 <= i < |Cards(days, exercises)|
    ensures Cards(days, exercises)[i].day in days
  {
    var ds := CardDays(Cards(days, exercises));
    assert ds[i] in multiset(ds);
  }
}
