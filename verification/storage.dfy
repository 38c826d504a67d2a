/** The data layer of `src/lib/storage.ts`: copy-on-write mutations over
    `AppData` that also save what they return, and the history queries.
    Browser storage is an explicit `Store` value holding at most one
    `AppData` under the fixed key; serialisation is taken to be lossless. */
module Storage {
  import opened Optional
  import opened Types
  import opened Seqs

  /** The single key the blob lives under. */
  const StorageKey: string := "anchor-progress-tracker"

  /** What browser storage holds under `StorageKey`. */
  datatype Store = Empty | Holds(blob: AppData)

  /** A mutation's result: the new value and the store after saving it. */
  datatype Saved = Saved(data: AppData, store: Store)

  /** `defaultData`: what the program works with when nothing is stored. */
  const DefaultData: AppData := AppData([], [], [], false)

  /** `loadAppData`: the stored value, or the default when nothing is stored. */
  function Load(store: Store): (d: AppData)
    ensures store.Empty? ==> d.workoutDays == [] && d.exercises == [] && d.entries == [] && !d.hasLoadedPreset
    ensures store.Holds? ==> d == store.blob
  {
    match store
    case Empty => DefaultData
    case Holds(blob) => blob
  }

  /** `saveAppData`: after saving, loading gives the saved value back. */
  function Save(d: AppData): (store: Store)
    ensures Load(store) == d
  {
    Holds(d)
  }

  /** `loadPresetPlan`: the preset days and exercises (defined outside this
      model, so given here), no entries, the preset flag set; saved. */
  function LoadPresetPlan(presetDays: seq<WorkoutDay>, presetExercises: seq<Exercise>): (r: Saved)
    ensures r.data.hasLoadedPreset && r.data.entries == []
    ensures r.data.workoutDays == presetDays && r.data.exercises == presetExercises
    ensures Load(r.store) == r.data
  {
    var data := AppData(presetDays, presetExercises, [], true);
    Saved(data, Save(data))
  }

  /** `addEntry`: the entry is appended; nothing else changes. */
  function AddEntry(data: AppData, entry: Entry): (r: Saved)
    ensures |r.data.entries| == |data.entries| + 1
    ensures r.data.entries[..|data.entries|] == data.entries
    ensures r.data.entries[|data.entries|] == entry
    ensures r.data.workoutDays == data.workoutDays && r.data.exercises == data.exercises
    ensures r.data.hasLoadedPreset == data.hasLoadedPreset
    ensures Load(r.store) == r.data
  {
    var newData := data.(entries := data.entries + [entry]);
    Saved(newData, Save(newData))
  }

  /** `(e) => e.id === exercise.id ? exercise : e`, over the whole list. */
  function ReplaceById(s: seq<Exercise>, x: Exercise): (r: seq<Exercise>)
    ensures |r| == |s|
    ensures forall i :: 0 <= i < |s| ==> r[i] == if s[i].id == x.id then x else s[i]
  {
    if |s| == 0 then []
    else [if s[0].id == x.id then x else s[0]] + ReplaceById(s[1..], x)
  }

  /** `updateExercise`: every exercise with the given id is replaced, in
      place; a missing id changes nothing; the other fields are kept. */
  function UpdateExercise(data: AppData, exercise: Exercise): (r: Saved)
    ensures |r.data.exercises| == |data.exercises|
    ensures forall i :: 0 <= i < |data.exercises| && data.exercises[i].id != exercise.id ==>
              r.data.exercises[i] == data.exercises[i]
    ensures forall i :: 0 <= i < |data.exercises| && data.exercises[i].id == exercise.id ==>
              r.data.exercises[i] == exercise
    ensures (forall e :: e in data.exercises ==> e.id != exercise.id) ==> r.data == data
    ensures r.data.workoutDays == data.workoutDays && r.data.entries == data.entries
    ensures r.data.hasLoadedPreset == data.hasLoadedPreset
    ensures Load(r.store) == r.data
  {
    var newData := data.(exercises := ReplaceById(data.exercises, exercise));
    assert (forall e :: e in data.exercises ==> e.id != exercise.id) ==> newData.exercises == data.exercises;
    Saved(newData, Save(newData))
  }

  /** With no entry carrying the id, the filter keeps every entry. */
  lemma NothingToDelete(entries: seq<Entry>, entryId: string)
    ensures (forall e :: e in entries ==> e.id != entryId) ==> Filter(entries, NotWithId(entryId)) == entries
  {
    if forall e :: e in entries ==> e.id != entryId {
      FilterAll(entries, NotWithId(entryId));
    }
  }

  /** Updating twice with the same exercise is updating once. */
  lemma UpdateExerciseIdempotent(data: AppData, exercise: Exercise)
    ensures UpdateExercise(UpdateExercise(data, exercise).data, exercise).data
            == UpdateExercise(data, exercise).data
  {
    var once := UpdateExercise(data, exercise).data;
    var twice := UpdateExercise(once, exercise).data;
    assert twice.exercises == once.exercises;
  }

  /** `(e) => e.id !== entryId`. */
  function NotWithId(entryId: string): Entry -> bool {
    (e: Entry) => e.id != entryId
  }

  /** `deleteEntry`: every entry with the id is gone, the others stay in
      their order; a missing id changes nothing; the other fields are kept. */
  function DeleteEntry(data: AppData, entryId: string): (r: Saved)
    ensures forall e :: e in r.data.entries <==> e in data.entries && e.id != entryId
    ensures forall e: Entry :: e.id != entryId ==> multiset(r.data.entries)[e] == multiset(data.entries)[e]
    ensures Subseq(r.data.entries, data.entries)
    ensures (forall e :: e in data.entries ==> e.id != entryId) ==> r.data == data
    ensures r.data.workoutDays == data.workoutDays && r.data.exercises == data.exercises
    ensures r.data.hasLoadedPreset == data.hasLoadedPreset
    ensures Load(r.store) == r.data
  {
    var kept := Filter(data.entries, NotWithId(entryId));
    FilterMembers(data.entries, NotWithId(entryId));
    FilterCount(data.entries, NotWithId(entryId));
    FilterSubseq(data.entries, NotWithId(entryId));
    NothingToDelete(data.entries, entryId);
    var newData := data.(entries := kept);
    Saved(newData, Save(newData))
  }

  /** Deleting twice is deleting once. */
  lemma DeleteEntryIdempotent(data: AppData, entryId: string)
    ensures DeleteEntry(DeleteEntry(data, entryId).data, entryId).data
            == DeleteEntry(data, entryId).data
  {
  }

  /** Adding an entry with a fresh id and deleting it again restores the entries. */
  lemma {:induction false} AddThenDelete(data: AppData, entry: Entry)
    requires forall e :: e in data.entries ==> e.id != entry.id
    ensures DeleteEntry(AddEntry(data, entry).data, entry.id).data == data
  {
    var p := NotWithId(entry.id);
    FilterAppend(data.entries, [entry], p);
    FilterAll(data.entries, p);
    FilterNone([entry], p);
  }

  /** `(e) => e.exerciseId === exerciseId`. */
  function ForExercise(exerciseId: string): Entry -> bool {
    (e: Entry) => e.exerciseId == exerciseId
  }

  /** Entries dated exactly `t`. */
  function DatedAt(t: int): Entry -> bool {
    (e: Entry) => e.date == t
  }

  /** The sort key of the comparator `b.date - a.date`: ascending recency is
      descending date. */
  function Recency(e: Entry): int {
    -e.date
  }

  /** `getExerciseHistory`: the entries of one exercise, newest first;
      entries with the same date keep the order they have in `entries`. */
  function ExerciseHistory(entries: seq<Entry>, exerciseId: string): (r: seq<Entry>)
    ensures forall e: Entry :: multiset(r)[e] == if e.exerciseId == exerciseId then multiset(entries)[e] else 0
    ensures forall e :: e in r <==> e in entries && e.exerciseId == exerciseId
    ensures forall i, j :: 0 <= i < j < |r| ==> r[i].date >= r[j].date
    ensures forall t :: Filter(r, DatedAt(t)) == Filter(entries, Both(ForExercise(exerciseId), DatedAt(t)))
  {
    var r := SortBy(Filter(entries, ForExercise(exerciseId)), Recency);
    HistoryCount(entries, exerciseId);
    HistoryMembers(entries, exerciseId);
    HistoryOrder(entries, exerciseId);
    forall t ensures Filter(r, DatedAt(t)) == Filter(entries, Both(ForExercise(exerciseId), DatedAt(t))) {
      HistoryTies(entries, exerciseId, t);
    }
    r
  }

  lemma {:induction false} HistoryCount(entries: seq<Entry>, exerciseId: string)
    ensures var r := SortBy(Filter(entries, ForExercise(exerciseId)), Recency);
            forall e: Entry :: multiset(r)[e] == if e.exerciseId == exerciseId then multiset(entries)[e] else 0
  {
    FilterCount(entries, ForExercise(exerciseId));
  }

  lemma {:induction false} HistoryMembers(entries: seq<Entry>, exerciseId: string)
    ensures var r := SortBy(Filter(entries, ForExercise(exerciseId)), Recency);
            forall e :: e in r <==> e in entries && e.exerciseId == exerciseId
  {
    var mine := Filter(entries, ForExercise(exerciseId));
    var r := SortBy(mine, Recency);
    FilterMembers(entries, ForExercise(exerciseId));
    forall e ensures e in r <==> e in mine {
      calc {
        e in r;
        e in multiset(r);
        e in multiset(mine);
        e in mine;
      }
    }
  }

  lemma {:induction false} HistoryOrder(entries: seq<Entry>, exerciseId: string)
    ensures var r := SortBy(Filter(entries, ForExercise(exerciseId)), Recency);
            forall i, j :: 0 <= i < j < |r| ==> r[i].date >= r[j].date
  {
    var r := SortBy(Filter(entries, ForExercise(exerciseId)), Recency);
    assert SortedBy(r, Recency);
    forall i, j | 0 <= i < j < |r| ensures r[i].date >= r[j].date {
      assert Recency(r[i]) <= Recency(r[j]);
    }
  }

  lemma {:induction false} HistoryTies(entries: seq<Entry>, exerciseId: string, t: int)
    ensures var r := SortBy(Filter(entries, ForExercise(exerciseId)), Recency);
            Filter(r, DatedAt(t)) == Filter(entries, Both(ForExercise(exerciseId), DatedAt(t)))
  {
    var mine := Filter(entries, ForExercise(exerciseId));
    var r := SortBy(mine, Recency);
    assert SameTies(r, mine, Recency);
    assert Filter(r, HasKey(Recency, -t)) == Filter(mine, HasKey(Recency, -t));
    DatedAtIsKey(r, t);
    DatedAtIsKey(mine, t);
    FilterFilter(entries, ForExercise(exerciseId), DatedAt(t));
  }

  /** Being dated `t` is having recency `-t`. */
  lemma {:induction false} DatedAtIsKey(s: seq<Entry>, t: int)
    ensures Filter(s, DatedAt(t)) == Filter(s, HasKey(Recency, -t))
  {
    forall i | 0 <= i < |s| ensures DatedAt(t)(s[i]) == HasKey(Recency, -t)(s[i]) {
      assert DatedAt(t)(s[i]) == (s[i].date == t);
      assert HasKey(Recency, -t)(s[i]) == (Recency(s[i]) == -t);
    }
    FilterExt(s, DatedAt(t), HasKey(Recency, -t));
  }

  /** `getLatestEntry`: the head of the history, or nothing. */
  function LatestEntry(entries: seq<Entry>, exerciseId: string): (r: Option<Entry>)
    ensures r.None? <==> forall e :: e in entries ==> e.exerciseId != exerciseId
    ensures r.Some? ==> r.value in entries && r.value.exerciseId == exerciseId
    ensures r.Some? ==> forall e :: e in entries && e.exerciseId == exerciseId ==> e.date <= r.value.date
    ensures r.Some? ==> exists i :: (0 <= i < |entries| && entries[i] == r.value &&
              forall j :: 0 <= j < i && entries[j].exerciseId == exerciseId ==> entries[j].date < r.value.date)
  {
    var history := ExerciseHistory(entries, exerciseId);
    if history == [] then
      None
    else
      LatestIsNewest(entries, exerciseId);
      LatestIsFirstNewest(entries, exerciseId);
      Some(history[0])
  }

  /** The head of the history is an entry of the exercise and no entry of
      the exercise is newer. */
  lemma {:induction false} LatestIsNewest(entries: seq<Entry>, exerciseId: string)
    requires ExerciseHistory(entries, exerciseId) != []
    ensures var e := ExerciseHistory(entries, exerciseId)[0];
            && e in entries && e.exerciseId == exerciseId
            && forall x :: x in entries && x.exerciseId == exerciseId ==> x.date <= e.date
  {
    HeadIsNewest(entries, exerciseId, ExerciseHistory(entries, exerciseId));
  }

  lemma {:induction false} HeadIsNewest(entries: seq<Entry>, exerciseId: string, h: seq<Entry>)
    requires h != []
    requires forall e :: e in h <==> e in entries && e.exerciseId == exerciseId
    requires forall i, j :: 0 <= i < j < |h| ==> h[i].date >= h[j].date
    ensures h[0] in entries && h[0].exerciseId == exerciseId
    ensures forall x :: x in entries && x.exerciseId == exerciseId ==> x.date <= h[0].date
  {
    assert h[0] in h;
    forall x | x in entries && x.exerciseId == exerciseId ensures x.date <= h[0].date {
      assert x in h;
      var k :| 0 <= k < |h| && h[k] == x;
      assert k == 0 || h[0].date >= h[k].date;
    }
  }

  /** Among the newest entries of the exercise, the head of the history is
      the first one in input order. */
  lemma {:induction false} LatestIsFirstNewest(entries: seq<Entry>, exerciseId: string)
    requires ExerciseHistory(entries, exerciseId) != []
    ensures var e := ExerciseHistory(entries, exerciseId)[0];
            exists i :: (0 <= i < |entries| && entries[i] == e &&
              forall j :: 0 <= j < i && entries[j].exerciseId == exerciseId ==> entries[j].date < e.date)
  {
    var h := ExerciseHistory(entries, exerciseId);
    LatestIsNewest(entries, exerciseId);
    FirstNewest(entries, exerciseId, h);
  }

  lemma {:induction false} FirstNewest(entries: seq<Entry>, exerciseId: string, h: seq<Entry>)
    requires h != []
    requires forall x :: x in entries && x.exerciseId == exerciseId ==> x.date <= h[0].date
    requires Filter(h, DatedAt(h[0].date)) == Filter(entries, Both(ForExercise(exerciseId), DatedAt(h[0].date)))
    ensures exists i :: (0 <= i < |entries| && entries[i] == h[0] &&
              forall j :: 0 <= j < i && entries[j].exerciseId == exerciseId ==> entries[j].date < h[0].date)
  {
    var e := h[0];
    var p := Both(ForExercise(exerciseId), DatedAt(e.date));
    var i := FirstOfGroup(h, entries, DatedAt(e.date), p);
    forall j | 0 <= j < i && entries[j].exerciseId == exerciseId
      ensures entries[j].date < e.date
    {
      assert !p(entries[j]);
    }
  }

  /** The history of a history is itself. */
  lemma HistoryIdempotent(entries: seq<Entry>, exerciseId: string)
    ensures ExerciseHistory(ExerciseHistory(entries, exerciseId), exerciseId)
            == ExerciseHistory(entries, exerciseId)
  {
    var h := ExerciseHistory(entries, exerciseId);
    FilterAll(h, ForExercise(exerciseId));
    assert SortedBy(h, Recency);
    SortSorted(h, Recency);
  }
}
