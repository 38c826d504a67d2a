/** `src/components/LogEntrySheet.tsx`: the sheet that logs a new entry for
    one exercise. Its form starts from the exercise's latest entry (or from
    the exercise's default scheme when there is none), it saves either the
    edited values or the latest entry's values again, and for anchor
    exercises it hints whether to add weight or reps. The entry id and the
    current time are parameters. */
module LogEntrySheet {
  import opened Optional
  import opened Types
  import opened JsText
  import opened Scheme
  import Storage

  /** The four editable values of the form. */
  datatype Values = Values(sets: int, repsText: string, weight: real, unit: Unit)

  /** The values an entry records. */
  function EntryValues(e: Entry): Values {
    Values(e.sets, e.repsText, e.weight, e.unit)
  }

  const DefaultSets: int := 3
  const DefaultReps: string := "10"

  /** The state initialisers: each of the latest entry's values, or its
      fallback when the value is falsy (`0`, `''`) or there is no entry. */
  function Seed(latest: Option<Entry>): (v: Values)
    ensures v.sets != 0 && v.repsText != []
    ensures latest.None? ==> v == Values(DefaultSets, DefaultReps, 0.0, Kg)
    ensures latest.Some? ==> v.sets == (if latest.value.sets == 0 then DefaultSets else latest.value.sets)
    ensures latest.Some? ==> v.repsText == (if latest.value.repsText == [] then DefaultReps else latest.value.repsText)
    ensures latest.Some? ==> v.weight == latest.value.weight && v.unit == latest.value.unit
  {
    match latest
    case None => Values(DefaultSets, DefaultReps, 0.0, Kg)
    case Some(e) => Values(OrNumber(e.sets, DefaultSets), OrText(e.repsText, DefaultReps), OrReal(e.weight, 0.0), e.unit)
  }

  /** The form opens on exactly the latest entry's values whenever none of
      them is falsy. */
  lemma SeedKeepsEntry(e: Entry)
    requires e.sets != 0 && e.repsText != []
    ensures Seed(Some(e)) == EntryValues(e)
  {
  }

  /** The form once the seeding effect has run: with no latest entry and a
      non-empty default scheme that the seed expression matches, the sets
      are the number in group 1 and the reps text is group 2. */
  function InitialForm(latest: Option<Entry>, scheme: string): (v: Values)
    ensures latest.Some? || MatchSeed(scheme).None? ==> v == Seed(latest)
    ensures latest.None? && MatchSeed(scheme).Some? ==>
              v == Values(DecimalValue(MatchSeed(scheme).value.sets), MatchSeed(scheme).value.reps, 0.0, Kg)
  {
    var v := Seed(latest);
    if latest.None? && scheme != [] then
      match MatchSeed(scheme)
      case None => v
      case Some(c) =>
        ParseIntDigits(c.sets);
        v.(sets := ParseInt(c.sets).value, repsText := c.reps)
    else v
  }

  /** A rendered default scheme seeds the form with its own sets number and
      its own repetition range. */
  lemma {:induction false} InitialFromScheme(sets: nat, minReps: nat, maxReps: Option<nat>)
    ensures InitialForm(None, Render(sets, minReps, maxReps))
            == Values(sets, DecimalString(minReps) + (if maxReps.Some? then "-" + DecimalString(maxReps.value) else ""), 0.0, Kg)
  {
    SeedRoundTrip(sets, minReps, maxReps);
    RenderedReps(sets, minReps, maxReps);
  }

  /** The exercise created with the default scheme "3x8-12" opens its first
      log at 3 sets of "8-12". */
  lemma InitialFromDefaultScheme(scheme: string)
    requires scheme == "3x8-12"
    ensures InitialForm(None, scheme) == Values(3, "8-12", 0.0, Kg)
  {
    var sets, lo, hi := 3, 8, 12;
    DefaultSchemeRendered(scheme);
    assert Render(sets, lo, Some(hi)) == scheme;
    InitialFromScheme(sets, lo, Some(hi));
  }

  /** "3x8-12" is the rendering of 3 sets of 8 to 12 repetitions. */
  lemma DefaultSchemeRendered(scheme: string)
    requires scheme == "3x8-12"
    ensures DecimalString(8) + "-" + DecimalString(12) == "8-12"
    ensures Render(3, 8, Some(12)) == scheme
  {
    assert DecimalString(3) == "3";
    assert DecimalString(8) == "8";
    assert DecimalString(1) == "1";
    assert DecimalString(12) == DecimalString(1) + "2";
  }

  /** `handleSave`: a new entry of the exercise holding the form's values;
      an empty comment is left out. */
  function SaveEntry(exerciseId: string, v: Values, comment: string, id: string, now: int): (e: Entry)
    ensures EntryValues(e) == v
    ensures e.id == id && e.exerciseId == exerciseId && e.date == now
    ensures e.comment == NonEmpty(comment)
  {
    Entry(id, exerciseId, now, v.sets, v.repsText, v.weight, v.unit, NonEmpty(comment))
  }

  /** `handleSaveAsLast`: nothing without a latest entry; otherwise a new
      entry of the exercise repeating the latest entry's values. */
  function SaveAsLast(latest: Option<Entry>, exerciseId: string, comment: string, id: string, now: int): (r: Option<Entry>)
    ensures r.None? <==> latest.None?
    ensures r.Some? ==> EntryValues(r.value) == EntryValues(latest.value)
    ensures r.Some? ==> r.value.id == id && r.value.exerciseId == exerciseId && r.value.date == now
    ensures r.Some? ==> r.value.comment == NonEmpty(comment)
  {
    match latest
    case None => None
    case Some(l) => Some(Entry(id, exerciseId, now, l.sets, l.repsText, l.weight, l.unit, NonEmpty(comment)))
  }

  /** "Save as Last Time" saves what "Save with Changes" saves on an
      untouched form, as long as the latest entry had sets and reps text. */
  lemma SaveAsLastUnchanged(l: Entry, exerciseId: string, comment: string, id: string, now: int)
    requires l.sets != 0 && l.repsText != []
    ensures SaveAsLast(Some(l), exerciseId, comment, id, now)
            == Some(SaveEntry(exerciseId, InitialForm(Some(l), ""), comment, id, now))
  {
  }

  /** An entry logged later than every earlier entry of its exercise becomes
      that exercise's latest entry, so the next sheet starts from it. */
  lemma {:induction false} LoggedIsLatest(data: AppData, e: Entry)
    requires forall x :: x in data.entries && x.exerciseId == e.exerciseId ==> x.date < e.date
    ensures Storage.LatestEntry(Storage.AddEntry(data, e).data.entries, e.exerciseId) == Some(e)
  {
    var entries := Storage.AddEntry(data, e).data.entries;
    assert entries == data.entries + [e];
    assert e in entries;
    var r := Storage.LatestEntry(entries, e.exerciseId);
    assert r.value.date >= e.date;
  }

  /** The two progress hints. */
  datatype Hint = Up | Maintain {
    function Text(): string {
      match this
      case Up => "Consider adding weight"
      case Maintain => "Focus on adding reps"
    }
  }

  /** The rep range of the hint expression's captures: group 2, and group 3
      when present or group 2 again. */
  function RepRange(c: HintCaptures): (b: (int, int))
    requires IsNumber(c.minReps)
    requires c.maxReps.Some? ==> IsNumber(c.maxReps.value)
    ensures b.0 == DecimalValue(c.minReps) && b.0 >= 0
    ensures c.maxReps.None? ==> b.1 == b.0
    ensures c.maxReps.Some? ==> b.1 == DecimalValue(c.maxReps.value)
  {
    ParseIntDigits(c.minReps);
    var minReps := ParseInt(c.minReps).value;
    if c.maxReps.Some? then
      ParseIntDigits(c.maxReps.value);
      (minReps, ParseInt(c.maxReps.value).value)
    else (minReps, minReps)
  }

  /** The comparison of the latest reps with the range: at or above the top
      add weight, below the bottom add reps, otherwise no hint. */
  function Classify(reps: int, minReps: int, maxReps: int): (h: Option<Hint>)
    ensures h == Some(Up) <==> reps >= maxReps
    ensures h == Some(Maintain) <==> reps < maxReps && reps < minReps
  {
    if reps >= maxReps then Some(Up)
    else if reps < minReps then Some(Maintain)
    else None
  }

  /** With a well-formed range there is no hint exactly inside it. */
  lemma ClassifyInside(reps: int, minReps: int, maxReps: int)
    requires minReps <= maxReps
    ensures Classify(reps, minReps, maxReps).None? <==> minReps <= reps < maxReps
  {
  }

  /** A range written backwards ("3x12-8") always produces a hint. */
  lemma ClassifyBackwards(reps: int, minReps: int, maxReps: int)
    requires maxReps < minReps
    ensures Classify(reps, minReps, maxReps).Some?
  {
  }

  /** More reps never move the hint from "add weight" back, nor fewer reps
      from "add reps". */
  lemma ClassifyMonotone(r1: int, r2: int, minReps: int, maxReps: int)
    requires r1 <= r2
    ensures Classify(r1, minReps, maxReps) == Some(Up) ==> Classify(r2, minReps, maxReps) == Some(Up)
    ensures Classify(r2, minReps, maxReps) == Some(Maintain) ==> Classify(r1, minReps, maxReps) == Some(Maintain)
  {
  }

  /** `getProgressHint`: only for an anchor exercise with a latest entry and
      a default scheme the hint expression matches; the latest reps are
      `parseInt` of the reps text before its first `-`, and when that is
      `NaN` both comparisons fail. */
  function ProgressHint(exercise: Exercise, latest: Option<Entry>): (h: Option<Hint>)
    ensures h.Some? ==> exercise.isAnchor && latest.Some? && MatchHint(exercise.defaultScheme).Some?
    ensures h.Some? ==> ParseInt(BeforeDash(latest.value.repsText)).Some?
    ensures h.Some? ==> var (lo, hi) := RepRange(MatchHint(exercise.defaultScheme).value);
              h == Classify(ParseInt(BeforeDash(latest.value.repsText)).value, lo, hi)
    ensures exercise.isAnchor && latest.Some? && MatchHint(exercise.defaultScheme).Some?
            && ParseInt(BeforeDash(latest.value.repsText)).Some? ==>
              var (lo, hi) := RepRange(MatchHint(exercise.defaultScheme).value);
              h == Classify(ParseInt(BeforeDash(latest.value.repsText)).value, lo, hi)
  {
    if !exercise.isAnchor || latest.None? then None
    else
      match MatchHint(exercise.defaultScheme)
      case None => None
      case Some(c) =>
        var (lo, hi) := RepRange(c);
        match ParseInt(BeforeDash(latest.value.repsText))
        case None => None
        case Some(reps) => Classify(reps, lo, hi)
  }

  /** The number in front of a `-`, or the whole text without one. */
  lemma {:induction false} BeforeDashNumber(d: string, tail: string)
    requires AllDigits(d)
    requires tail == [] || tail[0] == '-'
    ensures BeforeDash(d + tail) == d
  {
    if d != [] {
      assert (d + tail)[0] == d[0];
      assert (d + tail)[1..] == d[1..] + tail;
      BeforeDashNumber(d[1..], tail);
    }
  }

  /** End to end: for an anchor exercise whose scheme is "S x LO - HI" and a
      latest entry whose reps text starts with the number R (optionally
      followed by `-`), the hint is the comparison of R with LO and HI. */
  lemma {:induction false} HintForRange(exercise: Exercise, latest: Entry, sets: nat, lo: nat, hi: nat, reps: nat, tail: string)
    requires exercise.isAnchor
    requires exercise.defaultScheme == Render(sets, lo, Some(hi))
    requires latest.repsText == DecimalString(reps) + tail && (tail == [] || tail[0] == '-')
    ensures ProgressHint(exercise, Some(latest)) == Classify(reps, lo, hi)
  {
    HintRoundTrip(sets, lo, Some(hi));
    BeforeDashNumber(DecimalString(reps), tail);
    ParseIntDigits(DecimalString(reps));
  }
}
