/** `src/components/EditEntryModal.tsx`: the form that edits a stored
    entry's date, values and comment. The date input shows the entry's local
    calendar day; the time zone offset is a parameter. */
module EditEntryModal {
  import opened Optional
  import opened Types
  import opened JsText
  import opened Dates
  import LogEntrySheet

  datatype Form = Form(day: int, values: LogEntrySheet.Values, comment: string)

  /** The state initialisers: the entry's local day, its values, and its
      comment or the empty string. */
  function InitialForm(entry: Entry, offset: int): (f: Form)
    ensures f.day == LocalDay(entry.date, offset)
    ensures f.values == LogEntrySheet.EntryValues(entry)
    ensures entry.comment.Some? ==> f.comment == entry.comment.value
    ensures entry.comment.None? ==> f.comment == []
  {
    Form(LocalDay(entry.date, offset), LogEntrySheet.EntryValues(entry), OrText(entry.comment.GetOr(""), ""))
  }

  /** The unit button. */
  function ToggleUnit(f: Form): (r: Form)
    ensures r.values.unit != f.values.unit
    ensures r.(values := r.values.(unit := f.values.unit)) == f
  {
    f.(values := f.values.(unit := f.values.unit.Toggle()))
  }

  /** The entry a form describes at the given instant: id and exercise kept,
      values replaced, comment trimmed and left out when blank. */
  function Edited(entry: Entry, f: Form, date: int): (e: Entry)
    ensures e.id == entry.id && e.exerciseId == entry.exerciseId && e.date == date
    ensures LogEntrySheet.EntryValues(e) == f.values
    ensures e.comment == NonEmpty(Trim(f.comment))
  {
    Entry(entry.id, entry.exerciseId, date, f.values.sets, f.values.repsText, f.values.weight, f.values.unit, NonEmpty(Trim(f.comment)))
  }

  /** `handleSave` as written: the date is `new Date(date)`, midnight UTC of
      the form's day. */
  function SaveAsWritten(entry: Entry, f: Form): (e: Entry)
    ensures e.id == entry.id && e.exerciseId == entry.exerciseId
    ensures LogEntrySheet.EntryValues(e) == f.values && e.comment == NonEmpty(Trim(f.comment))
    ensures e.date % DayMs == 0 && LocalDay(e.date, 0) == f.day
  {
    Edited(entry, f, DayStartUtc(f.day))
  }

  /** As written, saving an entry without touching the form moves it to the
      previous day wherever local time is behind UTC; each further save moves
      it another day back. */
  lemma {:induction false} SaveUnchangedDriftsWest(entry: Entry, offset: int)
    requires -DayMs < offset < 0
    ensures LocalDay(SaveAsWritten(entry, InitialForm(entry, offset)).date, offset) == LocalDay(entry.date, offset) - 1
  {
    UtcRoundTripWest(LocalDay(entry.date, offset), offset);
  }

  /** `handleSave` with the form's day read as local midnight. */
  function Save(entry: Entry, f: Form, offset: int): (e: Entry)
    ensures e.id == entry.id && e.exerciseId == entry.exerciseId
    ensures LogEntrySheet.EntryValues(e) == f.values && e.comment == NonEmpty(Trim(f.comment))
    ensures LocalDay(e.date, offset) == f.day && e.date == DayStartLocal(f.day, offset)
  {
    Edited(entry, f, DayStartLocal(f.day, offset))
  }

  /** Saving an entry without touching the form keeps its id, exercise,
      local day and values; a comment is kept up to surrounding whitespace. */
  lemma SaveUnchanged(entry: Entry, offset: int)
    ensures var e := Save(entry, InitialForm(entry, offset), offset);
            e.id == entry.id && e.exerciseId == entry.exerciseId
            && LocalDay(e.date, offset) == LocalDay(entry.date, offset)
            && LogEntrySheet.EntryValues(e) == LogEntrySheet.EntryValues(entry)
            && (entry.comment.None? ==> e.comment.None?)
            && (entry.comment.Some? ==> e.comment == NonEmpty(Trim(entry.comment.value)))
  {
    assert Trim("") == "";
  }

  /** Saving twice without changes is the same as saving once. */
  lemma {:induction false} SaveIdempotent(entry: Entry, offset: int)
    ensures var e := Save(entry, InitialForm(entry, offset), offset);
            Save(e, InitialForm(e, offset), offset) == e
  {
    var f := InitialForm(entry, offset);
    var e := Save(entry, f, offset);
    var f2 := InitialForm(e, offset);
    assert f2.day == f.day && f2.values == f.values;
    CommentStable(f.comment);
    assert f2.comment == NonEmpty(Trim(f.comment)).GetOr("");
    var e2 := Save(e, f2, offset);
    assert e2.date == DayStartLocal(f.day, offset) == e.date;
  }

  /** A saved comment, put back in the form and saved again, is kept. */
  lemma CommentStable(c: string)
    ensures NonEmpty(Trim(NonEmpty(Trim(c)).GetOr(""))) == NonEmpty(Trim(c))
  {
    assert Trim("") == "";
    if Trim(c) != [] {
      TrimIdempotent(c);
    }
  }
}
