# Anchor progress tracker — a Dafny model

This project models the core of a small workout logbook written in
TypeScript and React. The user keeps workout days. Each day holds
exercises, and some exercises are marked as *anchors*. For each exercise
the user logs entries: sets, a free-text reps range such as "8-12", a
weight and a unit. Everything lives in one `AppData` record that the
storage layer keeps in the browser's local storage under a single key.

The model covers:

- the records (`Types`);
- the storage layer (`Storage`): load, save, preset plan, add, update and
  delete, and the per-exercise history and latest entry;
- the page that owns the data and picks the screen (`IndexPage`);
- the forms and lists whose logic is more than markup: `LogEntrySheet`,
  `ExerciseDetailScreen`, `EditExerciseModal`, `EditEntryModal`,
  `AddWorkoutModal`, `ExerciseList`, `WorkoutDayList` and `WorkoutDayCard`.

Shared modules model the JavaScript behaviour the program relies on:

- `Seqs`: `Array.prototype.filter`, and the stable `Array.prototype.sort`
  as an insertion sort.
- `JsText`: `trim`, `parseInt`, `split('-')[0]` and the `||` fallbacks.
- `Scheme`: the two regular expressions applied to an exercise's default
  scheme, as leftmost, greedy scanners.
- `Dates`: how the date inputs turn an instant into a local calendar day
  and back.

Other modelling choices:

- Browser storage is an explicit value (`Storage.Store`), and serialising
  is taken to be lossless.
- Ids, the clock, the time zone offset and the preset plan are parameters.
- Storage functions that the page calls but the storage layer does not
  define are function-typed parameters (`IndexPage.ExternalOps`).

## Model

| member | source | states |
|---|---|---|
| Types.ParseUnit | src/lib/types.ts:25 | a stored unit is exactly one of the two labels, and each label reads back as its unit |
| Storage.Load | src/lib/storage.ts:13-23 | an empty store loads as empty data with the preset flag clear; otherwise the stored record comes back |
| Storage.Save | src/lib/storage.ts:25-31 | loading after saving gives the saved record back |
| Storage.LoadPresetPlan | src/lib/storage.ts:33-42 | the preset days and exercises, no entries, the flag set, and the store holds exactly that |
| Storage.AddEntry | src/lib/storage.ts:44-51 | the entry is appended after the unchanged old entries; days, exercises and flag are kept; the result is saved |
| Storage.UpdateExercise | src/lib/storage.ts:53-60 | every exercise with the id is replaced in place and the others keep their positions; a missing id changes nothing; the result is saved |
| Storage.UpdateExerciseIdempotent | src/lib/storage.ts:53-60 | updating twice with the same exercise equals updating once |
| Storage.DeleteEntry | src/lib/storage.ts:62-69 | the kept entries are exactly those with another id, each as often as before and in the old order; a missing id changes nothing; the result is saved |
| Storage.DeleteEntryIdempotent | src/lib/storage.ts:62-69 | deleting the same id twice equals deleting it once |
| Storage.AddThenDelete | src/lib/storage.ts:44-69 | adding an entry with a fresh id and deleting it restores the data |
| Storage.ExerciseHistory | src/lib/storage.ts:79-83 | exactly the exercise's entries, each as often as stored, newest first; entries with the same date keep their stored order |
| Storage.HistoryIdempotent | src/lib/storage.ts:79-83 | the history of a history is itself |
| Storage.LatestEntry | src/lib/storage.ts:71-77 | absent iff the exercise has no entry; otherwise a stored entry of the exercise that no entry of it is newer than, and the first such one in stored order |
| Seqs.SortBy | src/lib/storage.ts:74 | the stable sort: a permutation, ordered by the key, and every group of equal keys keeps its input order |
| JsText.Trim | src/components/AddWorkoutModal.tsx:13 | the slice between leading and trailing whitespace; empty exactly when the text is all whitespace |
| JsText.TrimIdempotent | src/components/EditExerciseModal.tsx:43 | trimming twice is trimming once |
| JsText.ParseInt | src/components/LogEntrySheet.tsx:76 | `NaN` unless a digit occurs; on text that starts with a digit, the value of the leading run, with a `0x` prefix read as hexadecimal; after `+` that value, after `-` its negation; `NaN` when the first character is no whitespace, sign or digit |
| JsText.ParseIntSkipsSpace | src/components/LogEntrySheet.tsx:76 | leading whitespace does not change what `parseInt` reads |
| JsText.ParseIntDecimal | src/components/LogEntrySheet.tsx:76 | a number's decimal spelling followed by a non-digit, non-`x` text reads back as the number |
| JsText.BeforeDash | src/components/LogEntrySheet.tsx:76 | the longest prefix without `-`, ending at the first `-` or the end |
| Scheme.FindSeed | src/components/LogEntrySheet.tsx:26 | the leftmost position where the seed expression matches, or none when it matches nowhere |
| Scheme.FindHint | src/components/LogEntrySheet.tsx:69 | the leftmost position where the hint expression matches, or none when it matches nowhere |
| Scheme.SeedHintAgree | src/components/LogEntrySheet.tsx:26-73 | the two expressions match at the same place with the same group 1, and the seed's reps group is the hint's groups 2 and 3 joined by `-` |
| Scheme.HintRoundTrip | src/components/LogEntrySheet.tsx:69-73 | a rendered scheme "SxLO-HI" or "SxLO" reads back as its three numbers, with group 3 absent exactly when there is no upper bound |
| Scheme.SeedRoundTrip | src/components/LogEntrySheet.tsx:26-29 | the seed expression reads a rendered scheme back as its sets number and its whole rep range |
| LogEntrySheet.Seed | src/components/LogEntrySheet.tsx:16-19 | without an entry, 3 sets of "10" at 0 kg; with one, its sets unless 0 (then 3), its reps text unless empty (then "10"), its weight and its unit |
| LogEntrySheet.SeedKeepsEntry | src/components/LogEntrySheet.tsx:16-19 | with non-zero sets and non-empty reps the form starts on exactly the latest entry's values |
| LogEntrySheet.InitialForm | src/components/LogEntrySheet.tsx:24-32 | with a latest entry, or when the seed expression does not match, the seeded values; otherwise group 1 as the sets and group 2 as the reps |
| LogEntrySheet.InitialFromScheme | src/components/LogEntrySheet.tsx:24-32 | a rendered scheme seeds the form with its own sets and rep range |
| LogEntrySheet.InitialFromDefaultScheme | src/components/LogEntrySheet.tsx:24-32 | the scheme "3x8-12" seeds 3 sets of "8-12" |
| LogEntrySheet.SaveEntry | src/components/LogEntrySheet.tsx:50-62 | the entry holds the form's values for the exercise at the given id and time; an empty comment is absent |
| LogEntrySheet.SaveAsLast | src/components/LogEntrySheet.tsx:34-48 | nothing without a latest entry; otherwise its values again under a new id and time |
| LogEntrySheet.SaveAsLastUnchanged | src/components/LogEntrySheet.tsx:34-62 | "Save as Last Time" saves what "Save with Changes" saves on an untouched form, given non-zero sets and non-empty reps |
| LogEntrySheet.LoggedIsLatest | src/components/LogEntrySheet.tsx:14 | an entry newer than all its exercise's entries becomes that exercise's latest entry once stored |
| LogEntrySheet.RepRange | src/components/LogEntrySheet.tsx:72-73 | the range is group 2 to group 3, or group 2 alone when group 3 is absent |
| LogEntrySheet.Classify | src/components/LogEntrySheet.tsx:78-83 | "add weight" iff the reps reach the top; "add reps" iff they are below both ends |
| LogEntrySheet.ClassifyInside | src/components/LogEntrySheet.tsx:78-83 | for a proper range there is no hint exactly when the reps are at least the bottom and below the top |
| LogEntrySheet.ClassifyBackwards | src/components/LogEntrySheet.tsx:78-83 | a range written backwards always gives a hint |
| LogEntrySheet.ClassifyMonotone | src/components/LogEntrySheet.tsx:78-83 | more reps never move the hint away from "add weight", and fewer never away from "add reps" |
| LogEntrySheet.ProgressHint | src/components/LogEntrySheet.tsx:65-84 | no hint unless the exercise is an anchor with a latest entry, a matching scheme and numeric reps; when all four hold, exactly the comparison of those reps with the scheme's range |
| LogEntrySheet.HintForRange | src/components/LogEntrySheet.tsx:65-84 | for an anchor with scheme "SxLO-HI" and reps text "R" or "R-…", the hint is the comparison of R with LO and HI |
| ExerciseDetailScreen.LatestHeadsHistory | src/components/ExerciseDetailScreen.tsx:35-36 | the header's latest entry is the first history row, and absent iff the history is empty |
| ExerciseDetailScreen.AddEntry | src/components/ExerciseDetailScreen.tsx:38-47 | opens a draft on today's local day holding the latest entry's values with the same fallbacks as `LogEntrySheet.Seed` (the default scheme is not read); nothing else changes |
| ExerciseDetailScreen.AddDisabledWhileDrafting | src/components/ExerciseDetailScreen.tsx:155 | Add is disabled after adding and enabled after saving or cancelling |
| ExerciseDetailScreen.SaveNewEntryAsWritten | src/components/ExerciseDetailScreen.tsx:49-63 | as written: no draft, no change; otherwise the draft's values become an entry of the exercise without a comment, dated at midnight UTC of the draft's day, and the draft closes |
| ExerciseDetailScreen.SaveNewEntry | src/components/ExerciseDetailScreen.tsx:49-63 | corrected definition (see Findings): as the source, but dated at local midnight, so the entry lies on the draft's local day |
| ExerciseDetailScreen.CancelNewEntry | src/components/ExerciseDetailScreen.tsx:65-67 | the draft closes and the edit modal flag is kept |
| ExerciseDetailScreen.AddThenCancel | src/components/ExerciseDetailScreen.tsx:65-67 | adding a draft and cancelling it restores the screen |
| ExerciseDetailScreen.AddThenSave | src/components/ExerciseDetailScreen.tsx:38-63 | corrected definition (see Findings): adding and saving untouched stores the seeded values on today's local date and restores the screen |
| ExerciseDetailScreen.PlaceholderIffNoEntries | src/components/ExerciseDetailScreen.tsx:225 | the "no history" placeholder shows iff the exercise has no stored entry and no draft is open |
| ExerciseDetailScreen.SavedDraftInHistory | src/components/ExerciseDetailScreen.tsx:49-63 | a saved draft is in the exercise's history once stored |
| ExerciseDetailScreen.OpenEditModal | src/components/ExerciseDetailScreen.tsx:82 | the pencil opens the edit modal and keeps the draft |
| ExerciseDetailScreen.CloseEditModal | src/components/ExerciseDetailScreen.tsx:263 | closing the modal keeps the draft |
| ExerciseDetailScreen.EditSaved | src/components/ExerciseDetailScreen.tsx:259-262 | the edited exercise is passed on and the modal closes, the draft untouched |
| EditExerciseModal.InitialForm | src/components/EditExerciseModal.tsx:24-28 | the exercise's own fields when editing, empty ones when creating |
| EditExerciseModal.ToggleTag | src/components/EditExerciseModal.tsx:30-34 | the tag's membership flips and other tags keep theirs; an unselected tag is appended at the end; removing keeps the other tags in order and every copy of them; a selection without repeats stays without repeats |
| EditExerciseModal.ToggleTwiceUnselected | src/components/EditExerciseModal.tsx:30-34 | selecting and deselecting an unselected tag restores the selection |
| EditExerciseModal.ToggleTwiceSelected | src/components/EditExerciseModal.tsx:30-34 | deselecting and reselecting a selected tag moves it to the end |
| EditExerciseModal.Save | src/components/EditExerciseModal.tsx:36-60 | nothing iff the button is disabled (line 169); editing keeps id, day, scheme and sort order; creating uses the given id and day, "3x8-12" and 999; name and notes trimmed, blank notes absent |
| EditExerciseModal.SavedIsTidy | src/components/EditExerciseModal.tsx:36-60 | a saved exercise has a non-blank trimmed name and trimmed non-blank notes, if any |
| EditExerciseModal.SaveUnchanged | src/components/EditExerciseModal.tsx:24-60 | opening a tidy exercise and saving it untouched gives it back |
| EditExerciseModal.SaveTwice | src/components/EditExerciseModal.tsx:24-60 | reopening a saved exercise and saving again changes nothing |
| EditExerciseModal.CreatedFirstLog | src/components/EditExerciseModal.tsx:54 | a created exercise's first log sheet opens at 3 sets of "8-12" |
| EditEntryModal.InitialForm | src/components/EditEntryModal.tsx:13-18 | the entry's local day and values, and its comment or the empty string |
| EditEntryModal.ToggleUnit | src/components/EditEntryModal.tsx:111 | the unit changes and nothing else does |
| EditEntryModal.SaveAsWritten | src/components/EditEntryModal.tsx:20-31 | as written: id and exercise kept, values replaced, comment trimmed and absent when blank, dated at midnight UTC of the form's day |
| EditEntryModal.Save | src/components/EditEntryModal.tsx:20-31 | corrected definition (see Findings): as the source, but dated at local midnight, so the entry lies on the form's local day |
| EditEntryModal.SaveUnchanged | src/components/EditEntryModal.tsx:13-31 | corrected definition (see Findings): saving an untouched form keeps the id, exercise, local day and values |
| EditEntryModal.SaveIdempotent | src/components/EditEntryModal.tsx:13-31 | corrected definition (see Findings): saving untouched twice equals saving once |
| AddWorkoutModal.Save | src/components/AddWorkoutModal.tsx:12-15 | nothing iff the name is all whitespace, which is when the button is disabled (line 70); otherwise the trimmed name |
| AddWorkoutModal.KeyDown | src/components/AddWorkoutModal.tsx:51-55 | Enter saves; any other key does nothing |
| AddWorkoutModal.SaveIdempotent | src/components/AddWorkoutModal.tsx:12-15 | a saved name saves unchanged when entered again |
| ExerciseList.ListSections | src/components/ExerciseList.tsx:14-16 | anchors and accessories, each in sort order, together holding every exercise as often as given |
| ExerciseList.SectionsPartition | src/components/ExerciseList.tsx:15-16 | the two sections' lengths add up to the number of exercises |
| ExerciseList.SectionTies | src/components/ExerciseList.tsx:14-15 | anchors with the same sort order keep their given order |
| ExerciseList.AccessoryTies | src/components/ExerciseList.tsx:14-16 | accessories with the same sort order keep their given order |
| ExerciseList.SectionsShown | src/components/ExerciseList.tsx:40-62 | a section shows iff some exercise belongs to it |
| WorkoutDayList.DayExercises | src/components/WorkoutDayList.tsx:35 | exactly the exercises of the day, each as often as stored, in their stored order |
| WorkoutDayList.Cards | src/components/WorkoutDayList.tsx:14-39 | one card per day, days permuted into sort order with days of equal sort order in stored order, each card with its day's exercises |
| WorkoutDayList.ExerciseListedIffDayExists | src/components/WorkoutDayList.tsx:31-39 | an exercise is on some card iff a stored day has its day id |
| WorkoutDayCard.CardCounts | src/components/WorkoutDayCard.tsx:12-13 | the anchor count is the number of positions holding an anchor; the total is the number of exercises, equal to the anchor count iff every exercise is an anchor |
| WorkoutDayCard.AnchorLabelIffAnchor | src/components/WorkoutDayCard.tsx:27 | the anchor label shows iff some exercise is an anchor |
| IndexPage.Startup | src/pages/Index.tsx:20-29 | the page holds data with the preset flag set, the same as the store holds; stored data is kept unless it never loaded the preset or has no days, in which case the preset replaces it |
| IndexPage.StartupStable | src/pages/Index.tsx:20-29 | with a non-empty preset, the next start keeps what this start loaded |
| IndexPage.StartupWithoutDays | src/pages/Index.tsx:24-26 | while no day is stored, every start drops all entries |
| IndexPage.SelectDay | src/pages/Index.tsx:31-34 | the exercise list of that day shows; nothing else changes |
| IndexPage.BackToWorkouts | src/pages/Index.tsx:36-39 | the workout list shows with no day selected; nothing else changes |
| IndexPage.SelectExercise | src/pages/Index.tsx:41-44 | the detail of that exercise shows; nothing else changes |
| IndexPage.BackToExercises | src/pages/Index.tsx:46-49 | the exercise list shows with no exercise selected; nothing else changes |
| IndexPage.NavigationRoundTrips | src/pages/Index.tsx:31-49 | selecting a day or exercise and going back restores the page |
| IndexPage.HandleSaveEntry | src/pages/Index.tsx:51-55 | before loading, no change; afterwards the entry is appended, the rest of the page is kept, and the store matches |
| IndexPage.HandleUpdateEntry | src/pages/Index.tsx:57-61 | before loading, no change; afterwards the page holds what the external `updateEntry` returns and saved; nothing else changes |
| IndexPage.HandleUpdateExercise | src/pages/Index.tsx:63-68 | the exercise replaces those with its id and becomes the selected exercise; days, entries and the preset flag are kept; the store matches |
| IndexPage.HandleDeleteEntry | src/pages/Index.tsx:70-74 | the entries with the id are gone; the others stay, as often as stored and in stored order; days, exercises and the preset flag are kept; the store matches |
| IndexPage.HandleAddWorkout | src/pages/Index.tsx:76-81 | before loading, no change; afterwards the page holds what the external `addWorkoutDay` returns and saved, and the add-workout modal closes; nothing else changes |
| IndexPage.SetAddWorkoutModal | src/pages/Index.tsx:158-163 | the add-workout card opens the modal and its close closes it; nothing else changes |
| IndexPage.CloseExerciseModal | src/pages/Index.tsx:144 | the exercise form closes and forgets its exercise and day; nothing else changes |
| IndexPage.HandleAddExercise | src/pages/Index.tsx:83-86 | without a selected day, no change; otherwise the form opens for creating in that day |
| IndexPage.HandleSaveExercise | src/pages/Index.tsx:88-103 | a non-empty id that is stored updates, anything else adds; the form closes |
| IndexPage.SaveExerciseUpdates | src/pages/Index.tsx:92-95 | an update keeps the exercise count and puts the saved exercise in place of every one with its id |
| IndexPage.PersistedPreserved | src/pages/Index.tsx:31-103 | navigation and the defined handlers keep the page's data equal to the stored data; the external ones do so when they save what they return |
| IndexPage.CurrentScreen | src/pages/Index.tsx:105-167 | loading iff no data; the detail screen, showing the selected exercise, iff that view has one; the day's list, showing the selected day and the open exercise form if any, iff that view has a selected day; otherwise the workout list of the stored days and exercises, with the add-workout modal as flagged |
| IndexPage.ScreenContents | src/pages/Index.tsx:127-137 | the day's list is the day filter of the stored exercises (so exactly the selected day's, in stored order), and every screen shows the stored entries |
| IndexPage.FallsBackToWorkouts | src/pages/Index.tsx:113-151 | a view with nothing selected shows the workout list |
| Dates.LocalRoundTrip | src/components/EditEntryModal.tsx:13-23 | a day read as local midnight is shown as the same day in every time zone |
| Dates.UtcRoundTripWest | src/components/EditEntryModal.tsx:13-23 | a day read as midnight UTC is shown as the previous day west of UTC |
| Dates.UtcRoundTripEast | src/components/EditEntryModal.tsx:13-23 | a day read as midnight UTC is shown as the same day at or east of UTC (less than a day ahead) |

## Findings

| source | as written | input that shows it | evidently intended | confidence | as-written member | corrected member |
|---|---|---|---|---|---|---|
| src/components/EditEntryModal.tsx:13-23 | the date field shows the entry's local day (`format`), and saving reads it back with `new Date('yyyy-MM-dd')`, which is midnight UTC | time zone UTC-5 (offset -18,000,000 ms), any entry, Save without changes | saving an untouched form keeps the entry's day | not executed; follows from the date-only form being read as UTC in ECMAScript | EditEntryModal.SaveUnchangedDriftsWest | EditEntryModal.SaveUnchanged |
| src/components/ExerciseDetailScreen.tsx:38-63 | the draft's date is today's local day, and saving reads it back as midnight UTC | time zone UTC-5, add an entry and save it | the entry is listed under today | not executed; same cause as above | ExerciseDetailScreen.AddedTodayShowsYesterday | ExerciseDetailScreen.AddThenSave |

In both rows, the as-written member reads the day as midnight UTC
(`Dates.DayStartUtc`). The corrected member reads it as local midnight
(`Dates.DayStartLocal`). Each time an entry is saved unchanged west of
UTC, it moves back one more day.

## Left out

- Serialisation: the JSON round trip is taken to be lossless. Parse failures, write failures and their `console.error` logging are not modelled.
- `generateId`: new ids are parameters, because they come from the clock and `Math.random`.
- The clock: `new Date()` is a parameter. Dates are integer milliseconds rather than ISO strings. The time zone is one fixed offset, so daylight saving changes are not modelled. Dates that do not parse (`NaN` in the sort comparator) are not modelled.
- ExerciseDetailScreen.SaveNewEntry: uses the corrected date (local midnight), not the source's midnight UTC; the source's behaviour is `ExerciseDetailScreen.SaveNewEntryAsWritten` (see Findings).
- ExerciseDetailScreen.AddThenSave: uses the corrected date (local midnight), not the source's midnight UTC; the source's behaviour is `ExerciseDetailScreen.SaveNewEntryAsWritten` (see Findings).
- EditEntryModal.Save: uses the corrected date (local midnight), not the source's midnight UTC; the source's behaviour is `EditEntryModal.SaveAsWritten` (see Findings).
- EditEntryModal.SaveUnchanged: uses the corrected date (local midnight), not the source's midnight UTC; the source's behaviour is `EditEntryModal.SaveAsWritten` (see Findings).
- EditEntryModal.SaveIdempotent: uses the corrected date (local midnight), not the source's midnight UTC; the source's behaviour is `EditEntryModal.SaveAsWritten` (see Findings).
- Cleared date inputs: a form day is an integer, so an empty date field cannot be represented. In the source, `new Date('')` is an invalid date and `.toISOString()` then throws a `RangeError` (`src/components/EditEntryModal.tsx:23`, `src/components/ExerciseDetailScreen.tsx:55`); that throw is not modelled.
- `sortOrder` is a JavaScript number; it is modelled as an integer. Fractional, `NaN` and very large sort orders, and the comparator's floating-point subtraction, are not modelled.
- The preset plan's contents are parameters; the preset data file is not part of this model.
- `addWorkoutDay`, `addExercise` and `updateEntry` are imported by the page but not defined by the storage layer. They are the `IndexPage.ExternalOps` parameters, and nothing is assumed about them.
- Props the page passes that the components never call: the detail screen declares no `onUpdateEntry` and never calls the `onDeleteEntry` it declares, and the exercise list declares no `onAddExercise`. No button in the shown components calls `IndexPage.HandleAddExercise`, `HandleUpdateEntry` or `HandleDeleteEntry`. The handlers are modelled anyway.
- The detail screen's `editingEntryId` state is never read. The log sheet and the entry editor are not rendered by any of the shown files; they are modelled on their own.
- Per-keystroke field updates (`parseInt(value) \|\| 0`, `parseFloat(value) \|\| 0`, plain text setters) are not modelled. The forms' values are taken as given.
- `JsText.Trim`: whitespace is ASCII space, tab, line feed, carriage return, vertical tab and form feed. JavaScript's `trim` also strips the Unicode spaces and line terminators, which are not modelled.
- `JsText.ParseInt`: integers are exact. `parseInt`'s loss of precision above 2^53 is not modelled.
- `LogEntrySheet.Seed`: a weight of `NaN` is not modelled. Weights are reals, and `|| 0` is applied to zero only.
- Presentation: class names, icons, animations, the welcome screen, the exercise card, and the icon generation scripts and build plugin.
