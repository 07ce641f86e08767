# 75 Smart challenge tracker — a Dafny model

The 75 Smart tracker is a single-page app for a 75-day fitness challenge. Each
day the user logs one entry: body weight, calories eaten, a run (time,
distance, calories, pace, elevation, heart rate) and an extra workout
(strength or recovery). The entries are kept in browser storage, keyed by date.
This project models the logic under the app's screens:

- the "M:SS" run-time codec and its validity check (`TimeCodec`, on the string
  helpers in `Text`);
- the entry map and its upsert and delete; the elapsed-day counter; the
  one-shot minutes-to-seconds migration and the flag that gates it on load
  (`ChallengeStore`). The top-level component is a class (`MainApp.App`) over
  an abstract two-item store (`MainApp.LocalStore`). Its duplicate in
  `src/components/App.tsx` is a second class (`ComponentsApp.App`), proved
  against the same functions;
- the dashboard: the 75-point chart series, built by a loop, plus the summary
  statistics, the workout-type split and the seven newest entries
  (`Dashboard`, on the listings, folds and stable sort in `EntryOrder`);
- the history screen: search, the three sort orders, day numbering, and
  the edit mode as a class with its 20-minute save gate (`HistoryView`);
- the daily form as a class: field, time and date updates, the browser's
  constraint validation, and the submit gate (`DailyInput`). It shares the
  field-edit rule and the time-text invariants with the history screen
  (`EntryForms`).

Modelling choices:

- A date is an integer day number: days since 1970-01-01, at UTC
  midnight. So `new Date(a).getTime()` order is integer order, and
  `startDate + i` is the i-th calendar day.
- An empty `startDate` is `None`.
- The clock is a parameter: `nowMs`, in milliseconds since the epoch.
- Weights and distances are exact `real`s. Counts, calories and seconds are
  `int`s.
- Whatever the browser or the user decides is an argument:
  - the answer to `confirm`;
  - the text of the search term and of the time box;
  - the picked date;
  - the date and number renderings searched.
- Each React handler is one atomic state change.

## Model

| member | source | states |
|---|---|---|
| Text.NatToStringValue | src/lib/utils.ts:15 | The decimal text of a number reads back as that number. |
| Text.NatToString | src/lib/utils.ts:15 | `toString` of a non-negative integer: at least one decimal digit, no leading zero. |
| Text.PadStart | src/lib/utils.ts:15 | `padStart` gives the width (or the text's own length if longer): fill characters, then the original text. |
| Text.SplitCount | src/lib/utils.ts:21-22 | `split` on a character gives one part more than the number of separators. |
| Text.ParseIntOfDigits | src/lib/utils.ts:24-25 | `parseInt` of a digit string succeeds with that string's decimal value. |
| Text.ParseIntOrZeroOfDigits | src/lib/utils.ts:24-25 | `parseInt(part, 10) \|\| 0` of a digit string is that string's decimal value. |
| Text.ParseIntOrZeroWithoutDigits | src/lib/utils.ts:24-25 | A part starting with a character that is not white space, a sign or a digit is NaN, so it counts as 0 (`parseInt(...) \|\| 0`). |
| TimeCodec.SecondsToTimeString | src/lib/utils.ts:9-16 | The encoder. It has no contract of its own; its output is characterised by `TimeCodec.EncodeFields`, `TimeCodec.NegativeEncodesAsZero`, `TimeCodec.RoundTrip` and `TimeCodec.EncodeIsValid`. |
| TimeCodec.TimeStringToSeconds | src/lib/utils.ts:18-28 | Empty text, blank text and text without exactly one ':' all read as 0. |
| TimeCodec.EncodeFields | src/lib/utils.ts:12-15 | For positive s: minutes are the full decimal of s div 60 (not capped at 59). The seconds are two digits of s mod 60. |
| TimeCodec.NegativeEncodesAsZero | src/lib/utils.ts:10 | A negative input encodes as "0:00", which reads back as 0, not as the input. |
| TimeCodec.RoundTrip | src/lib/utils.ts:9-28 | Encoding any s ≥ 0 and decoding the text gives s back (seconds as exact integers; see Left out). |
| TimeCodec.EncodeIsValid | src/lib/utils.ts:9-40 | Every encoder output, for any integer, passes `validateTimeString` (seconds as exact integers; see Left out). |
| TimeCodec.ValidateTimeString | src/lib/utils.ts:30-40 | The validity check. It has no contract of its own; `TimeCodec.ValidateIffShape` gives the exact set of texts it accepts. |
| TimeCodec.PatternIffShape | src/lib/utils.ts:34-35 | The matcher for `^\d+:[0-5]\d$` accepts exactly: digits, ':', a tens digit 0–5, a digit. |
| TimeCodec.ValidateIffShape | src/lib/utils.ts:30-40 | `validateTimeString` holds if and only if the text has that shape, in both directions. |
| TimeCodec.ShapeSplit | src/lib/utils.ts:21 | A text of the "m:ss" shape splits on ':' into its minutes part and its seconds part. |
| TimeCodec.ShapeValue | src/lib/utils.ts:18-28 | A text of the "m:ss" shape (so every valid text) reads as m·60 + ss, with ss ≤ 59. |
| TimeCodec.DecodeColonParts | src/lib/utils.ts:18-28 | Two ':'-free parts joined by ':' read as the first part's `parseInt \|\| 0` times 60 plus the second's, for any parts: empty, or with leading white space (" 5:30" reads as 330, ":30" as 30). |
| TimeCodec.DecodeDigitParts | src/lib/utils.ts:18-28 | Digits ':' digits reads as minutes·60 + seconds, with no range check on either part. |
| TimeCodec.ValidExample | src/lib/utils.ts:30-40 | "20:00" is valid. |
| TimeCodec.SecondsOutOfRangeExample | src/lib/utils.ts:30-40 | "20:60" is invalid. |
| TimeCodec.MalformedExamples | src/lib/utils.ts:30-40 | "abc" and the empty text are invalid. |
| TimeCodec.DecodeThresholdExample | src/lib/utils.ts:18-28 | "20:00" reads as exactly 1200 seconds. |
| TimeCodec.DecodeInvalidExample | src/lib/utils.ts:18-40 | "20:75" is invalid, yet it reads as 1275 seconds. |
| TimeCodec.DecodeNonNumericExample | src/lib/utils.ts:24-27 | "ab:cd" reads as 0; decoding never fails. |
| ChallengeStore.Upsert | src/App.tsx:79-97 | The key set gains the entry's date, which maps to the entry. Other dates and the other fields are unchanged. |
| ChallengeStore.Remove | src/App.tsx:99-108 | Only the given date disappears. Other entries and fields are unchanged, and an absent date changes nothing. |
| ChallengeStore.UpsertSameDateTwice | src/App.tsx:79-97 | Two upserts at one date leave one entry: the second. |
| ChallengeStore.UpsertSize | src/App.tsx:79-97 | An upsert grows the map by one for a new date and keeps its size for a logged date. |
| ChallengeStore.RemoveUndoesNewUpsert | src/App.tsx:79-108 | Deleting a freshly added date restores the document. |
| ChallengeStore.MutationsKeepKeysMatchingDates | src/App.tsx:79-108 | Upsert and delete keep every key equal to its entry's date. |
| ChallengeStore.CeilDays | src/App.tsx:122 | `Math.ceil(ms / day)`: the least whole number of days covering the milliseconds. |
| ChallengeStore.CurrentDay | src/App.tsx:117-124 | 1 without a start date. Otherwise the rounded-up days between start and clock, in either direction, capped at 75. Always 0..75. |
| ChallengeStore.CurrentDayAtStart | src/App.tsx:117-124 | The start instant is day 0, and one millisecond later is day 1. |
| ChallengeStore.MigrateEntry | src/App.tsx:22-30 | One entry's rewrite. It has no contract of its own; `ChallengeStore.MigratedFields` states what it changes for every entry. |
| ChallengeStore.Migrated | src/App.tsx:15-35 | The migrated document. It has no contract of its own; `ChallengeStore.MigratedFields` and `ChallengeStore.MigrateTimeData` characterise it. |
| ChallengeStore.MigratedFields | src/App.tsx:15-35 | Keys, start date and target are kept. Run times in (0, 7200) are multiplied by 60, and every other field and time is unchanged. |
| ChallengeStore.MigratedKeepsKeysMatchingDates | src/App.tsx:15-35 | The migration keeps every key equal to its entry's date. |
| ChallengeStore.MigrationNotIdempotent | src/App.tsx:22-30 | A time of 45 becomes 2700, then 162000 on a second pass, so two passes differ from one. |
| ChallengeStore.MigrateTimeData | src/App.tsx:15-35 | The key-by-key loop produces exactly the migrated document. |
| ChallengeStore.LoadOutcome | src/App.tsx:46-66 | The mount effect's outcome. It has no contract of its own; `ChallengeStore.LoadGate` states it case by case. |
| ChallengeStore.LoadGate | src/App.tsx:46-66 | A parseable document with a missing or empty flag is migrated, written back and flagged "true". With the flag set it is adopted as is. Otherwise state and store are untouched. |
| ChallengeStore.ReloadDoesNotMigrateAgain | src/App.tsx:48-59 | Loading a store that a load has already written (a document it migrated or adopted) adopts the same data and writes nothing. It says nothing about a store the load left without a document. |
| ChallengeStore.SaveEffect | src/App.tsx:69-71 | The write-through effect: the state replaces the data item and the flag is kept. It has no contract of its own; `MainApp.App.SaveChallengeData` is proved against it. |
| ChallengeStore.EmptyLoadLeavesFlagPending | src/App.tsx:46-50 | With no data item the load writes nothing, so a missing or empty flag stays pending. |
| ChallengeStore.SecondSessionMigratesAgain | src/App.tsx:46-71 | On a fresh browser the first session leaves the flag missing while the save effect writes its state; the second load migrates that state, and a stored 1500 s becomes 90000 s. |
| ChallengeStore.FlaggedLoadOutcome | src/App.tsx:46-66 | The corrected gate: the same as the code's on a parseable document; otherwise it keeps state and data item and sets a pending flag. The flag is never pending afterwards. |
| ChallengeStore.FlaggedGateMigratesAtMostOnce | src/App.tsx:46-71 | Under the corrected gate, after any number of sessions (each a load then the save effect), the flag is set and the next load adopts exactly what the last session wrote and writes nothing. |
| ChallengeStore.FlaggedSecondSessionKeepsSeconds | src/App.tsx:46-71 | Under the corrected gate the fresh-browser scenario keeps the 1500 s run as 1500 s. |
| ChallengeStore.MalformedKeepsDefault | src/App.tsx:39-66 | A document that does not parse leaves the default state, with no entries. |
| MainApp.LocalStore.constructor | src/App.tsx:47-48 | The store holds the given data item and flag. |
| MainApp.App.constructor | src/App.tsx:39-43 | Starts with today as start date, no entries, target 2000. |
| MainApp.App.LoadOnMount | src/App.tsx:46-66 | The mount effect's reads and writes leave the state and the store the load gate prescribes. |
| MainApp.App.SaveChallengeData | src/App.tsx:69-71 | The store's data item becomes the current state, replacing whatever it held; the flag is unchanged. |
| MainApp.App.HandleSaveEntry | src/App.tsx:79-87 | The state becomes the upsert of the entry. |
| MainApp.App.HandleUpdateEntry | src/App.tsx:89-97 | The state becomes the upsert of the entry. |
| MainApp.App.HandleDeleteEntry | src/App.tsx:99-108 | The state becomes the removal of the date. |
| MainApp.App.GetCurrentDay | src/App.tsx:117-124 | Between 0 and 75, and 1 without a start date. |
| ComponentsApp.MigrateTimeData | src/components/App.tsx:15-35 | The duplicate loop produces the same migrated document as `src/App.tsx`. |
| ComponentsApp.App.constructor | src/components/App.tsx:39-43 | Same initial state as the top-level component. |
| ComponentsApp.App.LoadOnMount | src/components/App.tsx:46-66 | The duplicate mount effect ends in the same state and store as the load gate of `src/App.tsx`. |
| EntryOrder.Values | src/components/Dashboard.tsx:86 | `Object.values` lists each logged entry: as many items as keys, every key's entry listed, and nothing else. |
| EntryOrder.SortedDates | src/components/Dashboard.tsx:86 | The dates of a set in strictly ascending order: every date of the set, each exactly once, and nothing else. |
| EntryOrder.Dates | src/components/Dashboard.tsx:86 | One date per logged key (the keys, sorted ascending). |
| EntryOrder.ValuesFollowDates | src/components/Dashboard.tsx:86 | Position i of `Object.values` holds the entry of the i-th logged date: exactly one item per key, so two dates holding equal entries list that entry twice. |
| EntryOrder.SumIntRemove | src/components/Dashboard.tsx:88-91 | An integer total over the listing is one day's value plus the total over the other days, for any day. So the listing order does not matter. |
| EntryOrder.SumRealRemove | src/components/Dashboard.tsx:89 | The same for real-valued totals. |
| EntryOrder.CountKindRemove | src/components/Dashboard.tsx:116-125 | The same for the per-type counts. |
| EntryOrder.CountKind | src/components/Dashboard.tsx:116-125 | The count of one workout type: 0 exactly when no listed entry has it, the full length exactly when all have it, never more. |
| EntryOrder.KindCountsCover | src/components/Dashboard.tsx:117-118 | Strength days plus recovery days equal the number of listed days. |
| EntryOrder.SortDesc | src/components/Dashboard.tsx:127-131 | The sort with comparator `key(b) - key(a)` returns a permutation in descending key order. |
| EntryOrder.SortDescStable | src/components/HistoryView.tsx:37-48 | The sort is stable: for every key value, the entries with that key come out in their input order. |
| EntryOrder.SortedDescPairs | src/components/HistoryView.tsx:37-48 | In a sorted list every earlier key is at least every later key. |
| Dashboard.Lookup | src/components/Dashboard.tsx:33 | `entries[dateString]` is some entry exactly when the day is logged. |
| Dashboard.RunTimeTenths | src/components/Dashboard.tsx:39 | `Math.round(time/60*10)` is the nearest tenth of a minute, with halves rounded up. |
| Dashboard.RunTimeTenthsExamples | src/components/Dashboard.tsx:39 | 1800 s plot as 30.0 minutes and 1275 s as 21.3. |
| Dashboard.ChartData | src/components/Dashboard.tsx:23-46 | No series without a start date. Otherwise exactly 75 points; point i has day i+1 and shows the entry at start+i. Weight, calories, distance and total are absent on unlogged days. Workout calories are 0 there, otherwise run plus workout calories. Run time is absent when zero. |
| Dashboard.CompletedDays | src/components/Dashboard.tsx:87 | The number of logged days. |
| Dashboard.TotalRunTime | src/components/Dashboard.tsx:88 | The total run time. It has no contract of its own; `EntryOrder.SumIntRemove` and the save, update and delete lemmas below characterise it. |
| Dashboard.TotalDistance | src/components/Dashboard.tsx:89 | The total distance. It has no contract of its own; `EntryOrder.SumRealRemove` and the lemmas below characterise it. |
| Dashboard.TotalCaloriesBurned | src/components/Dashboard.tsx:90-91 | Run plus workout calories over all days. It has no contract of its own; `EntryOrder.SumIntRemove` and the lemmas below characterise it. |
| Dashboard.TotalCaloriesConsumed | src/components/Dashboard.tsx:102-103 | The intake total that the average divides. It has no contract of its own; `Dashboard.Mean` states the average's property over it. |
| Dashboard.CompletionPercentage | src/components/Dashboard.tsx:112 | percentage · 75 = days · 100; 0 only for no entries; at most 100 only up to 75 days (not clamped). |
| Dashboard.AverageCaloriesConsumed | src/components/Dashboard.tsx:102-103 | `averageCaloriesConsumed` is `Mean(TotalCaloriesConsumed, CompletedDays)`. It has no contract of its own; `Dashboard.Mean` states its property: 0 for no days, otherwise the average times the day count is the total intake. |
| Dashboard.Mean | src/components/Dashboard.tsx:102-103 | The average intake is 0 for no days, and otherwise times the day count gives the total intake. |
| Dashboard.LatestEntry | src/components/Dashboard.tsx:96-97 | The head of the newest-first sort is a logged entry, and no logged date is later. |
| Dashboard.TotalWeightLost | src/components/Dashboard.tsx:94-100 | 0 when the start day is not logged. Otherwise the start weight minus the weight of a latest-dated entry. |
| Dashboard.WeightLostToLastDay | src/components/Dashboard.tsx:94-100 | With keys matching dates, the loss is measured against the last logged day. |
| Dashboard.WeightLostExample | src/components/Dashboard.tsx:94-100 | 200 lb on the start day and 195 lb four days later is 5 lb lost. |
| Dashboard.WorkoutTypeData | src/components/Dashboard.tsx:116-125 | The strength count is the number of strength days and the recovery count the number of recovery days; together they are the number of logged days. |
| Dashboard.RecentEntries | src/components/Dashboard.tsx:127-131 | min(7, n) logged entries, newest first, and no entry left out is newer than one shown. |
| Dashboard.SaveNewDayAddsToTotals | src/components/Dashboard.tsx:86-103 | Saving a new day adds one day, and that day's time, distance, burned calories and intake, to the four totals. |
| Dashboard.UpdateDayReplacesInTotals | src/components/Dashboard.tsx:86-103 | Re-saving a day keeps the day count and swaps that day's old time, distance, burned calories and intake for the new ones in the four totals. |
| Dashboard.DeleteDaySubtractsFromTotals | src/components/Dashboard.tsx:86-103 | Deleting a day takes one day, and that day's time, distance, burned calories and intake, out of the four totals. |
| Dashboard.DeleteDayUncountsItsType | src/components/Dashboard.tsx:116-125 | Deleting a day lowers its own type's count by one and leaves the other count alone. |
| Dashboard.EmptyLogStats | src/components/Dashboard.tsx:85-131 | No entries: 0 days, 0 %, 0 average, 0 lost, 0 run time, no recent entries. |
| EntryForms.ApplyEdit | src/components/HistoryView.tsx:77-94 | A sectioned or top-level edit sets the named field to the value. The date and every other field are unchanged. |
| EntryForms.FieldsDetermineEntry | src/types/index.ts:1-23 | An entry is fixed by its date and its twelve fields. |
| EntryForms.LastEditWins | src/components/HistoryView.tsx:77-94 | A later edit of the same field overwrites an earlier one. |
| EntryForms.EditsOfDifferentFieldsCommute | src/components/DailyInput.tsx:55-70 | Edits of different fields commute. |
| EntryForms.LoadedTimeAgrees | src/components/HistoryView.tsx:51-55 | The text shown for a loaded entry never lets the 20-minute gate pass a time the entry does not hold. |
| EntryForms.TimeChangeAgrees | src/components/HistoryView.tsx:96-104 | After a time change the same holds. |
| EntryForms.OtherEditsKeepAgreement | src/components/HistoryView.tsx:77-104 | Edits of other fields keep that agreement. |
| EntryForms.LoadedTimeSynced | src/components/HistoryView.tsx:51-55 | For a non-negative run time, the loaded text, whenever valid, reads as that run time. |
| EntryForms.TimeChangeSynced | src/components/HistoryView.tsx:96-104 | After a time change, a valid text reads as the entry's run time. |
| EntryForms.OtherEditsKeepSync | src/components/HistoryView.tsx:77-104 | Edits of other fields keep text and run time in sync. |
| HistoryView.MatchesSearch | src/components/HistoryView.tsx:29-35 | The search predicate, with no contract of its own; `HistoryView.EmptyTermMatchesAll` and `HistoryView.WorkoutSearchIgnoresCase` describe it. |
| HistoryView.EmptyTermMatchesAll | src/components/HistoryView.tsx:29-35 | The empty search term matches every entry. |
| HistoryView.Filter | src/components/HistoryView.tsx:29-35 | Keeps exactly the matching entries (date text or weight text contains the term, or the type contains it case-folded): each matching entry as often as it occurs, each other entry never. The empty term keeps everything. |
| HistoryView.FilterAppend | src/components/HistoryView.tsx:29-35 | Filtering a concatenation filters each part, so the kept entries keep their order. |
| HistoryView.SortedEntries | src/components/HistoryView.tsx:27-49 | Exactly the matching logged entries, in descending order of the chosen key: each matching entry as often as it is listed, each other entry never. |
| HistoryView.EmptySearchListsAll | src/components/HistoryView.tsx:27-49 | With no term the list is a permutation of all logged entries. |
| HistoryView.WorkoutSearchIgnoresCase | src/components/HistoryView.tsx:30-33 | "STR" finds every strength day. |
| HistoryView.GetDayNumber | src/components/HistoryView.tsx:115-120 | The absolute day difference from the start (the start day is day 0). None without a start date. |
| HistoryView.HistoryEditor.constructor | src/components/HistoryView.tsx:20-25 | Not editing, with time text "0:00"; the gate invariant holds. |
| HistoryView.HistoryEditor.HandleEditEntry | src/components/HistoryView.tsx:51-55 | Edits a copy of the entry and shows its time as text. The gate invariant holds, and also the sync when the time is non-negative. |
| HistoryView.HistoryEditor.HandleSaveEdit | src/components/HistoryView.tsx:57-69 | Hands the entry on and leaves edit mode only if the text is valid and reads ≥ 1200 s; otherwise nothing changes. What it hands on has a run time ≥ 1200 s. |
| HistoryView.HistoryEditor.Cancel | src/components/HistoryView.tsx:131 | Leaves edit mode without saving. |
| HistoryView.HistoryEditor.HandleInputChange | src/components/HistoryView.tsx:77-94 | Does nothing outside edit mode. Otherwise it applies the edit to the edited entry and keeps the invariants for fields other than the time. |
| HistoryView.HistoryEditor.HandleEditTimeInputChange | src/components/HistoryView.tsx:96-104 | Always shows the text. It copies the text's seconds into the run time only when the text is valid, and the text is then in sync. |
| HistoryView.HistoryEditor.HandleDeleteEntry | src/components/HistoryView.tsx:71-75 | Asks for deletion of the date exactly when the user confirms. |
| HistoryView.InvalidTextKeepsLastValidTime | src/components/HistoryView.tsx:96-104 | Typing "20:75" over a 25-minute run keeps the entry, and the save is refused. |
| HistoryView.SaveGateBoundary | src/components/HistoryView.tsx:57-69 | An edited 19:59 run is refused; a 20:00 run is handed on. |
| DailyInput.BlankEntry | src/components/DailyInput.tsx:21-39 | Today's date, every number 0, pace "0:00", strength training. |
| DailyInput.PatternPassesValidation | src/components/DailyInput.tsx:193-203 | A time text the input's `pattern` accepts is one `validateTimeString` accepts. |
| DailyInput.DailyInputForm.constructor | src/components/DailyInput.tsx:21-44 | The blank entry, time text "0:00", today picked; the gate invariant holds. |
| DailyInput.DailyInputForm.LoadExistingEntry | src/components/DailyInput.tsx:46-53 | Loads an existing entry, its date and its time as text, and nothing without one. The gate invariant holds after loading. |
| DailyInput.DailyInputForm.HandleInputChange | src/components/DailyInput.tsx:55-70 | Applies one field edit to the entry. Nothing else changes. |
| DailyInput.DailyInputForm.HandleTimeInputChange | src/components/DailyInput.tsx:72-80 | Always stores the text. It copies the text's seconds into the run time only when the text is valid. |
| DailyInput.DailyInputForm.HandleDateChange | src/components/DailyInput.tsx:87-95 | A picked date changes only the entry's date and the picker. No date changes nothing. |
| DailyInput.DailyInputForm.IsTimeValid | src/components/DailyInput.tsx:82-85 | `isTimeValid` is `TimeGate(timeInput)`: the decoded time text is at least 1200 seconds, whether the text is valid or not. It has no contract of its own; `DailyInput.BlankFormFailsGate` and `DailyInput.DailyInputForm.HandleSubmit` use it. |
| DailyInput.DailyInputForm.HandleSubmit | src/components/DailyInput.tsx:97-108 | Hands the entry on exactly when the text reads ≥ 1200 s, valid or not. With a valid text, the entry then holds ≥ 1200 s. |
| DailyInput.DailyInputForm.SubmitForm | src/components/DailyInput.tsx:145-371 | Constraint validation, then the handler. An entry is saved exactly when both pass, and it holds a run ≥ 1200 s and a workout ≥ 20 minutes. |
| DailyInput.BlankFormFailsGate | src/components/DailyInput.tsx:82-85 | The untouched form fails the 20-minute gate. |
| DailyInput.InvalidTextScenario | src/components/DailyInput.tsx:72-108 | After "20:75" the handler alone would save the blank entry with run time 0. The browser blocks the submit first. |

## Left out

- Rendering (JSX, recharts, icons, class merging), React scheduling and `useMemo` caching: these are UI. Each handler is one atomic transition.
- `localStorage` bytes and `JSON.parse`/`stringify`: the store holds a parsed document or `Malformed`, plus the flag. A document parsing to a non-object is not modelled.
- The scheduling of the write-through save effect (`src/App.tsx:69-71`). The effect itself is `ChallengeStore.SaveEffect` and `MainApp.App.SaveChallengeData`, but no method calls it: React runs it right after the mount effect and again after every change of the state. So the store just after `MainApp.App.LoadOnMount` is not the final one: a `Malformed` item is overwritten by the default state, and a first session writes its document under a flag that is still missing (see Findings).
- DailyInput.DailyInputForm.SubmitForm: the `step="0.1"` check on weight and distance is not modelled. Its step base is the input's `value` attribute, which React sets to the current value, at the latest when the field loses focus. So a click on the save button never meets a step mismatch. A submit by Enter from the still-focused field could refuse a value that is not a whole number of tenths away from the last synced one, and the model does not capture that.
- Share mode, `URLSearchParams` and the clipboard: browser I/O.
- Every `alert` call is left out: the refusal after a too-short time and the success message after a save (`src/components/DailyInput.tsx:102,107`). A refusal is a `None` result. `confirm` is a boolean argument.
- JS `Date` handling: time zones, daylight saving, `setDate` rollover, `toISOString` and `toLocaleDateString` are replaced by integer day numbers at UTC midnight.
- A non-empty start date that does not parse is not modelled; only the empty one is, as `None`. Such a date behaves like the empty one: `chartData` throws (`toISOString` of an invalid date, `src/components/Dashboard.tsx:29`), and `totalWeightLost` is 0 because no entry sits under that key (`src/components/Dashboard.tsx:93-100`).
- Floating point: weights, distances, percentages and averages are exact reals. A `Number#toString` rendering, like the date text, is a function the caller supplies to the search.
- `parseFloat`/`parseInt` of the numeric form fields, and the NaN they produce on bad input: edits carry the parsed number.
- `toLowerCase` folds only ASCII letters.
- ChallengeStore.MigrateTimeData: returns a new document. In the source the copy is shallow, so the loop also rewrites the caller's own `entries` object through the alias.
- EntryOrder.Values: lists entries earliest date first, while the source lists them in key insertion order. Every total and count is order-independent. The order shows in one place only: the history list's weight and calorie sorts are stable (`EntryOrder.SortDescStable`), so entries with equal keys keep the listing order, which is insertion order in the source and earliest date first in the model.
- TimeCodec.RoundTrip and TimeCodec.EncodeIsValid: seconds are exact unbounded integers. In the source a number is a double: integers above 2^53 are inexact, and `${minutes}` renders 10^21 or more as "1e+21". Both lemmas hold for the source only below those bounds.
- `getCurrentDay` is computed from the start date and the clock only; the code derives no day count from the number of entries.

Notes on what the code does:

- `migrateTimeData` is not idempotent (`ChallengeStore.MigrationNotIdempotent`). Only the flag keeps it from running twice on a document a load has migrated (`ChallengeStore.ReloadDoesNotMigrateAgain`), and a store written while the flag was still missing is migrated again (see Findings).
- `getCurrentDay` returns the fixed 1 only without a start date. With one, it gives 0 at the start instant, 1 throughout the first day after it, counts days before the start as well (absolute difference), and caps the count at 75.
- `validateTimeString`'s final check that the seconds are 0..59 never rejects anything: the pattern already implies it (`TimeCodec.ValidateIffShape`).
- The daily form's handler checks only the 1200-second threshold, not the format. But the input's `pattern` and `required` attributes make the browser refuse a malformed time first (`DailyInput.DailyInputForm.SubmitForm`). The same constraint validation refuses a zero weight, calories, distance, elevation or heart rate (shown as empty, failing `required`), and a workout shorter than 20 minutes (`min="20"`).

## Findings

| source | as written | input that shows it | evidently intended | confidence | as-written member | corrected member |
|---|---|---|---|---|---|---|
| src/App.tsx:50-59 | The migration flag is written only inside `if (savedData)`, after a parseable document has been migrated. | A fresh browser: the first mount finds no data item, so the flag stays missing; the save effect (`src/App.tsx:69-71`) then writes the state, with a 1500-second run, under that missing flag; the next mount migrates it, and the run becomes 90000 seconds. A data item that does not parse leads to the same sequence. | Data written by this version is already in seconds, so the flag is set whenever a load finds nothing to migrate, and the migration applies at most once. | not executed | ChallengeStore.SecondSessionMigratesAgain | ChallengeStore.FlaggedGateMigratesAtMostOnce |

The corrected gate is `ChallengeStore.FlaggedLoadOutcome`; `ChallengeStore.FlaggedSecondSessionKeepsSeconds` replays the same
fresh-browser scenario under it. The component classes `MainApp.App` and `ComponentsApp.App` keep the gate as written
(`ChallengeStore.LoadOutcome`), because they model what the code does.
