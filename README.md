# AllinOne: a verified model of the app's sequential logic

AllinOne is an Android personal organiser: notes, tasks, schedules, a calendar,
a Wing Tzun school register (students, lessons, registrations), workouts,
transactions, Binance futures positions and Instagram insights. Most of it is
view code and Firebase or HTTP plumbing. This project models, in Dafny, the
small pieces of deterministic logic spread through it, and proves what they
promise:

- the colour wheel: ARGB channel interpolation over a seven-stop palette and
  the touch state machine of the centre dot (`ColorPicker`);
- lesson-date arithmetic: the date of the N-th lesson, the next lesson date,
  the week-based end-date estimate, the subscription end date from lesson
  events or a day-by-day walk, and stable event ids (`LessonDates`,
  `CalendarViewModel`, `WTCalendarViewModel`);
- string parsing and formatting: Turkish phone numbers, HH:MM time fields,
  schedule day lists, watch-time and workout-duration texts, hexadecimal
  signatures, bullet and checkbox lines, comma-separated URI lists
  (`WTStudentsFragment`, `WTLessonsFragment`, `Schedule`,
  `InstagramPostsFragment`, `WorkoutExerciseFragment`, `BinanceApiClient`,
  `EditNoteActivity`);
- collections changed in place and small state machines: the persistent
  offline queue, the source browser's directory stack, the bounded error log
  and its line format, the expandable grouped task list, the repository's
  cached lists, the schedule list, the report's pages and the calendar's
  month grid (`OfflineQueue`, `FileStructureAdapter`, `LogcatHelper`,
  `GroupedTasksAdapter`, `FirebaseRepository`, `ScheduleViewModel`,
  `TransactionReportFragment`, `CalendarFragment`);
- validation rules: take-profit and stop-loss prices, the source viewer's
  file inclusion rule and tree builder, workouts built from a program
  (`TradingUtils`, `GenerateSourceCode`, `WorkoutExerciseFragment`).

Each source file is one module. Code that changes fields in place is a class
whose methods carry `modifies` clauses and state the whole new state; pure
code is functions with lemmas. Shared modules give the Kotlin and Java
library calls the app relies on their exact semantics: `Text` (split,
joinToString, trim, decimal parsing and rendering), `Sorting` (filter, the
stable sortedBy, distinctBy, indexOfFirst), `Dates` (milliseconds, day
numbers, Calendar's DAY_OF_WEEK, truncating division) and `Wrappers`
(Option and Result for nullable values and caught exceptions).

A lesson's `dayOfWeek` is read in two ways, and each module follows its own
code. `LessonDates` (CalendarViewModel and WTRegistryFragment) maps 0 = Monday
.. 6 = Sunday to Calendar constants, as those files' comments say.
`WTCalendarViewModel` compares the value with DAY_OF_WEEK (1 = Sunday ..
7 = Saturday) directly, as the comment on the lesson record's field
(data/WTLesson.kt:5) documents.

Instants are milliseconds since 1970-01-01 in one fixed zone. A day is
86 400 000 ms long and day 0 was a Thursday. Floating-point values (colour
units, prices, amounts, averages) are Dafny `real`s. The clock, random ids,
Firebase results, network replies, file contents and regex matches are
parameters of the operations that use them.

## Model

| member | source | states |
|---|---|---|
| ColorPicker.Argb | app/src/main/java/org/maroxa/diario/custom/ColorPickerView.java:109 | Color.argb packs four channels into a 32-bit word from which alpha, red, green and blue read back unchanged |
| ColorPicker.ArgbOfChannels | app/src/main/java/org/maroxa/diario/custom/ColorPickerView.java:102-109 | splitting a colour into its channels and packing them again gives the same colour |
| ColorPicker.Round | app/src/main/java/org/maroxa/diario/custom/ColorPickerView.java:87 | Math.round returns the integer nearest to x, halves rounding up |
| ColorPicker.Ave | app/src/main/java/org/maroxa/diario/custom/ColorPickerView.java:86-88 | for p in [0, 1] ave(s, d, p) lies between s and d; ave(s, d, 0) = s and ave(s, d, 1) = d |
| ColorPicker.InterpColor | app/src/main/java/org/maroxa/diario/custom/ColorPickerView.java:90-110 | unit <= 0 gives the first stop, unit >= 1 the last; in between every channel lies between those of stops i and i+1, i = (int)(unit*(n-1)); the result is a 32-bit colour |
| ColorPicker.InterpColorAtStop | app/src/main/java/org/maroxa/diario/custom/ColorPickerView.java:98-109 | at the position k/(n-1) of an inner stop the wheel gives exactly that stop's colour |
| ColorPicker.ColorPickerView.constructor | app/src/main/java/org/maroxa/diario/custom/ColorPickerView.java:44-51 | the palette is the seven-stop wheel, the centre paint is red, brightness 1, nothing tracked, no listener |
| ColorPicker.ColorPickerView.MoveBranch | app/src/main/java/org/maroxa/diario/custom/ColorPickerView.java:126-152 | while tracking, only the highlight follows the touch and a redraw happens only when it changes; otherwise the picked colour becomes the centre colour, goes to the listener if one is set, and the view redraws |
| ColorPicker.ColorPickerView.OnTouchEvent | app/src/main/java/org/maroxa/diario/custom/ColorPickerView.java:112-166 | DOWN on the centre starts tracking with the highlight on and no callback; DOWN elsewhere falls through to the move branch; UP while tracking notifies exactly when released on the centre and stops tracking; UP when not tracking and other actions change nothing; the event is always handled |
| ColorPicker.ColorPickerView.SetOnColorChangedListener | app/src/main/java/org/maroxa/diario/custom/ColorPickerView.java:168-170 | only the listener changes |
| ColorPicker.ColorPickerView.SetColor | app/src/main/java/org/maroxa/diario/custom/ColorPickerView.java:172-179 | getColor returns the new colour afterwards; the listener is not called |
| ColorPicker.ColorPickerView.SetBrightness | app/src/main/java/org/maroxa/diario/custom/ColorPickerView.java:181-193 | the brightness is stored and applied to the centre colour, the view redraws, and the listener (when set) receives the new colour |
| OfflineQueue.Surviving | app/src/main/java/com/example/allinone/firebase/OfflineQueue.kt:84 | removeIf never lengthens the queue; every item left has an id outside the removed set and was queued, and every queued item whose id is outside the set is left |
| OfflineQueue.SurvivingIsFilter | app/src/main/java/com/example/allinone/firebase/OfflineQueue.kt:84 | removeIf is filter on the id, so the items left stay in their queue order |
| OfflineQueue.SurvivingCount | app/src/main/java/com/example/allinone/firebase/OfflineQueue.kt:84 | an item whose id is not removed stays exactly as often as it was queued; one whose id is removed is gone |
| OfflineQueue.SurvivingNone | app/src/main/java/com/example/allinone/firebase/OfflineQueue.kt:84 | removing no ids leaves the queue as it is |
| OfflineQueue.SurvivingTwice | app/src/main/java/com/example/allinone/firebase/OfflineQueue.kt:103-108 | removing one set of ids and then another is removing their union, so successive removeOperation calls compose |
| OfflineQueue.SucceededIds | app/src/main/java/com/example/allinone/firebase/OfflineQueue.kt:103-107 | an id is collected exactly when some processed item with that id was accepted by the processor |
| OfflineQueue.SucceededIdsStep | app/src/main/java/com/example/allinone/firebase/OfflineQueue.kt:103-107 | processing one more item adds its id exactly when the processor accepts it |
| OfflineQueue.SurvivingStep | app/src/main/java/com/example/allinone/firebase/OfflineQueue.kt:103-108 | after one more processed item the queue loses that item's id exactly when the processor accepted it, and is otherwise unchanged |
| OfflineQueue.UniqueIdsSurvivors | app/src/main/java/com/example/allinone/firebase/OfflineQueue.kt:98-110 | with distinct ids an item stays in the queue after processing exactly when the processor rejected it |
| OfflineQueue.OfflineQueue.constructor | app/src/main/java/com/example/allinone/firebase/OfflineQueue.kt:15-19 | the queue starts from the stored preference value |
| OfflineQueue.OfflineQueue.GetQueue | app/src/main/java/com/example/allinone/firebase/OfflineQueue.kt:65-69 | a missing "queue" key reads as the empty list, a present one as the stored list |
| OfflineQueue.OfflineQueue.Enqueue | app/src/main/java/com/example/allinone/firebase/OfflineQueue.kt:50-60 | the queue afterwards is the old queue with the new item (given id, operation, type, data and time) at the end |
| OfflineQueue.OfflineQueue.RemoveOperation | app/src/main/java/com/example/allinone/firebase/OfflineQueue.kt:82-86 | the stored queue is the old one without the items with that id, order kept |
| OfflineQueue.OfflineQueue.ClearQueue | app/src/main/java/com/example/allinone/firebase/OfflineQueue.kt:91-93 | the key is removed and the queue reads as empty |
| OfflineQueue.OfflineQueue.ProcessItem | app/src/main/java/com/example/allinone/firebase/OfflineQueue.kt:103-107 | an accepted item's id is removed from the queue; a rejected item leaves the queue as it was |
| OfflineQueue.OfflineQueue.ProcessQueue | app/src/main/java/com/example/allinone/firebase/OfflineQueue.kt:98-110 | an empty queue is left untouched; otherwise the queue afterwards is the old one without the items the processor accepted |
| LogcatHelper.Added | app/src/main/java/com/example/allinone/utils/LogcatHelper.kt:116-124 | the new entry comes first, the old entries follow in order, and the list is cut to at most 50 |
| LogcatHelper.Captured | app/src/main/java/com/example/allinone/utils/LogcatHelper.kt:97-110 | only matched lines of level E or W become entries, never more than the lines matched |
| LogcatHelper.CapturedKept | app/src/main/java/com/example/allinone/utils/LogcatHelper.kt:97-110 | the captured entries are exactly the E and W matches, in order, each with the clock reading and its tag and message trimmed |
| LogcatHelper.AddedAll | app/src/main/java/com/example/allinone/utils/LogcatHelper.kt:101-110 | adding entries one by one never grows the list past 50 |
| LogcatHelper.ParseLine | app/src/main/java/com/example/allinone/utils/LogcatHelper.kt:175-187 | a line read back yields an entry exactly when split with limit 4 gives four fields and the first is a Long; the entry then holds that Long and the other three fields, and its level and tag hold no bar |
| LogcatHelper.FewBarsSkipped | app/src/main/java/com/example/allinone/utils/LogcatHelper.kt:175-176 | a line with fewer than three bars is skipped |
| LogcatHelper.SplitLimitFields | app/src/main/java/com/example/allinone/utils/LogcatHelper.kt:175 | split with a limit leaves no delimiter in any field but the last |
| LogcatHelper.ParsedLines | app/src/main/java/com/example/allinone/utils/LogcatHelper.kt:173-189 | malformed lines are skipped, so no more entries than lines are read |
| LogcatHelper.SavedLines | app/src/main/java/com/example/allinone/utils/LogcatHelper.kt:149-152 | one saved line per entry |
| LogcatHelper.SplitFour | app/src/main/java/com/example/allinone/utils/LogcatHelper.kt:150-175 | four fields joined by bars split back with limit 4 when the first three hold no bar, whatever the last holds |
| LogcatHelper.SplitFormat | app/src/main/java/com/example/allinone/utils/LogcatHelper.kt:150-175 | a saved line splits back into timestamp text, level, tag and message |
| LogcatHelper.FormatParse | app/src/main/java/com/example/allinone/utils/LogcatHelper.kt:150-183 | a saved line of an entry with a Long timestamp and bar-free level and tag parses back to that entry |
| LogcatHelper.SavedText | app/src/main/java/com/example/allinone/utils/LogcatHelper.kt:148-152 | the file text holds at least one character per entry |
| LogcatHelper.Lines | app/src/main/java/com/example/allinone/utils/LogcatHelper.kt:173-174 | the lines read back hold no line break |
| LogcatHelper.LinesAfterLine | app/src/main/java/com/example/allinone/utils/LogcatHelper.kt:150-151 | a line without a break written with its newline reads back as that line, followed by the lines after it |
| LogcatHelper.SavedTextLines | app/src/main/java/com/example/allinone/utils/LogcatHelper.kt:148-174 | the file written from entries without line breaks reads back as one saved line per entry |
| LogcatHelper.ParseSavedLines | app/src/main/java/com/example/allinone/utils/LogcatHelper.kt:150-183 | the saved lines of well-formed entries parse back to those entries in order |
| LogcatHelper.SaveLoad | app/src/main/java/com/example/allinone/utils/LogcatHelper.kt:148-189 | writing entries whose fields hold no line break and reading the file back gives the same entries in the same order |
| LogcatHelper.MultiLineMessageCut | app/src/main/java/com/example/allinone/utils/LogcatHelper.kt:148-186 | an entry whose message holds a newline is written on two lines and comes back with its message cut at the break |
| LogcatHelper.SaveThenLoad | app/src/main/java/com/example/allinone/utils/LogcatHelper.kt:148-193 | saving a log of at most 50 well-formed entries (no bar in level or tag, no line break in any field) and loading it restores exactly that log |
| LogcatHelper.LogcatHelper.constructor | app/src/main/java/com/example/allinone/utils/LogcatHelper.kt:59-64 | the log starts empty, or as the first 50 well-formed lines of an existing file |
| LogcatHelper.LogcatHelper.AddLogEntry | app/src/main/java/com/example/allinone/utils/LogcatHelper.kt:116-124 | the entries become Added(old entries, entry), at most 50; the file is untouched |
| LogcatHelper.LogcatHelper.ProcessLogLines | app/src/main/java/com/example/allinone/utils/LogcatHelper.kt:92-111 | the entries become the old ones with each captured E/W entry added in turn |
| LogcatHelper.LogcatHelper.ClearLogs | app/src/main/java/com/example/allinone/utils/LogcatHelper.kt:134-137 | the log is empty and the file saved empty |
| LogcatHelper.LogcatHelper.SaveLogsToFile | app/src/main/java/com/example/allinone/utils/LogcatHelper.kt:142-162 | the file holds one formatted line per entry, each followed by a newline, in list order; the entries are unchanged |
| LogcatHelper.LogcatHelper.LoadLogsFromFile | app/src/main/java/com/example/allinone/utils/LogcatHelper.kt:167-198 | without a file nothing changes; with one the entries are the first 50 well-formed lines, in file order |
| LogcatHelper.WriteEntries | app/src/main/java/com/example/allinone/utils/LogcatHelper.kt:148-152 | the writer loop produces SavedText of the entries: each formatted line followed by a newline |
| LogcatHelper.Take | app/src/main/java/com/example/allinone/utils/LogcatHelper.kt:193 | take(50) is the prefix of length min(n, 50) |
| FileStructureAdapter.SubmitInitial | app/src/main/java/com/example/allinone/adapters/FileStructureAdapter.kt:25-30 | the list is shown at root: empty stack, title "Source Code" |
| FileStructureAdapter.Enter | app/src/main/java/com/example/allinone/adapters/FileStructureAdapter.kt:33-45 | a file changes nothing; a directory pushes the shown list, shows its children (none for null) and takes its name as title |
| FileStructureAdapter.BackTitle | app/src/main/java/com/example/allinone/adapters/FileStructureAdapter.kt:59-75 | an empty list gives "Previous Directory"; any other title is a single path segment without '/' |
| FileStructureAdapter.Back | app/src/main/java/com/example/allinone/adapters/FileStructureAdapter.kt:48-80 | returns true exactly when the stack is not empty; then the top list is shown and popped, and popping the last level restores "Source Code"; otherwise nothing changes |
| FileStructureAdapter.EnterThenBack | app/src/main/java/com/example/allinone/adapters/FileStructureAdapter.kt:33-80 | entering a directory and going back restores the list and the stack, and from root the root title |
| FileStructureAdapter.BackDepth | app/src/main/java/com/example/allinone/adapters/FileStructureAdapter.kt:48-85 | each successful back shortens the stack by one, so root is reached after exactly as many backs as entries |
| FileStructureAdapter.FileStructureAdapter.constructor | app/src/main/java/com/example/allinone/adapters/FileStructureAdapter.kt:17-21 | no items, empty stack, title "Source Code" |
| FileStructureAdapter.FileStructureAdapter.SubmitInitialList | app/src/main/java/com/example/allinone/adapters/FileStructureAdapter.kt:25-30 | the state becomes SubmitInitial(newItems) |
| FileStructureAdapter.FileStructureAdapter.SubmitList | app/src/main/java/com/example/allinone/adapters/FileStructureAdapter.kt:88-91 | only the items change |
| FileStructureAdapter.FileStructureAdapter.NavigateToDirectory | app/src/main/java/com/example/allinone/adapters/FileStructureAdapter.kt:33-45 | the state becomes Enter(old state, directory) |
| FileStructureAdapter.FileStructureAdapter.NavigateBack | app/src/main/java/com/example/allinone/adapters/FileStructureAdapter.kt:48-80 | state and result are Back(old state) |
| FileStructureAdapter.FileStructureAdapter.IsAtRootLevel | app/src/main/java/com/example/allinone/adapters/FileStructureAdapter.kt:83-85 | true exactly when the stack is empty |
| GroupedTasksAdapter.CompletedCount | app/src/main/java/com/example/allinone/adapters/GroupedTasksAdapter.kt:58 | the number of completed tasks never exceeds the number of tasks |
| GroupedTasksAdapter.TaskItems | app/src/main/java/com/example/allinone/adapters/GroupedTasksAdapter.kt:72-74 | one task item per task, in order |
| GroupedTasksAdapter.HeadersConcat | app/src/main/java/com/example/allinone/adapters/GroupedTasksAdapter.kt:52-79 | header counts add up over concatenated lists |
| GroupedTasksAdapter.TaskItemsNoHeaders | app/src/main/java/com/example/allinone/adapters/GroupedTasksAdapter.kt:72-74 | the task items of a group hold no header |
| GroupedTasksAdapter.FlattenCounts | app/src/main/java/com/example/allinone/adapters/GroupedTasksAdapter.kt:52-79 | the submitted list holds exactly one header per group plus the tasks of the expanded groups |
| GroupedTasksAdapter.FlattenHeaders | app/src/main/java/com/example/allinone/adapters/GroupedTasksAdapter.kt:55-68 | every header carries its group's task count, a completed count between 0 and it, and the group's expanded state |
| GroupedTasksAdapter.Toggled | app/src/main/java/com/example/allinone/adapters/GroupedTasksAdapter.kt:84-90 | the group's id flips membership in the expanded set; every other id keeps its state |
| GroupedTasksAdapter.ToggleTwice | app/src/main/java/com/example/allinone/adapters/GroupedTasksAdapter.kt:84-90 | toggling a group twice restores the expanded set |
| GroupedTasksAdapter.GroupedTasksAdapter.constructor | app/src/main/java/com/example/allinone/adapters/GroupedTasksAdapter.kt:33 | nothing expanded, nothing shown, no callback made |
| GroupedTasksAdapter.GroupedTasksAdapter.UpdateGroupedTasks | app/src/main/java/com/example/allinone/adapters/GroupedTasksAdapter.kt:52-79 | the submitted list is Flatten of the groups in map order under the current expanded set |
| GroupedTasksAdapter.GroupedTasksAdapter.ToggleGroupExpansion | app/src/main/java/com/example/allinone/adapters/GroupedTasksAdapter.kt:84-93 | the expanded set is toggled at the group's id and onGroupClick receives the group and its new state |
| EditNoteActivity.LineStartOf | app/src/main/java/com/example/allinone/ui/EditNoteActivity.kt:441-445 | the start of the caret's line: at or before the caret, at 0 or just after a newline, with no newline between it and the caret |
| EditNoteActivity.LineEndOf | app/src/main/java/com/example/allinone/ui/EditNoteActivity.kt:447-451 | the end of the caret's line: at or after the caret, at the text's end or on a newline, with no newline between |
| EditNoteActivity.DropRegexSpaces | app/src/main/java/com/example/allinone/ui/EditNoteActivity.kt:450-454 | removing the leading \s characters leaves a text that is empty or starts with a non-space, and never lengthens it |
| EditNoteActivity.DropRegexSpacesSuffix | app/src/main/java/com/example/allinone/ui/EditNoteActivity.kt:450-454 | only the leading \s run goes: the result is a suffix of the input and everything before it is a \s character |
| EditNoteActivity.DropRegexSpacesNone | app/src/main/java/com/example/allinone/ui/EditNoteActivity.kt:459 | a line with no leading whitespace is left as it is |
| EditNoteActivity.ToggledBulletLine | app/src/main/java/com/example/allinone/ui/EditNoteActivity.kt:453-466 | a bulleted line gets shorter; any other line gets "• " in front |
| EditNoteActivity.BulletRemoved | app/src/main/java/com/example/allinone/ui/EditNoteActivity.kt:450-454 | on a bulleted line the toggle removes the bullet and the \s characters right after it and keeps the rest of the line unchanged |
| EditNoteActivity.BulletToggleTwice | app/src/main/java/com/example/allinone/ui/EditNoteActivity.kt:453-466 | bulleting a line that starts with neither a bullet nor whitespace, then toggling again, gives the line back |
| EditNoteActivity.CheckboxLinesSkipEmpty | app/src/main/java/com/example/allinone/ui/EditNoteActivity.kt:481-486 | an empty line of the selection contributes nothing to the checkbox list |
| EditNoteActivity.ToggledCheckboxLine | app/src/main/java/com/example/allinone/ui/EditNoteActivity.kt:508-526 | a line without a checkbox gets "☐ " in front |
| EditNoteActivity.ReplaceAllAbsent | app/src/main/java/com/example/allinone/ui/EditNoteActivity.kt:513-515 | replacing a pattern that does not occur changes nothing |
| EditNoteActivity.CheckboxToggle | app/src/main/java/com/example/allinone/ui/EditNoteActivity.kt:512-517 | an unchecked line becomes checked and a checked one unchecked when the marker occurs only at the front |
| EditNoteActivity.Editor.constructor | app/src/main/java/com/example/allinone/ui/EditNoteActivity.kt:415-418 | the editor holds the text and the selection |
| EditNoteActivity.Editor.Replace | app/src/main/java/com/example/allinone/ui/EditNoteActivity.kt:430-431 | the text between the two offsets is replaced by the piece and the caret is placed |
| EditNoteActivity.Editor.InsertBulletList | app/src/main/java/com/example/allinone/ui/EditNoteActivity.kt:413-468 | a selection becomes one bulleted line per line of it; with no selection the caret's line is toggled between bulleted and not, and the caret goes to the end of the new line |
| EditNoteActivity.Editor.InsertCheckboxList | app/src/main/java/com/example/allinone/ui/EditNoteActivity.kt:470-530 | a selection becomes one checkbox line per non-empty line of it; with no selection the caret's line toggles its checkbox or gains an unchecked one |
| EditNoteActivity.FindLineStart | app/src/main/java/com/example/allinone/ui/EditNoteActivity.kt:440-445 | the backward scan stops at the start of the caret's line |
| EditNoteActivity.FindLineEnd | app/src/main/java/com/example/allinone/ui/EditNoteActivity.kt:446-451 | the forward scan stops at the end of the caret's line |
| EditNoteActivity.BulletLinesSnoc | app/src/main/java/com/example/allinone/ui/EditNoteActivity.kt:425-427 | each further line appends "• ", the line and a newline |
| EditNoteActivity.CheckboxLinesSnoc | app/src/main/java/com/example/allinone/ui/EditNoteActivity.kt:482-486 | each further non-empty line appends "☐ ", the line and a newline; an empty line appends nothing |
| EditNoteActivity.BuildBulletLines | app/src/main/java/com/example/allinone/ui/EditNoteActivity.kt:423-427 | the builder loop produces exactly the bulleted list of the lines |
| EditNoteActivity.BuildCheckboxLines | app/src/main/java/com/example/allinone/ui/EditNoteActivity.kt:480-486 | the builder loop produces exactly the checkbox list of the lines |
| EditNoteActivity.RemainingUris | app/src/main/java/com/example/allinone/ui/EditNoteActivity.kt:213-215 | a missing list leaves no URIs; the kept URIs are non-empty, differ from the removed one and contain no comma |
| EditNoteActivity.RemainingUrisCount | app/src/main/java/com/example/allinone/ui/EditNoteActivity.kt:213-215 | every non-empty field other than the removed URI stays, exactly as often as the list holds it; empty fields and the removed URI are gone |
| EditNoteActivity.RemainingUrisOfFields | app/src/main/java/com/example/allinone/ui/EditNoteActivity.kt:213-215 | a list written from comma-free fields leaves exactly filter of those fields, in their order |
| EditNoteActivity.RemainingUrisInOrder | app/src/main/java/com/example/allinone/ui/EditNoteActivity.kt:213-215 | the URIs kept from a list's first part come before those kept from its second part |
| EditNoteActivity.RemoveUri | app/src/main/java/com/example/allinone/ui/EditNoteActivity.kt:213-218 | the field becomes null exactly when no URI remains |
| EditNoteActivity.RemoveUriFields | app/src/main/java/com/example/allinone/ui/EditNoteActivity.kt:213-218 | the stored string splits back into exactly the remaining URIs |
| EditNoteActivity.RemoveUriIdempotent | app/src/main/java/com/example/allinone/ui/EditNoteActivity.kt:213-218 | removing the same URI twice is the same as removing it once |
| EditNoteActivity.UploadedUrls | app/src/main/java/com/example/allinone/ui/EditNoteActivity.kt:1191-1199 | only non-empty URLs starting with "http" are kept, never more than the notes |
| EditNoteActivity.SavedVoiceUris | app/src/main/java/com/example/allinone/ui/EditNoteActivity.kt:1189-1204 | the saved field is null exactly when no uploaded URL remains |
| EditNoteActivity.SavedVoiceUrisFields | app/src/main/java/com/example/allinone/ui/EditNoteActivity.kt:1189-1204 | the saved string splits back into exactly the uploaded URLs when no URL holds a comma |
| EditNoteActivity.UploadedUrlsNoComma | app/src/main/java/com/example/allinone/ui/EditNoteActivity.kt:1191-1199 | filtering keeps the no-comma property of the URLs |
| CalendarViewModel.CalendarViewModel.constructor | app/src/main/java/com/example/allinone/viewmodels/CalendarViewModel.kt:44 | the in-memory event list starts empty |
| CalendarViewModel.CalendarViewModel.AddEventDirectly | app/src/main/java/com/example/allinone/viewmodels/CalendarViewModel.kt:570-582 | the event is appended exactly when no event has its id, the id is then present, and distinct ids stay distinct |
| CalendarViewModel.CalendarViewModel.CancelLesson | app/src/main/java/com/example/allinone/viewmodels/CalendarViewModel.kt:180-195 | exactly the "Lesson" events at the given minute are removed; every other event stays, in order |
| LessonDates.CalendarDayOfLesson | app/src/main/java/com/example/allinone/viewmodels/CalendarViewModel.kt:675-684 | codes 0..6 map to a Calendar weekday and every other code to -1 |
| LessonDates.CalendarDayOfLessonBijective | app/src/main/java/com/example/allinone/viewmodels/CalendarViewModel.kt:675-684 | codes 0..6 name seven different weekdays, Monday first and Sunday last |
| LessonDates.InvalidCodeNeverMatches | app/src/main/java/com/example/allinone/viewmodels/CalendarViewModel.kt:683-687 | a code outside 0..6 never matches the weekday of any date |
| LessonDates.LessonDaysIn | app/src/main/java/com/example/allinone/viewmodels/CalendarViewModel.kt:666-698 | the lesson days counted in the first k days are at most k |
| LessonDates.LessonDaysInMonotone | app/src/main/java/com/example/allinone/viewmodels/CalendarViewModel.kt:666-698 | scanning more days never lowers the lesson-day count |
| LessonDates.CountReachedOnce | app/src/main/java/com/example/allinone/ui/wt/WTRegistryFragment.kt:295-327 | each day counts once even when several lessons share its weekday, so the count reaches N on one day only |
| LessonDates.WeeklyLessonDays | app/src/main/java/com/example/allinone/viewmodels/CalendarViewModel.kt:666-698 | with a valid code every week holds a lesson day |
| LessonDates.Needed | app/src/main/java/com/example/allinone/viewmodels/CalendarViewModel.kt:690-693 | the test lessonsFound >= lessonCount first holds at max(1, lessonCount) lessons |
| LessonDates.DateAfterNLessons | app/src/main/java/com/example/allinone/viewmodels/CalendarViewModel.kt:649-710 | with no lessons, start + 8 weeks; else the lesson day within 365 days on which the count of lesson days from start reaches the target; else start + 8 weeks |
| LessonDates.ScanSucceeds | app/src/main/java/com/example/allinone/ui/wt/WTRegistryFragment.kt:272-339 | with a valid lesson code, counts up to 52 are always reached within the 365-day scan |
| LessonDates.NextLessonDate | app/src/main/java/com/example/allinone/viewmodels/CalendarViewModel.kt:590-640 | the first lesson day among start .. start + 13 days, else start + 7 days, also with no lessons |
| LessonDates.NextLessonWithinWeek | app/src/main/java/com/example/allinone/viewmodels/CalendarViewModel.kt:604-632 | with a valid code the next lesson is found within 7 days, so the 7-day fallback is never taken then |
| LessonDates.EndDateAfterLessons | app/src/main/java/com/example/allinone/viewmodels/CalendarViewModel.kt:534-563 | start + ceil(count / lessons) weeks, or start + 8 weeks when there are no lessons or the count is not positive |
| Schedule.NewSchedule | app/src/main/java/com/example/allinone/data/Schedule.kt:21-45 | a new schedule is enabled on all seven days, green and in "Personal", with the given id, title and time |
| Schedule.FormattedTime | app/src/main/java/com/example/allinone/data/Schedule.kt:50-52 | for a valid hour and minute, five characters: two digits reading the hour, a colon, two digits reading the minute |
| Schedule.ParseDayTokens | app/src/main/java/com/example/allinone/data/Schedule.kt:59 | tokens that are not integers once trimmed are dropped, and when all parse every token gives its value, in order |
| Schedule.TokenRoundTrip | app/src/main/java/com/example/allinone/data/Schedule.kt:59 | a written day number holds no comma and trims and parses back to itself |
| Schedule.EnabledDaysOfJoined | app/src/main/java/com/example/allinone/data/Schedule.kt:57-60 | reading back a non-empty comma-joined list of day numbers gives the same days |
| Schedule.KnownDayNames | app/src/main/java/com/example/allinone/data/Schedule.kt:66-75 | numbers outside 1..7 have no name and are dropped; with all in range the i-th name is the name of the i-th day (1 "Mon" … 7 "Sun") |
| Schedule.DayNames | app/src/main/java/com/example/allinone/data/Schedule.kt:65-77 | the cases of getDayNames in their order: any seven enabled days, then exactly 1..5, then exactly 6,7, else the known names joined by ", " |
| Schedule.DayNamesLabels | app/src/main/java/com/example/allinone/data/Schedule.kt:65-77 | each label is shown exactly in its own case: "Every day" iff seven days are enabled, "Weekdays" iff the days are 1..5, "Weekends" iff they are 6,7; no joined list of names reads as a label |
| Schedule.DayNamesOfStored | app/src/main/java/com/example/allinone/data/Schedule.kt:57-77 | a day list stored as comma-joined numbers is shown by its own days: a label for the three cases, else the names of its days 1..7 in stored order |
| Schedule.RepeatedDayIsEveryDay | app/src/main/java/com/example/allinone/data/Schedule.kt:71-72 | "Every day" depends on the number of parsed days, so one day stored seven times also shows "Every day" |
| Schedule.DefaultIsEveryDay | app/src/main/java/com/example/allinone/data/Schedule.kt:28 | the default day list displays as "Every day" |
| Schedule.WeekdaysExample | app/src/main/java/com/example/allinone/data/Schedule.kt:73 | "1,2,3,4,5" displays as "Weekdays" |
| ScheduleViewModel.ByTimeTotalPreorder | app/src/main/java/com/example/allinone/viewmodels/ScheduleViewModel.kt:224 | ordering by hour, then minute, is total and transitive |
| ScheduleViewModel.OurDayOfWeek | app/src/main/java/com/example/allinone/viewmodels/ScheduleViewModel.kt:276-278 | Sunday becomes 7 and every other Calendar weekday its number minus one, always in 1..7 |
| ScheduleViewModel.OurDayOfWeekInjective | app/src/main/java/com/example/allinone/viewmodels/ScheduleViewModel.kt:242 | different weekdays get different day numbers |
| ScheduleViewModel.FilteredSchedules | app/src/main/java/com/example/allinone/viewmodels/ScheduleViewModel.kt:215-227 | the published list is the schedules passing the category and enabled filters, sorted by time of day |
| ScheduleViewModel.FilteredSchedulesMembers | app/src/main/java/com/example/allinone/viewmodels/ScheduleViewModel.kt:219-224 | a schedule is shown exactly when it is stored and passes both filters; "All" without enabled-only shows every schedule |
| ScheduleViewModel.TodaySchedules | app/src/main/java/com/example/allinone/viewmodels/ScheduleViewModel.kt:274-283 | today's list holds the enabled schedules whose day list contains today, sorted by time of day |
| ScheduleViewModel.NextSchedule | app/src/main/java/com/example/allinone/viewmodels/ScheduleViewModel.kt:293-300 | the first of today's schedules strictly after the current time, else the first of the day, and none only when today is empty |
| ScheduleViewModel.FindAfter | app/src/main/java/com/example/allinone/viewmodels/ScheduleViewModel.kt:296-298 | the first schedule after the given time, or none when no schedule is after it |
| ScheduleViewModel.Samples | app/src/main/java/com/example/allinone/viewmodels/ScheduleViewModel.kt:312-343 | three sample schedules with ids 1, 2 and 3 |
| ScheduleViewModel.IndexOfId | app/src/main/java/com/example/allinone/viewmodels/ScheduleViewModel.kt:144 | the index of the first schedule with the id, or -1 when none has it |
| ScheduleViewModel.ScheduleEvent | app/src/main/java/com/example/allinone/viewmodels/ScheduleViewModel.kt:246-259 | a "Schedule" event with the schedule's title and description, whose id is the schedule id times 1000 plus the day's instant in whole seconds (truncated), and which for a valid hour and minute falls on the same day |
| ScheduleViewModel.ScheduleEventAt | app/src/main/java/com/example/allinone/viewmodels/ScheduleViewModel.kt:246-259 | for a valid hour and minute the event falls on the same day as the given instant, at the schedule's hour and minute as its time of day |
| ScheduleViewModel.ScheduleEventIdsIncrease | app/src/main/java/com/example/allinone/viewmodels/ScheduleViewModel.kt:252-253 | events of one schedule at instants two or more seconds apart, such as successive days, get different ids, later ones larger |
| ScheduleViewModel.DayEventsMembers | app/src/main/java/com/example/allinone/viewmodels/ScheduleViewModel.kt:244-263 | a day's events are exactly one event per enabled schedule that runs that day |
| ScheduleViewModel.EventsOfDaysMembers | app/src/main/java/com/example/allinone/viewmodels/ScheduleViewModel.kt:239-266 | an event of the range is an event of one of its days |
| ScheduleViewModel.DaysInRange | app/src/main/java/com/example/allinone/viewmodels/ScheduleViewModel.kt:239 | the loop visits the days from the start while they are not after the end, and none when the start is after the end |
| ScheduleViewModel.InRangeBeforeEnd | app/src/main/java/com/example/allinone/viewmodels/ScheduleViewModel.kt:239 | day n is visited exactly when it is not after the end date |
| ScheduleViewModel.EventsOfDay | app/src/main/java/com/example/allinone/viewmodels/ScheduleViewModel.kt:244-263 | the inner loop collects exactly that day's events, in schedule order |
| ScheduleViewModel.EventsOfRange | app/src/main/java/com/example/allinone/viewmodels/ScheduleViewModel.kt:239-266 | the day loop collects the events of every day of the range, day by day |
| ScheduleViewModel.ByDateTotalPreorder | app/src/main/java/com/example/allinone/viewmodels/ScheduleViewModel.kt:268 | ordering by date is total and transitive |
| ScheduleViewModel.ScheduleViewModel.constructor | app/src/main/java/com/example/allinone/viewmodels/ScheduleViewModel.kt:34-63 | the filters start at "All" and not enabled-only, and loading seeds the sample schedules |
| ScheduleViewModel.ScheduleViewModel.UpdateFilteredSchedules | app/src/main/java/com/example/allinone/viewmodels/ScheduleViewModel.kt:215-227 | the published list becomes the filtered, sorted schedules; nothing else changes |
| ScheduleViewModel.ScheduleViewModel.LoadSchedulesFromRepository | app/src/main/java/com/example/allinone/viewmodels/ScheduleViewModel.kt:306-347 | the samples are added only to an empty list, then the list is published |
| ScheduleViewModel.ScheduleViewModel.AddSchedule | app/src/main/java/com/example/allinone/viewmodels/ScheduleViewModel.kt:95-135 | a new enabled schedule with the clock reading as its id is appended and the list republished |
| ScheduleViewModel.ScheduleViewModel.UpdateSchedule | app/src/main/java/com/example/allinone/viewmodels/ScheduleViewModel.kt:140-162 | the first schedule with the same id is replaced; with none, nothing changes |
| ScheduleViewModel.ScheduleViewModel.DeleteSchedule | app/src/main/java/com/example/allinone/viewmodels/ScheduleViewModel.kt:167-186 | every schedule with the id is removed and all others stay, in order |
| ScheduleViewModel.ScheduleViewModel.ToggleScheduleEnabled | app/src/main/java/com/example/allinone/viewmodels/ScheduleViewModel.kt:191-194 | the stored schedule with that id is replaced by the given one with its enabled flag flipped and the published list is refiltered; with no such id nothing changes, the published list included |
| ScheduleViewModel.ScheduleViewModel.SetSelectedCategory | app/src/main/java/com/example/allinone/viewmodels/ScheduleViewModel.kt:199-202 | the category filter is set and the list republished |
| ScheduleViewModel.ScheduleViewModel.ToggleShowEnabledOnly | app/src/main/java/com/example/allinone/viewmodels/ScheduleViewModel.kt:207-210 | the enabled-only filter is flipped and the list republished |
| ScheduleViewModel.ScheduleViewModel.GetNextSchedule | app/src/main/java/com/example/allinone/viewmodels/ScheduleViewModel.kt:288-301 | the schedule returned is one of today's enabled, stored schedules |
| ScheduleViewModel.ScheduleViewModel.GenerateEventsFromSchedules | app/src/main/java/com/example/allinone/viewmodels/ScheduleViewModel.kt:232-269 | the result is sorted by date and holds exactly the events of every enabled schedule on every day of the range it runs on |
| WTLessonsFragment.Checked | app/src/main/java/com/example/allinone/ui/wt/WTLessonsFragment.kt:162-167 | a time results only when both parts were read and lie in 0..23 and 0..59 |
| WTLessonsFragment.ParseTimeField | app/src/main/java/com/example/allinone/ui/wt/WTLessonsFragment.kt:144-171 | any parsed time lies within the day |
| WTLessonsFragment.ParseTimeFieldCases | app/src/main/java/com/example/allinone/ui/wt/WTLessonsFragment.kt:146-165 | without a colon only four characters are read, as two two-digit parts; with colons exactly two trimmed parts are needed |
| WTLessonsFragment.TwoDigits | app/src/main/java/com/example/allinone/ui/wt/WTLessonsFragment.kt:150-151 | a two-digit number parses back as its value |
| WTLessonsFragment.ParseFormattedTime | app/src/main/java/com/example/allinone/ui/wt/WTLessonsFragment.kt:144-171 | a time written "HH:MM", or "HHMM", reads back as the same hour and minute |
| WTLessonsFragment.ParseRejectsLetters | app/src/main/java/com/example/allinone/ui/wt/WTLessonsFragment.kt:168-170 | "ab:30": a part that is not a number gives null rather than an error |
| WTLessonsFragment.ParseRejectsLetterInDigits | app/src/main/java/com/example/allinone/ui/wt/WTLessonsFragment.kt:168-170 | "1a30": a letter among the four HHMM characters gives null |
| WTLessonsFragment.RemoveColons | app/src/main/java/com/example/allinone/ui/wt/WTLessonsFragment.kt:117 | the text with its colons dropped holds no colon and is no longer |
| WTLessonsFragment.RemoveColonsIsReplaceAll | app/src/main/java/com/example/allinone/ui/wt/WTLessonsFragment.kt:117 | dropping colons one by one is the replace-all of ":" with "" |
| WTLessonsFragment.RemoveColonsNone | app/src/main/java/com/example/allinone/ui/wt/WTLessonsFragment.kt:117 | text without a colon is left alone |
| WTLessonsFragment.RemoveColonsConcat | app/src/main/java/com/example/allinone/ui/wt/WTLessonsFragment.kt:117 | dropping colons distributes over concatenation |
| WTLessonsFragment.AutoFormatted | app/src/main/java/com/example/allinone/ui/wt/WTLessonsFragment.kt:111-129 | fewer than two digits are left as typed |
| WTLessonsFragment.AutoFormattedShape | app/src/main/java/com/example/allinone/ui/wt/WTLessonsFragment.kt:117-126 | from two digits on, the field shows at most four of them with one colon after the second |
| WTLessonsFragment.AutoFormattedIdempotent | app/src/main/java/com/example/allinone/ui/wt/WTLessonsFragment.kt:111-129 | formatting the watcher's own output changes nothing, so its edit settles at once |
| WTLessonsFragment.SelectedDays | app/src/main/java/com/example/allinone/ui/wt/WTLessonsFragment.kt:201 | the selected days are exactly the checked chips |
| WTLessonsFragment.Requests | app/src/main/java/com/example/allinone/ui/wt/WTLessonsFragment.kt:208-216 | one addLesson call per selected day, each with the parsed start and end |
| WTLessonsFragment.AddLessons | app/src/main/java/com/example/allinone/ui/wt/WTLessonsFragment.kt:173-226 | lessons are added exactly when both fields are filled and parse, the end is after the start and a day is selected; each failure has its own message |
| WTLessonsFragment.AddLessonsRequests | app/src/main/java/com/example/allinone/ui/wt/WTLessonsFragment.kt:195-216 | every lesson added is on a selected day and runs between two in-day times, end after start |
| WTLessonsFragment.ByDayAndStartTotalPreorder | app/src/main/java/com/example/allinone/ui/wt/WTLessonsFragment.kt:248-250 | ordering by day, then start hour, then start minute is total and transitive |
| WTLessonsFragment.SortedLessons | app/src/main/java/com/example/allinone/ui/wt/WTLessonsFragment.kt:239-256 | the cards show the same lessons sorted by day, then start time |
| WTStudentsFragment.WithCountryCode | app/src/main/java/com/example/allinone/ui/wt/WTStudentsFragment.kt:784-790 | the number with country code starts with "+90" and is all digits after the plus |
| WTStudentsFragment.DigitsOfWithCountryCode | app/src/main/java/com/example/allinone/ui/wt/WTStudentsFragment.kt:778-790 | cleaning a number that has the country code keeps everything but its "+" |
| WTStudentsFragment.Spaced | app/src/main/java/com/example/allinone/ui/wt/WTStudentsFragment.kt:798-806 | "+90 XXX XXX XXXX": sixteen characters, spaces at 3, 7 and 11, the digits in their groups |
| WTStudentsFragment.FormatPhoneNumber | app/src/main/java/com/example/allinone/ui/wt/WTStudentsFragment.kt:773-812 | empty exactly when the input is null or holds no digit; otherwise it starts with "+90" and is spaced when thirteen characters long |
| WTStudentsFragment.FormatExample | app/src/main/java/com/example/allinone/ui/wt/WTStudentsFragment.kt:773-812 | "05306778765" formats as "+90 530 677 8765" |
| WTStudentsFragment.ExampleWithCountryCode | app/src/main/java/com/example/allinone/ui/wt/WTStudentsFragment.kt:784-786 | a leading 0 is replaced by "+90" |
| WTStudentsFragment.ExampleSpaced | app/src/main/java/com/example/allinone/ui/wt/WTStudentsFragment.kt:798-806 | the thirteen-character form is split into its groups |
| WTStudentsFragment.DigitsOfSpaced | app/src/main/java/com/example/allinone/ui/wt/WTStudentsFragment.kt:798-806 | the spaced form holds the same digits as the unspaced one |
| WTStudentsFragment.FormatIdempotent | app/src/main/java/com/example/allinone/ui/wt/WTStudentsFragment.kt:773-812 | formatting a formatted number changes nothing, so the duplicate check compares like with like |
| WTStudentsFragment.AcceptedPhoneFormatsFully | app/src/main/java/com/example/allinone/ui/wt/WTStudentsFragment.kt:435-438 | a number the form accepts formats fully spaced exactly when it is not a ten-digit number already starting with 0 or 90 |
| WTStudentsFragment.ValidateStudentForm | app/src/main/java/com/example/allinone/ui/wt/WTStudentsFragment.kt:414-496 | the form is valid exactly when name and phone are filled, the phone has 10 digits or 11 starting with 0, and no other student has the name or the formatted phone (when editing, only a changed name or number is checked, against the other students); each field's error is given in full: Required for an empty field, InvalidPhone for a bad phone, DuplicateName or DuplicatePhone when both fields pass the first checks and the duplicate check finds a match, and none when the field passes |
| WTStudentsFragment.ByLowerNameTotalPreorder | app/src/main/java/com/example/allinone/ui/wt/WTStudentsFragment.kt:256 | ordering by lower-cased name is total and transitive |
| WTStudentsFragment.FilterStudents | app/src/main/java/com/example/allinone/ui/wt/WTStudentsFragment.kt:239-262 | one student per id, those matching the query (all for a blank query), sorted by lower-cased name |
| WTStudentsFragment.WhatsAppNumber | app/src/main/java/com/example/allinone/ui/wt/WTStudentsFragment.kt:1002-1022 | no link number exactly when the phone is null or empty; otherwise "90" followed by the phone's digits and '+' signs with a leading "+90", a leading "90" (twelve or more characters) or a leading "0" dropped, a ten-character number kept whole |
| WTStudentsFragment.WhatsAppNumberStable | app/src/main/java/com/example/allinone/ui/wt/WTStudentsFragment.kt:1010-1013 | a link number of twelve or more characters is mapped to itself |
| TradingUtils.ValidateTPSLPrices | app/src/main/java/com/example/allinone/utils/TradingUtils.kt:77-114 | no error exactly when at least one price is given, a given take profit is positive and beyond the price in the position's favour, and a given stop loss is positive and beyond it the other way |
| TradingUtils.TakeProfitFirst | app/src/main/java/com/example/allinone/utils/TradingUtils.kt:92-103 | a take-profit price that breaks a rule is reported before anything about the stop loss |
| TradingUtils.LongBracket | app/src/main/java/com/example/allinone/utils/TradingUtils.kt:89-111 | on a long position accepted prices satisfy 0 < SL < price < TP |
| TradingUtils.ShortBracket | app/src/main/java/com/example/allinone/utils/TradingUtils.kt:89-111 | on any other position accepted prices satisfy 0 < TP < price < SL |
| TradingUtils.BuildSuccessMessage | app/src/main/java/com/example/allinone/utils/TradingUtils.kt:119-129 | "No changes made" exactly when neither price was given |
| TradingUtils.SuccessMessagePresence | app/src/main/java/com/example/allinone/utils/TradingUtils.kt:123-128 | two messages are equal exactly when the same prices were present, whatever their values |
| TradingUtils.OrderSide | app/src/main/java/com/example/allinone/utils/TradingUtils.kt:37 | the closing order is SELL for a long position and BUY otherwise |
| TradingUtils.SetTPSL | app/src/main/java/com/example/allinone/utils/TradingUtils.kt:19-72 | invalid prices give their error and no repository call; valid ones send one request with the closing side, and success is reported, with the presence message, exactly when the response says so |
| BinanceApiClient.Unsigned | app/src/main/java/com/example/allinone/api/BinanceApiClient.kt:202 | a signed byte read as unsigned lies in 0..255: itself when non-negative, plus 256 when negative |
| BinanceApiClient.HexPair | app/src/main/java/com/example/allinone/api/BinanceApiClient.kt:202-204 | one byte becomes two characters of the lower-case hexadecimal alphabet |
| BinanceApiClient.Hex | app/src/main/java/com/example/allinone/api/BinanceApiClient.kt:198-207 | the text is twice as long as the bytes and uses only "0123456789abcdef" |
| BinanceApiClient.BytesToHex | app/src/main/java/com/example/allinone/api/BinanceApiClient.kt:198-207 | the builder loop appends the pair of every byte in order, giving exactly the hexadecimal text |
| BinanceApiClient.HexValue | app/src/main/java/com/example/allinone/api/BinanceApiClient.kt:199 | a digit of the alphabet has a value below 16 and sits at that index |
| BinanceApiClient.HexValueOfIndex | app/src/main/java/com/example/allinone/api/BinanceApiClient.kt:199 | the digit at index v reads back as v |
| BinanceApiClient.Unhex | app/src/main/java/com/example/allinone/api/BinanceApiClient.kt:198-207 | reading the text back gives one byte per two digits |
| BinanceApiClient.PairBack | app/src/main/java/com/example/allinone/api/BinanceApiClient.kt:202-204 | the high nibble then the low nibble read back as the byte |
| BinanceApiClient.UnhexHex | app/src/main/java/com/example/allinone/api/BinanceApiClient.kt:198-207 | decoding the hexadecimal text gives the bytes back |
| BinanceApiClient.HexInjective | app/src/main/java/com/example/allinone/api/BinanceApiClient.kt:198-207 | two byte strings with the same text are equal |
| BinanceApiClient.PositionsFrom | app/src/main/java/com/example/allinone/api/BinanceApiClient.kt:128-173 | every position read has a non-zero amount, comes from the record at its id, and ids rise |
| BinanceApiClient.ParsePositionResponse | app/src/main/java/com/example/allinone/api/BinanceApiClient.kt:128-174 | text that is not an array gives no positions; otherwise the loop yields exactly the positions read from the records in order, stopping at the first malformed one |
| BinanceApiClient.AllWellFormedRead | app/src/main/java/com/example/allinone/api/BinanceApiClient.kt:131-168 | when every record is well formed, each one with a non-zero amount becomes a position |
| InstagramPostsFragment.TotalSeconds | app/src/main/java/com/example/allinone/ui/instagram/InstagramPostsFragment.kt:775-779 | an Int is taken as is, a String is parsed with a non-numeric one counting as 0, anything else is 0 |
| InstagramPostsFragment.Units | app/src/main/java/com/example/allinone/ui/instagram/InstagramPostsFragment.kt:782-784 | 3600h + 60m + s is the total; minutes and seconds lie in 0..59 for a non-negative total, and with truncating division they are never positive for a negative one |
| InstagramPostsFragment.Parts | app/src/main/java/com/example/allinone/ui/instagram/InstagramPostsFragment.kt:787-790 | one to three units are shown |
| InstagramPostsFragment.UnitEnds | app/src/main/java/com/example/allinone/ui/instagram/InstagramPostsFragment.kt:788-790 | a shown unit starts with no blank and ends with its letter |
| InstagramPostsFragment.AssembleJoins | app/src/main/java/com/example/allinone/ui/instagram/InstagramPostsFragment.kt:786-790 | the builder holds the shown units joined by single spaces, plus one trailing space when the seconds are not shown |
| InstagramPostsFragment.JoinWords | app/src/main/java/com/example/allinone/ui/instagram/InstagramPostsFragment.kt:792 | units joined by spaces neither start nor end with a blank |
| InstagramPostsFragment.TrimWords | app/src/main/java/com/example/allinone/ui/instagram/InstagramPostsFragment.kt:792 | the final trim removes only the trailing space |
| InstagramPostsFragment.TrimmedWords | app/src/main/java/com/example/allinone/ui/instagram/InstagramPostsFragment.kt:786-792 | shown words appended with trailing spaces (none after the seconds) and then trimmed are the words joined by single spaces |
| InstagramPostsFragment.TrimmedAssemble | app/src/main/java/com/example/allinone/ui/instagram/InstagramPostsFragment.kt:786-792 | the trimmed text is the shown units joined by single spaces |
| InstagramPostsFragment.WatchTimeIsParts | app/src/main/java/com/example/allinone/ui/instagram/InstagramPostsFragment.kt:773-797 | the watch time reads as the positive units, and the seconds when positive or when nothing else is shown, separated by single spaces |
| InstagramPostsFragment.ZeroWatchTime | app/src/main/java/com/example/allinone/ui/instagram/InstagramPostsFragment.kt:775-790 | zero, and any value that is not a number, reads "0s" |
| InstagramPostsFragment.WatchTimeAllUnits | app/src/main/java/com/example/allinone/ui/instagram/InstagramPostsFragment.kt:773-797 | 3725 seconds read "1h 2m 5s" |
| InstagramPostsFragment.WatchTimeWholeHour | app/src/main/java/com/example/allinone/ui/instagram/InstagramPostsFragment.kt:773-797 | 3600 seconds read "1h": zero units are not shown |
| InstagramPostsFragment.DisplayMediaType | app/src/main/java/com/example/allinone/ui/instagram/InstagramPostsFragment.kt:526-532 | the product type decides first (REELS, then STORY), then the media type (CAROUSEL_ALBUM is an album, VIDEO a video), and all else is a feed post |
| InstagramPostsFragment.Metrics | app/src/main/java/com/example/allinone/ui/instagram/InstagramPostsFragment.kt:592-596 | stories ask for impressions, reach and replies; reels ask for the base list plus the average watch time; every other type asks for the base list |
| InstagramPostsFragment.StartPost | app/src/main/java/com/example/allinone/ui/instagram/InstagramPostsFragment.kt:546-560 | an album gets the note and no insights request; every other post starts with no metrics and one request |
| InstagramPostsFragment.RequestByType | app/src/main/java/com/example/allinone/ui/instagram/InstagramPostsFragment.kt:546-611 | the request and the follow-up breakdown depend only on the display type: reels none, stories story navigation, feed and video posts profile activity |
| TransactionReportFragment.TotalPages | app/src/main/java/com/example/allinone/ui/TransactionReportFragment.kt:304 | the fewest pages of five that hold the list |
| TransactionReportFragment.Page | app/src/main/java/com/example/allinone/ui/TransactionReportFragment.kt:325-327 | a page holds one to five items, and every page but the last holds exactly five |
| TransactionReportFragment.PagesCoverList | app/src/main/java/com/example/allinone/ui/TransactionReportFragment.kt:304-327 | the pages in order are the whole list, nothing lost or repeated |
| TransactionReportFragment.PagesPrefix | app/src/main/java/com/example/allinone/ui/TransactionReportFragment.kt:325-327 | the first k pages are the first 5k items |
| TransactionReportFragment.Clamp | app/src/main/java/com/example/allinone/ui/TransactionReportFragment.kt:307-312 | the clamped page lies within the page count, and a page already in range is kept |
| TransactionReportFragment.StartDate | app/src/main/java/com/example/allinone/ui/TransactionReportFragment.kt:277-292 | no start date for "All Time"; 7, 30 or 90 days back for the "Last" ranges; the 1st of January for "This Year"; now for any other text |
| TransactionReportFragment.NewestFirstTotal | app/src/main/java/com/example/allinone/ui/TransactionReportFragment.kt:265 | ordering newest first is total and transitive |
| TransactionReportFragment.Filtered | app/src/main/java/com/example/allinone/ui/TransactionReportFragment.kt:255-265 | the list holds exactly the transactions not before the start date and in the selected category, sorted newest first |
| TransactionReportFragment.FilteredComplete | app/src/main/java/com/example/allinone/ui/TransactionReportFragment.kt:259-264 | every transaction passing both filters is listed |
| TransactionReportFragment.Recent | app/src/main/java/com/example/allinone/ui/TransactionReportFragment.kt:236-250 | the recent list holds at most three transactions, drawn from all of them, newest first |
| TransactionReportFragment.RecentAreNewest | app/src/main/java/com/example/allinone/ui/TransactionReportFragment.kt:247-249 | no transaction left out of the recent list is newer than one in it |
| TransactionReportFragment.TransactionReport.constructor | app/src/main/java/com/example/allinone/ui/TransactionReportFragment.kt:64-75 | the screen starts at "Last 30 Days" and "All Categories", with no transactions, page 0 of 0 |
| TransactionReportFragment.TransactionReport.UpdateTransactionsList | app/src/main/java/com/example/allinone/ui/TransactionReportFragment.kt:294-332 | a non-empty list gets its page count and the clamped page's slice; an empty one only hides the list and keeps the counters |
| TransactionReportFragment.TransactionReport.ApplyFilters | app/src/main/java/com/example/allinone/ui/TransactionReportFragment.kt:255-275 | the list becomes the filtered, newest-first transactions and the page goes back to 0 |
| TransactionReportFragment.TransactionReport.ObserveTransactions | app/src/main/java/com/example/allinone/ui/TransactionReportFragment.kt:222-234 | new transactions replace the old, refresh the recent list when there are any, and are filtered again |
| TransactionReportFragment.TransactionReport.PrevPage | app/src/main/java/com/example/allinone/ui/TransactionReportFragment.kt:207-212 | the page goes back by one only from a page after the first |
| TransactionReportFragment.TransactionReport.NextPage | app/src/main/java/com/example/allinone/ui/TransactionReportFragment.kt:214-219 | the page goes forward by one only from a page before the last |
| FirebaseRepository.Upsert | app/src/main/java/com/example/allinone/firebase/FirebaseRepository.kt:567-576 | the element with its id is replaced in place or appended; the list grows by at most one, holds the element, and entries with other ids stay where they were |
| FirebaseRepository.UpsertKeys | app/src/main/java/com/example/allinone/firebase/FirebaseRepository.kt:567-576 | the ids after saving are the ids before plus the saved element's id, and no other |
| FirebaseRepository.SetOrAdd | app/src/main/java/com/example/allinone/firebase/FirebaseRepository.kt:567-576 | the indexOfFirst-then-set-or-add code computes the upsert by id |
| FirebaseRepository.UpsertDistinct | app/src/main/java/com/example/allinone/firebase/FirebaseRepository.kt:567-576 | replacing or appending by id keeps ids distinct |
| FirebaseRepository.UpsertIdempotent | app/src/main/java/com/example/allinone/firebase/FirebaseRepository.kt:567-576 | saving the same element twice leaves the list as saving it once |
| FirebaseRepository.WithoutId | app/src/main/java/com/example/allinone/firebase/FirebaseRepository.kt:616-618 | no entry with the id remains, every other entry stays, and nothing is added |
| FirebaseRepository.SumConcat | app/src/main/java/com/example/allinone/firebase/FirebaseRepository.kt:1053-1057 | the sum of amounts over two lists is the sum of their sums |
| FirebaseRepository.TotalsPartition | app/src/main/java/com/example/allinone/firebase/FirebaseRepository.kt:1053-1057 | the income total plus the expense total is the sum of all amounts |
| FirebaseRepository.TotalAfterAppend | app/src/main/java/com/example/allinone/firebase/FirebaseRepository.kt:539-541 | a new transaction raises its own type's total by its amount and leaves the other alone |
| FirebaseRepository.Matching | app/src/main/java/com/example/allinone/firebase/FirebaseRepository.kt:947-949 | the matches are exactly the students with the same id or the same name ignoring case |
| FirebaseRepository.Overwritten | app/src/main/java/com/example/allinone/firebase/FirebaseRepository.kt:958-972 | overwriting matches keeps the length and every id in place |
| FirebaseRepository.SameIdsFirstIndex | app/src/main/java/com/example/allinone/firebase/FirebaseRepository.kt:961 | lists with the same ids find each id at the same first index |
| FirebaseRepository.OverwrittenHolds | app/src/main/java/com/example/allinone/firebase/FirebaseRepository.kt:958-972 | after the loop, the first entry with a match's id holds the new data under that id |
| FirebaseRepository.OverwrittenStep | app/src/main/java/com/example/allinone/firebase/FirebaseRepository.kt:960-971 | each match's id is found, since overwriting keeps every id in place |
| FirebaseRepository.OverwriteMatches | app/src/main/java/com/example/allinone/firebase/FirebaseRepository.kt:947-978 | the forEach overwrites the matches, appends the student when nothing matched, and saves the last match's id with the new data |
| FirebaseRepository.UpdatedStudents | app/src/main/java/com/example/allinone/firebase/FirebaseRepository.kt:980 | after the update no two students share an id |
| FirebaseRepository.UpdatedKeepsOthers | app/src/main/java/com/example/allinone/firebase/FirebaseRepository.kt:945-980 | a student whose id no matching student has, listed first under that id, is still listed unchanged |
| FirebaseRepository.UpdatedFromOldOrNew | app/src/main/java/com/example/allinone/firebase/FirebaseRepository.kt:945-980 | every student listed after the update is an old one or the new data under some id |
| FirebaseRepository.OverwrittenOthers | app/src/main/java/com/example/allinone/firebase/FirebaseRepository.kt:960-971 | the forEach leaves alone every entry whose id no match has |
| FirebaseRepository.OverwrittenFrom | app/src/main/java/com/example/allinone/firebase/FirebaseRepository.kt:960-971 | each entry after the forEach is the old entry or the new data under its own id |
| FirebaseRepository.BeforeDistinctFrom | app/src/main/java/com/example/allinone/firebase/FirebaseRepository.kt:958-977 | each entry of the list before distinctBy is an old student or the new data under its id |
| FirebaseRepository.UpdatedKeepsMatchedIds | app/src/main/java/com/example/allinone/firebase/FirebaseRepository.kt:958-980 | every matched student is still listed under its own id, with the new data |
| FirebaseRepository.UpdatedAddsNew | app/src/main/java/com/example/allinone/firebase/FirebaseRepository.kt:975-980 | a student matching nobody is appended as given, adding exactly its id |
| FirebaseRepository.UpdatedKeepsIds | app/src/main/java/com/example/allinone/firebase/FirebaseRepository.kt:958-980 | an update that matched adds no id |
| FirebaseRepository.EventWithId | app/src/main/java/com/example/allinone/firebase/FirebaseRepository.kt:1110-1114 | a zero id becomes the UUID bits with the sign cleared, a non-negative long; any other event is kept, and no other field changes |
| FirebaseRepository.FirebaseRepository.constructor | app/src/main/java/com/example/allinone/firebase/FirebaseRepository.kt:59-63 | the caches start empty, sharing the given offline queue |
| FirebaseRepository.FirebaseRepository.InsertTransaction | app/src/main/java/com/example/allinone/firebase/FirebaseRepository.kt:520-559 | exactly one new transaction is appended and, offline, exactly one insert is queued |
| FirebaseRepository.FirebaseRepository.UpdateTransaction | app/src/main/java/com/example/allinone/firebase/FirebaseRepository.kt:565-611 | the cache upserts the transaction by id, and one update is queued offline or when the save fails |
| FirebaseRepository.FirebaseRepository.DeleteTransaction | app/src/main/java/com/example/allinone/firebase/FirebaseRepository.kt:613-635 | every entry with the id goes, the others stay, and offline one delete is queued |
| FirebaseRepository.FirebaseRepository.UpdateStudent | app/src/main/java/com/example/allinone/firebase/FirebaseRepository.kt:944-1020 | the students become the deduplicated update, the result is false only when the online save fails, and the saved student is queued offline or on that failure |
| FirebaseRepository.FirebaseRepository.InsertEvent | app/src/main/java/com/example/allinone/firebase/FirebaseRepository.kt:1106-1146 | online, once saved, the event with its generated id is upserted; offline the event is queued and the cache is untouched |
| FirebaseRepository.FirebaseRepository.DeleteEvent | app/src/main/java/com/example/allinone/firebase/FirebaseRepository.kt:1148-1176 | online, once deleted, every event with the id goes; offline one delete is queued and the cache is untouched |
| CalendarFragment.FutureOrTodayIsNotBefore | app/src/main/java/com/example/allinone/ui/CalendarFragment.kt:223-225 | for calendar dates the year/month/day test holds exactly when the event's day is not before today |
| CalendarFragment.Add | app/src/main/java/com/example/allinone/ui/CalendarFragment.kt:229-238 | adding an event appends it to its own day's list and leaves every other day unchanged |
| CalendarFragment.AddKeepsFull | app/src/main/java/com/example/allinone/ui/CalendarFragment.kt:229-238 | adding an event never creates an empty year, month or day level |
| CalendarFragment.BucketLookup | app/src/main/java/com/example/allinone/ui/CalendarFragment.kt:219-239 | after the observer has run, each day's bucket holds exactly that day's future-or-today events in arrival order, and a past day's bucket is empty |
| CalendarFragment.BucketFull | app/src/main/java/com/example/allinone/ui/CalendarFragment.kt:227-239 | the buckets never hold an empty year, month or day |
| CalendarFragment.DayListMembers | app/src/main/java/com/example/allinone/ui/CalendarFragment.kt:223-238 | an event is in a day's list exactly when it arrived with that day and that day is today or later |
| CalendarFragment.MonthConcatMembers | app/src/main/java/com/example/allinone/ui/CalendarFragment.kt:350-358 | the collected month list holds exactly the events of days 1..k of that month |
| CalendarFragment.ByDateTotal | app/src/main/java/com/example/allinone/ui/CalendarFragment.kt:361 | ordering by date is a total preorder, so the sort is well defined |
| CalendarFragment.MonthEvents | app/src/main/java/com/example/allinone/ui/CalendarFragment.kt:350-362 | the month's events are a permutation of its day lists, sorted by date |
| CalendarFragment.DayEvents | app/src/main/java/com/example/allinone/ui/CalendarFragment.kt:267-268 | the selected day's events are a permutation of its bucket, sorted by date |
| CalendarFragment.ShiftMonth | app/src/main/java/com/example/allinone/ui/CalendarFragment.kt:303 | moving by delta months gives a month in 0..11, and year*12+month moves by exactly delta |
| CalendarFragment.ShiftMonthBack | app/src/main/java/com/example/allinone/ui/CalendarFragment.kt:300-332 | going forward a month and then back returns to the same year and month |
| CalendarFragment.FirstDayPosition | app/src/main/java/com/example/allinone/ui/CalendarFragment.kt:384-387 | the Monday-first column is in 1..7, Sunday is column 7, and every weekday moves back one column modulo 7 |
| CalendarFragment.StyleOf | app/src/main/java/com/example/allinone/ui/CalendarFragment.kt:411-462 | the selected day gets the circle; today gets the circle only when no day is selected and bold text otherwise; every other day is plain |
| CalendarFragment.GridDay | app/src/main/java/com/example/allinone/ui/CalendarFragment.kt:404-406 | a grid cell is empty or holds a day of the month placed at day + firstDayPosition - 1 |
| CalendarFragment.GridPlacement | app/src/main/java/com/example/allinone/ui/CalendarFragment.kt:404-406 | every day of the month lands inside the 42 cells, in the column of its own weekday, and reads back as that day |
| CalendarFragment.CalendarFragment.constructor | app/src/main/java/com/example/allinone/ui/CalendarFragment.kt:69-90 | the screen opens on today's month with today selected, no events, the events list hidden, and the grid already drawn for that month: day i in cell i + firstDayPosition - 1, today circled as the selected day |
| CalendarFragment.CalendarFragment.UpdateCalendarForMonth | app/src/main/java/com/example/allinone/ui/CalendarFragment.kt:368-475 | every cell 1..42 ends up holding its grid day and style for the month shown; all other cells are cleared |
| CalendarFragment.CalendarFragment.UpdateEventsList | app/src/main/java/com/example/allinone/ui/CalendarFragment.kt:263-296 | the list is shown exactly when a day is selected and has events, and then it shows that day's events sorted by date |
| CalendarFragment.CalendarFragment.UpdateEventsForCurrentMonth | app/src/main/java/com/example/allinone/ui/CalendarFragment.kt:340-366 | the day lists become the shown month's buckets and the month list becomes their sorted union; the events list is refreshed |
| CalendarFragment.CalendarFragment.CollectMonth | app/src/main/java/com/example/allinone/ui/CalendarFragment.kt:352-358 | the month's events are each day's list in turn, days 1 to 31 |
| CalendarFragment.CalendarFragment.BucketEvents | app/src/main/java/com/example/allinone/ui/CalendarFragment.kt:206-240 | the buckets become those of the future-or-today events received, each appended under its year, month and day; nothing else changes |
| CalendarFragment.CalendarFragment.ObserveEvents | app/src/main/java/com/example/allinone/ui/CalendarFragment.kt:200-246 | the buckets become those of the future-or-today events received; the month's day lists and sorted events are recomputed; the events list shows the selected day's events exactly when a day is selected and has events, and otherwise keeps its last contents hidden; the grid is redrawn |
| CalendarFragment.CalendarFragment.ClickDay | app/src/main/java/com/example/allinone/ui/CalendarFragment.kt:145-182 | a click on a day selects it in the month shown, redraws the grid and shows its sorted events (the list is hidden, keeping its last contents, when there are none); a click on an empty cell changes nothing: selection, events list and grid stay; the buckets, the month's day lists and events and the month shown stay either way |
| CalendarFragment.CalendarFragment.ChangeMonth | app/src/main/java/com/example/allinone/ui/CalendarFragment.kt:300-332 | the buttons move the month shown by one, drop a selection outside the new month, recompute the month's day lists and sorted events, show the selected day's events exactly when a day is still selected and has events (else the list is hidden with its last contents), and redraw the grid |
| CalendarFragment.SameDayIsEqual | app/src/main/java/com/example/allinone/ui/CalendarFragment.kt:572-576 | two calendar dates are the same day exactly when they are equal, and exactly when their ordinals are |
| WorkoutExerciseFragment.SetsNumbered | app/src/main/java/com/example/allinone/ui/workout/WorkoutExerciseFragment.kt:431-437 | a program exercise yields exactly its number of sets, numbered 1, 2, ... in increasing order, each with the program's reps and weight and not completed |
| WorkoutExerciseFragment.ExerciseFor | app/src/main/java/com/example/allinone/ui/workout/WorkoutExerciseFragment.kt:426-438 | a workout exercise keeps the program exercise's id, name and muscle group and has as many sets as planned |
| WorkoutExerciseFragment.NewWorkout | app/src/main/java/com/example/allinone/ui/workout/WorkoutExerciseFragment.kt:423-450 | the new workout starts now with no end and no duration, carries the program's id and name (none without a program), and has one exercise per program exercise in order, or none |
| WorkoutExerciseFragment.NewWorkoutSets | app/src/main/java/com/example/allinone/ui/workout/WorkoutExerciseFragment.kt:424-442 | the new workout holds exactly the number of sets its program plans |
| WorkoutExerciseFragment.DurationParts | app/src/main/java/com/example/allinone/ui/workout/WorkoutExerciseFragment.kt:495-497 | minutes and seconds recompose the truncated whole seconds, and for a non-negative duration the seconds are 0..59 |
| WorkoutExerciseFragment.FormatDuration | app/src/main/java/com/example/allinone/ui/workout/WorkoutExerciseFragment.kt:494-504 | the text starts "M min" and goes on exactly when there are seconds, then as " SS sec" with two digits |
| WorkoutExerciseFragment.FormatDurationWithSeconds | app/src/main/java/com/example/allinone/ui/workout/WorkoutExerciseFragment.kt:499-503 | 125000 ms reads "2 min 05 sec", the seconds padded to two digits |
| WorkoutExerciseFragment.FormatDurationWholeMinutes | app/src/main/java/com/example/allinone/ui/workout/WorkoutExerciseFragment.kt:499-503 | 120999 ms reads "2 min": leftover milliseconds are dropped and zero seconds are not shown |
| WorkoutExerciseFragment.FormatDurationZero | app/src/main/java/com/example/allinone/ui/workout/WorkoutExerciseFragment.kt:499-503 | 0 ms reads "0 min" |
| WorkoutExerciseFragment.ByMuscleGroup | app/src/main/java/com/example/allinone/ui/workout/WorkoutExerciseFragment.kt:179-187 | a workout is kept exactly when "All Muscle Groups" or nothing is selected or one of its exercises has the selected muscle group; nothing is added |
| WorkoutExerciseFragment.OrderForTotal | app/src/main/java/com/example/allinone/ui/workout/WorkoutExerciseFragment.kt:192-197 | each of the four sort options, and the newest-first default, is a total preorder |
| WorkoutExerciseFragment.Filtered | app/src/main/java/com/example/allinone/ui/workout/WorkoutExerciseFragment.kt:179-197 | the list shown is a permutation of the filtered workouts, sorted by the selected option |
| WorkoutExerciseFragment.FilteredMembers | app/src/main/java/com/example/allinone/ui/workout/WorkoutExerciseFragment.kt:179-197 | a workout is listed exactly when it is logged and passes the muscle-group filter |
| WorkoutExerciseFragment.NewestFirstByDefault | app/src/main/java/com/example/allinone/ui/workout/WorkoutExerciseFragment.kt:192-197 | under "Date (Newest First)" or any option the dropdown does not name, a listed workout never starts before a workout listed after it |
| WorkoutExerciseFragment.WorkoutExerciseFragment.constructor | app/src/main/java/com/example/allinone/ui/workout/WorkoutExerciseFragment.kt:40-47 | the screen starts with no workouts, no selection and no current workout |
| WorkoutExerciseFragment.WorkoutExerciseFragment.ApplyFilters | app/src/main/java/com/example/allinone/ui/workout/WorkoutExerciseFragment.kt:163-209 | with nothing logged only the empty state is shown; otherwise the dropdown texts are recorded and the filtered, sorted list is shown, with the empty state exactly when it is empty |
| WorkoutExerciseFragment.WorkoutExerciseFragment.ShowFiltered | app/src/main/java/com/example/allinone/ui/workout/WorkoutExerciseFragment.kt:172-208 | the dropdown texts are recorded, the list becomes the logged workouts filtered by muscle group and then sorted by the chosen order, the adapter shows it and the empty state is shown exactly when it is empty |
| WorkoutExerciseFragment.WorkoutExerciseFragment.ShowList | app/src/main/java/com/example/allinone/ui/workout/WorkoutExerciseFragment.kt:192-208 | the list is stored and handed to the adapter, the empty state is shown exactly when it is empty, and the workouts and dropdown texts are left as they were |
| WorkoutExerciseFragment.WorkoutExerciseFragment.CreateWorkoutWithProgram | app/src/main/java/com/example/allinone/ui/workout/WorkoutExerciseFragment.kt:423-459 | a negative set count in the program throws (as `List(n)` does) and leaves the current workout as it was; otherwise the new workout built from the program becomes the current one; the logged lists are untouched either way |
| WTCalendarViewModel.WithId | app/src/main/java/com/example/allinone/ui/wt/WTCalendarViewModel.kt:195-200 | only the id can change: a lesson without an id gets one at least 100000000 derived from its weekday, and any other id is kept |
| WTCalendarViewModel.LessonsWithIds | app/src/main/java/com/example/allinone/ui/wt/WTCalendarViewModel.kt:192-201 | the saved list has one lesson per input lesson, in order, each given its id |
| WTCalendarViewModel.WithIdIdempotent | app/src/main/java/com/example/allinone/ui/wt/WTCalendarViewModel.kt:195-198 | giving ids a second time changes nothing |
| WTCalendarViewModel.WithIdDistinct | app/src/main/java/com/example/allinone/ui/wt/WTCalendarViewModel.kt:196 | two lessons without ids get the same id exactly when they fall on the same weekday |
| WTCalendarViewModel.StableEventId | app/src/main/java/com/example/allinone/ui/wt/WTCalendarViewModel.kt:413-417 | for a one-digit weekday the id encodes the day number (truncating) in its leading digits and the weekday in its last |
| WTCalendarViewModel.StableEventIdIff | app/src/main/java/com/example/allinone/ui/wt/WTCalendarViewModel.kt:413-417 | two ids are equal exactly when the weekdays and the day numbers are, so regenerating an event reproduces its id |
| WTCalendarViewModel.StableEventIdSameDay | app/src/main/java/com/example/allinone/ui/wt/WTCalendarViewModel.kt:415 | two instants of the same day get the same id |
| WTCalendarViewModel.QualifyingOnOrAfter | app/src/main/java/com/example/allinone/ui/wt/WTCalendarViewModel.kt:507-508 | every counted event is on or after the start date and is one of the events |
| WTCalendarViewModel.QualifyingPrefix | app/src/main/java/com/example/allinone/ui/wt/WTCalendarViewModel.kt:507-516 | the events counted among the first k are the first ones counted among all |
| WTCalendarViewModel.ToInt | app/src/main/java/com/example/allinone/ui/wt/WTCalendarViewModel.kt:526 | Float.toInt keeps the sign: non-negative stays non-negative and non-positive stays non-positive |
| WTCalendarViewModel.ToIntTruncates | app/src/main/java/com/example/allinone/ui/wt/WTCalendarViewModel.kt:526 | Float.toInt is the whole part toward zero |
| WTCalendarViewModel.AverageGap | app/src/main/java/com/example/allinone/ui/wt/WTCalendarViewModel.kt:537-547 | fewer than two events give 7 days; otherwise the average times the number of gaps is the total of the truncated day gaps |
| WTCalendarViewModel.AverageDaysBetweenLessons | app/src/main/java/com/example/allinone/ui/wt/WTCalendarViewModel.kt:537-547 | the loop returns the average gap |
| WTCalendarViewModel.AverageGapEven | app/src/main/java/com/example/allinone/ui/wt/WTCalendarViewModel.kt:540-546 | events exactly d days apart have an average gap of d days |
| WTCalendarViewModel.TotalGapEven | app/src/main/java/com/example/allinone/ui/wt/WTCalendarViewModel.kt:541-544 | with every gap d days, the total over n events is (n - 1) * d |
| WTCalendarViewModel.TotalGapNonNegative | app/src/main/java/com/example/allinone/ui/wt/WTCalendarViewModel.kt:541-544 | events in date order have a non-negative total gap |
| WTCalendarViewModel.EarliestFirstTotal | app/src/main/java/com/example/allinone/ui/wt/WTCalendarViewModel.kt:475 | ordering by date is a total preorder |
| WTCalendarViewModel.DaysFor | app/src/main/java/com/example/allinone/ui/wt/WTCalendarViewModel.kt:526 | non-negative remaining lessons times a non-negative average give a non-negative number of days |
| WTCalendarViewModel.EndDateFromEvents | app/src/main/java/com/example/allinone/ui/wt/WTCalendarViewModel.kt:499-535 | the result is the date of the event at which the count of events on or after the start reaches the lesson count, else the estimate from the last counted date |
| WTCalendarViewModel.CountEvents | app/src/main/java/com/example/allinone/ui/wt/WTCalendarViewModel.kt:504-516 | the loop stops exactly when enough events are on or after the start, at the event that makes up the count; otherwise it counts them all and keeps the last one's date, or the start |
| WTCalendarViewModel.ReachedAt | app/src/main/java/com/example/allinone/ui/wt/WTCalendarViewModel.kt:507-514 | the event at which the running count reaches the lesson count gives the end date |
| WTCalendarViewModel.EndFromEventsNotBeforeStart | app/src/main/java/com/example/allinone/ui/wt/WTCalendarViewModel.kt:499-535 | for events in date order and a lesson count of zero or more, the end date is never before the start |
| WTCalendarViewModel.CountedDays | app/src/main/java/com/example/allinone/ui/wt/WTCalendarViewModel.kt:483-493 | at most k of k days can be lesson days |
| WTCalendarViewModel.FallbackAsWrittenNeverStops | app/src/main/java/com/example/allinone/ui/wt/WTCalendarViewModel.kt:483-493 | with no listed weekday among 1..7 and a lesson still to count, the loop as written never stops |
| WTCalendarViewModel.WeekdayZeroNeverStops | app/src/main/java/com/example/allinone/ui/wt/WTCalendarViewModel.kt:443-493 | a lesson stored with weekday 0 and the eight lessons the end-date update asks for never stop the loop as written |
| WTCalendarViewModel.CountedMonotone | app/src/main/java/com/example/allinone/ui/wt/WTCalendarViewModel.kt:484-492 | the count of lesson days never goes down as days pass |
| WTCalendarViewModel.CountedWeekly | app/src/main/java/com/example/allinone/ui/wt/WTCalendarViewModel.kt:484-492 | with a listed weekday every 7 days hold at least one lesson day |
| WTCalendarViewModel.CountedLowerBound | app/src/main/java/com/example/allinone/ui/wt/WTCalendarViewModel.kt:484-492 | with a listed weekday k days hold at least k / 7 lesson days, so the loop ends |
| WTCalendarViewModel.FirstReachedAtUnique | app/src/main/java/com/example/allinone/ui/wt/WTCalendarViewModel.kt:484-493 | the day on which the count first reaches the lesson count is unique |
| WTCalendarViewModel.FirstReachedIsLessonDay | app/src/main/java/com/example/allinone/ui/wt/WTCalendarViewModel.kt:486-492 | for a positive lesson count that day is a lesson day after the start, with the count exactly the lesson count |
| WTCalendarViewModel.FallbackAsWrittenStopsAt | app/src/main/java/com/example/allinone/ui/wt/WTCalendarViewModel.kt:483-496 | the loop as written stops on the first day the count reaches the lesson count |
| WTCalendarViewModel.FallbackEndDate | app/src/main/java/com/example/allinone/ui/wt/WTCalendarViewModel.kt:483-496 | with no valid weekday and a positive count it gives start + 8 weeks; with a count of zero or less it gives start, as the loop as written does; otherwise it returns the first day on which the lessonCount-th lesson day is reached, which is where the loop as written stops |
| WTCalendarViewModel.FutureLessons | app/src/main/java/com/example/allinone/ui/wt/WTCalendarViewModel.kt:470-475 | the counted events are a permutation of the lesson events on or after the start, earliest first |
| WTCalendarViewModel.WeekdayCodes | app/src/main/java/com/example/allinone/ui/wt/WTCalendarViewModel.kt:461 | one weekday code per lesson, in order |
| WTCalendarViewModel.LessonDays | app/src/main/java/com/example/allinone/ui/wt/WTCalendarViewModel.kt:461 | the lessons' weekday codes, as a permutation in ascending order |
| WTCalendarViewModel.WTCalendarViewModel.constructor | app/src/main/java/com/example/allinone/ui/wt/WTCalendarViewModel.kt:26-38 | the view model starts with no lessons and no events |
| WTCalendarViewModel.WTCalendarViewModel.SetLessonSchedule | app/src/main/java/com/example/allinone/ui/wt/WTCalendarViewModel.kt:173-204 | the lesson schedule becomes the lessons, each given its id; the events are unchanged |
| WTCalendarViewModel.WTCalendarViewModel.CalculateEndDateAfterLessons | app/src/main/java/com/example/allinone/ui/wt/WTCalendarViewModel.kt:452-497 | no lessons give start + 8 weeks; future lesson events give the end date counted from them; otherwise the first day the lessonCount-th lesson day is reached (start for a count of zero or less), or start + 8 weeks with no valid weekday and a positive count |
| WTCalendarViewModel.EndDateNotBeforeStart | app/src/main/java/com/example/allinone/ui/wt/WTCalendarViewModel.kt:470-480 | the end date from future lesson events, for a lesson count of zero or more, is never before the start |
| GenerateSourceCode.SuffixShape | scripts/generate_source_code.py:34 | the suffix is empty or a dot followed by no other dot, ending the name and shorter than it |
| GenerateSourceCode.LastDotAt | scripts/generate_source_code.py:34 | the suffix starts at the last dot of the name |
| GenerateSourceCode.SuffixExamples | scripts/generate_source_code.py:34 | "Main.kt" has suffix ".kt", "archive.tar.gz" has ".gz", and ".gitignore", "notes." and "gradlew" have none |
| GenerateSourceCode.ShouldIncludeFile | scripts/generate_source_code.py:12-47 | the loop returns the rule checked component by component: the name is not excluded, then each path component in turn is not an excluded directory, then the suffix decides |
| GenerateSourceCode.IncludedIff | scripts/generate_source_code.py:33-47 | a file is included exactly when its name is not excluded, no path component is an excluded directory, and its lower-cased suffix is a source extension |
| GenerateSourceCode.ExcludedBuildOutput | scripts/generate_source_code.py:21-24 | a file with a build directory among its path components is left out, whatever its name and extension |
| GenerateSourceCode.ExcludedBuildScript | scripts/generate_source_code.py:27-31 | build.gradle is left out by name on any path, although .gradle is a source extension |
| GenerateSourceCode.ByNameTotalPreorder | scripts/generate_source_code.py:87 | entries of one directory sort by name in a total preorder |
| GenerateSourceCode.Model | scripts/generate_source_code.py:81-125 | a directory's model is a directory with its own name and no content; its path is the relative path or the name; an unreadable directory has no children |
| GenerateSourceCode.SortedItemsAreEntries | scripts/generate_source_code.py:87 | the sorted listing holds only the directory's own entries |
| GenerateSourceCode.ChildOf | scripts/generate_source_code.py:99-115 | an entry contributes at most one child, under its own name |
| GenerateSourceCode.CreateSourceCodeModel | scripts/generate_source_code.py:81-125 | the loop over the sorted entries builds the directory's model |
| GenerateSourceCode.EntryChild | scripts/generate_source_code.py:97-115 | a subdirectory is kept only when it has children; a file is kept only when it is included, with its content |
| GenerateSourceCode.ChildrenFromItems | scripts/generate_source_code.py:97-118 | every child is well formed and comes from one of the listed entries |
| GenerateSourceCode.ChildOfWellFormed | scripts/generate_source_code.py:100-115 | what one entry contributes is well formed, and a file contributes exactly when it is included |
| GenerateSourceCode.ChildrenSorted | scripts/generate_source_code.py:87-118 | a directory's children are in name order |
| GenerateSourceCode.ModelShape | scripts/generate_source_code.py:81-125 | every child in a model is well formed, and the children are in name order |
| GenerateSourceCode.ChildrenStep | scripts/generate_source_code.py:97-115 | one more entry adds at most one child, after the children already built, and that child carries the entry's name |
| GenerateSourceCode.ChildrenNamed | scripts/generate_source_code.py:97-115 | every child carries the name of one of the entries visited so far |
| GenerateSourceCode.ChildrenGrow | scripts/generate_source_code.py:97-115 | the loop only appends: a child already built is still there after one more entry |
| GenerateSourceCode.ChildrenGainFile | scripts/generate_source_code.py:107-115 | visiting an included file adds its model, with its path and content |
| GenerateSourceCode.ChildrenHaveFiles | scripts/generate_source_code.py:97-115 | every included file among the entries visited so far has its model among the children |
| GenerateSourceCode.IncludedFileListed | scripts/generate_source_code.py:97-115 | every included file of a listed directory is in its model, with its path and content |
| Dates.TruncDiv | app/src/main/java/com/example/allinone/ui/wt/WTCalendarViewModel.kt:415 | Long division by a positive divisor rounds toward zero: q*b is the multiple of b nearest to a on the side of zero |
| Dates.TruncMod | app/src/main/java/com/example/allinone/ui/workout/WorkoutExerciseFragment.kt:497 | the remainder recomposes the dividend with the truncated quotient and takes the dividend's sign, with magnitude below the divisor |
| Dates.DayOfWeek | app/src/main/java/com/example/allinone/ui/wt/WTCalendarViewModel.kt:489 | DAY_OF_WEEK is one of the seven Calendar codes 1..7 |
| Dates.DayOfAddDays | app/src/main/java/com/example/allinone/ui/wt/WTCalendarViewModel.kt:486 | adding n days moves the day number by n |
| Dates.DayOfWeekNext | app/src/main/java/com/example/allinone/ui/wt/WTCalendarViewModel.kt:486-489 | moving one day ahead moves DAY_OF_WEEK one step round the week, Saturday to Sunday |
| Dates.WeekdayWithinWeek | app/src/main/java/com/example/allinone/ui/wt/WTCalendarViewModel.kt:484-492 | every weekday occurs within any 7 consecutive days |
| Sorting.Filter | app/src/main/java/com/example/allinone/ui/workout/WorkoutExerciseFragment.kt:182-186 | filter never lengthens the list, keeps only elements that satisfy the predicate, keeps every input element that does, and adds no occurrences |
| Sorting.FilterCount | app/src/main/java/com/example/allinone/ui/workout/WorkoutExerciseFragment.kt:182-186 | each element that satisfies the predicate occurs as often as in the input; any other occurs not at all |
| Sorting.FilterConcat | app/src/main/java/com/example/allinone/ui/workout/WorkoutExerciseFragment.kt:182-186 | filtering a concatenation filters each part in turn, so filter keeps the input order |
| Sorting.SortBy | app/src/main/java/com/example/allinone/ui/workout/WorkoutExerciseFragment.kt:192-197 | sortedBy returns a permutation of its input |
| Sorting.SortByStable | app/src/main/java/com/example/allinone/ui/workout/WorkoutExerciseFragment.kt:192-197 | sortedBy is stable: the elements tied with any given element come out in their input order |
| Sorting.SortByKeepsTies | app/src/main/java/com/example/allinone/ui/workout/WorkoutExerciseFragment.kt:192-197 | for any predicate whose elements are all tied under the order, sorting leaves the filtered list unchanged |
| Sorting.InsertKeepsTies | app/src/main/java/com/example/allinone/ui/workout/WorkoutExerciseFragment.kt:192-197 | inserting an element puts it before every element tied with it and keeps the other tied elements in order |
| Sorting.SortBySorted | app/src/main/java/com/example/allinone/ui/workout/WorkoutExerciseFragment.kt:192-197 | sortedBy under a total preorder returns a sorted list |
| Sorting.DistinctBy | app/src/main/java/com/example/allinone/firebase/FirebaseRepository.kt:980 | distinctBy keeps one element per key, loses no key and adds nothing |
| Sorting.DistinctByHasFirst | app/src/main/java/com/example/allinone/firebase/FirebaseRepository.kt:980 | the first element of each key is kept |
| Sorting.DistinctByKeepsFirst | app/src/main/java/com/example/allinone/firebase/FirebaseRepository.kt:980 | each element kept is the first one of its key |
| Sorting.FirstIndex | app/src/main/java/com/example/allinone/firebase/FirebaseRepository.kt:568 | indexOfFirst gives the first index holding the key, or -1 exactly when none does |
| Sorting.FirstIndexIs | app/src/main/java/com/example/allinone/firebase/FirebaseRepository.kt:568 | the first index is the only index meeting that description |
| Text.ToLower | scripts/generate_source_code.py:34 | lower-casing keeps the length and maps each character on its own |
| Text.DigitsOnly | app/src/main/java/com/example/allinone/ui/wt/WTStudentsFragment.kt:778 | removing every non-digit leaves only digits and never lengthens the text |
| Text.DigitsOnlyOfDigits | app/src/main/java/com/example/allinone/ui/wt/WTStudentsFragment.kt:778 | a string of digits is left as it is |
| Text.DigitsOnlyConcat | app/src/main/java/com/example/allinone/ui/wt/WTStudentsFragment.kt:778 | removing non-digits works piece by piece |
| Text.DigitsAndPlus | app/src/main/java/com/example/allinone/ui/wt/WTStudentsFragment.kt:1006 | removing everything but digits and '+' leaves only digits and '+' |
| Text.Trim | app/src/main/java/com/example/allinone/ui/wt/WTStudentsFragment.kt:422 | trim never lengthens the text, and what it returns is empty or starts and ends with a non-whitespace character |
| Text.TrimStartSuffix | app/src/main/java/com/example/allinone/ui/wt/WTStudentsFragment.kt:422 | trimming the start removes a run of whitespace in front and keeps the rest of the text as it was |
| Text.TrimEndPrefix | app/src/main/java/com/example/allinone/ui/wt/WTStudentsFragment.kt:422 | trimming the end removes a run of whitespace at the back and keeps the rest of the text as it was |
| Text.TrimIsMiddle | app/src/main/java/com/example/allinone/ui/wt/WTStudentsFragment.kt:422 | trim returns a contiguous piece of the text with only whitespace before and after it |
| Text.TrimEmptyIffBlank | app/src/main/java/com/example/allinone/ui/wt/WTStudentsFragment.kt:617-624 | trim gives "" exactly when the text is blank, that is, all whitespace |
| Text.Split | app/src/main/java/com/example/allinone/data/Schedule.kt:59 | split always yields at least one field |
| Text.SplitJoin | app/src/main/java/com/example/allinone/data/Schedule.kt:57-60 | splitting what joinToString produced gives the fields back, when no field holds the delimiter |
| Text.SplitFieldsHaveNoSep | app/src/main/java/com/example/allinone/data/Schedule.kt:59 | no field of a split holds the delimiter |
| Text.ParseInteger | app/src/main/java/com/example/allinone/data/Schedule.kt:59 | a number parses exactly when it is an optional sign followed by at least one digit |
| Text.ToIntOrNull | app/src/main/java/com/example/allinone/data/Schedule.kt:59 | toIntOrNull gives the parsed value exactly when it parses and fits in 32 bits, and null otherwise |
| Text.IntToStringRoundTrip | app/src/main/java/com/example/allinone/data/Schedule.kt:59 | rendering an integer in decimal and parsing it back gives the integer |
| Text.Pad2 | app/src/main/java/com/example/allinone/ui/workout/WorkoutExerciseFragment.kt:500 | %02d writes a number 0..99 as its two decimal digits |
| Text.SplitLimit | app/src/main/java/com/example/allinone/utils/LogcatHelper.kt:175 | split with a limit of n yields between one and n fields |
| Text.SubstringAfterLast | app/src/main/java/com/example/allinone/adapters/FileStructureAdapter.kt:66 | the text after the last delimiter holds no delimiter, and a text without one is returned whole |
| Text.StrLeTotal | scripts/generate_source_code.py:87 | any two names are ordered one way or the other |
| Text.StrLeTransitive | scripts/generate_source_code.py:87 | the name order is transitive |
| Text.ToLongOrNull | app/src/main/java/com/example/allinone/utils/LogcatHelper.kt:178 | toLong gives the parsed value exactly when it parses and fits in 64 bits, and fails otherwise |

## Left out

- Network, Firebase and HTTP calls: their results (`online`, `saved`, server replies, the processor's verdicts) are parameters. What they write remotely is not modelled.
- Concurrency: coroutine scopes, LiveData/StateFlow observers and the order in which callbacks interleave are not modelled. Each operation runs to completion on the state it is given.
- Floating point: `Float` and `Double` are exact `real`s, so rounding error is not modelled. The colour wheel's atan2 angle and its HSV brightness change are inputs (the angle's `unit`, a brightness function). TradingUtils' `formatPrice` and `formatCurrency` are left out because they are locale-dependent floating-point formatting.
- TradingUtils `checkServiceHealth` is left out because it only probes the network.
- java.util.Calendar: a date's year, month and day of the month, the weekday of a month's first day and a month's length are inputs to CalendarFragment. Elsewhere, days are fixed 86 400 000 ms steps and daylight-saving shifts are ignored. TransactionReportFragment's "This Year" start takes the day of the year as a parameter.
- Case folding and digits: only ASCII letters are lower-cased and only ASCII digits count as digits. Kotlin's Unicode-aware `lowercase()` and `isDigit()` agree with this on ASCII text only.
- Text.ToLower: states the per-character mapping for ASCII letters only, as above.
- ColorPicker.Argb: the 32-bit colour word is an unsigned number below 2^32, and Java's signed `int` reading of it is not modelled.
- The onTouchEvent DOWN case follows the code. DOWN inside the centre dot returns after setting the flags. Only DOWN outside the centre falls through to the move branch.
- WorkoutExerciseFragment.NewWorkout: requires every set count to be 0 or more. Kotlin's `List(n)` throws IllegalArgumentException for a negative count. That failure is modelled once, in CreateWorkoutWithProgram, which reports it and assigns nothing.
- WorkoutExerciseFragment.ExerciseFor: requires a set count of 0 or more, for the same reason as NewWorkout.
- WorkoutExerciseFragment.SetsFor: requires a set count of 0 or more, for the same reason as NewWorkout.
- CalendarFragment.CalendarFragment.CollectMonth: the app walks the month's map in insertion order, and the model walks days 1 to 31. The two lists are then sorted stably by date. Each event is bucketed under the day of its own date, so events of different days never tie and both orders give the same sorted list. The model does not prove this, since the bucket keys are inputs here and not derived from the event's date.
- CalendarViewModel: `addEvent`, `deleteEvent`, `postponeLesson`, `generateLessonEvents`, `generateRegistrationEvents` and `updateEventsFromFirebase` are outside the modelled core. Only `addEventDirectly`, `cancelLesson` and the date calculators are modelled.
- WTRegistryFragment's `calculateEndDateAfterNLessons` and `calculateEndDateAfterLessons` are line-for-line copies of CalendarViewModel's calculators. Both are modelled once in LessonDates, whose rows cite whichever file the lines come from.
- WTCalendarViewModel `updateStudentSubscriptionEndDates`: it only loops over the students and writes each end date to Firebase. The end date itself is CalculateEndDateAfterLessons with a lesson count of 8.
- WTCalendarViewModel.WTCalendarViewModel.CalculateEndDateAfterLessons: when no lesson event is at or after the start, no lesson weekday lies in 1..7 and the lesson count is positive, the model returns start + 8 weeks. The code as written never returns in that case (see Findings). With a count of zero or less the loop does not run, and the model returns start as the code does.
- TransactionReportFragment.TransactionReport.UpdateTransactionsList: when the filtered list is empty, the code keeps the previous page count, and so does the model. Its invariant therefore says nothing about the page count in that case.
- GenerateSourceCode: reading a file (size limit, UTF-8 then Latin-1 decoding, JSON validation) is an input carried with the file. Exceptions raised while processing an entry, which the script logs and skips, are not modelled. `main()`, which writes the JSON file and copies it into the assets, is left out as file I/O.
- GenerateSourceCode.ShouldIncludeFile: the path components are given relative to the scanned root. The script checks every component of the full path, including those above the project root.
- FirebaseRepository: Gson serialisation of queued payloads is a parameter (`encode`). Random UUIDs and the clock are parameters.
- LogcatHelper: the logcat process and its regex match are parameters. The file is a field holding its text, written with a "\n" after each line and read back at "\n", "\r" or "\r\n" as `useLines` does.
- Program.kt and the other data classes not used by the modelled logic are not part of this model.
- The view code is not modelled: binding updates, toasts, dialogs, navigation, adapters' view holders, charts and summaries. Where a screen's state decides what a list shows, the shown list and the empty state are fields.

## Findings

| source | as written | input that shows it | evidently intended | confidence | as-written member | corrected member |
|---|---|---|---|---|---|---|
| app/src/main/java/com/example/allinone/ui/wt/WTCalendarViewModel.kt:483-493 | the fallback loop counts the days whose DAY_OF_WEEK is among the lessons' `dayOfWeek` values, and stops only when the count reaches `lessonCount` | lessons all stored with `dayOfWeek` 0 (or any value outside 1..7), no "Lesson" event at or after the start, lessonCount 8 as `updateStudentSubscriptionEndDates` passes: no day ever counts and the loop never ends | stop on the day the lessonCount-th lesson day is reached, and fall back to start + 8 weeks (as for an empty lesson list) when no lesson weekday is a valid DAY_OF_WEEK and the count is positive | not executed | WTCalendarViewModel.FallbackAsWritten | WTCalendarViewModel.FallbackEndDate |
