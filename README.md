# my-react-app: due dates, TODO stores, calendar and daily fortune in Dafny

This project models the deterministic rules of the React demo
`my-react-app` and proves properties of them:

- the due-date validator of the TODO page (`validateDate`): the
  `YYYY-MM-DD` shape, a date that exists, and a day not before today;
- the TODO page's state (`TodoApp.tsx`) as a class over a `seq<Todo>`, with
  its browser-storage copy, its new-item form, its two inline editors and the
  clear-all window in which nothing is saved;
- the earlier TODO page (`TodoApp.js`) as a class of its own, with list
  operations shown to agree with the later page's;
- the due-status predicates `isOverdue` / `isDueToday` and the item's class
  list (`TodoItem.tsx`), and the item's Enter/Escape/blur dispatch;
- the date picker (`Calendar.tsx`): the 42-cell Monday-first month grid built
  by a loop, selectability by string comparison of zero-padded dates, the
  emitted `YYYY-MM-DD` string, and month navigation;
- the daily fortune (`Fortune.tsx`): the date seed, the index selection into
  the 6-entry and 32-entry tables, the loop that keeps the two lucky items
  apart, and the reveal flag.

Dates are civil `(year, month, day)` triples under the proleptic Gregorian
calendar (`CivilDate`). A day count from 1970-01-01 (`EpochDay`) stands for a
local-midnight time value, and `Weekday` stands for `getDay`. The clock is
always a parameter (`today`, `now`). Supplying it is the caller's job:
- `Date.now()` ids;
- the answer to `window.confirm`;
- the pseudo-random transform of a seed.

Modules, one per file:
- `Wrappers`: `Option`.
- `CivilDate`: leap rule, month lengths, day counts, weekdays, next day.
- `JsText`: JavaScript `trim`, digits, `parseInt`, `padStart`, string `<`, `filter(Boolean)`, `join`.
- `DateString`: the `YYYY-MM-DD` format, shape and reading.
- `DateValidator`.
- `Todos`: the record and the list operations.
- `TodoItem`.
- `TodoStore`: the `TodoApp.tsx` state.
- `LegacyTodoApp`: the `TodoApp.js` state.
- `Calendar`.
- `Fortune`.

## Model

| member | source | states |
|---|---|---|
| CivilDate.DaysInMonth | src/pages/TodoApp.tsx:59-65 | February has 29 days in leap years and 28 otherwise; April, June, September and November have 30; every other month has 31 |
| CivilDate.NextDay | src/components/ui/Calendar.tsx:107 | `setDate(getDate() + 1)` gives an existing date, later than the old one, one day count on |
| CivilDate.EpochDayOrder | src/pages/TodoApp.tsx:67-74 | comparing two midnights' time values is chronological order on dates, and equal time values mean the same date |
| CivilDate.WeekdayOfNextDay | src/components/ui/Calendar.tsx:94 | the weekday of the next day is the next weekday, with Saturday wrapping to Sunday |
| JsText.TrimSpec | src/pages/TodoApp.tsx:80 | `trim` keeps the contiguous middle of the string: whitespace is removed only from the two ends, and the result begins and ends with a non-whitespace character |
| JsText.Trim | src/pages/TodoApp.tsx:80 | `String.prototype.trim` as leading then trailing whitespace removal; its meaning is stated by `TrimSpec` and `TrimEmptyIffBlank` |
| JsText.TrimEmptyIffBlank | src/pages/TodoApp.tsx:41 | the trimmed string is empty exactly when every character is whitespace |
| JsText.DigitsValueOfFixed | src/pages/TodoApp.tsx:53-56 | `parseInt` of a zero-padded decimal recovers the number |
| JsText.PadStart2IsFixed | src/components/ui/Calendar.tsx:41-42 | `String(n).padStart(2, '0')` of a number below 100 is its two-digit form |
| JsText.FixedOrder | src/components/ui/Calendar.tsx:56-60 | equal-width zero-padded decimals compare as strings exactly as their numbers compare |
| JsText.NonEmptyOfFour | src/components/ui/TodoItem.tsx:88-94 | `filter(Boolean)` on four strings keeps the non-empty ones in their order |
| DateString.ParseFullDate | src/pages/TodoApp.tsx:53-56 | the three fields of a well-shaped string read as a year of at most four digits and a month and day of at most two |
| DateString.IsFullDateShape | src/pages/TodoApp.tsx:45-47 | the regex `^\d{4}-\d{2}-\d{2}$`: ten characters, digits in the four, two and two field positions and hyphens between; `FormatYmdShape` and `ShapedIsNotBlank` state what it accepts |
| DateString.FormatYmd | src/components/ui/Calendar.tsx:117-120 | the emitted `${year}-${MM}-${DD}` string; `FormatYmdShape`, `FormatYmdRoundTrip` and `FormatYmdOrder` state its shape, inverse and order |
| DateString.ShapedIsNotBlank | src/pages/TodoApp.tsx:41-47 | a well-shaped string is its own trimmed form and is not blank |
| DateString.FormatYmdShape | src/components/ui/Calendar.tsx:117-120 | the string the calendar emits has the `YYYY-MM-DD` shape exactly when the year has four digits |
| DateString.FormatYmdRoundTrip | src/components/ui/Calendar.tsx:117-120 | reading back an emitted date gives the same date |
| DateString.FormatYmdOrder | src/components/ui/Calendar.tsx:50-60 | for four-digit years, the string order of emitted dates is chronological order, and equal strings mean equal dates |
| DateValidator.ValidateDate | src/pages/TodoApp.tsx:40-77 | the result is valid exactly when its error is empty, and the error is one of the three fixed messages |
| DateValidator.ValidateBlank | src/pages/TodoApp.tsx:41-43 | an empty or whitespace-only string is valid with no error |
| DateValidator.ValidateMalformed | src/pages/TodoApp.tsx:45-49 | a non-blank string without the `YYYY-MM-DD` shape gets the format message |
| DateValidator.ValidateNonexistent | src/pages/TodoApp.tsx:51-65 | a well-shaped string with month 0 or above 12, day 0, or a day past the month's end gets the nonexistent-date message |
| DateValidator.ValidateLeapDay | src/pages/TodoApp.tsx:51-65 | 29 February from today on is accepted in leap years and rejected as nonexistent otherwise |
| DateValidator.ValidatePast | src/pages/TodoApp.tsx:67-74 | an existing date before today gets the past-date message |
| DateValidator.ValidateTodayOrLater | src/pages/TodoApp.tsx:67-76 | an existing date today or later is valid with no error |
| DateValidator.ValidateCharacterization | src/pages/TodoApp.tsx:40-77 | valid exactly for blank strings and for well-shaped existing dates not before today |
| DateValidator.ValidateFormatted | src/pages/TodoApp.tsx:40-77 | a date written as the calendar writes it is rejected as past exactly when it is before today, and accepted otherwise |
| DateValidator.ValidateFebruary30 | src/pages/TodoApp.tsx:51-65 | `2025-02-30` is rejected as nonexistent |
| DateValidator.ValidateMonth13 | src/pages/TodoApp.tsx:51-65 | `2025-13-01` is rejected as nonexistent |
| DateValidator.ValidateMonth00 | src/pages/TodoApp.tsx:51-65 | `2025-00-10` is rejected as nonexistent |
| Todos.DateOrNull | src/pages/TodoApp.tsx:97 | `value \|\| null` is null exactly for the empty string and otherwise the value itself |
| Todos.MapWhereId | src/pages/TodoApp.tsx:108-110 | the mapped list has the same length, and each entry is updated exactly when its id matches |
| Todos.Toggled | src/pages/TodoApp.tsx:107-110 | same length and order; `completed` flips on the entries with the id, and every other field and entry is unchanged |
| Todos.WithText | src/pages/TodoApp.tsx:128-130 | same length and order; only the text of the entries with the id changes, to the given text |
| Todos.WithDueDate | src/pages/TodoApp.tsx:170-172 | same length and order; only the due date of the entries with the id changes |
| Todos.Deleted | src/pages/TodoApp.tsx:116 | the result holds exactly the entries whose id differs |
| Todos.ToggledTwice | src/pages/TodoApp.tsx:107-110 | toggling the same id twice restores the list |
| Todos.MapWhereAbsentId | src/pages/TodoApp.tsx:108-110 | updating an id no entry carries changes nothing |
| Todos.DeletedAppend | src/pages/TodoApp.tsx:116 | deletion keeps the relative order of the remaining entries |
| Todos.DeletedAbsentId | src/pages/TodoApp.tsx:116 | deleting an unknown id changes nothing |
| Todos.DeletedIdempotent | src/pages/TodoApp.tsx:116 | deleting twice is deleting once |
| Todos.CountsPartition | src/pages/TodoApp.tsx:425-427 | completed plus pending is the list length |
| Todos.CountsAppend | src/pages/TodoApp.tsx:425-427 | the counts of a concatenation add up, so an appended pending entry raises the pending count by one |
| Todos.Stats | src/pages/TodoApp.tsx:425-427 | the statistics line's total is the length, and completed plus pending is the total |
| TodoItem.DueDay | src/components/ui/TodoItem.tsx:54-70 | a due date names a day exactly when it is a well-shaped existing date, and then it names that date |
| TodoItem.IsOverdue | src/components/ui/TodoItem.tsx:54-61 | `isOverdue`: the due day's midnight lies before today's; `IsOverdueIff` states it as date order and `NoDueDateNoStatus` the missing date |
| TodoItem.IsDueToday | src/components/ui/TodoItem.tsx:63-70 | `isDueToday`: the due day's midnight is today's; `IsDueTodayIff` states it as date equality |
| TodoItem.NoDueDateNoStatus | src/components/ui/TodoItem.tsx:54-70 | a null or empty due date is neither overdue nor due today |
| TodoItem.IsOverdueIff | src/components/ui/TodoItem.tsx:54-61 | overdue exactly when the due day exists and lies before today |
| TodoItem.IsDueTodayIff | src/components/ui/TodoItem.tsx:63-70 | due today exactly when the due day is today |
| TodoItem.NotOverdueAndDueToday | src/components/ui/TodoItem.tsx:54-70 | never both overdue and due today |
| TodoItem.StatusOfFormattedDate | src/pages/TodoApp.tsx:229-245 | for a date as the calendar writes it, overdue is "before today" and due today is "equals today" |
| TodoItem.CompletedItemClasses | src/components/ui/TodoItem.tsx:88-95 | a completed item's classes are exactly the base and completed classes, with neither highlight |
| TodoItem.PendingItemClasses | src/components/ui/TodoItem.tsx:88-95 | an open item has the base class, not the completed one, each highlight exactly when its predicate holds, and at most two classes |
| TodoItem.ItemClasses | src/components/ui/TodoItem.tsx:88-95 | the class array filtered of empty entries and joined with spaces; `CompletedItemClasses`, `PendingItemClasses` and `PendingItemClassString` give its value in every case |
| TodoItem.PendingItemClassString | src/components/ui/TodoItem.tsx:88-95 | an open item's class string is the base class alone, or the base class, a space and the one highlight it has |
| TodoItem.TextEditKeyDown | src/components/ui/TodoItem.tsx:72-78 | Enter commits the trimmed text as blur does, Escape calls the optional cancel, and any other key calls nothing |
| TodoItem.DateEditKeyDown | src/components/ui/TodoItem.tsx:80-86 | Enter commits the edited date or null as blur does, Escape calls the optional cancel, and any other key calls nothing |
| TodoItem.TextEditBlur | src/components/ui/TodoItem.tsx:112 | leaving the text editor calls `onEditText` with the item's id and the draft with its end whitespace removed: a contiguous part of the draft with only whitespace outside it, empty exactly when the draft is blank, and otherwise with no whitespace at either end |
| TodoItem.DateEditBlur | src/components/ui/TodoItem.tsx:131 | leaving the date editor calls `onEditDate` with the item's id and null exactly when the draft is empty, otherwise the draft itself |
| TodoStore.TodoApp.constructor | src/pages/TodoApp.tsx:6-30 | the list is the saved one, or empty when storage is absent or unreadable; the form and both editors start empty |
| TodoStore.LoadTodos | src/pages/TodoApp.tsx:6-20 | the initial list: the saved list when the key holds one, and the empty list when it is absent or does not parse; the constructor's contract states it |
| TodoStore.TodoApp.Statistics | src/pages/TodoApp.tsx:425-427 | the total is the list length, and completed plus pending is the total |
| TodoStore.TodoApp.SaveTodos | src/pages/TodoApp.tsx:33-37 | storage then holds exactly the given list, unless clearing is in progress, when it is left as it was |
| TodoStore.TodoApp.SetInputValue | src/pages/TodoApp.tsx:270-272 | the input holds the typed text |
| TodoStore.TodoApp.HandleDateValueChange | src/pages/TodoApp.tsx:205-210 | the due-date field holds the value and its error is cleared |
| TodoStore.TodoApp.ToggleManualDate | src/pages/TodoApp.tsx:288 | the manual-entry switch flips |
| TodoStore.TodoApp.AddTodo | src/pages/TodoApp.tsx:79-105 | blank text changes nothing. A failing manual date changes only the form's error, which becomes the validator's message. Otherwise exactly one pending record with the trimmed text and the date or null is appended, storage is updated and the form is cleared |
| TodoStore.TodoApp.HandleKeyDown | src/pages/TodoApp.tsx:196-203 | Enter in the new-item box adds as above; any other key or target changes nothing |
| TodoStore.TodoApp.ToggleTodo | src/pages/TodoApp.tsx:107-113 | the list becomes `Todos.Toggled` of the old one and is saved; the form and editors are unchanged |
| TodoStore.TodoApp.DeleteTodo | src/pages/TodoApp.tsx:115-119 | the list becomes `Todos.Deleted` of the old one and is saved; the form and editors are unchanged |
| TodoStore.TodoApp.StartEditing | src/pages/TodoApp.tsx:121-124 | the text editor opens on the id with the given text |
| TodoStore.TodoApp.SetEditingText | src/pages/TodoApp.tsx:346-348 | the editor holds the typed text |
| TodoStore.TodoApp.SaveEdit | src/pages/TodoApp.tsx:126-136 | non-blank trimmed text replaces the text of the entries with the id and is saved; blank text leaves list and storage alone; the editor closes either way |
| TodoStore.TodoApp.CancelEdit | src/pages/TodoApp.tsx:138-141 | the text editor closes and nothing else changes |
| TodoStore.TodoApp.HandleEditKeyDown | src/pages/TodoApp.tsx:143-152 | Enter saves, Escape cancels, and any other key leaves the whole state unchanged |
| TodoStore.TodoApp.StartEditingDate | src/pages/TodoApp.tsx:154-157 | the date editor opens on the id with its date, or empty when it has none |
| TodoStore.TodoApp.HandleEditDateChange | src/pages/TodoApp.tsx:212-217 | the editor holds the value and its error is cleared |
| TodoStore.TodoApp.SaveDateEdit | src/pages/TodoApp.tsx:159-177 | a non-empty date that fails validation only sets the editor's error and keeps the editor open. Otherwise the due date of the entries with the id becomes the date, or null when it is empty, the list is saved and the editor closes |
| TodoStore.TodoApp.CancelDateEdit | src/pages/TodoApp.tsx:179-183 | the date editor closes, its error clears, and nothing else changes |
| TodoStore.TodoApp.HandleDateEditKeyDown | src/pages/TodoApp.tsx:185-194 | Enter saves the date, Escape cancels, and any other key leaves the whole state unchanged |
| TodoStore.TodoApp.ClearAllData | src/pages/TodoApp.tsx:247-258 | when confirmed, the list is empty, the storage key is removed and saving is suspended; otherwise list, storage and flag are unchanged |
| TodoStore.TodoApp.EndClearing | src/pages/TodoApp.tsx:256 | the clearing window ends, so saving resumes |
| LegacyTodoApp.UpgradeAll | src/types/todo.ts:1-6 | each earlier record becomes the later record with the same fields and no due date |
| LegacyTodoApp.Toggled | src/pages/TodoApp.js:22-26 | same length; ids and texts kept, `completed` flipped exactly on the entries with the id |
| LegacyTodoApp.Deleted | src/pages/TodoApp.js:28-30 | the result holds exactly the entries whose id differs |
| LegacyTodoApp.CountsPartition | src/pages/TodoApp.js:83-85 | completed plus pending is the list length |
| LegacyTodoApp.ToggledAgrees | src/pages/TodoApp.js:22-26 | the earlier page's toggle is the later page's toggle on records without a due date |
| LegacyTodoApp.DeletedAgrees | src/pages/TodoApp.js:28-30 | the earlier page's delete is the later page's delete, in order |
| LegacyTodoApp.CountsAgree | src/pages/TodoApp.js:83-85 | the earlier page's counts are the later page's |
| LegacyTodoApp.TodoApp.constructor | src/pages/TodoApp.js:5-6 | the list and the input start empty |
| LegacyTodoApp.TodoApp.Statistics | src/pages/TodoApp.js:83-85 | the total is the list length, and completed plus pending is the total |
| LegacyTodoApp.TodoApp.SetInputValue | src/pages/TodoApp.js:47 | the input holds the typed text |
| LegacyTodoApp.TodoApp.AddTodo | src/pages/TodoApp.js:8-20 | blank input leaves list and input unchanged; otherwise exactly one pending record with the trimmed text is appended and the input is cleared |
| LegacyTodoApp.TodoApp.ToggleTodo | src/pages/TodoApp.js:22-26 | the list becomes the toggled list |
| LegacyTodoApp.TodoApp.DeleteTodo | src/pages/TodoApp.js:28-30 | the list becomes the filtered list |
| LegacyTodoApp.TodoApp.HandleKeyPress | src/pages/TodoApp.js:32-36 | Enter adds as above; any other key changes nothing |
| Calendar.SelectableChronological | src/components/ui/Calendar.tsx:47-65 | for four-digit years a day is selectable exactly when it is not before the minimum (today when none is given) and not after the maximum, if there is one |
| Calendar.EffectiveMinDate | src/components/ui/Calendar.tsx:47 | `minDate \|\| today`: the minimum string, or today's string when none or an empty one is given |
| Calendar.IsDateSelectable | src/components/ui/Calendar.tsx:50-65 | the string comparison against the effective minimum and a given non-empty maximum; `SelectableChronological` and `SelectedDatePassesValidation` state what it admits |
| Calendar.SelectedDatePassesValidation | src/components/ui/Calendar.tsx:47-65 | with no minimum given, the string of a selectable day passes the due-date validator |
| Calendar.MonthStart | src/components/ui/Calendar.tsx:128-140 | the intended month start for `new Date(year, monthIndex, 1)`, with years taken as written, is an existing first of a month, `monthIndex` months after January of `year` |
| Calendar.PreviousMonthWraps | src/components/ui/Calendar.tsx:128-130 | one month back is the first of the previous month, January wrapping to December of the year before |
| Calendar.NextMonthWraps | src/components/ui/Calendar.tsx:133-135 | one month forward is the first of the next month, December wrapping to January of the year after |
| Calendar.NavigationRoundTrip | src/components/ui/Calendar.tsx:128-135 | forward then back returns to the first of the same month |
| Calendar.JsMonthStart | src/components/ui/Calendar.tsx:129 | the `Date` constructor as JavaScript evaluates it, with years 0..99 read as 1900..1999 |
| Calendar.JsPreviousMonthLeavesYear99 | src/components/ui/Calendar.tsx:128-130 | as written, going back from December 99 lands in November 1999, not one month earlier |
| Calendar.LeadingBlanks | src/components/ui/Calendar.tsx:94 | the first of the month sits in column 0..6, Monday being column 0 |
| Calendar.CalendarGrid | src/components/ui/Calendar.tsx:97-110 | the grid has exactly 42 cells |
| Calendar.FirstMinusDays | src/components/ui/Calendar.tsx:93-95 | stepping back fewer than 28 days from the first of a month gives an existing date that many days earlier |
| Calendar.GridStart | src/components/ui/Calendar.tsx:93-95 | the grid starts on the Monday on or before the first of the month |
| Calendar.GridDateStep | src/components/ui/Calendar.tsx:101-108 | the date in `current` for each cell exists, lies in the shown month exactly for filled cells, and is followed by the next day |
| Calendar.GenerateCalendarDays | src/components/ui/Calendar.tsx:84-111 | the loop builds exactly the 42-cell grid of the shown month |
| Calendar.GridLayout | src/components/ui/Calendar.tsx:88-108 | leading blanks equal to the first's column, then days 1 to the month's last in order, then blanks |
| Calendar.GridDayExactlyOnce | src/components/ui/Calendar.tsx:101-108 | each day of the month appears in exactly one cell |
| Calendar.GridCellsConsecutive | src/components/ui/Calendar.tsx:101-108 | filled cells hold existing days of the month, and adjacent filled cells hold consecutive days |
| Calendar.DayColumn | src/components/ui/Calendar.tsx:94 | day `d` sits `d - 1` columns after the first of the month, modulo 7 |
| Calendar.GridColumnIsWeekday | src/components/ui/Calendar.tsx:92-108 | every filled cell lies in its weekday's column, Monday first |
| Calendar.CalendarState.constructor | src/components/ui/Calendar.tsx:31-35 | mounted closed, showing the first of the current month |
| Calendar.CalendarState.ToggleOpen | src/components/ui/Calendar.tsx:193 | the button opens or closes the dropdown unless disabled, and the state stays well-formed |
| Calendar.CalendarState.HandleDateSelect | src/components/ui/Calendar.tsx:114-125 | an unselectable day emits nothing and changes nothing; a selectable one emits its `YYYY-MM-DD` string and closes the dropdown exactly when `autoClose` is set |
| Calendar.CalendarState.GoToPreviousMonth | src/components/ui/Calendar.tsx:128-130 | the shown month moves one back, to day 1, wrapping the year at January |
| Calendar.CalendarState.GoToNextMonth | src/components/ui/Calendar.tsx:133-135 | the shown month moves one forward, to day 1, wrapping the year at December |
| Calendar.CalendarState.GoToToday | src/components/ui/Calendar.tsx:138-141 | the shown month becomes the first of the clock's month |
| Calendar.CalendarState.CalendarDays | src/components/ui/Calendar.tsx:143 | the rendered cells are the grid of the shown month |
| Fortune.SeedInjective | src/pages/Fortune.tsx:93-98 | different existing dates give different seeds |
| Fortune.GenerateSeed | src/pages/Fortune.tsx:93-98 | `year * 10000 + getMonth() * 100 + getDate()` with the zero-based month; `SeedInjective` states that it tells days apart |
| Fortune.ScaledIndex | src/pages/Fortune.tsx:112 | `Math.floor(x * n)` for `x` in [0, 1) is an index in 0..n-1 |
| Fortune.ScaledIndexIsFloor | src/pages/Fortune.tsx:112-122 | the index `i` satisfies `i <= x * n < i + 1`, so it is `Math.floor(x * n)` |
| Fortune.DrawFor | src/pages/Fortune.tsx:109-122 | the fortune index is in 0..5, and the two item indices are in 0..31 |
| Fortune.SecondItemIndexDiffers | src/pages/Fortune.tsx:124-127 | after the loop the second index is in 0..31, differs from the first, and is untouched when it already differed |
| Fortune.GenerateTodaysFortune | src/pages/Fortune.tsx:107-138 | the loop terminates and the method returns the day's result, a function of the date and the transform only |
| Fortune.FortuneFor | src/pages/Fortune.tsx:107-138 | the day's result as a function of the date and the transform; `GenerateTodaysFortune` is proved to return it, and `FortuneForShape`, `FortuneLabel` and `DisplayedItemsMatch` state its properties |
| Fortune.LuckyItemsDistinct | src/pages/Fortune.tsx:51-84 | the 32 lucky items are pairwise different |
| Fortune.FortuneFromIndicesShape | src/pages/Fortune.tsx:124-137 | label, description and colour come from one table entry; exactly two items, the first-drawn item and then the item the loop settles on (`SecondItemIndex`), and they differ |
| Fortune.FortuneForShape | tests/fortune.spec.js:132 | for every day and transform the two lucky items are table items and differ |
| Fortune.FortuneLabel | tests/fortune.spec.js:41 | the label is one of the six fortunes |
| Fortune.TestedPatternMissesItems | tests/fortune.spec.js:135-136 | the tests' emoji pattern rejects two table items, U+1FAAC and U+2B50 |
| Fortune.MatchesTestedEmojiPattern | tests/fortune.spec.js:135-136 | the tests' lucky-item pattern: some code point in U+1F000-1F6FF, U+1F900-1F9FF, U+2600-26FF or U+2700-27BF |
| Fortune.MatchesAcceptanceEmojiPattern | tests/acceptance/fortune-user-scenarios.spec.js:86-87 | the acceptance scenarios' narrower pattern, without U+1F900-1F9FF |
| Fortune.AcceptancePatternMissesItems | tests/acceptance/fortune-user-scenarios.spec.js:86-87 | the acceptance pattern rejects five table items: U+1F98B, U+1F9FF, U+1F947, U+1FAAC and U+2B50 |
| Fortune.LuckyItemsMatch | src/pages/Fortune.tsx:51-84 | with two further Unicode blocks every lucky item matches the pattern |
| Fortune.DisplayedItemsMatch | tests/fortune.spec.js:135-136 | so both displayed items match the widened pattern, whatever the day and the transform |
| Fortune.FortunePage.constructor | src/pages/Fortune.tsx:87-90 | no fortune yet, card hidden |
| Fortune.FortunePage.Load | src/pages/Fortune.tsx:140-142 | the page holds the day's result |
| Fortune.FortunePage.Reveal | src/pages/Fortune.tsx:144-146 | the card is revealed; the fortune is untouched |
| Fortune.FortunePage.Reset | src/pages/Fortune.tsx:148-150 | the card is hidden again; the fortune is untouched |

## Left out

- Rendering is not modelled: JSX, CSS and the `Input` component. That covers:
  - the page-level class string of a TODO row (src/pages/TodoApp.tsx:333);
  - the calendar's day and container classes;
  - `toLocaleDateString` display formatting (`formatDate`, `formatDisplayDate`, the month heading).
- `localStorage` and JSON are abstracted. The storage key is a `Slot`: absent, unreadable, or holding a list. A parse failure is the `Unreadable` case, and its console message is left out.
- `window.confirm` is the `confirmed` parameter of `ClearAllData`.
- The 100 ms `setTimeout` that ends the clearing window is the separate step `EndClearing`.
- `Date.now()` ids are a parameter. Ids may collide, so every list contract speaks of all entries with the id.
- TodoStore.TodoApp.HandleKeyDown: the event target's class name is the `fromTodoInput` flag.
- Time zones are not modelled. Civil dates are read in a zone at or ahead of UTC, as the tests' Asia/Tokyo setting does. A `YYYY-MM-DD` string then names the same local day, and a time value at local midnight is an `EpochDay`.
- TodoItem.DueDay treats any string other than a well-shaped existing date as naming no day. `new Date(...)` falls back to parsing other strings in an implementation-specific way, and the resulting status flags are not modelled.
- Fortune.SeededRandom: `Math.sin` and floating point are not modelled. The transform of a seed into [0, 1) is a parameter, and every property holds for every such transform.
- Fortune.ScaledIndex is the floor found by search, not the `Floor` of a real; `ScaledIndexIsFloor` shows the two agree.
- The selected-date display (`selectedDate`, `new Date(value)`) and the unused `lastDay` of `generateCalendarDays` are not modelled.
- Calendar.GenerateCalendarDays and Calendar.CalendarState use the corrected `MonthStart`. For years 0..99 they do not reproduce the two-digit-year reading of the `Date` constructor; see Findings.
- Calendar.CalendarState.HandleDateSelect: the `onChange` callback is the returned string.
- Strings are sequences of code points. JavaScript compares UTF-16 code units; the two orders agree on the ASCII date strings compared here.
- The item's remaining callbacks pass their arguments through unchanged and are not modelled: `onToggle`, `onDelete`, `onStartEditing...` and `onEditing...Change`.

## Findings

| source | as written | input that shows it | evidently intended | confidence | as-written member | corrected member |
|---|---|---|---|---|---|---|
| src/components/ui/Calendar.tsx:128-130 | `new Date(year, month - 1, 1)` reads a year 0..99 as 1900..1999 | showing December 99, the previous-month button shows November 1999 | the month before, November 99 | not executed | Calendar.JsPreviousMonthLeavesYear99 | Calendar.PreviousMonthWraps |
| tests/fortune.spec.js:135-136 | the lucky-item pattern accepts only U+1F000-1F6FF, U+1F900-1F9FF, U+2600-26FF and U+2700-27BF | a day whose draw picks item 25 (U+1FAAC) or item 31 (U+2B50) | every table item matches | not executed | Fortune.TestedPatternMissesItems | Fortune.LuckyItemsMatch |
| tests/acceptance/fortune-user-scenarios.spec.js:86-87 | the same check at lines 86-87 and 321-322 drops U+1F900-1F9FF as well | a day whose draw picks item 16 (U+1F98B), 24 (U+1F9FF), 25, 30 (U+1F947) or 31 | every table item matches | not executed | Fortune.AcceptancePatternMissesItems | Fortune.LuckyItemsMatch |
