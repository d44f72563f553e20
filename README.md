# wwida, modelled in Dafny

wwida ("what was I doing again") is a small command-line task tracker. A
store holds tasks addressed by position. Each task has a short description
of at most 50 characters, an optional long description, a category, a
priority, an optional deadline, a set of tags and an append-only history of
statuses. Commands add tasks, start them, update one field, print pending
or recently completed tasks in a short or a long layout, and clear the
store.

This project models that core:

- the validated value types: short strings, tags, categories, priorities,
  outcomes, deadlines and sort keys;
- the date logic: symbolic date specifiers resolved against today, and
  look-back windows;
- the task, a class whose status history is append-only;
- the store, a class over a sequence of tasks;
- the status-update, update and command layers, which change the store;
- the summary selections and the layout decisions of the printer, including
  the greedy word wrap of long descriptions.

Dates are day numbers counted as the date library counts them: 1 January of
year 1 is day 1, a Monday. The clock is a `today` parameter wherever the
program reads the current date. Rendering a date in the program's display
format is a parameter `dateText`.

Files, one Dafny module each:

- `wrappers.dfy`: `Option`, `Result` and the errors.
- `text.dfy`: digits, `usize` parsing, UTF-8 byte length, ASCII-whitespace splitting.
- `calendar.dfy`: day numbers, weekdays, Gregorian `day/month/year` parsing.
- `short_string.dfy`, `tag.dfy`, `category.dfy`, `priority.dfy`, `outcome.dfy`,
  `deadline.dfy`, `sort.dfy`: the value types.
- `duration.dfy`, `date_specifier.dfy`: time intervals and date specifiers.
- `status.dfy`, `task.dfy`, `list.dfy`: statuses, the task class, the store class.
- `update_status.dfy`, `update.dfy`, `command.dfy`: the store transitions.
- `summary.dfy`, `format.dfy`: selection and layout.

The store transitions are methods on the store and its task objects. Each
one is proved against a predicate over the states of the store's tasks
before and after: `StatusUpdates.Applied`, `Updates.Applied` and
`Commands.StartApplied`. Lemmas about those predicates state the rest:
what stays unchanged, which errors occur, and that histories stay well
formed.

## Model

| member | source | states |
|---|---|---|
| ShortStrings.Parse | src/components/short_string.rs:13-23 | accepted iff 1 to 50 characters (counted as characters, not bytes); the empty string is reported as empty and a longer one as too long; an accepted string displays as itself |
| ShortStrings.Display | src/components/short_string.rs:26-30 | a short string displays as 1 to 50 characters |
| ShortStrings.BoundaryAtThreshold | src/components/short_string.rs:16-21 | exactly 50 characters is accepted despite the "fewer than" message; 51 is rejected |
| ShortStrings.ParseDisplay | src/components/short_string.rs:13-29 | every short string displays and parses back to itself |
| Tags.Parse | src/components/tag.rs:11-17 | accepted iff every character is alphanumeric or a hyphen; an accepted tag displays as its input; the error carries the input |
| Tags.Display | src/components/tag.rs:20-24 | a tag displays using only alphanumerics and hyphens |
| Tags.RejectsSeparators | src/components/tag.rs:12-15 | any text holding a space, comma, underscore, dot, slash or hash is rejected |
| Tags.AcceptsEmpty | src/components/tag.rs:12 | the empty string is a tag |
| Tags.ParseDisplay | src/components/tag.rs:11-23 | every tag displays and parses back to itself |
| Categories.Parse | src/components/category.rs:35-46 | accepted iff the text is one of the seven lower-case names; otherwise an invalid-category error with the text |
| Categories.Display | src/components/category.rs:18-30 | each category displays as a non-empty upper-case ASCII name |
| Categories.Default | src/components/category.rs:49-53 | the default displays as TASK and is what "task" parses to |
| Categories.ParseLowerDisplay | src/components/category.rs:18-46 | lower-casing a category's display and parsing it gives the category back |
| Categories.RejectsDisplayedName | src/components/category.rs:20-44 | parsing is case-sensitive: every upper-case display name is rejected |
| Categories.DisplayInjective | src/components/category.rs:20-28 | distinct categories display differently |
| Priorities.Rank | src/components/priority.rs:8-14 | the discriminants run from 1 to 5 |
| Priorities.Less | src/components/priority.rs:6 | the derived order: nothing is below VeryLow or above VeryHigh, and no priority is below itself |
| Priorities.AsSymbol | src/components/priority.rs:17-25 | the symbol has as many characters as the rank |
| Priorities.Parse | src/components/priority.rs:31-40 | accepted iff the text is one of the five kebab-case names or a digit 1 to 5; a digit names the priority of that rank; otherwise an invalid-priority error |
| Priorities.Default | src/components/priority.rs:43-47 | the default has rank 3, above VeryLow and Low and below High and VeryHigh |
| Priorities.OrderIsChain | src/components/priority.rs:6-14 | the derived order is VeryLow < Low < Normal < High < VeryHigh and is a strict total order |
| Priorities.SymbolCountsRank | src/components/priority.rs:17-25 | the symbol is as many stars as the rank |
| Priorities.SymbolMonotone | src/components/priority.rs:17-25 | the symbol grows strictly with the order, so it is injective |
| Priorities.NameAndDigitAgree | src/components/priority.rs:32-37 | the name and the digit of a priority parse to that priority |
| Outcomes.Display | src/components/outcome.rs:13-20 | one glyph; a check mark exactly for success, `x` exactly for failure |
| Outcomes.DisplayInjective | src/components/outcome.rs:15-18 | the glyph determines the outcome |
| Deadlines.Cmp | src/components/deadline.rs:4-5 | equal iff the deadlines are equal; an absent deadline sorts before a present one; present ones compare by date |
| Deadlines.CmpAntisymmetric | src/components/deadline.rs:4 | swapping the operands reverses the comparison |
| Deadlines.LeIsTotalOrder | src/components/deadline.rs:4 | the derived order is reflexive, antisymmetric, transitive and total |
| Sorting.Parse | src/cli/sort.rs:24-32 | accepted iff the text is one of the four key names, and the key it gives is the one of that name; otherwise an invalid-sort-rule error |
| Sorting.ParseName | src/cli/sort.rs:25-29 | every key's name parses back to that key |
| Sorting.Default | src/cli/sort.rs:15-19 | the default is the key "priority" parses to |
| Sorting.ParseInjective | src/cli/sort.rs:25-29 | distinct accepted names give distinct keys |
| Text.ParseUsize | src/components/time/duration.rs:46 | accepted iff the text is decimal digits, optionally after one plus sign, whose value is at most the largest `usize`; the result is the value of those digits; so the empty text, a bare sign and any other character are rejected |
| Text.ParseUsizeOfNatToString | src/components/time/duration.rs:46 | every `usize` written in decimal, with or without a plus sign, parses back to itself |
| Text.ParseUsizeRejectsMinus | src/components/time/duration.rs:46 | text starting with a minus sign is rejected |
| Text.StripPrefix | src/components/time/duration.rs:45 | present iff the text starts with the prefix, and the text is the prefix followed by the rest |
| Text.NatToStringLength | src/format.rs:52 | the decimal form of a number has as many characters as the number has digits |
| Text.DigitsValueOfNatToString | src/components/status.rs:61 | the decimal form of a number reads back as that number |
| Text.ByteLenBounds | src/format.rs:62 | a text's UTF-8 length lies between its character count and four times it, with equality to the character count exactly for ASCII text |
| Text.SplitAsciiWhitespaceKeepsText | src/format.rs:61 | splitting on ASCII whitespace loses no text: the words, joined, are the non-whitespace characters of the text in order |
| Text.SplitJoinWithSpaces | src/format.rs:61 | words are whole whitespace-free runs: any words joined by single spaces split back into exactly those words |
| Calendar.WeekStart | src/components/time/date_specifier.rs:55-58 | the Monday of a date's week is a Monday at most six days before the date |
| Calendar.WeekdayIndexNext | src/components/time/date_specifier.rs:56 | the weekday index advances by one each day, wrapping from Sunday to Monday |
| Calendar.YearLength | src/components/time/date_specifier.rs:43 | a year has 366 days when it is a leap year and 365 otherwise |
| Calendar.NextDayAcrossBoundaries | src/components/time/date_specifier.rs:43 | day numbers run on without a gap across month and year ends |
| Calendar.SplitSlash | src/components/time/date_specifier.rs:43 | the parts between slashes are at least one and hold no slash; text without a slash is one part |
| Calendar.ParseDayMonthYear | src/components/time/date_specifier.rs:43-45 | accepted iff the text is three slash-separated fields of 1-2, 1-2 and 1-4 digits naming a valid Gregorian day, month and year; the result is the day number of that day, month and year; text without a slash is not a date |
| Calendar.ParseFormatDayMonthYear | src/components/time/date_specifier.rs:43 | every valid date with a year of at most four digits, written zero-padded as day/month/year, parses to its day number |
| Calendar.FromYmdInjective | src/components/time/date_specifier.rs:43 | distinct valid dates have distinct day numbers, so a parsed day number determines the day, month and year written |
| Calendar.TestDate | src/components/time/mod.rs:10-11 | the test date, Wednesday 5 January 2022, is day 738160 and a Wednesday |
| Calendar.TestParseDayMonthYear | src/components/time/date_specifier.rs:92-95 | "05/01/2022" is 5 January 2022 |
| Durations.Contains | src/components/time/duration.rs:25-38 | a future date is always inside; otherwise days(n) holds dates at most n days back, weeks(n) those fewer than 7(n+1) days back, months(n) those at most 30n days back |
| Durations.ContainsMonotone | src/components/time/duration.rs:33-37 | widening a window of any unit never drops a date |
| Durations.DaysZero | src/components/time/duration.rs:29-34 | days(0) holds today but not yesterday; every window holds every future date |
| Durations.WeeksBoundary | src/components/time/duration.rs:35 | weeks(n) reaches exactly 7n+6 days back: the last partial week counts in full |
| Durations.Parse | src/components/time/duration.rs:44-60 | after a `days/`, `weeks/` or `months/` prefix the rest must read as a `usize` and gives an interval of that unit, or else an error naming the unit and the rest; with no known prefix, an unknown-unit error |
| Durations.ParseFormat | src/components/time/duration.rs:44-60 | every interval whose count fits in a `usize`, written as unit/count, parses back to itself |
| DateSpecifiers.DaysFromMonday | src/components/time/date_specifier.rs:56 | a weekday's index is below 7 |
| DateSpecifiers.ParseWeekday | src/components/time/date_specifier.rs:17-28 | accepted iff one of the seven lower-case weekday names, whose name the result has; otherwise an invalid-weekday error |
| DateSpecifiers.ParseWeekdayName | src/components/time/date_specifier.rs:17-28 | every weekday's name parses back to it |
| DateSpecifiers.Parse | src/components/time/date_specifier.rs:33-47 | "today" and "tomorrow" are recognised first and are the only texts giving those specifiers; after `this/` or `next/` the rest must be a weekday name, and its error is reported; any other text gives the fixed date it parses to as day/month/year, or a bad-fixed-date error when it does not parse |
| DateSpecifiers.Resolve | src/components/time/date_specifier.rs:50-67 | today resolves to today, tomorrow to the next day, a fixed date to itself; this/day and next/day land on that weekday, in today's Monday-based week and in the following one |
| DateSpecifiers.ResolveThis | src/components/time/date_specifier.rs:55-58 | this/day moves at most six days either way, lands on that weekday and stays in today's Monday-to-Sunday week |
| DateSpecifiers.ResolveNext | src/components/time/date_specifier.rs:59-62 | next/day is this/day plus seven: the same weekday in the following week, after today |
| DateSpecifiers.ResolveFixed | src/components/time/date_specifier.rs:63-65 | today resolves to today, tomorrow to the next day, and a fixed date to itself whatever today is |
| DateSpecifiers.TestResolve | src/components/time/date_specifier.rs:98-128 | with today Wednesday 5 January 2022: this Monday is 3 January, this Sunday 9 January, next Monday 10 January, next Sunday 16 January |
| DateSpecifiers.TestParseWords | src/components/time/date_specifier.rs:76-83 | "today" and "tomorrow" parse to their specifiers |
| DateSpecifiers.TestParseWeekdays | src/components/time/date_specifier.rs:84-91 | "this/saturday" and "next/saturday" parse to this and next Saturday |
| DateSpecifiers.TestParseFixedDate | src/components/time/date_specifier.rs:92-95 | "05/01/2022" parses to the fixed date 5 January 2022 |
| Statuses.Default | src/components/status.rs:24-28 | the default status is not-started |
| Statuses.MakeInProgress | src/components/status.rs:31-33 | in progress, dated today |
| Statuses.MakeBlockedByTask | src/components/status.rs:35-41 | succeeds iff the blocking identifier is below the number of tasks, carrying that identifier and today's date; otherwise an unknown-blocking-identifier error; the store is only read |
| Statuses.MakeBlockedByOther | src/components/status.rs:43-45 | blocked for the given reason, dated today |
| Statuses.MakeCompleted | src/components/status.rs:47-49 | completed with exactly the given outcome, on the given date |
| Statuses.MakeDiscarded | src/components/status.rs:51-53 | discarded for the given reason, dated today |
| Statuses.Display | src/components/status.rs:56-68 | not-started shows only NOT STARTED; every other status shows its date, ` :: ` and its message |
| Statuses.MessageDistinguishes | src/components/status.rs:60-64 | the message tells in-progress and completed statuses from all others, a completed message determines the outcome, and two blocked-by-task messages are equal only for the same identifier |
| Statuses.BlockedMessagesMayCoincide | src/components/status.rs:61-62 | a blocked-by-other reason `ID=5` reads exactly like a block by task 5 |
| Task.ResolvedDeadline | src/components/task.rs:38 | a deadline is present iff a specifier is given, and is the date the specifier resolves to |
| Task.Task.constructor | src/components/task.rs:25-42 | the history is exactly one not-started status; the deadline is the resolved specifier; the tags are exactly the members of the given list |
| Task.Task.SetShort | src/components/task.rs:68-70 | only the short description changes |
| Task.Task.SetLong | src/components/task.rs:72-74 | only the long description changes, to the given text |
| Task.Task.UnsetLong | src/components/task.rs:76-78 | only the long description changes, to none |
| Task.Task.UnsetDeadline | src/components/task.rs:80-82 | only the deadline changes, to none |
| Task.Task.SetStatus | src/components/task.rs:84-86 | the history grows by the new status at its end and nothing else changes; a well-formed history stays well formed with the new status current |
| Task.Task.SetCategory | src/components/task.rs:88-90 | only the category changes |
| Task.Task.SetDeadline | src/components/task.rs:92-94 | only the deadline changes, to the given date |
| Task.Task.LastStatus | src/components/task.rs:96-98 | a well-formed history always has a current status, one of its entries, and it is not-started while the history has one entry |
| Task.Task.IsCompleted | src/components/task.rs:109-111 | a completed task has had at least one status update after not-started |
| Task.Task.Start | src/components/task.rs:100-107 | succeeds iff the current status is not-started, then appends in-progress dated today so that starting again fails; otherwise reports already-started and changes nothing |
| Task.Task.IsCompletedInPast | src/components/task.rs:113-119 | holds only for completed tasks, and always for one completed after today |
| Task.Task.Outcome | src/components/task.rs:121-127 | present iff the task is completed, and it is the outcome recorded with the completion; otherwise a not-completed error |
| List.States | src/components/list.rs:8 | the states of a sequence of tasks, position by position |
| List.Enumerate | src/components/list.rs:57 | each task paired with its position, in order |
| List.Tasks.constructor | src/components/list.rs:12-14 | a new store is empty |
| List.Tasks.HasId | src/components/list.rs:16-18 | an identifier is in use iff an entry of the enumeration carries it |
| List.Tasks.NumTasks | src/components/list.rs:32-34 | `has_id` holds for an identifier iff it is below the number of tasks |
| List.Tasks.AddTask | src/components/list.rs:20-22 | the task is appended with the next identifier; no earlier task moves or changes |
| List.Tasks.GetTaskMut | src/components/list.rs:24-26 | present iff the identifier is in use, and then the task at that position |
| List.Tasks.GetTaskMutErr | src/components/list.rs:28-30 | an error iff the identifier is not in use, naming it; otherwise the same task as the optional lookup |
| List.Tasks.Clear | src/components/list.rs:52-54 | afterwards no identifier is in use |
| List.Tasks.Iter | src/components/list.rs:56-58 | every task with its position, identifiers ascending from 0, each in use |
| StatusUpdates.Build | src/cli/update/status.rs:30-39 | the built status matches the update's kind, is never not-started, is dated today except a completion, which carries the resolved date and the given outcome |
| StatusUpdates.Run | src/cli/update/status.rs:30-42 | for a task in the store, exactly its history grows by the built status; for a missing task, a no-task error and no change; the store's task list is untouched |
| StatusUpdates.AppliedKeepsHistories | src/cli/update/status.rs:40 | the number of tasks stays, no other task changes and every history stays well formed |
| StatusUpdates.InProgressFromAnyStatus | src/cli/update/status.rs:32 | marking a task in progress does not look at its status: it succeeds even on a completed task |
| StatusUpdates.SelfBlockingAllowed | src/cli/update/status.rs:33-40 | a task can be blocked by its own identifier |
| StatusUpdates.CompletedDefaultsToToday | src/cli/update/status.rs:21-22 | a completion without a date is dated today |
| Updates.Run | src/cli/update/mod.rs:51-71 | status updates behave as in `StatusUpdates.Run`; an unparsable tag list is reported before the lookup and changes nothing; a missing task is reported and changes nothing; otherwise exactly the named field of task `id` changes |
| Updates.ApplyToTask | src/cli/update/mod.rs:53-68 | the change each field update makes to one task: short, long, category and deadline get the given value, the discard updates clear their field, priority and tags change only their own field |
| Updates.AppliedTouchesOnlyId | src/cli/update/mod.rs:51-71 | no update changes the number of tasks or a task other than `id`, and every history stays well formed |
| Updates.UnknownIdFails | src/cli/update/mod.rs:53-68 | every update of a missing task fails and changes nothing; the error names the task, except that an unparsable tag list is reported first |
| Updates.SuccessChangesOneField | src/cli/update/mod.rs:53-68 | a field update of a present task succeeds, unless its tag list does not parse, and leaves the history alone; it sets or clears the field it names |
| Commands.AddedState | src/cli/command.rs:65-73 | a new task is not started, has the default category when none is given, the default priority, no tags, and a deadline iff one is given |
| Commands.Run | src/cli/command.rs:63-84 | add appends exactly the new task; start, update and print behave as their predicates say; print changes nothing; clear reports the old count and empties the store; only add and clear change the number of tasks |
| Commands.RunStart | src/cli/command.rs:74 | a missing task is reported; a started task is reported as already started and nothing changes; otherwise exactly that task becomes in progress today |
| Commands.UpdateResult | src/cli/command.rs:75 | an update's result as a command result: success with nothing to report, or the same error |
| Commands.StartOnlyOnce | src/cli/command.rs:74 | after a successful start, starting the same task again fails and changes nothing |
| Commands.AddedTaskStarts | src/cli/command.rs:65-74 | a just-added task can be started, and its history becomes not-started then in progress |
| Commands.StartKeepsHistories | src/cli/command.rs:74 | starting keeps the number of tasks, changes no other task and keeps every history well formed |
| Summaries.Select | src/cli/summary.rs:21-31 | the kept entries are a subsequence of the store's entries, and an entry is kept iff the summary's filter holds for its task |
| Summaries.Selects | src/cli/summary.rs:23-28 | the pending summary keeps only tasks that are not completed and the completed summary only completed ones |
| Summaries.SubsequenceMembers | src/cli/summary.rs:24-27 | filtering only keeps entries of the input |
| Summaries.SubsequenceAscending | src/cli/summary.rs:24-27 | filtering keeps identifiers ascending |
| Summaries.SelectionFromStore | src/cli/summary.rs:21-31 | the printed entries come from the store with their own identifiers, ascending, and are exactly the tasks pending (or completed in the window) |
| Summaries.SelectionsDisjoint | src/cli/summary.rs:24-27 | no task is both pending and completed within a window |
| Summaries.Run | src/cli/summary.rs:21-31 | lays out exactly the selected entries in the chosen format, reading the store only |
| Format.TickTock.Next | src/format.rs:26-29 | each step flips the flag and yields the new value |
| Format.PrintShort | src/format.rs:32-47 | one line per task, in order: the solid rule on even positions and the dashed one on odd positions, the deadline exactly when the task has one |
| Format.RulesAlternate | src/format.rs:33-40 | the first line uses the solid rule and neighbouring lines never use the same rule |
| Format.WrapLong | src/format.rs:58-69 | the words of the long description, in order and each once, go on lines of at most 50 bytes (a space after each word), and a line ends only when the next word would not fit on it |
| Format.BlockOf | src/format.rs:51-80 | the block of one task, as `Format.PrintLong` states for every task |
| Format.PrintLong | src/format.rs:50-82 | one block per entry, in order: header `ID <id>`, a rule of one corner and one dash more than the header's length, a LONG part iff there is a long description, a DEADLINE line iff there is a deadline, and the current status |
| Format.RuleLength | src/format.rs:52-55 | the rule under the header is five characters longer than the identifier has digits: a corner, then dashes |
| Format.Print | src/format.rs:15-20 | the short layout for short, the long layout for long, over the same entries |

## Left out

- `Tasks::save` and `Tasks::load` (src/components/list.rs:36-50): binary encoding and file-system access.
- `get_filepath`, `Cli::run` and `main` (src/cli/mod.rs, src/main.rs): environment variables, the home directory and the process entry point.
- The wall clock: `today` is a parameter of every operation that reads it.
- The date library. A date is a day number. The `%d/%m/%Y` parser is modelled strictly: 1-2 digit day, 1-2 digit month, 1-4 digit year, a valid Gregorian date. The library's leniency (leading whitespace, and signed years, which alone may have more than four digits) is not modelled.
- Rendering a date in the display format `%a, %0e-%b-%Y`: a function parameter `dateText`.
- Tags.IsAlphanumeric: exact on ASCII letters and digits only. Non-ASCII Unicode letters and numbers, which the program also accepts, are not modelled.
- Terminal layout: padding, centring and box-drawing beyond the rule characters, and the printing itself. The model keeps which lines appear, the rule choice and the wrap.
- Sorting comparators, tag filters and outcome filters: only the sort-key enum exists in the program.
- `set_priority`, `add_tags`, `remove_tags` and `tags_from_comma_separated_string` are not part of this model. Their effect is left open: only the field they touch may change, and the tag-list parse may fail.
- Updates.Run: the priority update leaves the new priority open rather than equal to the given one, because `set_priority` is not part of this model.
- Durations.Contains: `months * 30` can overflow a `usize` for counts near the maximum; the model multiplies without bound.
- Durations.Parse: a count is any decimal `usize` with an optional plus sign; other integer syntax is not accepted.
- Format.WrapLong: requires every word shorter than 50 bytes. A longer word makes the program's unsigned counter subtraction go below zero (a panic in debug builds, a wrap-around otherwise); that behaviour is not modelled.
- StatusUpdates.Run: requires the blocking identifier of a blocked-by-task update to be in the store. Otherwise the program panics rather than reporting an error. The check comes before the target task is looked up, so it applies even when the target is missing.
- List.Tasks.AddTask: requires the new task not to be in the store already. The program's store owns its tasks, so this always holds there.
- Call sites that do not match the definitions they call. `Task::new` is called with four arguments but takes six; `Add` uses the default category when none is given, the default priority and no tags, as the program's own test constructor does. `Status::completed` is called with an outcome and a date but takes only an outcome; the model takes both. `Deadline` is matched as an option in the printer; the model reads its date.
- `Task::new` returns a result but never fails; the model's constructor always succeeds.
- Commands.Run: print returns the layout instead of writing it, and clear returns the count it would print.
