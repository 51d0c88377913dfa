# CLITodo in Dafny

A model of the task tracker CLITodo. It covers two front ends.

- **The interactive tracker** (`src/app.rs`). An `App` owns:
  - an ordered list of tasks: id, description, completion, priority, optional due date, subtasks, tags;
  - a selection into the displayed list;
  - an input mode;
  - three text buffers;
  - a display margin.

  Every command that acts on "the selected task" works in two steps. It reads the id of the selected *displayed* row. Then it changes the first stored top-level task with that id. The displayed list is the whole store, except in `Search` mode with a non-empty query. There it is the order-preserving filter of the store by the lower-cased query. The query is compared against the lower-cased description and tags, the priority keywords, the status keywords, and the lower-cased descriptions and tags of subtasks. The due date is compared as stored, so that comparison is case-sensitive.
- **The stand-alone command line** (`src/main.rs`).
  - `todo add <words…>` appends a task with id max+1.
  - `todo list` prints `[x] <id> - <description>` or `[ ] <id> - <description>` per task, or `No tasks yet!` for an empty list.
  - `todo done <id>` completes the first task with that id and saves. If no task has that id, it reports "not found" and saves nothing.

Modules:

| module | concerns |
|---|---|
| `Wrappers` | `Option` |
| `Strings` | the parts of Rust's `str` used: `is_whitespace`, `split_whitespace`, `starts_with`, `contains`, `to_lowercase` (ASCII), `join`, decimal formatting of an id |
| `Sequences` | order-preserving subsequence |
| `Ids` | `max().unwrap_or(0) + 1` and first-position lookup |
| `Tasks` | the task record, the priority cycle, scoped ids, tag extraction, the task built by `add_task` |
| `View` | the search predicate, `filter_tasks`, `get_displayed_tasks` |
| `Selection` | the arithmetic of `next`, `previous` and the clamp after a deletion |
| `TodoApp` | class `App`: its state and every command |
| `AppScenarios` | runs of `App` through the documented situations |
| `Cli` | `src/main.rs`: class `TaskFile` (the content of the task file) and its commands |

Two choices about inputs:
- The date parser is a parameter. Its result is `parsedDue: Option<string>`, passed to `AddTask`/`AddSubTask`.
- Printing is modelled by returning the printed lines.

## Model

| member | source | states |
|---|---|---|
| TodoApp.App.constructor | src/app.rs:25-43 | the store is the list loaded; the selection is row 0 exactly when that list is non-empty, none otherwise; Normal mode, empty buffers, margin 1, not adding a subtask |
| TodoApp.SaturatingDecrement | src/app.rs:45-47 | one less, but 0 stays 0 (u16 `saturating_sub`) |
| TodoApp.SaturatingIncrement | src/app.rs:49-51 | one more, but 65535 stays 65535 (u16 `saturating_add`) |
| TodoApp.ZoomRoundTrip | src/app.rs:45-51 | zooming out then in, or in then out, restores the margin away from the bounds |
| TodoApp.App.ZoomIn | src/app.rs:45-47 | the margin becomes its saturating decrement; nothing else may change |
| TodoApp.App.ZoomOut | src/app.rs:49-51 | the margin becomes its saturating increment; nothing else may change |
| TodoApp.App.Target | src/app.rs:73-77 | the store position a command on the selection acts on; it exists exactly when the selection designates a displayed row; it holds the first stored task whose id is that row's id |
| TodoApp.App.Displayed | src/app.rs:238-243 | the list the selection indexes: `DisplayedTasks` of the store, the mode and the search buffer |
| TodoApp.App.SelectionValid | src/app.rs:73-75 | there is a selection and `get` on the displayed list finds a row for it |
| TodoApp.App.Next | src/app.rs:54-61 | the selection becomes `Advance(old selection, displayed length)`; it is a valid row whenever the displayed list is non-empty; only the selection may change |
| TodoApp.App.Previous | src/app.rs:63-70 | the selection becomes `Retreat(old selection, displayed length)`; it is a valid row whenever the displayed list is non-empty; only the selection may change |
| TodoApp.App.ToggleCompleted | src/app.rs:72-82 | only the target task changes, and only its `completed` flips; no target leaves the store as it was; the length and order are kept |
| TodoApp.App.CyclePriority | src/app.rs:84-98 | only the target task changes, and only its priority, which moves one step along Low → Medium → High → Low |
| TodoApp.App.AddTask | src/app.rs:104-132 | always ends in Normal mode with the subtask flag cleared; with the flag set it does exactly what `AddSubTask` does; otherwise it appends one task with id max+1 (1 for an empty store) built from the raw input, and empties the buffer |
| TodoApp.App.AddSubTask | src/app.rs:134-165 | ends in Normal mode; with a target it appends one subtask to that task, with id max+1 over that task's subtasks, and empties the buffer; without one the store and the buffer are as they were; every other task is untouched |
| TodoApp.App.SetDueDate | src/app.rs:167-178 | ends in Normal mode; with a target its due date becomes the date buffer, which is emptied; without one the buffer is kept; every other task is untouched |
| TodoApp.App.DeleteTask | src/app.rs:180-198 | without a target nothing changes; with one, exactly that task is removed (length drops by one, others keep their order); the selection becomes none if nothing is shown, else `min(old, new length - 1)`, so it is always in bounds |
| Tasks.NextPriority | src/app.rs:90-94 | the next priority always differs from the current one |
| Tasks.PriorityCycleCloses | src/app.rs:90-94 | three cycles restore a priority; one or two do not |
| Tasks.FindById | src/app.rs:77 | the first position whose id matches, or none exactly when no task has that id |
| Tasks.NextIdAmong | src/app.rs:109 | every sibling id is smaller than the new id; an empty scope issues 1 |
| Ids.MaxId | src/app.rs:109 | bounds every id, is one of them, and is 0 for an empty scope |
| Ids.NextId | src/app.rs:140 | at least 1; above every id; exactly one above the largest when the scope is non-empty |
| Ids.FirstIndexOf | src/app.rs:185 | first occurrence of an id, or none exactly when absent (`position`) |
| Ids.NextIdKeepsDistinct | src/app.rs:109 | adding with the next id keeps the ids of a scope pairwise distinct |
| Tasks.AddKeepsIdsDistinct | src/app.rs:104-165 | a task added with the next id of its scope, the top level or one parent's subtasks, keeps that scope's ids pairwise distinct |
| Ids.SequentialIdsContinue | src/app.rs:109 | a scope with ids 1..n issues n+1, so successive adds issue 1, 2, 3, … |
| Ids.DeletedMaxIdIsReused | src/app.rs:109 | with ids 1, 2 the next id is 3, and with only 1 left it is 2 again |
| Tasks.HashWords | src/app.rs:113-118 | the words starting with `#`: an order-preserving subsequence of the words, all tags, and every tag appears as often as in the input |
| Tasks.TagsOfJoinedWords | src/app.rs:113-118 | when each word is non-empty and has no whitespace, the tags of the words joined by single spaces are the words that start with `#` |
| Tasks.TagsExample | src/app.rs:113-122 | `buy milk #errand #urgent` yields the tags `#errand`, `#urgent` in that order, and the description stays the raw input |
| Tasks.IsTag | src/app.rs:116 | a word is a tag when it starts with `#` |
| Tasks.Tags | src/app.rs:113-118 | the tags of an input are the `#` words of its whitespace split, in order, duplicates kept |
| Tasks.NewTask | src/app.rs:120-128 | the task an addition builds, at the top level or, with the same literal at src/app.rs:151-159, as a subtask: the given id, the raw input as description, not completed, Medium priority, the parsed due date, no subtasks, the input's tags |
| Strings.SplitWhitespace | src/app.rs:115 | every piece is a non-empty word with no whitespace |
| Strings.SplitKeepsEveryOtherCharacter | src/app.rs:115 | the pieces put together are the input with its whitespace removed |
| Strings.IsWhitespace | src/app.rs:115 | the characters `split_whitespace` splits at: Unicode White_Space, as Rust's `char::is_whitespace` |
| Strings.StartsWith | src/app.rs:116 | the prefix is no longer than the string and equals its first characters |
| Strings.Join | src/main.rs:39 | the words with the separator between consecutive words, none before the first or after the last |
| Strings.SplitJoinRoundTrip | src/main.rs:39 | splitting words joined by single spaces gives the words back |
| Strings.Lowercase | src/app.rs:205 | same length; each character is lower-cased |
| Strings.LowercaseIdempotent | src/app.rs:205 | lower-casing twice is lower-casing once |
| Strings.Contains | src/app.rs:210 | `contains`: the needle is a prefix of the text or of one of its suffixes; `ContainsIffOccurs` states it as an occurrence at some position |
| Strings.ContainsIffOccurs | src/app.rs:210 | `contains` holds exactly when the needle occurs at some position |
| Strings.Decimal | src/main.rs:78 | a non-empty string of decimal digits with no leading zero except for 0 itself |
| Strings.DecimalRoundTrip | src/main.rs:88 | the printed digits of an id read back as that id |
| View.KeepMatching | src/app.rs:206-235 | an order-preserving subsequence of the tasks; every kept task matches; every matching task is kept, as many times as it occurs |
| View.Matches | src/app.rs:208-233 | the `filter` closure for the lower-cased query: description contains it, or a tag does, or a priority keyword names the priority, or a status keyword names the status, or the due date as stored contains it, or a subtask matches |
| View.AnyTagContains | src/app.rs:212 | some tag, lower-cased, contains the query |
| View.PriorityKeywordMatches | src/app.rs:214-219 | `high`/`h` match High, `medium`/`med`/`m` match Medium, `low`/`l` match Low, any other query matches no priority |
| View.StatusKeywordMatches | src/app.rs:221-225 | `completed`/`done`/`finished` match a completed task, `incomplete`/`pending`/`todo` an open one, any other query neither |
| View.SubtaskMatches | src/app.rs:229-232 | a subtask matches when its lower-cased description or one of its lower-cased tags contains the query |
| View.KeepMatchingAppend | src/app.rs:206-235 | filtering a concatenation filters each part, so each task is judged on its own |
| View.FilterTasks | src/app.rs:200-236 | an empty query returns the list unchanged; otherwise the result is the order-preserving subsequence of matching tasks, unmodified, and every matching task is kept as many times as it occurs |
| View.FilterTasksIdempotent | src/app.rs:200-236 | filtering a filtered list again changes nothing |
| View.DisplayedTasks | src/app.rs:238-243 | the store itself outside Search mode or for an empty query; the filtered store in Search mode; always a subsequence of the store |
| View.DisplayedIdResolves | src/app.rs:75-77 | every displayed row is a stored task, so looking up its id always finds one |
| View.DisplayedNoLonger | src/app.rs:238-243 | the displayed list is never longer than the store |
| View.PlainTaskMatches | src/app.rs:208-233 | a task with no tags, due date or subtasks matches exactly on description, priority keyword or status keyword |
| View.SearchExample | src/app.rs:205-235 | with `Pay rent` (High, open) and `Read book` (Low, done), `high` keeps only the first, `done` only the second, `rent` only the first |
| Selection.Advance | src/app.rs:54-61 | unchanged on an empty list; otherwise always in bounds; none becomes row 0; any row i becomes (i + 1) mod len, so a row moves one down and the last row wraps to the first |
| Selection.Retreat | src/app.rs:63-70 | unchanged on an empty list; otherwise always in bounds; none becomes row 0; any row i becomes (i + len - 1) mod len, so a row moves one up and the first row wraps to the last |
| Selection.AdvanceRetreatInverse | src/app.rs:54-70 | down then up, or up then down, returns to the starting row |
| Selection.AdvanceTimesFrom | src/app.rs:59 | k steps down from row i reach row (i + k) mod len |
| Selection.AdvanceFullCircle | src/app.rs:59 | len steps down come back to the starting row |
| Selection.ClampAfterDelete | src/app.rs:190-195 | none exactly when the new list is empty; in bounds; the same row if it still exists, else the new last row |
| AppScenarios.IdentitySafeToggle | src/app.rs:72-82 | with tasks 1, 2, 3 stored and only 2 and 3 shown, toggling row 0 completes task 2 and leaves 1 and 3 alone |
| AppScenarios.DeleteLastOfThree | src/app.rs:180-198 | deleting the selected third of three rows leaves two tasks and the selection on row 1 |
| AppScenarios.DeleteOnlyTask | src/app.rs:54-70 | deleting the only task leaves no selection, and `next`/`previous` keep it none |
| AppScenarios.ThreeAdditions | src/app.rs:104-132 | three additions to an empty store issue ids 1, 2, 3 |
| AppScenarios.AddAfterDeletingFirst | src/app.rs:104-132 | after deleting task 1 of 1, 2, 3, the next addition gets id 4 |
| AppScenarios.CycleThreeTimes | src/app.rs:84-98 | three priority cycles on the selected task leave the store as it was |
| Cli.FindById | src/main.rs:95 | the first task with the id, or none exactly when no task has it |
| Cli.NextIdAmong | src/main.rs:70 | every stored id is smaller than the new id; an empty list issues 1 |
| Cli.AddKeepsIdsDistinct | src/main.rs:70-76 | appending with the next id keeps the stored ids pairwise distinct |
| Cli.AddDescriptionKeepsWords | src/main.rs:39 | the stored description splits back into the argument words, when each is a non-empty word without whitespace |
| Cli.MarkCompleted | src/main.rs:95-96 | same length and ids; an absent id changes nothing; only the first task with the id changes, and only its `completed`, which becomes true |
| Cli.MarkCompletedIdempotent | src/main.rs:95-96 | completing the same id twice is completing it once |
| Cli.AddDescription | src/main.rs:39 | the description of `todo add`: the argument words joined by single spaces |
| Cli.StatusMark | src/main.rs:87 | `[x]` for a completed task, `[ ]` for an open one |
| Cli.TaskLine | src/main.rs:87-88 | the status mark, a space, the id in decimal, ` - ` and the description; `ParseTaskLine` reads it back |
| Cli.Listing | src/main.rs:82-91 | `No tasks yet!` alone for an empty list, else the task lines in list order |
| Cli.ListTasks | src/main.rs:82-91 | `No tasks yet!` for an empty list, else one line per task, in order, each the task's status mark, id, ` - ` and description |
| Cli.ParseTaskLine | src/main.rs:87-88 | every listed line reads back as its task: id, description and status |
| Cli.ListingDeterminesTasks | src/main.rs:82-91 | the listing of a non-empty list determines the list |
| Cli.TaskFile.constructor | src/main.rs:51-59 | the stored list is the list loaded |
| Cli.TaskFile.AddTask | src/main.rs:68-80 | appends one open task with id max+1 and the description; reports `Added task N.` |
| Cli.TaskFile.CompleteTask | src/main.rs:93-103 | saves exactly when some task has the id; the list becomes `MarkCompleted`; reports `Completed task N.` or `Task with ID N not found.` |
| Cli.TaskFile.Run | src/main.rs:33-49 | Add stores the words joined by single spaces and reports the id; List leaves the list alone and prints its listing; Done completes by id and prints one line |

## Left out

- Loading and saving the task file are not modelled: `load_tasks`/`save_tasks` in `src/task.rs` and `src/main.rs`, and `App::save`. This covers file I/O, serde JSON, and the fallback to an empty list on a missing or malformed file. `TaskFile.tasks` and the argument of `App`'s constructor stand for the file's content. A failure to save is not modelled.
- `TodoApp.App.constructor`: `App::new` reads the file twice, once to choose the selection and once for the store. The model reads one list for both. It does not capture the two reads giving different lists.
- Natural-language date parsing (`parse_date_string`, `Local::now()`) is a parameter. `AddTask`/`AddSubTask` receive what the parser made of the input as `parsedDue`.
- `Strings.Lowercase`: lower-cases ASCII letters only. Rust's `to_lowercase` covers all of Unicode, including mappings that change a string's length.
- `Ids.NextId`: ids are unbounded naturals. The `usize` overflow of `max + 1`, of `i + 1` in `next` and of `i + len - 1` in `previous` is out of scope.
- `src/ui.rs` is not part of this model: the rendering, the subtask rows it draws and overdue colouring. The selection indexes top-level displayed tasks, as in `src/app.rs`.
- Key dispatch and mode switching are not modelled; `AppScenarios` sets `mode` and `searchInput` directly. Parsing the command line with `clap` is also left out, and `Cli.Command` stands for its result.
- `Cli.TaskFile.Run`: an I/O error stops the command through `?` in `main`; that path is not modelled. For Done, the contract states the new list and that one line is printed. The line's text is stated by `CompleteTask`.
- Ids are max(remaining)+1, so deleting the holder of the largest id frees that id for the next addition (`Ids.DeletedMaxIdIsReused`).
