# Smart Task Planner — a Dafny model of the task store

This project models the core of a console to-do planner written in Kotlin. The model has
four parts. A `Task` record has an id, a title, a description, a category, a status and a
creation timestamp. The `TaskManager` store keeps the tasks in insertion order, together
with an id counter `nextId` that starts at 1 and a fixed table of four category labels
(Work, Personal, Study, Fitness). The store supports four operations: add, view, update
and delete. Finally, the menu loop in `main` sends each typed choice to one of those
operations.

Every operation is a pure function over an immutable `Store`. Console reads become
parameters. A number that Kotlin's `toIntOrNull` could not parse is `None` of an
`Option<int>`. What the program would print becomes an `Outcome` or a list of output lines.

Modules:

- `Wrappers` (wrappers.dfy): `Option`, with `GetOr` standing for Kotlin's `?:`.
- `Decimal` (decimal.dfy): how `"$id"` prints an `Int`, and its inverse.
- `Tasks` (tasks.dfy): the `Task` datatype, `Task.update` and `Task.toString` (here
  `Render`), and `IdOfLine`, which reads the id back out of a rendered line.
- `TaskStore` (store.dfy): `Store`, `Categories`, `Add`, `ViewTasks`, `Update`, `Delete`,
  `FindById` (Kotlin's `find`) and `RemoveById` (Kotlin's `removeIf`). It also holds the
  store invariant `Valid` and the lemmas that every operation preserves it.
- `Session` (session.dfy): the menu `when` (`Dispatch`), one loop round (`Step`), a whole
  session over a script of inputs (`RunScript`), and the ids handed out during a session
  (`IssuedIds`).
- `Scenarios` (scenarios.dfy): three concrete sessions worked through on the model.

The store invariant `Valid` has four parts:

- ids are positive;
- ids strictly increase in list order, so they are unique;
- every id is below `nextId`;
- every stored category is one of the four labels.

`Valid` holds of the initial store. Add, update, delete and every menu round preserve it,
and so does every whole session.

Three facts about the code shape the model:

- Lookup by id happens only inside update, as `tasks.find` (src/Main.kt:64), which returns
  the FIRST task with the id; `FindById` models that.
- Delete uses `removeIf` (src/Main.kt:86), which removes EVERY task with the id;
  `RemoveById` does the same. Under `Valid` there is at most one such task.
- Update checks, in order, that the id parses, that a task has it, and that the category
  index is valid (src/Main.kt:63-73); it mutates nothing until all three pass.

## Model

| member | source | states |
|---|---|---|
| Decimal.NatToDigits | src/Main.kt:21 | the printed form of a non-negative id is a non-empty string of decimal digits with no leading zero |
| Decimal.DigitsRoundTrip | src/Main.kt:21 | reading the printed digits of n gives back n |
| Decimal.DigitsCanonical | src/Main.kt:21 | every digit string without a leading zero is the printed form of its own value, so printing is onto canonical numerals |
| Decimal.IntToStringRoundTrip | src/Main.kt:21 | reading the printed form of any Int, negative ones included, gives back that Int |
| Tasks.Task.Update | src/Main.kt:13-18 | update replaces title, description, category and status with the given values, and keeps id and createdAt |
| Tasks.UpdateLastWins | src/Main.kt:13-18 | updates are all-or-nothing on the four fields: of two updates in a row, only the second is visible |
| Tasks.BracketedIdRoundTrip | src/Main.kt:21 | a line opening with "[", the printed id and "] " reads back as that id, whatever text follows, even text containing "]" |
| Tasks.Task.Render | src/Main.kt:20-22 | the rendered line opens with the bracketed id, which reads back as the task's id, and ends with the description |
| Tasks.RenderDistinguishesIds | src/Main.kt:20-22 | tasks with different ids never render to the same text |
| TaskStore.SelectCategory | src/Main.kt:29 | an index yields a category exactly when it parsed and lies in 0..3; the category is then the label at that index in the four-entry table |
| TaskStore.FindById | src/Main.kt:64 | finds the first task carrying the id, and reports none exactly when no task carries it |
| TaskStore.RemoveById | src/Main.kt:86 | reports removal exactly when some task had the id; what remains is exactly the tasks with other ids, as a subsequence of the original list, so in their original order; with nothing removed, the list is unchanged |
| TaskStore.RemoveKeepsCounts | src/Main.kt:86 | every task with another id survives removal exactly as many times as it occurred |
| TaskStore.Add | src/Main.kt:40-47 | with an index in 0..3, exactly one task is appended: id = old nextId, that category, status "Pending", the given timestamp; nextId grows by 1 and earlier tasks stay as they were. An out-of-range or unparseable index reports an invalid category and changes nothing |
| TaskStore.ViewTasks | src/Main.kt:52-57 | an empty store gives the "no tasks" signal; otherwise one rendered line per task, in insertion order |
| TaskStore.Update | src/Main.kt:61-79 | an unparseable id, an absent id or an invalid category index each report their own failure and leave the store unchanged; on success, only the first task with the id changes, its four fields are replaced at once, and nextId stays the same |
| TaskStore.Delete | src/Main.kt:83-89 | an unparseable id changes nothing; otherwise the outcome is Deleted exactly when a task had the id; afterwards no task has it, all other tasks remain, and nextId is unchanged |
| TaskStore.InitValid | src/Main.kt:27-28 | the fresh store (no tasks, nextId 1) satisfies the invariant and views as "no tasks" |
| TaskStore.ValidIdsUnique | src/Main.kt:27-28 | in a store that keeps the invariant, no two tasks share an id |
| TaskStore.AddPreservesValid | src/Main.kt:42-47 | add preserves the store invariant |
| TaskStore.AddAssignsFreshId | src/Main.kt:47 | a successful add hands out old nextId, which is larger than every stored id and so is carried by no stored task |
| TaskStore.UpdatePreservesValid | src/Main.kt:73-78 | update preserves the store invariant, since the new category is one of the four labels and ids do not move |
| TaskStore.UpdateTouchesOnlyTarget | src/Main.kt:64-78 | in a valid store, a successful update leaves every task with another id untouched and gives the task with the id the new fields, keeping its id and createdAt |
| TaskStore.RemovePreservesOrder | src/Main.kt:86 | removing by id keeps the remaining tasks ordered by id |
| TaskStore.DeletePreservesValid | src/Main.kt:85-86 | delete preserves the store invariant |
| TaskStore.OrderedBySameTasks | src/Main.kt:27 | two id-ordered lists of the same tasks are equal, so an ordered task list is fixed by its contents |
| TaskStore.DeleteKeepsOthersInOrder | src/Main.kt:86 | in a valid store, delete leaves exactly the other tasks in their original relative order |
| TaskStore.DeleteThenFind | src/Main.kt:85-86 | after deleting an id, looking that id up finds nothing |
| TaskStore.DeletedIdNotReissued | src/Main.kt:47 | after id k is deleted, the next successful add hands out an id strictly larger than k |
| TaskStore.ViewAfterAdd | src/Main.kt:52-57 | a successful add appends exactly one line, the new task's rendering, to the view |
| TaskStore.ViewShowsIdsInOrder | src/Main.kt:52-57 | in a valid store, each viewed line reads back as its task's id, and these ids strictly increase down the listing |
| Session.DispatchKeyRoundTrip | src/Main.kt:117-127 | the keys "1" to "5" select the five menu items, and any line that selects an item is that item's key |
| Session.Dispatch | src/Main.kt:117-127 | a line selects a menu item exactly when it is one of "1" to "5", and then it is that item's key |
| Session.MessagesDistinct | src/Main.kt:43-88 | the messages printed for the six outcomes are pairwise different, and none is "Goodbye!" |
| Session.Step | src/Main.kt:117-128 | "1", "3" and "4" leave the store as add, update and delete do. Each prints its message: "Task added." or "Invalid category."; "Invalid ID", "Task not found.", "Invalid category." or "Task updated."; "Invalid ID", "Task deleted." or "Task not found.". "2" prints "No tasks available." for an empty store, otherwise one rendering per task in order. "5" prints "Goodbye!" and is the only choice that stops the loop. Any other line prints "Invalid option. Try again.". View, exit and unrecognised lines leave the store alone. nextId grows by one exactly on a successful add |
| Session.RunScript | src/Main.kt:106-129 | the counter never goes back over a session; a non-empty script prints something; the transcript ends with "Goodbye!" when Exit was chosen, and never contains it otherwise |
| Session.StepPreservesValid | src/Main.kt:117-121 | every menu round preserves the store invariant |
| Session.RunPreservesValid | src/Main.kt:106-129 | a whole session from a valid store ends in a valid store |
| Session.RunExitsIffChosen | src/Main.kt:106-129 | the loop ends exactly when some round chose "5"; malformed input never ends it |
| Session.IssuedIdsConsecutive | src/Main.kt:47 | the ids handed out during a session run consecutively from the starting counter to just below the final counter: no gaps and no repeats, and no id is handed out twice, even with deletes in between |
| Session.SessionIdsCountFromOne | src/Main.kt:28 | starting fresh, the k-th task ever created gets id k + 1, and the final counter is one more than the number of tasks created |
| Scenarios.BuyMilk | src/Main.kt:40-57 | adding "Buy milk" with index 0 to a fresh store gives one task: id 1, category Work, status Pending. Viewing shows that task's rendering alone |
| Scenarios.IdsNotReused | src/Main.kt:47 | add a Work task (id 1) and a Study task (id 2), delete 1, then add again: the ids left are 2 and 3 |
| Scenarios.UpdateBadCategory | src/Main.kt:72-73 | updating task 2 with category index 5 reports an invalid category and task 2 keeps its Study values |

## Left out

- The auto-save coroutine is not modelled: `startAutoSave`, `GlobalScope.launch`, `delay`, `runBlocking` and the cancellation of the job on exit. It is about concurrency and wall-clock time, and it shares no state with the store. Choosing "5" is modelled only as the loop stopping after printing "Goodbye!".
- Console I/O is not modelled as such: the menu banner, the prompts and the category list printed before each choice. What the user types is a parameter (`Entry`), and what the store code prints is returned as output lines.
- The clock and `DateTimeFormatter` are not modelled. `createdAt` is an opaque, already formatted string supplied when a task is created.
- Kotlin's `String.toIntOrNull` is not modelled. Its result is an `Option<int>` parameter. `Decimal.ParseDecimal` is only the inverse of id printing, not a model of `toIntOrNull`.
- The status line's end-of-input default `readlnOrNull() ?: "Pending"` is not modelled, because it is an artefact of console I/O. The status is a plain string parameter.
- Session.RunScript: a script that runs out stands for end of input. There Kotlin's `readln()` throws and the process dies; the model simply stops with `exited` false.
- The model does not capture which input lines each operation consumes. For example, update does not read the status line when the category is invalid. Every answer an operation might need is supplied up front in `Entry`.
- TaskStore.Add: ids and `nextId` are unbounded integers. Kotlin's 32-bit `nextId++` would wrap to a negative value after 2^31 - 1 additions, breaking the ordering invariant. No interactive session can reach that.
