# To-do list store, modelled in Dafny

This project models the data store of a browser to-do list application
(`index.js`). The store keeps one list of projects. Each project has a title,
an id and an ordered list of tasks ("todos"). Each task has a title, a
description, a due date, a priority, a done flag and an id. The store is read
from the browser's local storage at start-up, falling back to a single empty
project called "Project 1". Each of its own mutations (add or delete a
project, add, delete or edit a task) rewrites the whole list into local
storage. Two more rules come from the rest of the page. The done button flips
a task's done flag in place. The controller accepts a new project or task only
when its title is not blank after `trim()`, and only when the due date is
non-empty for a task. It gives each new record the current length of the list
it is appended to as its id.

Modules:

- `Wrappers`: `Option`.
- `Records`: the `Todo` and `Project` records, their factories, and the default state.
- `JsString`: ECMAScript `String.prototype.trim` over `seq<char>`, with the lemma that
  relates a blank string to an empty trim result.
- `ProjectTree`: the project list as a value. It has one function per change made to it
  (`Spliced` for `splice(i, 1)`, `WithTodos`, `WithTodo`, `Edited`, `Toggled`) and
  lemmas about those changes: undo pairs, append order, and ids drifting after a
  deletion.
- `Data`: class `Store`. Its `projects` field is the shared list and its `stored` field is
  the local-storage entry. Each mutator is specified by a `ProjectTree` function and
  ends with `Saved()`, meaning the storage entry equals the in-memory list.
- `Ui`: `DoneTodo`, the done toggle. It changes the store but does not save it.
- `Controller`: the add-project and add-task validation and id rules, and the add-task
  handler that goes through `Data.Store.AddTodo`.

## Model

| member | source | states |
|---|---|---|
| `Records.NewProject` | index.js:15-21 | a new project carries the given title and id and has no tasks |
| `Records.NewTodo` | index.js:33-42 | a new task carries the given title, description, due date, priority and id, and is not done |
| `Records.DefaultProjects` | index.js:3-9 | the fallback state is exactly one project, titled "Project 1", with id 0 and no tasks |
| `Data.Load` | index.js:3-9 | with no storage entry the store starts from the default state; otherwise it starts from the stored list, even an empty one |
| `Data.Reload` | index.js:3-12 | after any store mutation has saved, a store started from the saved entry holds the same projects |
| `Data.Store.constructor` | index.js:3-9 | start-up loads the entry and does not write anything back |
| `Data.Store.Save` | index.js:11-13 | afterwards the storage entry holds the whole in-memory list |
| `Data.Store.AddProject` | index.js:23-26 | the list becomes the old list followed by the new project, and is saved |
| `Data.Store.DelProject` | index.js:28-31 | the list becomes the old list with the project at that index spliced out, and is saved |
| `Data.Store.DelTodo` | index.js:44-47 | only the named project's tasks change, by splicing out one index; the list is saved |
| `Data.Store.AddTodo` | index.js:49-52 | only the named project's tasks change, by appending the task; the list is saved |
| `Data.Store.EditTodo` | index.js:54-61 | only the named task changes: title, description, priority and due date get the new values; the list is saved |
| `ProjectTree.Spliced` | index.js:29 | `splice(i, 1)` at an index in range shortens the list by one, keeps the elements before it and moves every later one down one place; at or past the end it changes nothing |
| `ProjectTree.WithTodos` | index.js:45-50 | replacing one project's tasks keeps that project's title and id, keeps the list length, and leaves every other project unchanged |
| `ProjectTree.WithTodo` | index.js:55-59 | replacing one task keeps every other task of that project, the project's title and id, and every other project |
| `ProjectTree.Edited` | index.js:54-61 | an edit sets the four editable fields and keeps `doneStatus` and `id` |
| `ProjectTree.Toggled` | index.js:199-201 | the toggle negates `doneStatus` and changes no other field |
| `ProjectTree.AddedInTurnAppends` | index.js:23-26 | successive project additions leave the earlier projects in place and add the new ones in call order |
| `ProjectTree.DeleteUndoesAddProject` | index.js:23-31 | deleting the project just added restores the previous list |
| `ProjectTree.DeleteUndoesAddTodo` | index.js:44-52 | deleting the task just added to a project restores the previous list |
| `ProjectTree.ToggleTwiceRestores` | index.js:199-201 | toggling the same task twice restores the previous list |
| `ProjectTree.EditToSameValuesIsIdentity` | index.js:54-61 | editing a task to the values it already holds changes nothing |
| `ProjectTree.SpliceMisalignsProjectIds` | index.js:28-31 | after a delete that is not of the last project, the project now at index `i` still has id `i + 1`, so ids are positions only until the first deletion |
| `ProjectTree.SpliceMisalignsTodoIds` | index.js:44-47 | the same drift for task ids after a task delete |
| `JsString.Trim` | index.js:271 | `trim()` returns the piece of the input left after removing a prefix and a suffix made only of whitespace and line-terminator code points, and that piece neither starts nor ends with one of them, so it is the one maximal such piece |
| `JsString.TrimEmptyIffBlank` | index.js:280 | `trim()` returns the empty string exactly when every character of the input is whitespace or a line terminator |
| `Ui.DoneTodo` | index.js:195-205 | only the named task changes, and only its done flag is negated; local storage is left as it was; the button caption becomes "Undo" for a done task and "Done" otherwise |
| `Controller.ProjectFromInput` | index.js:270-272 | a project is created exactly when the title is not blank; it keeps the title as typed, its id is the current project count, and it has no tasks |
| `Controller.TodoFromInput` | index.js:279-282 | a task is created exactly when the title is not blank and the due date is non-empty; its id is the current project's task count and it is not done |
| `Controller.SubmitTodo` | index.js:279-291 | accepted input appends the new task to the current project through `addTodo` and saves; rejected input changes neither the list nor local storage |
| `Controller.AcceptedProjectKeepsPositionalIds` | index.js:272 | a non-blank title is accepted, and if every project id equals its position, it still does after the accepted project is appended |
| `Controller.AcceptedTodoKeepsPositionalIds` | index.js:282 | a non-blank title with a due date is accepted, and if every task id equals its position, it still does after the accepted task is appended |
| `Controller.AddWorkToDefault` | index.js:270-272 | from the default state, adding "Work" gives `[{Project 1, 0, []}, {Work, 1, []}]` |

## Left out

- Rendering (`renderProject`, `createProject`, `renderTodo`, `createTodo`, index.js:85-188) builds DOM elements and holds no logic. The same goes for the dialogs, input clearing and listener registration in `Controller.init`.
- Local storage and JSON: `stored` is an abstract `Option` of the project list, with `None` for a missing entry. The model assumes that `JSON.stringify` followed by `JSON.parse` returns these records unchanged, since they hold only strings, numbers and booleans. A malformed entry, which makes `JSON.parse` throw at start-up, is not modelled.
- Several paths change `Data.projects` without going through the store's mutators and without saving:
  - the controller's add-project handler pushes the new project directly (index.js:273);
  - `UI.deleteProject` (index.js:110), `UI.deleteTodo` (index.js:191) and the controller's project delete (index.js:310) splice directly;
  - the controller's edit-save handler writes the four fields directly (index.js:351-363), with an untrimmed non-empty title check.
  Only the validation and id rule of the add-project handler is modelled (`Controller.ProjectFromInput`). `Data.Store.EditTodo` models `Data.editTodo`, which the page itself never calls.
- The choice of the current project after a project delete (index.js:311-318) is not modelled. The index comes from an attribute string, so `index + 1` is string concatenation there.
- The exported copies `UI.currentProjectIndex` and `Controller.TodoIndexForEditing` (index.js:208, 367) are not modelled. Indices are passed as explicit `nat` parameters instead.
- Indices are `nat`, so the count-from-the-end behaviour of `splice` for negative indices is not modelled.
- The page turns a click into an index through the element's `data` attribute; the model takes that index as a parameter.
  - For projects the attribute is the position in the list (index.js:88, 97), so project ids are stored but never used as indices, and their drift (`ProjectTree.SpliceMisalignsProjectIds`) never sends a click to the wrong project.
  - For tasks the attribute is the task's id (index.js:126). After a task delete the ids drift (`ProjectTree.SpliceMisalignsTodoIds`), so the delete, done and edit handlers (index.js:198-199, 325-340) can hit the wrong task, splice past the end and do nothing, or throw. The model does not follow a click to the task it reaches.
- Records are values, so JS object identity is not modelled. `editTodo` and the toggle write fields of the shared task object. Nothing but the transient render holds a reference into the tree, so replacing the record in the list has the same observable effect.
- Deleting past the end is a no-op, as `splice` does, so the delete operations take any `nat` index.
- The done toggle does not save.
- Priority is any string, since the code never restricts it.
