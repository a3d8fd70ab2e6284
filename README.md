# To-do list client state, modelled in Dafny

This project models the state handling of the `TodoApp` React component of a
small to-do list client (a Go/Gin server holds the records; the client lists,
creates, toggles and deletes them over REST). The component keeps four pieces
of state: the list of `{ID, title, completed}` records, the title being typed
(`newTitle`), a `loading` flag and an `error` message. Four handlers change
that state:

- the initial load (`fetchTodos`) sets `loading`, clears `error`, then either
  replaces the list with the server's data or records an error message, and
  always clears `loading`;
- `createTodo` trims the typed title, sends nothing when it is blank, and on
  an ok response appends the server's record and clears the input;
- `toggleTodo` flips `completed` locally at once, builds the PUT body from the
  list the handler closed over (a snapshot taken at render time), and puts
  the snapshot's value back only when the response is not ok;
- `deleteTodo` removes the items with that ID, but only after an ok response.

Modules:

- `Wrappers` (wrappers.dfy): `Option`.
- `JsText` (js_text.dfy): ECMAScript `String.prototype.trim`, over the
  WhiteSpace and LineTerminator code points, with its characterisation
  (blank prefix + trimmed middle + blank suffix, and that middle is unique).
- `TodoList` (todo_list.dfy): the `Todo` record and the pure list updaters
  handed to `setTodos` (append, flip by ID, set `completed` by ID, filter by
  ID) and `find`, with the lemmas about them (flip is an involution, rollback
  undoes flip, delete is idempotent, unique IDs are kept).
- `TodoApp` (todo_app.dfy): the remote outcomes, the request bodies, the
  render decision, and the class `TodoApp` whose fields are the four state
  hooks and whose methods are the handlers. Each method takes the outcome of
  its `fetch` as an argument (`Ok(body)`, `NotOk(status)` or `Thrown`) and
  returns the body it would send.

The toggle is split at its `await`: `ToggleBegin` is the optimistic update
and the snapshot lookup, `ToggleSettle` the reaction to the response, applied
to whatever the list is by then (other handlers may run in between).
`Toggle` runs the two back to back.

Each handler's `modifies` clause names the state hooks it may set, so
"nothing else changes" is part of its contract.

The model follows the code as written: create and delete are not
optimistic, there is no per-ID queueing of requests, the toggle rolls back
only on a response that is not ok (a thrown error keeps the flip), and a
toggle whose ID is missing from the snapshot sends nothing and keeps the
flip.

## Model

| member | source | states |
|---|---|---|
| `JsText.TrimStart` | frontend/src/TodoApp.jsx:55 | the result is a suffix of the input, the dropped prefix is all white space, and the result does not start with white space |
| `JsText.TrimEnd` | frontend/src/TodoApp.jsx:55 | the result is a prefix of the input, the dropped suffix is all white space, and the result does not end with white space |
| `JsText.Trim` | frontend/src/TodoApp.jsx:55 | `trim()` is no longer than its input and neither starts nor ends with white space |
| `JsText.TrimSurrounds` | frontend/src/TodoApp.jsx:55 | the input is a blank prefix, then the trimmed title, then a blank suffix |
| `JsText.TrimUnique` | frontend/src/TodoApp.jsx:55 | any split into blank prefix, trimmed middle and blank suffix has `trim()` as its middle, so trim is determined by that description |
| `JsText.TrimEmptyIffBlank` | frontend/src/TodoApp.jsx:52 | `trim()` is empty exactly when every character is white space, both directions |
| `JsText.TrimIdempotent` | frontend/src/TodoApp.jsx:55 | trimming twice equals trimming once |
| `TodoList.Append` | frontend/src/TodoApp.jsx:72 | the list grows by one, every earlier item stays at its position, and the new record is last |
| `TodoList.FlipById` | frontend/src/TodoApp.jsx:83 | same length, IDs and titles at every position; items with another ID untouched; items with the ID have `completed` negated |
| `TodoList.SetCompletedById` | frontend/src/TodoApp.jsx:104-106 | same length, IDs and titles; items with another ID untouched; items with the ID get the given `completed` |
| `TodoList.RemoveById` | frontend/src/TodoApp.jsx:128 | no item with the ID is left; an item is kept exactly when its ID differs and with its multiplicity; the result is a subsequence of the input, so relative order is kept |
| `TodoList.Find` | frontend/src/TodoApp.jsx:88 | nothing exactly when no item has the ID; otherwise the item at the first position holding the ID |
| `TodoList.FlipTwice` | frontend/src/TodoApp.jsx:83 | flipping the same ID twice gives the original list |
| `TodoList.FlipChanges` | frontend/src/TodoApp.jsx:110-113 | when the list holds the ID, the flip changes it, so a flip that is not rolled back stays visible |
| `TodoList.RollbackUndoesFlip` | frontend/src/TodoApp.jsx:102-106 | setting `completed` back to `c` after a flip restores the list when every item with that ID had `c` |
| `TodoList.RollbackRestores` | frontend/src/TodoApp.jsx:88-106 | with unique IDs, rolling back to the value `find` saw before the flip restores the list exactly |
| `TodoList.RollbackNeedsUniqueIds` | frontend/src/TodoApp.jsx:104-106 | with two items sharing an ID and differing in `completed`, the rollback does not restore the list |
| `TodoList.RemoveAbsent` | frontend/src/TodoApp.jsx:128 | deleting an ID the list does not hold leaves it unchanged |
| `TodoList.RemoveIdempotent` | frontend/src/TodoApp.jsx:128 | deleting the same ID again changes nothing |
| `TodoList.UpdatersKeepUniqueIds` | frontend/src/TodoApp.jsx:83-128 | flip, rollback and delete keep the IDs of a list unique |
| `TodoList.AppendKeepsUniqueIds` | frontend/src/TodoApp.jsx:72 | appending a created record whose ID the list does not hold keeps the IDs unique, so `Toggle`'s restore clause still applies after a create |
| `TodoApp.CreateBody` | frontend/src/TodoApp.jsx:52-55 | no request exactly when the title is blank; otherwise the body is the trimmed (hence, by `Trim`, white-space-free at both ends), non-empty title with `completed = false` |
| `TodoApp.CreateBodyIgnoresPadding` | frontend/src/TodoApp.jsx:52-55 | surrounding the typed title with white space does not change what is posted |
| `TodoApp.PutBody` | frontend/src/TodoApp.jsx:88-92 | no request exactly when the snapshot lacks the ID; otherwise the first snapshot item with the ID, same ID and title, `completed` negated |
| `TodoApp.PutBodyIsOptimisticItem` | frontend/src/TodoApp.jsx:83-92 | when the snapshot is the list that was flipped, the PUT body is the flipped list's first item with that ID |
| `TodoApp.ScreenOf` | frontend/src/TodoApp.jsx:137-138 | loading shows the loading indicator; otherwise a truthy error shows the error; otherwise the list, with the empty notice exactly when the list is empty |
| `TodoApp.TodoApp.constructor` | frontend/src/TodoApp.jsx:16-19 | the initial state: no items, empty input, loading, no error |
| `TodoApp.TodoApp.Load` | frontend/src/TodoApp.jsx:24-47 | may change only the list, `loading` and `error`; `loading` ends false; ok replaces the list and leaves no error; failure keeps the list and sets the error message; the screen is the list or the error accordingly |
| `TodoApp.TodoApp.EditTitle` | frontend/src/TodoApp.jsx:149 | the typed text becomes `newTitle`; its frame is `newTitle` alone |
| `TodoApp.TodoApp.Create` | frontend/src/TodoApp.jsx:50-78 | may change only the list and `newTitle`; the request is `CreateBody` of the typed title; ok appends the returned record and clears the input; a blank title or any failure leaves list and input unchanged |
| `TodoApp.TodoApp.ToggleBegin` | frontend/src/TodoApp.jsx:81-89 | only the list changes: it is flipped, and the snapshot's item with the ID is returned |
| `TodoApp.TodoApp.ToggleSettle` | frontend/src/TodoApp.jsx:94-113 | a response that is not ok sets the items with the ID back to the snapshot value in the current list; ok or a thrown error leaves the list |
| `TodoApp.TodoApp.Toggle` | frontend/src/TodoApp.jsx:81-114 | only the list changes; the PUT body is `PutBody`; the flip stays on ok, on a thrown error and when the snapshot lacks the ID; on a response that is not ok the list is restored when the snapshot was the list clicked on and IDs are unique |
| `TodoApp.TodoApp.Delete` | frontend/src/TodoApp.jsx:117-133 | only the list changes; ok removes every item with the ID (see `RemoveById`); any failure leaves the list unchanged |
| `TodoApp.Mount` | frontend/src/TodoApp.jsx:16-47 | first mount then load: `loading` false, the list is the data on ok and empty on failure, and the screen shows the list or the error |

## Left out

- The network: `fetch`, URLs, headers and HTTP status handling beyond ok / not ok / thrown are replaced by the `Outcome` argument; a body that fails to decode after an ok response is folded into `Thrown`.
- JSON encoding and decoding: records arrive already decoded as `Todo` values; the request bodies are returned as values.
- `alert` and `console.error`: they only report; no state depends on them.
- JSX rendering, styles and form-event plumbing (`preventDefault`, the `onChange` event object): only the render's choice of screen (`ScreenOf`) and the input's setter (`EditTitle`) are modelled.
- React's scheduling and real interleaving of handlers: functional `setTodos` updates are applied to the current list at once; the only interleaving captured is the suspension point inside the toggle, through `ToggleBegin` / `ToggleSettle` and the explicit snapshot argument.
- Strings are sequences of Unicode scalar values, while JavaScript strings are UTF-16 code units: `trim` is unaffected because every white-space code point lies in the Basic Multilingual Plane, but a title holding a lone surrogate cannot be represented.
- IDs are modelled as mathematical integers; JavaScript numbers (floats, `NaN`) are not, which is harmless because the server assigns integer IDs.
- `TodoApp.TodoApp.Toggle`: its no-op-after-rollback clause is stated only for a snapshot whose IDs are unique; with duplicate IDs that differ in `completed` the code need not restore the list (`RollbackNeedsUniqueIds`); when the duplicates agree, `RollbackUndoesFlip` shows it is restored.
- backend/main.go: the server handlers live in libraries outside this model (binding, database save and delete), so it is not part of this model.
- frontend/src/TodoList.jsx, frontend/src/AddTodo.jsx, frontend/src/App.jsx and frontend/src/Todo.jsx are not part of this model: they are broken wiring (App.jsx keeps a `message` state it never shows, Todo.jsx owns a `todos` state only to hand it down, TodoList.jsx and AddTodo.jsx issue fetches during render whose callbacks call `setTodos`, and they refer to the undefined `handleRemoveTask`, `title` and `todos`), so no behaviour can be stated for them.
- Optimistic create and delete and per-ID serialisation of requests: the code does not implement them.
