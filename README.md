# Task tracker: client task list and server task table

This project models the two places where a task tracker's tasks change, and proves
what each operation does to them.

- **The client task list** (`frontend/src/App.js`). The `App` component holds the list
  of tasks, an error message, the new-task form, the edit form and a logged-in flag.
  It also reads the browser's `access_token` slot. Its handlers load the list, add,
  save, toggle and delete tasks, and log out. Each render counts the tasks per
  progress value, rounds the completion percentage and decides whether to show the
  celebration banner. The model is the class `TaskStore.App`. Each handler is a method
  that runs as one atomic step. The backend's answer is an `ApiOutcome` parameter
  (`Success(body)` or `Failure`), and `window.confirm` is a boolean parameter. The new
  lists are pure functions (`ReplaceById`, `Tasks.RemoveById`), and so are the stats.
- **The server task router** (`app/routers/task.py`). Every handler works on one table
  of tasks, keyed by `task_id` and owned through `user_id`.
  - Listing (`root`) and reading (`read_single_task`) are pure queries over the table.
  - `write_task`, `update_task` and `delete_task` are methods of the class
    `TaskRouter.TaskTable`. The class holds the rows in table order and the
    primary-key sequence (`nextId`).
  - HTTP errors are `Err(HttpError(status, detail))` results.
  - The signed-in user's id is a plain input.

Shared pieces: the record `Tasks.Task` and the three-valued `Tasks.Progress`
(`app/models.py`); the request body `Tasks.TaskPayload` (`app/schemas.py`); an
order-preserving `Seqs.Filter`. `SqlLike` models PostgreSQL's `LIKE`, which the
search filter compiles to.

The toggle at `frontend/src/App.js:122` sends `done` for every progress except
`done`, so `in-progress` goes to `done`, and only `done` goes back to `planned`
(`Toggled`, `ToggleTwice`).

## Model

| member | source | states |
|---|---|---|
| `Seqs.Filter` | frontend/src/App.js:179-187 | the result holds exactly the kept elements of the input, each taken from the input, and is no longer |
| `Seqs.FilterConcat` | frontend/src/App.js:143 | filtering distributes over concatenation, so the kept entries keep their relative order |
| `Tasks.ProgressTextInjective` | app/models.py:8-11 | the text forms `planned`, `in-progress`, `done` of the three progress values are distinct, so a status text selects exactly one progress value |
| `Tasks.RemoveById` | frontend/src/App.js:143 | no entry with the id remains; every other entry is kept, and nothing is added |
| `Tasks.RemoveByIdAbsent` | frontend/src/App.js:143 | removing an id that is not present leaves the list as it was |
| `Tasks.RemoveByIdExact` | app/routers/task.py:80 | with unique ids, removal drops exactly the entry holding the id; the others stay in order and the length falls by one |
| `Tasks.RemoveByIdKeepsUnique` | app/models.py:16 | removal keeps `task_id` unique |
| `SqlLike.Escape` | app/routers/task.py:23 | escaping leaves a string without pattern characters unchanged, and the empty string is the only one that escapes to empty |
| `SqlLike.EscapedContainsIsSubstring` | app/routers/task.py:23 | with escaping, `contains` holds exactly when the search string is a substring of the text |
| `SqlLike.ContainsIsSubstring` | app/routers/task.py:23 | without escaping, `contains` is substring search when the search string has no `%`, `_` or `\` |
| `SqlLike.UnderscoreIsWildcard` | app/routers/task.py:23 | without escaping, `contains("dune", "d_ne")` holds although `d_ne` is not a substring of `dune` |
| `TaskRouter.Selected` | app/routers/task.py:21-25 | a row is selected exactly when it is in the table, belongs to the user and passes the given search and status filters |
| `TaskRouter.Page` | app/routers/task.py:26 | the page has at most `limit` rows; its length is what is left after `skip`, capped at `limit`; its i-th row is row `skip + i` of the input |
| `TaskRouter.ListTasks` | app/routers/task.py:15-27 | at most `limit` rows, all owned by the caller; with a status every row has that progress; with a search every row's progress or content matches it (title is not searched) |
| `TaskRouter.PagesTile` | app/routers/task.py:26 | a page of `a` rows followed by the next page of `b` rows is the page of `a + b` rows |
| `TaskRouter.DefaultListing` | app/routers/task.py:17-18 | with the defaults (`limit` 10, `skip` 0, no search or status) the caller gets their first ten rows in table order |
| `TaskRouter.ListingAfterDelete` | app/routers/task.py:80 | after the id's rows are removed, no listing shows that id |
| `TaskRouter.ListSearchIsSubstring` | app/routers/task.py:22-23 | for a search string without pattern characters, every listed row has it as a substring of its progress or content |
| `TaskRouter.SelectedAppend` | app/routers/task.py:46-48 | a newly inserted row that passes the filters comes last in the selection, after the earlier selection |
| `TaskRouter.CreatedIsListed` | app/routers/task.py:46-50 | a task the caller just created is on the page that reaches the end of the selection |
| `TaskRouter.ListTasksEscaped` | app/routers/task.py:22-23 | the corrected search: same bounds, owner and status guarantees as `ListTasks`, and every row contains the search string as a substring |
| `TaskRouter.SearchWildcardExample` | app/routers/task.py:22-23 | searching `d_ne` lists a task whose content is `dune`; the escaped search does not |
| `TaskRouter.FindTask` | app/routers/task.py:33 | nothing is found exactly when no row has the id; a found row is in the table with that id, and with unique ids it is the only one |
| `TaskRouter.Authorize` | app/routers/task.py:33-39 | a missing id gives 404 whoever asks; an existing task of another user gives 403; otherwise the owner's row comes back |
| `TaskRouter.AuthorizeOwnerOnly` | app/routers/task.py:37-39 | with unique ids, the checks pass exactly when a row with the id belongs to the caller |
| `TaskRouter.ReadSingleTask` | app/routers/task.py:30-40 | 404 with `Task with id: {id} not found` for a missing id; 403 `Not authorized to perform requested action` for another user's existing task; success exactly when the task exists and the caller owns it, returning the caller's row with that id |
| `TaskRouter.WithPayload` | app/routers/task.py:64 | the row takes the payload's title, content and progress and keeps its id, owner and creation time |
| `TaskRouter.UpdateRows` | app/routers/task.py:64 | same length; rows with the id get the payload's fields, all other rows are unchanged and stay in place |
| `TaskRouter.UpdateRowsKeepsIds` | app/routers/task.py:64 | an update changes no id, so ids stay unique and the id stays present |
| `TaskRouter.UpdateRowsIdempotent` | app/routers/task.py:64 | two identical updates leave the table as one does |
| `TaskRouter.FindAfterUpdate` | app/routers/task.py:64-66 | the row read back after the update is the old row with the payload applied |
| `TaskRouter.TaskTable.constructor` | app/models.py:16 | an empty table whose key sequence starts at 1 |
| `TaskRouter.TaskTable.WriteTask` | app/routers/task.py:43-50 | appends one row owned by the caller, with the payload's fields, the given creation time and a fresh id that no row had; earlier rows are unchanged; the key sequence advances |
| `TaskRouter.TaskTable.UpdateTask` | app/routers/task.py:53-66 | 404 (`was not found`) before 403, and the table is unchanged on either error; on success only rows with that id change, and the updated row is returned |
| `TaskRouter.TaskTable.DeleteTask` | app/routers/task.py:69-82 | 404 before 403 with the table unchanged; on success exactly that task is removed, the others keep their order, and `Task with id {id} was deleted` is returned |
| `TaskStore.TrimStart` | frontend/src/App.js:64 | the result is a suffix of the input that does not start with whitespace, and everything dropped is whitespace |
| `TaskStore.TrimEnd` | frontend/src/App.js:64 | the result is a prefix of the input that does not end with whitespace, and everything dropped is whitespace |
| `TaskStore.TrimEmptyIffBlank` | frontend/src/App.js:64 | `trim()` gives the empty string exactly when every character is ECMAScript whitespace |
| `TaskStore.ReplaceById` | frontend/src/App.js:110 | same length; every entry with the id becomes the response, every other entry is unchanged and in place |
| `TaskStore.ReplaceByIdIdempotent` | frontend/src/App.js:110 | applying the same response twice gives the same list as once |
| `TaskStore.ReplaceByIdAt` | frontend/src/App.js:128-130 | with unique ids and a response carrying the id, exactly one entry changes and ids stay unique |
| `TaskStore.Toggled` | frontend/src/App.js:122 | never `in-progress`; the result is `planned` exactly when the input is `done` |
| `TaskStore.ToggleTwice` | frontend/src/App.js:122 | two toggles restore `planned` and `done`, and take `in-progress` to `planned` |
| `TaskStore.CountProgress` | frontend/src/App.js:179-187 | a count per progress value never exceeds the number of tasks |
| `TaskStore.CountsSum` | frontend/src/App.js:179-188 | planned + in progress + completed = total |
| `TaskStore.RoundedPercent` | frontend/src/App.js:189-190 | 0 without tasks; otherwise the whole number nearest to 100 × completed / total, with halves rounded up; never above 100 |
| `TaskStore.ProgressPercent` | frontend/src/App.js:189-190 | the displayed percentage: 0 for an empty list, otherwise the rounded completed share, within 0..100 |
| `TaskStore.CelebrationIffAllDone` | frontend/src/App.js:583 | the banner shows exactly when there is at least one task and every task is `done` |
| `TaskStore.CelebrationMeansFull` | frontend/src/App.js:583 | whenever the banner shows, the percentage is 100 |
| `TaskStore.Stats` | frontend/src/App.js:179-190 | each count is the number of tasks with its own progress and the counts add up to the total; the percentage is the completed share rounded half up (within one half of 100·completed/total), lies in 0..100 and is 0 without tasks; the banner shows exactly when all of at least one task are done, and then the percentage is 100 |
| `TaskStore.App.constructor` | frontend/src/App.js:7-21 | logged out, no tasks, loading, no error, empty forms with progress `planned`, nothing being edited; the stored token is as given |
| `TaskStore.App.LoadTasks` | frontend/src/App.js:35-47 | success replaces the list wholesale and clears the error; failure keeps the list and sets `Failed to load tasks`; loading ends; nothing else changes |
| `TaskStore.App.Mount` | frontend/src/App.js:24-32 | with a non-empty stored token: logged in, then loaded as by `LoadTasks`; without one, only loading ends |
| `TaskStore.App.HandleLoginSuccess` | frontend/src/App.js:50-53 | logged in, then loaded as by `LoadTasks` |
| `TaskStore.App.HandleLogout` | frontend/src/App.js:56-60 | stored token removed, logged out, list emptied; nothing else changes |
| `TaskStore.App.SetNewTaskFields` | frontend/src/App.js:262-306 | only the three new-task form fields change |
| `TaskStore.App.AddTask` | frontend/src/App.js:63-84 | blank title or content: no call, list unchanged, error `Please fill in both title and content`; otherwise the form is sent; success appends the created task after the old entries, resets the form to `""`, `""`, `planned` and clears the error; failure keeps the list and sets `Failed to add task` |
| `TaskStore.App.StartEditing` | frontend/src/App.js:87-92 | the edit fields take the task's id, title, content and progress; nothing else changes |
| `TaskStore.App.CancelEditing` | frontend/src/App.js:95-100 | nothing is being edited and the edit fields are back to `""`, `""`, `planned` |
| `TaskStore.App.SetEditFields` | frontend/src/App.js:390-436 | only the three edit fields change |
| `TaskStore.App.SaveTask` | frontend/src/App.js:103-117 | sends the edit fields; success replaces every entry with the id by the response, ends editing and clears the error; failure keeps the list and sets `Failed to update task` |
| `TaskStore.App.QuickToggleTask` | frontend/src/App.js:120-136 | sends the task's own title and content with the toggled progress; success replaces only entries with that id; failure keeps the list and sets `Failed to update task` |
| `TaskStore.App.DeleteTask` | frontend/src/App.js:139-150 | nothing happens and nothing is sent unless confirmed; success removes every entry with the id, keeping the rest in order; failure keeps the list and sets `Failed to delete task` |

## Left out

- Asynchronous interleaving of overlapping requests and React's deferred state updates. Each handler is one atomic step that reads the current state.
- `TaskStore.App.LoadTasks`: `loading` is true only while the request is in flight. An atomic step cannot show that, so only its final value (false) is modelled.
- The HTTP layer (`frontend/src/api.js`): the axios wrappers and the interceptor that attaches the token. Each call is an `ApiOutcome` parameter, and `console.error` logging is dropped.
- `frontend/src/Login.js` is not part of this model. It writes the token slot and calls `handleLoginSuccess`, so in the model the slot is set only at construction.
- Rendering: the JSX, styles, `getStatusDisplay`, the date formatting and `handleKeyPress`. `handleKeyPress` only calls a handler on Enter. The form `onChange` handlers are kept, as `SetNewTaskFields` and `SetEditFields`.
- In JavaScript, `progress` is a string. The model uses the three-valued enum, because the only values the client ever sees come from the form's `<select>` and from the server's `TaskStatus`.
- `Math.round` over a floating-point quotient. The model uses exact integer half-up rounding, (200·completed + total) / (2·total).
- `TaskStore.App.AddTask`: the blank check is written as `IsBlank` rather than as a call to `Trim`. `TaskStore.TrimEmptyIffBlank` proves the two agree.
- Row order. There is no `ORDER BY`, so listing uses table order, and inserts go at the end. The database does not promise either order.
- Negative `skip` or `limit`. PostgreSQL rejects them, and the model's types are natural numbers.
- An unannotated `limit` that arrives as a string is taken as already converted to an integer.
- How the enum column is stored and compared. `SQLEnum(TaskStatus)` (app/models.py:21) creates a PostgreSQL enum whose labels are the member names `planned`, `in_progress` and `done`, and a status filter string is passed to the database unchanged. So `?status=in-progress` is not a label and the request fails, while `?status=in_progress` lists the in-progress rows; `StatusIs` compares the API's text form (`in-progress`) and does the opposite on both inputs. PostgreSQL may also refuse `LIKE` on an enum column; if it accepted it, the search would match the label `in_progress`, while `SearchHit` matches the text form `in-progress`, so `?search=in-p` lists in-progress rows in the model but not in the program.
- A `LIKE` pattern that ends in a lone escape character. `contains` never builds one.
- The `updated_at` column and the `owner` relationship in responses. Neither affects any handler's outcome.
- 32-bit limits of the `Integer` columns and of the key sequence. Ids are unbounded integers.
- JWT validation (`get_current_user`). The caller's id is an input.
- `app/routers/user.py`, `app/database.py` and `app/main.py`: user creation with password hashing, session setup and router wiring.

## Findings

| source | as written | input that shows it | evidently intended | confidence | as-written member | corrected member |
|---|---|---|---|---|---|---|
| app/routers/task.py:23 | `contains(search)` without `autoescape`, so `%`, `_` and `\` in the search string act as `LIKE` pattern characters | `GET /tasks/?search=d_ne` lists a task whose content is `dune` and whose progress is `planned` | list only tasks whose progress or content contains the search text literally (`contains(search, autoescape=True)`) | medium, not executed; holds only if PostgreSQL accepts `LIKE` on the enum column `progress` (app/models.py:21), otherwise the request fails instead of listing the row | `TaskRouter.SearchWildcardExample` | `TaskRouter.ListTasksEscaped` |
