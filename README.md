# Task board: a verified model in Dafny

This project models the client-side core of a task-management web app: a
React front end that keeps tasks and their sub-tasks in a Supabase backend.
It covers the following parts:

- **The board** (`Dashboard`). It keeps a list of tasks up to date from
  realtime change events, at the task level and at the nested sub-task
  level, and splits the list into the four status columns.
- **The task card** (`TaskCard`). It covers progress figures, the
  completed icon, the status buttons, and the status-update and delete
  handlers.
- **The edit screen** (`UpdateTask`). It loads a task and submits the
  edited fields. It adds, deletes and renames sub-tasks, but changes its
  local copy only after the backend answers.
- **The task view** (`ViewTask`). It ticks and deletes sub-tasks
  optimistically, and reverts a failed tick. It also collects new sub-tasks
  in a pending list that is sent as one batch.
- **The create form** (`AddTaskForm`). It covers the task schema, the
  pending sub-task list and the submit handler. That handler classifies the
  outcome as error, warning or success.
- **The session store** (`AuthProvider`) and **the route guard**
  (`ProtectedRoute`).
- **The sign-in and sign-up pages** (`Login`, `Register`), with their
  validation schemas.

Four modules are shared by the screens:

- `Outcomes`: `Option`, and `Reply`, which is the answer of a backend call.
- `Seqs`: the array `filter`, selective `map` and `find` operations.
- `Models`: the records and enumerations.
- `SubTaskLists`: the sub-task list transforms that three screens share.

Every backend call is a parameter of type `Reply<T>`, which has three
cases:

- `Ok(value)`: the call returned data and no error.
- `Err`: the call returned an error object.
- `Throws`: the awaited promise rejected.

A handler that awaits a call outside any `try` stops at that point when the
call throws. That is how `Throws` is modelled there.

The board reducers, the progress figures, the validation schemas and the
guard are pure functions. Each screen's state is a class whose methods are
the screen's event handlers, and each of those methods states the whole new
state. Each such handler runs as one step, from the event to the backend's
answer. The session store's asynchronous handlers are split at their
`await`: `Begin*` is the state while the call is pending, and `End*` is the
state once it has answered.

## Model

| member | source | states |
|---|---|---|
| Models.StatusLabel | src/models/AuthModels.tsx:29 | every status is stored as a non-empty string, so a status button never sends the empty status |
| Models.StatusLabelInjective | src/models/AuthModels.tsx:29 | two statuses have the same stored string exactly when they are the same status, so comparing strings as the board does is comparing statuses |
| SubTaskLists.RemoveById | src/components/UpdateTask.tsx:133-135 | the result holds only entries with a different id, all taken from the list; every entry with a different id is kept; an absent id changes nothing |
| SubTaskLists.RemoveByIdAppend | src/pages/ViewTask.tsx:92 | removing by id from a concatenation is removing from each part, the parts kept in order |
| SubTaskLists.RemoveByIdOne | src/pages/ViewTask.tsx:145 | a single entry is dropped exactly when it has that id; with the previous row this fixes the result as the entries without that id, in their original order and multiplicity |
| SubTaskLists.RenameById | src/components/UpdateTask.tsx:174-176 | length, ids, owners and flags are kept; exactly the entries with that id get the new title |
| SubTaskLists.SetStatusById | src/pages/ViewTask.tsx:54-56 | length kept; entries with that id get the flag, every other entry is unchanged |
| SubTaskLists.ReplaceById | src/pages/Dashboard.tsx:105-107 | length kept; entries with the row's id become the row, the others are unchanged |
| SubTaskLists.FindById | src/components/UpdateTask.tsx:145-147 | none exactly when no entry has that id; otherwise the first entry with that id |
| SubTaskLists.AddPending | src/pages/ViewTask.tsx:17-23 | blank input leaves the list; otherwise the list grows by one, with a pending entry for the fresh id and the input in front of the old list |
| SubTaskLists.RemoveUndoesAdd | src/components/AddTaskForm.tsx:91-106 | removing the entry just added under a fresh id gives back the list as it was |
| SubTaskLists.TagAll | src/components/AddTaskForm.tsx:62-65 | one payload per pending entry, in order, each tagged with the owning task id and carrying only that entry's title |
| SubTaskLists.SetStatusTwice | src/pages/ViewTask.tsx:54-56 | setting the flag twice equals setting it once with the second value |
| SubTaskLists.RevertRestores | src/pages/ViewTask.tsx:67-77 | if every matching entry held the opposite flag before the toggle, writing it back restores the list exactly |
| SubTaskLists.RenameIdempotent | src/components/UpdateTask.tsx:174-176 | applying the same rename twice equals applying it once |
| Dashboard.HandleTaskEvent | src/pages/Dashboard.tsx:73-91 | only an insert can lengthen the board; every task after an event was already on the board or carries the event's row |
| Dashboard.TaskInsertAppends | src/pages/Dashboard.tsx:75-77 | an insert appends the event's row with an empty sub-task list, and all earlier tasks stay unchanged and in order |
| Dashboard.TaskUpdateChangesOnlyMatching | src/pages/Dashboard.tsx:78-84 | length kept; tasks with the event's id take the event's row but keep their sub-tasks; all other tasks are unchanged |
| Dashboard.TaskDeleteRemovesExactly | src/pages/Dashboard.tsx:85-88 | a task survives a delete exactly when it was on the board with another id; an id not on the board changes nothing |
| Dashboard.OtherTaskEventIgnored | src/pages/Dashboard.tsx:89 | any other event type leaves the board as it is |
| Dashboard.TaskEventKeepsOrder | src/pages/Dashboard.tsx:78-88 | update and delete act on each task independently, so the board order is preserved: handling a + b is handling a then b |
| Dashboard.InsertThenDeleteRestores | src/pages/Dashboard.tsx:75-88 | inserting a task with a fresh id and then deleting that id restores the board |
| Dashboard.TaskUpdateIdempotent | src/pages/Dashboard.tsx:78-84 | a repeated update event changes nothing more |
| Dashboard.TaskDeleteIdempotent | src/pages/Dashboard.tsx:85-88 | a repeated delete event changes nothing more |
| Dashboard.HandleSubTaskEvent | src/pages/Dashboard.tsx:92-122 | a sub-task event never adds, removes or reorders tasks, and never changes a task's own row |
| Dashboard.SubTaskEventTouchesOnlyOwner | src/pages/Dashboard.tsx:94-95 | every task not owning the event's sub-task is unchanged |
| Dashboard.SubTaskEventWithoutOwnerIsNoop | src/pages/Dashboard.tsx:110-119 | an event naming no owner, or an owner not on the board, leaves the board unchanged (a delete event is located through its new row too) |
| Dashboard.SubTaskInsertAppends | src/pages/Dashboard.tsx:96-101 | the owner's sub-task list becomes its old list (empty if missing) with the event's row at the end |
| Dashboard.SubTaskUpdateReplaces | src/pages/Dashboard.tsx:102-108 | the owner's list keeps its length and missing-ness; the entries with the row's id become the row, the others are unchanged |
| Dashboard.SubTaskDeleteRemoves | src/pages/Dashboard.tsx:110-117 | the owner's list becomes `RemoveById` of it: exactly the entries with the old row's id go, the others stay in order; a missing list stays missing |
| Dashboard.FilterTask | src/pages/Dashboard.tsx:124-125 | a column holds only board tasks with that status, and every board task with that status |
| Dashboard.ColumnKeepsOrder | src/pages/Dashboard.tsx:124-125 | a column lists its tasks in board order |
| Dashboard.UnsetStatusInNoColumn | src/pages/Dashboard.tsx:224-250 | a task without a status appears in none of the four columns |
| Dashboard.ColumnCons | src/pages/Dashboard.tsx:124-125 | a column of a non-empty board is the head, if it has that status, followed by the column of the rest |
| Dashboard.ColumnsPartition | src/pages/Dashboard.tsx:224-250 | the four columns together hold exactly the tasks that have a status, each as often as on the board |
| TaskCard.CompletedCount | src/components/TaskCard.tsx:26-29 | the ticked count never exceeds the total, and equals it exactly when every sub-task is ticked |
| TaskCard.ProgressPercentage | src/components/TaskCard.tsx:30-31 | 0 without sub-tasks; always within [0, 100]; 100 exactly when there are sub-tasks and all are ticked |
| TaskCard.ShareBounds | src/components/TaskCard.tsx:30-31 | a share done/total·100 with done ≤ total lies in [0, 100] and is 100 only when done = total |
| TaskCard.CompletedIconMeansAllTicked | src/components/TaskCard.tsx:207-209 | the icon shows exactly when no sub-task is unticked, including a card without sub-tasks, whose bar reads 0 |
| TaskCard.OnlyCurrentStatusButtonHidden | src/components/TaskCard.tsx:236-267 | a button is hidden exactly when it names the current status: three show for a task with a status, four without one |
| TaskCard.Card.constructor | src/components/TaskCard.tsx:23-25 | not loading, no delete dialog, no notice |
| TaskCard.Card.ToggleConfirmDelete | src/components/TaskCard.tsx:81 | the delete dialog flag flips and nothing else changes |
| TaskCard.Card.UpdateTaskStatus | src/components/TaskCard.tsx:33-51 | an empty status sends nothing and leaves `loading`; otherwise the update for this task is sent and `loading` ends false in every outcome, with no notice |
| TaskCard.Card.ClickStatusButton | src/components/TaskCard.tsx:236-267 | only a shown button (not the current status) can be clicked; it always sends its status's stored string for this task |
| TaskCard.Card.DeleteTask | src/components/TaskCard.tsx:53-68 | the notice is Success exactly when the delete returns no error, else Error; `loading` and the dialog flag end false |
| ProtectedRoute.Decide | src/routes/ProtectedRoute.tsx:9-13 | exactly one outcome: the placeholder iff loading, the page iff loaded and authenticated, else a redirect to "/login" |
| AuthProvider.Session.constructor | src/contexts/AuthProvider.tsx:36-38 | no user, not authenticated, loading, so the guard shows its placeholder |
| AuthProvider.Session.Mount | src/contexts/AuthProvider.tsx:41-49 | loading is set and the listener subscribed; user and flag unchanged |
| AuthProvider.Session.EndFetchUser | src/contexts/AuthProvider.tsx:42-46 | the user is the session's user or none, the flag says exactly whether there is one, and loading ends false; a throw leaves everything |
| AuthProvider.Session.OnAuthStateChange | src/contexts/AuthProvider.tsx:49-53 | only the user changes, and only while subscribed; the flag is never touched |
| AuthProvider.Session.Unmount | src/contexts/AuthProvider.tsx:54 | the listener is released and nothing else changes |
| AuthProvider.Session.BeginLogin | src/contexts/AuthProvider.tsx:57-58 | loading while the sign-in is pending, so the guard shows its placeholder |
| AuthProvider.Session.EndLogin | src/contexts/AuthProvider.tsx:59-74 | success stores the user and sets the flag; failure is raised and leaves user and flag; loading ends false |
| AuthProvider.Session.BeginLogout | src/contexts/AuthProvider.tsx:76-77 | loading while the sign-out is pending |
| AuthProvider.Session.EndLogout | src/contexts/AuthProvider.tsx:78-87 | a returned error is ignored and the session cleared, so the guard redirects to "/login"; a throw leaves user and flag; loading ends false |
| AuthProvider.ListenerLeavesFlagBehind | src/contexts/AuthProvider.tsx:41-54 | after a start-up without a session, a sign-in delivered through the listener stores the user but leaves the flag false, so the guard still redirects to "/login" |
| Login.ValidLogin | src/auth/Login.tsx:9-16 | the values pass exactly when the email is present and well-formed and the password has at least 6 characters, so the password's "required" rule never decides on its own |
| Login.Page.constructor | src/auth/Login.tsx:21-59 | the form starts empty, with no error, not submitting and no navigation |
| Login.Page.Banner | src/auth/Login.tsx:49-53 | the "Account not available." banner shows exactly when the error flag is set |
| Login.Page.Edit | src/auth/Login.tsx:77-104 | typing changes only the form's values |
| Login.Page.Submit | src/auth/Login.tsx:23-37 | sign-in is attempted exactly for values passing the schema, and otherwise nothing on the page or in the session changes; success goes to "/", failure sets the error banner; after an attempt submitting ends and the form resets; the listener subscription is never touched |
| Login.LoginExamples | src/auth/Login.tsx:9-16 | a well-formed address with a 7-character password passes; a malformed address or a 5-character password fails |
| Register.ValidRegistration | src/auth/Register.tsx:15-24 | the values pass exactly when the email is present and well-formed, the password has at least 6 characters, the confirmation equals it and the username is present; passing values report no mismatch |
| Register.Page.constructor | src/auth/Register.tsx:8-27 | the form starts empty, not loading, with no navigation and no alert |
| Register.Page.Edit | src/auth/Register.tsx:90-163 | typing changes only the form's values |
| Register.MismatchMessage | src/auth/Register.tsx:20-22 | "Passwords must match" is reported exactly when the confirmation differs from the password |
| Register.MismatchRejected | src/auth/Register.tsx:15-24 | a confirmation that differs from the password always fails the schema |
| Register.Page.Submit | src/auth/Register.tsx:29-58 | sign-up is attempted exactly for valid values; a sign-up error stops with loading still set and no row; the row is (user id, username); only an insert success clears loading, goes to "/login" and resets the form; an insert error raises the alert |
| AddTaskForm.ValidTaskValues | src/components/AddTaskForm.tsx:16-23 | passing values have a non-empty title and description, so those two "required" rules never decide on their own |
| AddTaskForm.NewTaskDefaults | src/components/AddTaskForm.tsx:8-23 | a new task starts as "Todo", and the empty starting values fail the schema |
| AddTaskForm.SubmitOutcome | src/components/AddTaskForm.tsx:55-78 | no notice exactly when the task insert succeeded with nothing queued; Success / Warning exactly when the batch succeeded / returned an error; Error otherwise |
| AddTaskForm.ResetsUnlessError | src/components/AddTaskForm.tsx:80-88 | the form is reset and the modal closed exactly when the outcome is not Error |
| AddTaskForm.Resets | src/components/AddTaskForm.tsx:80-82 | the form is reset only after a task insert that answered without error, and, with sub-tasks queued, only when that answer held a row |
| AddTaskForm.Form.Valid | src/components/AddTaskForm.tsx:8-15 | the invariant every form method keeps: the values carry the "Todo" status (and the "Low" priority) they started with |
| AddTaskForm.Form.constructor | src/components/AddTaskForm.tsx:8-40 | the form starts from the starting values, with no priority chosen, no pending sub-tasks, not loading, the modal open and no notice; `Valid` holds |
| AddTaskForm.Form.ChoosePriority | src/components/AddTaskForm.tsx:172 | a priority chip sets the chosen priority and nothing else |
| AddTaskForm.Form.TypeSubTask | src/components/AddTaskForm.tsx:284 | typing into the sub-task input changes only that input |
| AddTaskForm.Form.Edit | src/components/AddTaskForm.tsx:121-261 | typing changes only title, description, category and due date, so the form keeps its "Todo" status and "Low" priority (`Valid`) |
| AddTaskForm.Form.HandleSubTaskForm | src/components/AddTaskForm.tsx:91-102 | blank input changes nothing; otherwise a pending entry goes to the front and the input clears |
| AddTaskForm.Form.RemoveSubTasks | src/components/AddTaskForm.tsx:104-106 | the pending entries with that id are dropped |
| AddTaskForm.Form.HandleSubmit | src/components/AddTaskForm.tsx:41-89 | no priority: nothing is sent and loading stays set; the task sent is the values with the chosen priority, and its status is always "Todo"; the batch is sent only for a non-empty queue, tagged with the new id; notice, queue, reset, modal and priority follow `SubmitOutcome` and `Resets`; loading ends false |
| UpdateTask.FormValues | src/components/UpdateTask.tsx:43-50 | with no task loaded the edit form starts from the create form's values; otherwise from the task's fields, "Todo" standing in for a missing status |
| UpdateTask.Page.constructor | src/components/UpdateTask.tsx:28-40 | no task, no priority, no alert, empty inputs, not loading and not in edit mode |
| UpdateTask.Page.ChoosePriority | src/components/UpdateTask.tsx:300 | a priority chip sets the chosen priority and nothing else |
| UpdateTask.Page.TypeSubTask | src/components/UpdateTask.tsx:414 | typing into the new sub-task input changes only that input |
| UpdateTask.Page.TypeRename | src/components/UpdateTask.tsx:448 | typing into the rename input changes only that input |
| UpdateTask.Page.FetchTask | src/components/UpdateTask.tsx:52-64 | a loaded task is stored and its priority chosen; an error changes nothing |
| UpdateTask.Page.HandleSubmit | src/components/UpdateTask.tsx:70-88 | the values are the loaded task's with the four edited fields as typed, so the status sent back is the loaded one (or "Todo"); values failing the schema send nothing; the update is those values with the chosen priority; the alert is Success iff no error, else Error; loading ends false and the task is fetched again |
| UpdateTask.Page.HandleNewSubTask | src/components/UpdateTask.tsx:90-121 | no task or blank input: nothing is sent or changed; a non-empty answer puts its first row in front of the sub-tasks and clears the input; error, throw or empty answer change nothing |
| UpdateTask.Page.DeleteSubTask | src/components/UpdateTask.tsx:123-138 | no task: nothing is sent; only a success removes exactly the sub-tasks with that id |
| UpdateTask.Page.EditMode | src/components/UpdateTask.tsx:140-155 | edit mode for that id; the rename input takes the first matching title, or keeps its text if none matches |
| UpdateTask.Page.HandleSubmitSingleSubTask | src/components/UpdateTask.tsx:157-181 | blank input or no task: nothing; once the rename answers edit mode is left; only a success renames the matching entries and clears the input |
| ViewTask.Page.constructor | src/pages/ViewTask.tsx:11-14 | no task, no pending sub-tasks, an empty input and not loading |
| ViewTask.Page.TypeSubTask | src/pages/ViewTask.tsx:317 | typing into the sub-task input changes only that input |
| ViewTask.Page.FetchTask | src/pages/ViewTask.tsx:33-44 | a loaded task is stored; an error or a throw leaves the state |
| ViewTask.ViewProgress | src/pages/ViewTask.tsx:28-31 | the view's counts are the card's: the icon shows iff nothing is unticked, and shows with no task or no sub-tasks |
| ViewTask.Toggled | src/pages/ViewTask.tsx:54-59 | the task row and the list's presence are kept; the list gets the flag set by id |
| ViewTask.RevertFromEitherList | src/pages/ViewTask.tsx:67-77 | reverting from the pre-click list gives the same state as undoing the optimistic write |
| ViewTask.RevertRestoresTask | src/pages/ViewTask.tsx:67-77 | a failed tick that had flipped every matching flag restores the task exactly |
| ViewTask.RevertOfUnsetFlagStoresFalse | src/pages/ViewTask.tsx:67-77 | a sub-task whose flag was never stored is left with `false` after a failed tick, not with the missing flag |
| ViewTask.WithoutSubTask | src/pages/ViewTask.tsx:92-95 | the task row and the list's presence are kept; the list loses the entries with that id |
| ViewTask.Page.AddNewSubTask | src/pages/ViewTask.tsx:15-26 | blank input changes nothing; otherwise a pending entry goes to the front and the input clears |
| ViewTask.Page.RemoveNewSubTasks | src/pages/ViewTask.tsx:144-147 | the pending entries with that id are dropped |
| ViewTask.Page.MarkComplete | src/pages/ViewTask.tsx:50-78 | the optimistic write stays unless the update returns an error, which writes the opposite flag computed from the pre-click list |
| ViewTask.Page.DeleteSubTask | src/pages/ViewTask.tsx:91-98 | the sub-tasks with that id are removed before the call and never put back |
| ViewTask.Page.ConfirmNewTasks | src/pages/ViewTask.tsx:149-171 | each pending entry is sent as (route id, title); success puts the rows before the existing sub-tasks and empties the queue; failure leaves both; loading ends false |

## Left out

- The backend itself is not modelled. That covers authentication, table
  select, insert, update and delete, and storage. Each call is an
  `Ok` / `Err` / `Throws` parameter.
- Realtime channel setup and teardown on the board are not modelled. Only
  the reducers they feed are.
- `crypto.randomUUID()` is not modelled. Fresh ids are parameters. The
  model does not assume they differ from existing ids; the lemmas that
  need that say so in their preconditions.
- Email well-formedness and date parsing are not modelled; they are the
  uninterpreted predicates `isEmail` and `isDate`.
- Only one validation message is modelled: "Passwords must match". The
  schema library decides which of several failing rules' messages shows,
  and that is not modelled.
- `trim()` is modelled with a fixed set of whitespace characters: space,
  tab, line feed, carriage return, vertical tab, form feed and no-break
  space. JavaScript's full Unicode whitespace set is not.
- Identifiers that JavaScript leaves `undefined` are not modelled: ids of
  stored rows are always present. The fallbacks `task || {}` and
  `task.priority || ""` for a fetch that returns neither data nor error
  are also not modelled.
- Side effects beyond recording the target are not modelled: navigation,
  focus and the browser alert. The progress bar's rendering and animation,
  framer-motion and console logging are also left out.
- Three pieces of state that only open and close a menu or a modal are
  not modelled:
  - the board's "add" menu, `menuModal` (src/pages/Dashboard.tsx:13,
    180-187);
  - the board's open/close toggle of the create-form modal, `formModal`
    and `changeModalState` (src/pages/Dashboard.tsx:14-19, 149-154). Only
    the form closing itself through `setFormModal(false)` is modelled, as
    `AddTaskForm.Form.modalOpen`;
  - the task card's menu, `taskModal` (src/components/TaskCard.tsx:24,
    155-159).
- AddTaskForm.Form stands for one mounting of the create form. Closing the
  modal unmounts the form, which discards its pending sub-tasks and its
  chosen priority. A method called on a `Form` after `modalOpen` has turned
  false corresponds to nothing in the source.
- src/pages/Profile.tsx is not part of this model. It holds file upload,
  storage removal and URL handling.
- The presentation components, the route table and the placeholder task
  container are not part of this model.
- UpdateTask.Page.HandleSubmit: the refetch is not awaited in the source,
  so its answer may land after later events. The model applies it at the
  end of the submit.
- UpdateTask.Page.HandleSubmit: Formik keeps the values it was mounted
  with, and the model takes the untyped fields (status, priority) from the
  task loaded at submit time. The two differ only when a refetch brings a
  status written by someone else in between.
- AddTaskForm.ValidTaskValues, Login.ValidLogin, Register.ValidRegistration:
  a string's length is its number of code points here, while the schema
  library counts UTF-16 code units. A character outside the Basic
  Multilingual Plane counts once in the model and twice in the source, so
  the "at least n characters" rules can disagree on such input.
- Dashboard.HandleSubTaskEvent: the owning task is found through the
  event's new row, for a DELETE as for the other events, as the source
  does. What the backend puts in a DELETE event's new row is not modelled.
  If that row carries no task reference, `SubTaskEventWithoutOwnerIsNoop`
  applies and the delete never reaches the board.
- TaskCard.ProgressPercentage: the model computes with exact reals; the
  source uses IEEE double division and multiplication, so the rounding of
  the displayed percentage is not modelled.
- Apart from the session store, each handler is one step from the event
  to the backend's answer. Handlers whose awaits overlap are not modelled:
  while one handler waits, the page can run another, and the model cannot
  show what the second one does in between.
- ViewTask.Page.MarkComplete: the revert list is computed from the task
  the click saw (src/pages/ViewTask.tsx:70-72). If another handler changes
  the sub-tasks while the update is pending, a failed update writes that
  stale list back. For example, tick A, delete B before A's update
  answers, and let A's update fail: B comes back on screen. The model runs
  the tick as one step, so it does not show this.
- The edit screen's schema is identical to the create form's, so the model
  has only one: `AddTaskForm.ValidTaskValues`. The create form's copy is
  at src/components/AddTaskForm.tsx:16-23 and the edit screen's at
  src/components/UpdateTask.tsx:10-17.
