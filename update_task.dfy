/** The task edit screen (src/components/UpdateTask.tsx): it loads one task,
    submits the edited fields, and adds, deletes and renames the task's
    sub-tasks, changing the local copy only after the backend answers. */
module UpdateTask {
  import opened Outcomes
  import opened Models
  import opened SubTaskLists
  import AddTaskForm

  /** The form's values for the loaded task: its fields, with "Low",
      "Personal", "Todo" and empty text standing in while none is loaded
      and "Todo" for a task without a status. */
  function FormValues(task: Option<Task>): (v: TaskValues)
    ensures task.None? ==> v == AddTaskForm.InitialValues
    ensures task.Some? ==> var row := task.value.row;
      && v.title == row.title && v.description == row.description && v.dueDate == row.dueDate
      && v.priority == Some(row.priority) && v.category == Some(row.category)
      && v.status == Some(row.status.GetOr(Todo))
  {
    match task
    case None => TaskValues("", "", Some(Low), Some(Personal), Some(Todo), "")
    case Some(t) =>
      TaskValues(t.row.title, t.row.description, Some(t.row.priority), Some(t.row.category),
                 Some(t.row.status.GetOr(Todo)), t.row.dueDate)
  }

  /** The request `update({ title }).eq("id", id)` for a sub-task. */
  datatype Rename = Rename(id: Id, title: string)

  class Page {
    /** The `id` route parameter. */
    const routeId: Id
    var task: Option<Task>
    var selectedPriority: Option<Priority>
    var alert: Option<Notice>
    /** The new sub-task input. */
    var subTaskData: string
    var editTaskLoading: bool
    /** `subTaskEditMode.mode` and `subTaskEditMode.updateID`. */
    var editing: bool
    var updateId: string
    /** The rename input. */
    var subTaskChanged: string

    constructor (routeId: Id)
      ensures this.routeId == routeId && task == None && selectedPriority == None && alert == None
      ensures subTaskData == "" && !editTaskLoading && !editing && updateId == "" && subTaskChanged == ""
    {
      this.routeId := routeId;
      task, selectedPriority, alert := None, None, None;
      subTaskData, editTaskLoading, editing, updateId, subTaskChanged := "", false, false, "", "";
    }

    /** `fetchTask`: a loaded task is stored and its priority becomes the
      chosen one; on an error (or an exception) nothing changes. */
    method FetchTask(reply: Reply<Task>)
      modifies this
      ensures reply.Ok? ==> task == Some(reply.value) && selectedPriority == Some(reply.value.row.priority)
      ensures !reply.Ok? ==> task == old(task) && selectedPriority == old(selectedPriority)
      ensures alert == old(alert) && subTaskData == old(subTaskData) && editTaskLoading == old(editTaskLoading)
      ensures editing == old(editing) && updateId == old(updateId) && subTaskChanged == old(subTaskChanged)
    {
      if reply.Ok? {
        task := Some(reply.value);
        selectedPriority := Some(reply.value.row.priority);
      }
    }

    /** A click on a priority chip. */
    method ChoosePriority(p: Priority)
      modifies this
      ensures selectedPriority == Some(p) && task == old(task) && alert == old(alert)
      ensures subTaskData == old(subTaskData) && editTaskLoading == old(editTaskLoading)
      ensures editing == old(editing) && updateId == old(updateId) && subTaskChanged == old(subTaskChanged)
    {
      selectedPriority := Some(p);
    }

    /** Typing into the new sub-task input and the rename input. */
    method TypeSubTask(input: string)
      modifies this
      ensures subTaskData == input && task == old(task) && selectedPriority == old(selectedPriority) && alert == old(alert)
      ensures editTaskLoading == old(editTaskLoading) && editing == old(editing) && updateId == old(updateId) && subTaskChanged == old(subTaskChanged)
    {
      subTaskData := input;
    }

    method TypeRename(input: string)
      modifies this
      ensures subTaskChanged == input && task == old(task) && selectedPriority == old(selectedPriority) && alert == old(alert)
      ensures subTaskData == old(subTaskData) && editTaskLoading == old(editTaskLoading) && editing == old(editing) && updateId == old(updateId)
    {
      subTaskChanged := input;
    }

    /** `handleSubmit`. The form is rendered only once a task is loaded, and
      its values are the loaded task's (`FormValues`) with the four fields
      it has inputs for (title, description, category, due date) as typed;
      status and priority have no input, so the status sent back is the
      loaded one. Values failing the schema are not submitted. Otherwise
      the update sent is those values with the chosen priority in place of
      the form's; the alert is Success exactly when it returns no error and
      Error otherwise; `editTaskLoading` ends false and the task is fetched
      again (`refetch` is that fetch's answer). */
    method HandleSubmit(title: string, description: string, category: Option<Category>, dueDate: string,
                        isDate: string -> bool, reply: Reply<()>, refetch: Reply<Task>)
      returns (update: Option<TaskValues>)
      requires task.Some?
      modifies this
      ensures var values := FormValues(old(task)).(title := title, description := description,
                                                  category := category, dueDate := dueDate);
        && (!AddTaskForm.ValidTaskValues(values, isDate) ==>
              update == None && task == old(task) && selectedPriority == old(selectedPriority)
              && alert == old(alert) && editTaskLoading == old(editTaskLoading))
        && (AddTaskForm.ValidTaskValues(values, isDate) ==>
              && update == Some(values.(priority := old(selectedPriority)))
              && alert == Some(if reply.Ok? then Success else Error)
              && !editTaskLoading
              && task == (if refetch.Ok? then Some(refetch.value) else old(task))
              && selectedPriority == (if refetch.Ok? then Some(refetch.value.row.priority) else old(selectedPriority)))
      ensures update.Some? ==> update.value.status == Some(old(task).value.row.status.GetOr(Todo))
      ensures subTaskData == old(subTaskData) && editing == old(editing) && updateId == old(updateId) && subTaskChanged == old(subTaskChanged)
    {
      var values := FormValues(task).(title := title, description := description,
                                      category := category, dueDate := dueDate);
      if !AddTaskForm.ValidTaskValues(values, isDate) {
        return None;
      }
      editTaskLoading := true;
      update := Some(values.(priority := selectedPriority));
      match reply {
        case Ok(_) => alert := Some(Success);
        case Err => alert := Some(Error);
        case Throws => alert := Some(Error);
      }
      editTaskLoading := false;
      FetchTask(refetch);
    }

    /** `handleNewSubTask`: without a loaded task, or with input that trims to
      empty, nothing is sent and nothing changes. Otherwise the input is
      inserted under the route's task id; if the insert answers with at
      least one row, the first row goes to the front of the task's
      sub-tasks (a missing list counting as empty) and the input is
      cleared. An error, an exception or an empty answer changes nothing. */
    method HandleNewSubTask(reply: Reply<seq<SubTask>>) returns (sent: Option<NewSubTask>)
      modifies this
      ensures sent == if old(task).Some? && !IsBlank(old(subTaskData)) then Some(NewSubTask(routeId, old(subTaskData))) else None
      ensures sent.Some? && reply.Ok? && |reply.value| > 0 ==>
        && subTaskData == ""
        && task == Some(old(task).value.(subTasks := Some([reply.value[0]] + old(task).value.subTasks.GetOr([]))))
      ensures !(sent.Some? && reply.Ok? && |reply.value| > 0) ==> task == old(task) && subTaskData == old(subTaskData)
      ensures selectedPriority == old(selectedPriority) && alert == old(alert) && editTaskLoading == old(editTaskLoading)
      ensures editing == old(editing) && updateId == old(updateId) && subTaskChanged == old(subTaskChanged)
    {
      if task.None? || IsBlank(subTaskData) {
        return None;
      }
      sent := Some(NewSubTask(routeId, subTaskData));
      match reply {
        case Err =>
        case Throws =>
        case Ok(rows) =>
          if |rows| > 0 {
            subTaskData := "";
            task := Some(task.value.(subTasks := Some([rows[0]] + task.value.subTasks.GetOr([]))));
          }
      }
    }

    /** `deleteSubTask`: without a loaded task nothing is sent. The local
      list changes only once the delete has answered without error, and then
      loses exactly the entries with that id (a missing list stays missing). */
    method DeleteSubTask(id: Id, reply: Reply<()>) returns (request: Option<Id>)
      modifies this
      ensures request == if old(task).Some? then Some(id) else None
      ensures task == if old(task).Some? && reply.Ok?
                      then Some(old(task).value.(subTasks := old(task).value.subTasks.Map(l => RemoveById(l, id))))
                      else old(task)
      ensures selectedPriority == old(selectedPriority) && alert == old(alert) && subTaskData == old(subTaskData)
      ensures editTaskLoading == old(editTaskLoading) && editing == old(editing) && updateId == old(updateId) && subTaskChanged == old(subTaskChanged)
    {
      if task.None? {
        return None;
      }
      request := Some(id);
      if reply.Ok? {
        task := Some(task.value.(subTasks := task.value.subTasks.Map(l => RemoveById(l, id))));
      }
    }

    /** `editMode`: edit mode is entered for that id, and the rename input is
      preloaded with the title of the first sub-task with that id; if there
      is none it keeps its text. */
    method EditMode(id: Id)
      modifies this
      ensures editing && updateId == id
      ensures var found := if old(task).Some? && old(task).value.subTasks.Some?
                           then FindById(old(task).value.subTasks.value, id) else None;
              subTaskChanged == if found.Some? then found.value.title else old(subTaskChanged)
      ensures task == old(task) && selectedPriority == old(selectedPriority) && alert == old(alert)
      ensures subTaskData == old(subTaskData) && editTaskLoading == old(editTaskLoading)
    {
      editing, updateId := true, id;
      if task.Some? && task.value.subTasks.Some? {
        var found := FindById(task.value.subTasks.value, id);
        if found.Some? {
          subTaskChanged := found.value.title;
        }
      }
    }

    /** `handleSubmitSingleSubTask`: a rename input that trims to empty, or no
      loaded task, does nothing. Otherwise the rename is sent; if it throws,
      nothing after it runs. Once it answers, edit mode is left; only a
      success renames the entries with that id and clears the input. */
    method HandleSubmitSingleSubTask(id: Id, reply: Reply<()>) returns (request: Option<Rename>)
      modifies this
      ensures request == if !IsBlank(old(subTaskChanged)) && old(task).Some? then Some(Rename(id, old(subTaskChanged))) else None
      ensures request.None? || reply.Throws? ==>
        editing == old(editing) && updateId == old(updateId) && task == old(task) && subTaskChanged == old(subTaskChanged)
      ensures request.Some? && !reply.Throws? ==> !editing && updateId == ""
      ensures request.Some? && reply.Err? ==> task == old(task) && subTaskChanged == old(subTaskChanged)
      ensures request.Some? && reply.Ok? ==>
        && subTaskChanged == ""
        && task == Some(old(task).value.(subTasks := old(task).value.subTasks.Map(l => RenameById(l, id, old(subTaskChanged)))))
      ensures selectedPriority == old(selectedPriority) && alert == old(alert)
      ensures subTaskData == old(subTaskData) && editTaskLoading == old(editTaskLoading)
    {
      if IsBlank(subTaskChanged) || task.None? {
        return None;
      }
      request := Some(Rename(id, subTaskChanged));
      if reply.Throws? {
        return;
      }
      editing, updateId := false, "";
      if reply.Err? {
        return;
      }
      var title := subTaskChanged;
      task := Some(task.value.(subTasks := task.value.subTasks.Map(l => RenameById(l, id, title))));
      subTaskChanged := "";
    }
  }
}
