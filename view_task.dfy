/** The task view (src/pages/ViewTask.tsx): it shows one task with its
    progress, ticks and deletes its sub-tasks (changing the local copy before
    the backend answers), and collects new sub-tasks in a pending list that
    is sent as one batch. */
module ViewTask {
  import opened Outcomes
  import opened Models
  import opened SubTaskLists
  import TaskCard

  /** `task?.sub_tasks`: the list the progress figures are computed from. */
  function Shown(task: Option<Task>): Option<seq<SubTask>> {
    if task.Some? then task.value.subTasks else None
  }

  /** The view's "completed / total" line and its completed icon, computed
      as on a board card. With no task loaded, or one without sub-tasks, the
      line reads 0/0 and the icon shows. */
  lemma ViewProgress(task: Option<Task>)
    ensures TaskCard.ShowsCompletedIcon(Shown(task)) <==>
      forall i :: 0 <= i < |TaskCard.ListOf(Shown(task))| ==> TaskCard.IsComplete(TaskCard.ListOf(Shown(task))[i])
    ensures TaskCard.CompletedCount(Shown(task)) <= TaskCard.TotalSubTasks(Shown(task))
    ensures task.None? || task.value.subTasks.None? ==>
      TaskCard.TotalSubTasks(Shown(task)) == 0 && TaskCard.ShowsCompletedIcon(Shown(task))
  {
    TaskCard.CompletedIconMeansAllTicked(Shown(task));
  }

  /** The loaded task with the flag of the sub-tasks with that id set to
      `done`; a missing task or list stays missing. */
  function Toggled(task: Option<Task>, id: Id, done: bool): (r: Option<Task>)
    ensures r.Some? <==> task.Some?
    ensures r.Some? ==> r.value.row == task.value.row && (r.value.subTasks.Some? <==> task.value.subTasks.Some?)
    ensures r.Some? && r.value.subTasks.Some? ==> r.value.subTasks.value == SetStatusById(task.value.subTasks.value, id, done)
  {
    if task.Some? then Some(task.value.(subTasks := task.value.subTasks.Map(l => SetStatusById(l, id, done))))
    else None
  }

  /** The revert is computed from the list as it was before the click, but
      it lands on the same state as undoing the optimistic write itself. */
  lemma RevertFromEitherList(task: Option<Task>, id: Id, checked: bool)
    ensures Toggled(Toggled(task, id, checked), id, !checked) == Toggled(task, id, !checked)
  {
    if task.Some? && task.value.subTasks.Some? {
      SetStatusTwice(task.value.subTasks.value, id, checked, !checked);
    }
  }

  /** When the click flipped every sub-task with that id (each held
      `!checked` before), a failed update restores the task exactly. */
  lemma RevertRestoresTask(task: Option<Task>, id: Id, checked: bool)
    requires task.Some? && task.value.subTasks.Some? ==>
      forall i :: 0 <= i < |task.value.subTasks.value| && task.value.subTasks.value[i].id == id ==>
        task.value.subTasks.value[i].status == Some(!checked)
    ensures Toggled(task, id, !checked) == task
  {
    if task.Some? && task.value.subTasks.Some? {
      var l := task.value.subTasks.value;
      RevertRestores(l, id, checked);
      SetStatusTwice(l, id, checked, !checked);
      assert task.value.subTasks == Some(l);
    }
  }

  /** A sub-task whose flag was never stored shows unticked; ticking it and
      failing writes `false`, not the missing flag it had. */
  lemma RevertOfUnsetFlagStoresFalse(row: TaskRow, s: SubTask)
    requires s.status == None
    ensures Toggled(Some(Task(row, Some([s]))), s.id, false) == Some(Task(row, Some([s.(status := Some(false))])))
    ensures Toggled(Some(Task(row, Some([s]))), s.id, false) != Some(Task(row, Some([s])))
  {
    var r := Toggled(Some(Task(row, Some([s]))), s.id, false);
    assert r.value.subTasks.value[0] == s.(status := Some(false));
    assert r.value.subTasks.value == [s.(status := Some(false))];
  }

  /** The loaded task without the sub-tasks with that id. */
  function WithoutSubTask(task: Option<Task>, id: Id): (r: Option<Task>)
    ensures r.Some? <==> task.Some?
    ensures r.Some? ==> r.value.row == task.value.row && (r.value.subTasks.Some? <==> task.value.subTasks.Some?)
    ensures r.Some? && r.value.subTasks.Some? ==> r.value.subTasks.value == RemoveById(task.value.subTasks.value, id)
  {
    if task.Some? then Some(task.value.(subTasks := task.value.subTasks.Map(l => RemoveById(l, id))))
    else None
  }

  /** The request `update({ status }).eq("id", id)` for a sub-task. */
  datatype StatusChange = StatusChange(id: Id, status: bool)

  class Page {
    /** The `id` route parameter. */
    const routeId: Id
    var task: Option<Task>
    /** The pending sub-tasks, newest first. */
    var subTasks: seq<SubTask>
    var taskInput: string
    var loading: bool

    constructor (routeId: Id)
      ensures this.routeId == routeId && task == None && subTasks == [] && taskInput == "" && !loading
    {
      this.routeId := routeId;
      task, subTasks, taskInput, loading := None, [], "", false;
    }

    /** `fetchTask`: a loaded task is stored; an error leaves the state. */
    method FetchTask(reply: Reply<Task>)
      modifies this
      ensures task == if reply.Ok? then Some(reply.value) else old(task)
      ensures subTasks == old(subTasks) && taskInput == old(taskInput) && loading == old(loading)
    {
      if reply.Ok? {
        task := Some(reply.value);
      }
    }

    /** Typing into the new sub-task input. */
    method TypeSubTask(input: string)
      modifies this
      ensures taskInput == input
      ensures task == old(task) && subTasks == old(subTasks) && loading == old(loading)
    {
      taskInput := input;
    }

    /** `addNewSubTask`: input that trims to empty changes nothing; otherwise
      a pending entry with the fresh id goes to the front of the pending list
      and the input is cleared. */
    method AddNewSubTask(freshId: Id)
      modifies this
      ensures subTasks == AddPending(old(subTasks), freshId, old(taskInput))
      ensures taskInput == if IsBlank(old(taskInput)) then old(taskInput) else ""
      ensures task == old(task) && loading == old(loading)
    {
      if !IsBlank(taskInput) {
        subTasks := AddPending(subTasks, freshId, taskInput);
        taskInput := "";
      }
    }

    /** `removeNewSubTasks`: the pending entries with that id are dropped. */
    method RemoveNewSubTasks(id: Id)
      modifies this
      ensures subTasks == RemoveById(old(subTasks), id)
      ensures task == old(task) && taskInput == old(taskInput) && loading == old(loading)
    {
      subTasks := RemoveById(subTasks, id);
    }

    /** `markComplete`: the sub-tasks with that id first get the checkbox's
      value, the others are left alone; the update is then sent. If it
      answers with an error, those sub-tasks get the opposite value,
      computed from the list as it was before the click. If it throws,
      nothing after it runs and the optimistic write stays. */
    method MarkComplete(id: Id, checked: bool, reply: Reply<()>) returns (request: StatusChange)
      modifies this
      ensures request == StatusChange(id, checked)
      ensures task == if reply.Err? then Toggled(old(task), id, !checked) else Toggled(old(task), id, checked)
      ensures subTasks == old(subTasks) && taskInput == old(taskInput) && loading == old(loading)
    {
      var before := task;
      task := Toggled(before, id, checked);
      request := StatusChange(id, checked);
      if reply.Err? {
        task := if task.Some? then Some(task.value.(subTasks := Shown(Toggled(before, id, !checked)))) else task;
      }
    }

    /** `deleteSubTask`: the sub-tasks with that id leave the local list
      before the delete is sent, and are not put back whatever it answers,
      so the answer is not a parameter. */
    method DeleteSubTask(id: Id) returns (request: Id)
      modifies this
      ensures request == id
      ensures task == WithoutSubTask(old(task), id)
      ensures subTasks == old(subTasks) && taskInput == old(taskInput) && loading == old(loading)
    {
      task := WithoutSubTask(task, id);
      request := id;
    }

    /** `confirmNewTasks`: every pending entry is sent as (route id, title).
      On success the returned rows go in front of the task's sub-tasks (a
      missing list counting as empty) and the pending list is emptied, even
      when no task is loaded; on an error or an exception the task and the
      pending list are left as they were. `loading` ends false. */
    method ConfirmNewTasks(reply: Reply<seq<SubTask>>) returns (batch: seq<NewSubTask>)
      modifies this
      ensures batch == TagAll(old(subTasks), routeId)
      ensures !loading && taskInput == old(taskInput)
      ensures reply.Ok? ==>
        && subTasks == []
        && task == (if old(task).Some? then Some(old(task).value.(subTasks := Some(reply.value + old(task).value.subTasks.GetOr([])))) else None)
      ensures !reply.Ok? ==> subTasks == old(subTasks) && task == old(task)
    {
      loading := true;
      batch := TagAll(subTasks, routeId);
      if reply.Ok? {
        var rows := reply.value;
        if task.Some? {
          task := Some(task.value.(subTasks := Some(rows + task.value.subTasks.GetOr([]))));
        }
        subTasks := [];
      }
      loading := false;
    }
  }
}
