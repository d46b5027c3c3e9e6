/** The task board (src/pages/Dashboard.tsx): the reducers that merge pushed
    change-events into the board's task list, and the split into status columns. */
module Dashboard {
  import opened Outcomes
  import opened Models
  import opened Seqs
  import opened SubTaskLists

  /** `payload.eventType`; any other string is Other. */
  datatype EventType = Insert | Update | Delete | Other

  /** A change-event on the tasks table as the handler reads it: the kind,
      `payload.new` and `payload.old.id`. */
  datatype TaskEvent = TaskEvent(eventType: EventType, newRow: TaskRow, oldId: Id)

  /** A change-event on the sub_tasks table: the kind, `payload.new` (whose
      task reference may be missing) and `payload.old.id`. */
  datatype SubTaskEvent = SubTaskEvent(eventType: EventType, newRow: SubTask, oldId: Id)

  /** `handleTaskUpdate`: the new board after one tasks-table event. Every
      task on it is either an unchanged earlier task or carries the event's row. */
  function HandleTaskEvent(tasks: seq<Task>, ev: TaskEvent): (r: seq<Task>)
    ensures ev.eventType != Insert ==> |r| <= |tasks|
    ensures forall i :: 0 <= i < |r| ==> r[i] in tasks || r[i].row == ev.newRow
  {
    match ev.eventType
    case Insert => tasks + [Task(ev.newRow, Some([]))]
    case Update => ReplaceWhere(tasks, (t: Task) => t.row.id == ev.newRow.id, (t: Task) => Task(ev.newRow, t.subTasks))
    case Delete => Filter(tasks, (t: Task) => t.row.id != ev.oldId)
    case Other => tasks
  }

  /** INSERT appends the new row, with an empty sub-task list, after all
      earlier tasks, which are kept in order. */
  lemma TaskInsertAppends(tasks: seq<Task>, ev: TaskEvent)
    requires ev.eventType == Insert
    ensures var r := HandleTaskEvent(tasks, ev);
      |r| == |tasks| + 1 && r[..|tasks|] == tasks && r[|tasks|] == Task(ev.newRow, Some([]))
  {
  }

  /** UPDATE rewrites exactly the tasks whose id is the new row's id: they
      take the row's scalar fields and keep their own sub-tasks. */
  lemma TaskUpdateChangesOnlyMatching(tasks: seq<Task>, ev: TaskEvent)
    requires ev.eventType == Update
    ensures var r := HandleTaskEvent(tasks, ev);
      && |r| == |tasks|
      && (forall i :: 0 <= i < |tasks| && tasks[i].row.id == ev.newRow.id ==>
            r[i].row == ev.newRow && r[i].subTasks == tasks[i].subTasks)
      && (forall i :: 0 <= i < |tasks| && tasks[i].row.id != ev.newRow.id ==> r[i] == tasks[i])
      && (forall i :: 0 <= i < |tasks| ==> r[i].row.id == tasks[i].row.id)
  {
  }

  /** DELETE removes exactly the tasks with the old row's id; an id that is
      not on the board leaves it unchanged. */
  lemma TaskDeleteRemovesExactly(tasks: seq<Task>, ev: TaskEvent)
    requires ev.eventType == Delete
    ensures var r := HandleTaskEvent(tasks, ev);
      && (forall t :: t in r <==> t in tasks && t.row.id != ev.oldId)
      && ((forall i :: 0 <= i < |tasks| ==> tasks[i].row.id != ev.oldId) ==> r == tasks)
  {
    var keep := (t: Task) => t.row.id != ev.oldId;
    if forall i :: 0 <= i < |tasks| ==> tasks[i].row.id != ev.oldId {
      FilterKeepsAll(tasks, keep);
    }
  }

  /** Any other kind of event leaves the board as it was. */
  lemma OtherTaskEventIgnored(tasks: seq<Task>, ev: TaskEvent)
    requires ev.eventType == Other
    ensures HandleTaskEvent(tasks, ev) == tasks
  {
  }

  /** UPDATE and DELETE act on each task on its own: applying the event to a
      board split in two is applying it to each part, so the order of the
      surviving tasks is the order they had. */
  lemma {:induction false} TaskEventKeepsOrder(a: seq<Task>, b: seq<Task>, ev: TaskEvent)
    requires ev.eventType != Insert
    ensures HandleTaskEvent(a + b, ev) == HandleTaskEvent(a, ev) + HandleTaskEvent(b, ev)
  {
    match ev.eventType
    case Update =>
      ReplaceWhereAppend(a, b, (t: Task) => t.row.id == ev.newRow.id, (t: Task) => Task(ev.newRow, t.subTasks));
    case Delete =>
      FilterAppend(a, b, (t: Task) => t.row.id != ev.oldId);
    case Other =>
  }

  /** Deleting a task that was just inserted with a fresh id restores the board. */
  lemma {:induction false} InsertThenDeleteRestores(tasks: seq<Task>, ins: TaskEvent, del: TaskEvent)
    requires ins.eventType == Insert && del.eventType == Delete && del.oldId == ins.newRow.id
    requires forall i :: 0 <= i < |tasks| ==> tasks[i].row.id != ins.newRow.id
    ensures HandleTaskEvent(HandleTaskEvent(tasks, ins), del) == tasks
  {
    var keep := (t: Task) => t.row.id != del.oldId;
    var added := Task(ins.newRow, Some([]));
    FilterAppend(tasks, [added], keep);
    FilterKeepsAll(tasks, keep);
    assert Filter([added], keep) == [];
  }

  /** Receiving the same UPDATE twice has the effect of receiving it once. */
  lemma {:induction false} TaskUpdateIdempotent(tasks: seq<Task>, ev: TaskEvent)
    requires ev.eventType == Update
    ensures HandleTaskEvent(HandleTaskEvent(tasks, ev), ev) == HandleTaskEvent(tasks, ev)
  {
    var once := HandleTaskEvent(tasks, ev);
    var twice := HandleTaskEvent(once, ev);
    forall i | 0 <= i < |tasks| ensures twice[i] == once[i] {
    }
  }

  /** Receiving the same DELETE twice has the effect of receiving it once. */
  lemma {:induction false} TaskDeleteIdempotent(tasks: seq<Task>, ev: TaskEvent)
    requires ev.eventType == Delete
    ensures HandleTaskEvent(HandleTaskEvent(tasks, ev), ev) == HandleTaskEvent(tasks, ev)
  {
    var once := HandleTaskEvent(tasks, ev);
    FilterKeepsAll(once, (t: Task) => t.row.id != ev.oldId);
  }

  /** Whether a task owns the sub-task of an event: `task.id === payload.new.task_id`. */
  predicate Owns(t: Task, ev: SubTaskEvent) {
    Some(t.row.id) == ev.newRow.taskId
  }

  /** What the sub-task handler does to an owning task. */
  function OwnerUpdate(t: Task, ev: SubTaskEvent): Task {
    match ev.eventType
    case Insert => t.(subTasks := Some(t.subTasks.GetOr([]) + [ev.newRow]))
    case Update => t.(subTasks := t.subTasks.Map(l => ReplaceById(l, ev.newRow)))
    case Delete => t.(subTasks := t.subTasks.Map(l => RemoveById(l, ev.oldId)))
    case Other => t
  }

  /** `handleSubTaskUpdate`: the new board after one sub_tasks-table event.
      No task's row changes, and neither does the number of tasks. */
  function HandleSubTaskEvent(tasks: seq<Task>, ev: SubTaskEvent): (r: seq<Task>)
    ensures |r| == |tasks|
    ensures forall i :: 0 <= i < |tasks| ==> r[i].row == tasks[i].row
  {
    ReplaceWhere(tasks, (t: Task) => Owns(t, ev), (t: Task) => OwnerUpdate(t, ev))
  }

  /** A sub-task event changes only the tasks whose id is the event's task
      reference. */
  lemma SubTaskEventTouchesOnlyOwner(tasks: seq<Task>, ev: SubTaskEvent)
    ensures var r := HandleSubTaskEvent(tasks, ev);
      forall i :: 0 <= i < |tasks| && Some(tasks[i].row.id) != ev.newRow.taskId ==> r[i] == tasks[i]
  {
  }

  /** An event whose task reference names no task on the board, or that
      carries no task reference at all, leaves the board unchanged. */
  lemma {:induction false} SubTaskEventWithoutOwnerIsNoop(tasks: seq<Task>, ev: SubTaskEvent)
    requires ev.newRow.taskId.None? || forall i :: 0 <= i < |tasks| ==> Some(tasks[i].row.id) != ev.newRow.taskId
    ensures HandleSubTaskEvent(tasks, ev) == tasks
  {
    var r := HandleSubTaskEvent(tasks, ev);
    forall i | 0 <= i < |tasks| ensures r[i] == tasks[i] {
    }
  }

  /** INSERT appends the new sub-task at the end of the owner's list; a
      missing list counts as empty. */
  lemma SubTaskInsertAppends(tasks: seq<Task>, ev: SubTaskEvent, i: nat)
    requires ev.eventType == Insert && i < |tasks| && Owns(tasks[i], ev)
    ensures HandleSubTaskEvent(tasks, ev)[i].subTasks == Some(tasks[i].subTasks.GetOr([]) + [ev.newRow])
  {
  }

  /** UPDATE replaces the owner's sub-tasks that have the new row's id and
      keeps the list's length and its other entries; a missing list stays missing. */
  lemma SubTaskUpdateReplaces(tasks: seq<Task>, ev: SubTaskEvent, i: nat)
    requires ev.eventType == Update && i < |tasks| && Owns(tasks[i], ev)
    ensures var after := HandleSubTaskEvent(tasks, ev)[i].subTasks;
      match tasks[i].subTasks
      case None => after == None
      case Some(l) =>
        after.Some? && |after.value| == |l| &&
        forall j :: 0 <= j < |l| ==> after.value[j] == if l[j].id == ev.newRow.id then ev.newRow else l[j]
  {
  }

  /** DELETE removes from the owner's list exactly the sub-tasks with the old
      row's id and keeps the others in their order (`RemoveById`, with
      `RemoveByIdAppend` and `RemoveByIdOne`); a missing list stays missing. */
  lemma SubTaskDeleteRemoves(tasks: seq<Task>, ev: SubTaskEvent, i: nat)
    requires ev.eventType == Delete && i < |tasks| && Owns(tasks[i], ev)
    ensures var after := HandleSubTaskEvent(tasks, ev)[i].subTasks;
      match tasks[i].subTasks
      case None => after == None
      case Some(l) =>
        after == Some(RemoveById(l, ev.oldId)) &&
        (forall s :: s in after.value <==> s in l && s.id != ev.oldId)
  {
  }

  /** `filterTask(status)`: the tasks of one column. */
  function FilterTask(tasks: seq<Task>, s: Status): (r: seq<Task>)
    ensures forall i :: 0 <= i < |r| ==> r[i] in tasks && r[i].row.status == Some(s)
    ensures forall i :: 0 <= i < |tasks| && tasks[i].row.status == Some(s) ==> tasks[i] in r
  {
    Filter(tasks, (t: Task) => t.row.status == Some(s))
  }

  /** A column lists its tasks in board order. */
  lemma ColumnKeepsOrder(a: seq<Task>, b: seq<Task>, s: Status)
    ensures FilterTask(a + b, s) == FilterTask(a, s) + FilterTask(b, s)
  {
    FilterAppend(a, b, (t: Task) => t.row.status == Some(s));
  }

  /** A task without a status is in no column. */
  lemma UnsetStatusInNoColumn(tasks: seq<Task>, t: Task, s: Status)
    requires t.row.status.None?
    ensures t !in FilterTask(tasks, s)
  {
  }

  /** One step of a column: the first task, if it has that status, followed
      by the column of the rest. */
  lemma ColumnCons(tasks: seq<Task>, s: Status)
    requires tasks != []
    ensures FilterTask(tasks, s) == (if tasks[0].row.status == Some(s) then [tasks[0]] else []) + FilterTask(tasks[1..], s)
  {
  }

  /** Whether a task has a status at all, i.e. belongs to some column. */
  predicate HasStatus(t: Task) {
    t.row.status.Some?
  }

  /** The four columns together hold every task that has a status exactly as
      often as the board does, and nothing else. */
  lemma {:induction false} ColumnsPartition(tasks: seq<Task>)
    ensures multiset(FilterTask(tasks, Todo)) + multiset(FilterTask(tasks, InWork))
          + multiset(FilterTask(tasks, InProgress)) + multiset(FilterTask(tasks, Done))
         == multiset(Filter(tasks, HasStatus))
    decreases |tasks|
  {
    if tasks != [] {
      var head, rest := tasks[..1], tasks[1..];
      assert tasks == head + rest;
      ColumnsPartition(rest);
      ColumnsOfOne(tasks[0]);
      assert head == [tasks[0]];
      ColumnKeepsOrder(head, rest, Todo);
      ColumnKeepsOrder(head, rest, InWork);
      ColumnKeepsOrder(head, rest, InProgress);
      ColumnKeepsOrder(head, rest, Done);
      FilterAppend(head, rest, HasStatus);
    }
  }

  /** The partition for a board of one task: it lands in the column of its
      status, or in none when it has no status. */
  lemma ColumnsOfOne(t: Task)
    ensures multiset(FilterTask([t], Todo)) + multiset(FilterTask([t], InWork))
          + multiset(FilterTask([t], InProgress)) + multiset(FilterTask([t], Done))
         == multiset(Filter([t], HasStatus))
  {
    ColumnCons([t], Todo);
    ColumnCons([t], InWork);
    ColumnCons([t], InProgress);
    ColumnCons([t], Done);
    assert [t][1..] == [];
    assert Filter([t], HasStatus) == if HasStatus(t) then [t] else [];
    match t.row.status
    case None =>
    case Some(Todo) =>
    case Some(InWork) =>
    case Some(InProgress) =>
    case Some(Done) =>
  }
}
