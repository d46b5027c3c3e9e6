/** One card of the board (src/components/TaskCard.tsx): its progress figures,
    its status buttons, and the status-update and delete handlers. */
module TaskCard {
  import opened Outcomes
  import opened Models
  import opened Seqs

  /** `sTask.status == true` */
  predicate IsComplete(s: SubTask) {
    s.status == Some(true)
  }

  /** `sub_tasks ?? []` */
  function ListOf(subTasks: Option<seq<SubTask>>): seq<SubTask> {
    subTasks.GetOr([])
  }

  /** `totalSubTasks`: the length of the list, 0 when it is missing. */
  function TotalSubTasks(subTasks: Option<seq<SubTask>>): nat {
    |ListOf(subTasks)|
  }

  /** `completedCount`: how many sub-tasks are ticked. It never exceeds the
      total, and equals it exactly when every sub-task is ticked. */
  function CompletedCount(subTasks: Option<seq<SubTask>>): (n: nat)
    ensures n <= TotalSubTasks(subTasks)
    ensures n == TotalSubTasks(subTasks) <==> forall i :: 0 <= i < |ListOf(subTasks)| ==> IsComplete(ListOf(subTasks)[i])
  {
    FilterLengthFull(ListOf(subTasks), IsComplete);
    |Filter(ListOf(subTasks), IsComplete)|
  }

  /** `progressPercentage`: 0 without sub-tasks, otherwise the ticked share
      times 100. It lies in [0, 100] and is 100 exactly when there are
      sub-tasks and all of them are ticked. */
  function ProgressPercentage(subTasks: Option<seq<SubTask>>): (p: real)
    ensures 0.0 <= p <= 100.0
    ensures TotalSubTasks(subTasks) == 0 ==> p == 0.0
    ensures p == 100.0 <==> TotalSubTasks(subTasks) > 0 && CompletedCount(subTasks) == TotalSubTasks(subTasks)
  {
    var total, done := TotalSubTasks(subTasks), CompletedCount(subTasks);
    if total > 0 then
      ShareBounds(done, total);
      (done as real / total as real) * 100.0
    else 0.0
  }

  /** A share done / total of a positive total with done <= total is at most
      1, and is 1 only when done == total. */
  lemma ShareBounds(done: nat, total: nat)
    requires 0 < total && done <= total
    ensures 0.0 <= (done as real / total as real) * 100.0 <= 100.0
    ensures (done as real / total as real) * 100.0 == 100.0 <==> done == total
  {
    var d, t := done as real, total as real;
    var q := d / t;
    assert q * t == d;
    ScaledNonNegative(q, t);
    ScaledAtMost(q, t, d);
    if done == total {
      ScaledIdentity(q, t);
    }
  }

  /** Cancelling a positive factor: a non-negative product has a non-negative factor. */
  lemma ScaledNonNegative(q: real, t: real)
    requires t > 0.0 && q * t >= 0.0
    ensures q >= 0.0
  {
  }

  /** Cancelling a positive factor: q·t = d <= t gives q <= 1, with q = 1 only if d = t. */
  lemma ScaledAtMost(q: real, t: real, d: real)
    requires t > 0.0 && q * t == d && d <= t
    ensures q <= 1.0
    ensures q == 1.0 ==> d == t
  {
  }

  /** Cancelling a positive factor: q·t = t gives q = 1. */
  lemma ScaledIdentity(q: real, t: real)
    requires t > 0.0 && q * t == t
    ensures q == 1.0
  {
    assert (q - 1.0) * t == 0.0;
  }

  /** The completed icon: shown when the counts agree. */
  predicate ShowsCompletedIcon(subTasks: Option<seq<SubTask>>) {
    CompletedCount(subTasks) == TotalSubTasks(subTasks)
  }

  /** The icon shows exactly when no sub-task is left unticked, which
      includes a task without sub-tasks, whose progress bar stays at 0. */
  lemma CompletedIconMeansAllTicked(subTasks: Option<seq<SubTask>>)
    ensures ShowsCompletedIcon(subTasks) <==> forall i :: 0 <= i < |ListOf(subTasks)| ==> IsComplete(ListOf(subTasks)[i])
    ensures TotalSubTasks(subTasks) == 0 ==> ShowsCompletedIcon(subTasks) && ProgressPercentage(subTasks) == 0.0
    ensures TotalSubTasks(subTasks) > 0 ==> (ShowsCompletedIcon(subTasks) <==> ProgressPercentage(subTasks) == 100.0)
  {
  }

  /** The status buttons, in the order the card lays them out. */
  const StatusButtons: seq<Status> := [Todo, InWork, InProgress, Done]

  /** A status button is hidden when it names the task's current status. */
  predicate StatusButtonVisible(current: Option<Status>, button: Status) {
    current != Some(button)
  }

  /** The buttons a card with status `current` shows, in layout order. */
  function VisibleButtons(current: Option<Status>): seq<Status> {
    Filter(StatusButtons, (b: Status) => StatusButtonVisible(current, b))
  }

  /** Exactly the button of the current status is hidden: three buttons show
      for a task with a status, all four for a task without one. */
  lemma {:induction false} OnlyCurrentStatusButtonHidden(current: Option<Status>)
    ensures forall b :: b !in VisibleButtons(current) <==> current == Some(b)
    ensures |VisibleButtons(current)| == if current.Some? then 3 else 4
  {
    var shown := (b: Status) => StatusButtonVisible(current, b);
    assert VisibleButtons(current) == Filter(StatusButtons, shown);
    var s := StatusButtons;
    assert s[1..] == [InWork, InProgress, Done];
    assert s[1..][1..] == [InProgress, Done];
    assert s[1..][1..][1..] == [Done];
    assert s[1..][1..][1..][1..] == [];
    var n0 := |Filter(s[1..][1..][1..], shown)|;
    var n1 := |Filter(s[1..][1..], shown)|;
    var n2 := |Filter(s[1..], shown)|;
    var n3 := |Filter(s, shown)|;
    assert n0 == if shown(Done) then 1 else 0;
    assert n1 == n0 + if shown(InProgress) then 1 else 0;
    assert n2 == n1 + if shown(InWork) then 1 else 0;
    assert n3 == n2 + if shown(Todo) then 1 else 0;
    forall b ensures b in s {
      match b
      case Todo => assert s[0] == b;
      case InWork => assert s[1] == b;
      case InProgress => assert s[2] == b;
      case Done => assert s[3] == b;
    }
    forall b ensures b in VisibleButtons(current) <==> shown(b) {
      FilterMembership(s, shown, b);
    }
    match current
    case None =>
    case Some(Todo) =>
    case Some(InWork) =>
    case Some(InProgress) =>
    case Some(Done) =>
  }

  /** The request `update({ status }).eq("id", taskId)`. */
  datatype StatusUpdate = StatusUpdate(taskId: Id, status: string)

  /** The card's local state; `deleteNotice` is the last category it handed
      to `setDeleteError`. */
  class Card {
    const task: Task
    var loading: bool
    var confirmDelete: bool
    var deleteNotice: Option<Notice>

    constructor (task: Task)
      ensures this.task == task && !loading && !confirmDelete && deleteNotice == None
    {
      this.task := task;
      loading, confirmDelete, deleteNotice := false, false, None;
    }

    /** The menu's "Delete" item and the dialog's "Cancel": `setConfirmDelete(!confirmDelete)`. */
    method ToggleConfirmDelete()
      modifies this
      ensures confirmDelete == !old(confirmDelete)
      ensures loading == old(loading) && deleteNotice == old(deleteNotice)
    {
      confirmDelete := !confirmDelete;
    }

    /** `updateTaskStatus`: an empty status returns at once, without a request
      and without touching `loading`; otherwise the request is sent and
      `loading` ends false whether the backend answers, fails or throws, so
      the answer is not a parameter. No failure is reported. */
    method UpdateTaskStatus(taskStatus: string) returns (request: Option<StatusUpdate>)
      modifies this
      ensures taskStatus == "" ==> request == None && loading == old(loading)
      ensures taskStatus != "" ==> request == Some(StatusUpdate(task.row.id, taskStatus)) && !loading
      ensures confirmDelete == old(confirmDelete) && deleteNotice == old(deleteNotice)
    {
      if taskStatus == "" {
        return None;
      }
      loading := true;
      request := Some(StatusUpdate(task.row.id, taskStatus));
      loading := false;
    }

    /** A click on the status button `b`, which the card shows only when it
      is not the task's current status: its label is never empty, so the
      request is always sent. */
    method ClickStatusButton(b: Status) returns (request: Option<StatusUpdate>)
      requires StatusButtonVisible(task.row.status, b)
      modifies this
      ensures request == Some(StatusUpdate(task.row.id, StatusLabel(b))) && !loading
      ensures confirmDelete == old(confirmDelete) && deleteNotice == old(deleteNotice)
    {
      request := UpdateTaskStatus(StatusLabel(b));
    }

    /** `deleteTask`: reports Success exactly when the delete returns no
      error, Error otherwise; in every outcome `loading` and `confirmDelete`
      end false. */
    method DeleteTask(id: Id, reply: Reply<()>) returns (request: Id)
      modifies this
      ensures request == id
      ensures deleteNotice == Some(if reply.Ok? then Success else Error)
      ensures !loading && !confirmDelete
    {
      loading := true;
      request := id;
      match reply {
        case Ok(_) => deleteNotice := Some(Success);
        case Err => deleteNotice := Some(Error);
        case Throws => deleteNotice := Some(Error);
      }
      loading := false;
      confirmDelete := false;
    }
  }
}
