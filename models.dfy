/** The records and closed enumerations of the task board (src/models/AuthModels.tsx). */
module Models {
  import opened Outcomes

  /** Row identifiers are the backend's uuid strings. */
  type Id = string

  datatype Priority = High | Medium | Low

  datatype Category = Personal | Agent | Client | Design | Research | Planning | Content

  /** The four board columns. */
  datatype Status = Todo | InWork | InProgress | Done

  /** The string a status is stored and compared as. */
  function StatusLabel(s: Status): (text: string)
    ensures text != ""
  {
    match s
    case Todo => "Todo"
    case InWork => "In Work"
    case InProgress => "In Progress"
    case Done => "Done"
  }

  /** Distinct statuses are stored as distinct strings, so comparing labels
      (as the board does) is the same as comparing statuses. */
  lemma StatusLabelInjective(a: Status, b: Status)
    ensures StatusLabel(a) == StatusLabel(b) <==> a == b
  {
    if a != b {
      match a
      case Todo => assert StatusLabel(a)[0] == 'T';
      case InWork => assert StatusLabel(a)[2] == ' ' && |StatusLabel(a)| == 7;
      case InProgress => assert StatusLabel(a)[2] == ' ' && |StatusLabel(a)| == 11;
      case Done => assert StatusLabel(a)[0] == 'D';
    }
  }

  /** A row of the sub_tasks table; `status` is absent until first ticked. */
  datatype SubTask = SubTask(id: Id, taskId: Option<Id>, title: string, status: Option<bool>)

  /** The scalar columns of a row of the tasks table. */
  datatype TaskRow = TaskRow(
    id: Id,
    userId: Option<Id>,
    title: string,
    description: string,
    priority: Priority,
    category: Category,
    status: Option<Status>,
    attachment: Option<string>,
    dueDate: string)

  /** A task as the screens hold it: its row and the nested sub-task list,
      which may be absent. */
  datatype Task = Task(row: TaskRow, subTasks: Option<seq<SubTask>>)

  /** The values of the task create / edit form. The priority is chosen by a
      separate control whose empty choice is None; an empty category is None. */
  datatype TaskValues = TaskValues(
    title: string,
    description: string,
    priority: Option<Priority>,
    category: Option<Category>,
    status: Option<Status>,
    dueDate: string)

  datatype LoginValues = LoginValues(email: string, password: string)

  datatype RegisterValues = RegisterValues(email: string, password: string, confirmPassword: string, username: string)

  /** The banner categories a screen reports an outcome with. */
  datatype Notice = Success | Warning | Error

  /** The payload of a sub-task insert: `{ task_id, title }`. */
  datatype NewSubTask = NewSubTask(taskId: Id, title: string)

  predicate IsWhitespace(c: char) {
    c == ' ' || c == '\t' || c == '\n' || c == '\r' || c == '\U{000B}' || c == '\U{000C}' || c == '\U{00A0}'
  }

  /** `s.trim() == ""` */
  predicate IsBlank(s: string) {
    forall i :: 0 <= i < |s| ==> IsWhitespace(s[i])
  }
}
