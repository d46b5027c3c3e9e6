/** The task-create form (src/components/AddTaskForm.tsx): its validation
    schema, the classification of a submit's outcome, and the handlers that
    edit the list of pending sub-tasks and submit the task with them. */
module AddTaskForm {
  import opened Outcomes
  import opened Models
  import opened SubTaskLists

  /** The task schema (also used by the edit screen). Title: required, at
      least 10 characters. Description: required, at least 20 characters.
      Category: required. Due date: required and a date (`isDate` stands for
      the schema library's date parsing). The "required" rules of title and
      description never decide on their own: values long enough are never
      empty. */
  predicate ValidTaskValues(v: TaskValues, isDate: string -> bool): (ok: bool)
    ensures ok ==> v.title != "" && v.description != ""
  {
    && |v.title| >= 10
    && |v.description| >= 20
    && v.category.Some?
    && v.dueDate != "" && isDate(v.dueDate)
  }

  /** The form's starting values. */
  const InitialValues := TaskValues("", "", Some(Low), Some(Personal), Some(Todo), "")

  /** A new task starts in the "Todo" column, and the empty starting values
      do not pass the schema, whatever counts as a date. */
  lemma NewTaskDefaults(isDate: string -> bool)
    ensures InitialValues.status == Some(Todo) && StatusLabel(InitialValues.status.value) == "Todo"
    ensures !ValidTaskValues(InitialValues, isDate)
  {
  }

  /** The notice a submit that got past the priority check hands to the
      page: `taskReply` answers the task insert, `hasPending` says whether
      sub-tasks were queued, and `batchReply` answers their insert. None
      means no notice is set. */
  function SubmitOutcome(taskReply: Reply<seq<TaskRow>>, hasPending: bool, batchReply: Reply<()>): (n: Option<Notice>)
    ensures n == None <==> taskReply.Ok? && !hasPending
    ensures n == Some(Success) <==> taskReply.Ok? && hasPending && |taskReply.value| > 0 && batchReply.Ok?
    ensures n == Some(Warning) <==> taskReply.Ok? && hasPending && |taskReply.value| > 0 && batchReply.Err?
  {
    match taskReply
    case Err => Some(Error)
    case Throws => Some(Error)
    case Ok(rows) =>
      if !hasPending then None
      else if |rows| == 0 then Some(Error)
      else match batchReply
        case Ok(_) => Some(Success)
        case Err => Some(Warning)
        case Throws => Some(Error)
  }

  /** Whether the handler reaches `resetForm()`: the task insert answered
      without error, and either nothing was queued or the batch answered
      (with or without error). */
  predicate Resets(taskReply: Reply<seq<TaskRow>>, hasPending: bool, batchReply: Reply<()>): (ok: bool)
    ensures ok ==> taskReply.Ok?
    ensures ok && hasPending ==> |taskReply.value| > 0
  {
    taskReply.Ok? && (!hasPending || (|taskReply.value| > 0 && !batchReply.Throws?))
  }

  /** The form is reset and the modal closed exactly when the outcome is not
      an error: a warning still closes the form, an error never does. */
  lemma ResetsUnlessError(taskReply: Reply<seq<TaskRow>>, hasPending: bool, batchReply: Reply<()>)
    ensures Resets(taskReply, hasPending, batchReply) <==> SubmitOutcome(taskReply, hasPending, batchReply) != Some(Error)
  {
  }

  /** One mounting of the create form: the board unmounts it when the
      modal closes, so once `modalOpen` is false the object has no
      counterpart in the page. */
  class Form {
    var values: TaskValues
    var selectedPriority: Option<Priority>
    /** The pending sub-tasks, newest first. */
    var subTasks: seq<SubTask>
    var subTaskInput: string
    var loading: bool
    /** The page's modal flag, written through `setFormModal`. */
    var modalOpen: bool
    /** The page's outcome notice, written through `setSubmitError`. */
    var submitError: Option<Notice>

    /** The form has no input for status or priority, so its values keep
      the starting "Todo" status and "Low" priority. */
    predicate Valid(): (ok: bool)
      reads this
      ensures ok ==> values.status == Some(Todo)
    {
      values.status == InitialValues.status && values.priority == InitialValues.priority
    }

    constructor ()
      ensures values == InitialValues && selectedPriority == None && subTasks == [] && subTaskInput == ""
      ensures !loading && modalOpen && submitError == None
      ensures Valid()
    {
      values, selectedPriority, subTasks, subTaskInput := InitialValues, None, [], "";
      loading, modalOpen, submitError := false, true, None;
    }

    /** Typing into the Formik fields: title, category, due date and
      description are the only ones the form renders. */
    method Edit(title: string, description: string, category: Option<Category>, dueDate: string)
      requires Valid()
      modifies this
      ensures values == old(values).(title := title, description := description, category := category, dueDate := dueDate)
      ensures selectedPriority == old(selectedPriority) && subTasks == old(subTasks) && subTaskInput == old(subTaskInput)
      ensures loading == old(loading) && modalOpen == old(modalOpen) && submitError == old(submitError)
      ensures Valid()
    {
      values := values.(title := title, description := description, category := category, dueDate := dueDate);
    }

    /** A click on a priority chip. */
    method ChoosePriority(p: Priority)
      requires Valid()
      modifies this
      ensures selectedPriority == Some(p)
      ensures values == old(values) && subTasks == old(subTasks) && subTaskInput == old(subTaskInput)
      ensures loading == old(loading) && modalOpen == old(modalOpen) && submitError == old(submitError)
      ensures Valid()
    {
      selectedPriority := Some(p);
    }

    /** Typing into the sub-task input. */
    method TypeSubTask(input: string)
      requires Valid()
      modifies this
      ensures subTaskInput == input
      ensures values == old(values) && selectedPriority == old(selectedPriority) && subTasks == old(subTasks)
      ensures loading == old(loading) && modalOpen == old(modalOpen) && submitError == old(submitError)
      ensures Valid()
    {
      subTaskInput := input;
    }

    /** `handleSubTaskForm`: input that trims to empty changes nothing;
      otherwise a pending entry with the fresh id goes to the front of the
      list and the input is cleared. */
    method HandleSubTaskForm(freshId: Id)
      requires Valid()
      modifies this
      ensures subTasks == AddPending(old(subTasks), freshId, old(subTaskInput))
      ensures subTaskInput == if IsBlank(old(subTaskInput)) then old(subTaskInput) else ""
      ensures values == old(values) && selectedPriority == old(selectedPriority)
      ensures loading == old(loading) && modalOpen == old(modalOpen) && submitError == old(submitError)
      ensures Valid()
    {
      if !IsBlank(subTaskInput) {
        subTasks := AddPending(subTasks, freshId, subTaskInput);
        subTaskInput := "";
      }
    }

    /** `removeSubTasks`: the pending entries with that id are dropped. */
    method RemoveSubTasks(id: Id)
      requires Valid()
      modifies this
      ensures subTasks == RemoveById(old(subTasks), id)
      ensures values == old(values) && selectedPriority == old(selectedPriority) && subTaskInput == old(subTaskInput)
      ensures loading == old(loading) && modalOpen == old(modalOpen) && submitError == old(submitError)
      ensures Valid()
    {
      subTasks := RemoveById(subTasks, id);
    }

    /** A submit. Values failing the schema never reach `handleSubmit`.
      Otherwise `loading` is set; with no priority chosen the handler stops
      there and `loading` stays set. Else the task (the values with the
      chosen priority) is inserted. After that: a task-insert error or
      exception reports Error and leaves the form as it is; if sub-tasks are
      queued they are sent tagged with the new task's id (reading the id of
      an empty answer throws), and their outcome is reported as
      `SubmitOutcome` classifies it, a success also clearing the queue. When
      `Resets` holds the form is reset, the modal closed and the priority
      cleared. `loading` ends false after every insert attempt. */
    method HandleSubmit(isDate: string -> bool, taskReply: Reply<seq<TaskRow>>, batchReply: Reply<()>)
      returns (inserted: Option<TaskValues>, batch: Option<seq<NewSubTask>>)
      requires Valid()
      modifies this
      ensures Valid()
      ensures inserted.Some? ==> inserted.value.status == Some(Todo)
      ensures var called := ValidTaskValues(old(values), isDate);
              var proceeds := called && old(selectedPriority).Some?;
              var hasPending := |old(subTasks)| > 0;
              var outcome := SubmitOutcome(taskReply, hasPending, batchReply);
              var resets := proceeds && Resets(taskReply, hasPending, batchReply);
              && (loading == if called then !proceeds else old(loading))
              && inserted == (if proceeds then Some(old(values).(priority := old(selectedPriority))) else None)
              && batch == (if proceeds && taskReply.Ok? && hasPending && |taskReply.value| > 0
                           then Some(TagAll(old(subTasks), taskReply.value[0].id)) else None)
              && submitError == (if proceeds && outcome.Some? then outcome else old(submitError))
              && subTasks == (if proceeds && outcome == Some(Success) then [] else old(subTasks))
              && values == (if resets then InitialValues else old(values))
              && modalOpen == (if resets then false else old(modalOpen))
              && selectedPriority == (if resets then None else old(selectedPriority))
              && subTaskInput == old(subTaskInput)
    {
      inserted, batch := None, None;
      if !ValidTaskValues(values, isDate) {
        return;
      }
      loading := true;
      if selectedPriority.None? {
        return;
      }
      inserted := Some(values.(priority := selectedPriority));
      match taskReply {
        case Err =>
          submitError := Some(Error);
          loading := false;
          return;
        case Throws =>
          submitError := Some(Error);
          loading := false;
          return;
        case Ok(rows) =>
          if |subTasks| > 0 {
            if |rows| == 0 {
              submitError := Some(Error);
              loading := false;
              return;
            }
            batch := Some(TagAll(subTasks, rows[0].id));
            match batchReply {
              case Err =>
                submitError := Some(Warning);
              case Ok(_) =>
                submitError := Some(Success);
                subTasks := [];
              case Throws =>
                submitError := Some(Error);
                loading := false;
                return;
            }
          }
          values := InitialValues;
          modalOpen := false;
          selectedPriority := None;
          loading := false;
      }
    }
  }
}
