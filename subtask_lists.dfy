/** The sub-task list transforms the edit screen, the task view, the create
    form and the board reducers all apply: remove by id, rename by id, set the
    completion flag by id, replace by id, look up by id, and a pending entry. */
module SubTaskLists {
  import opened Outcomes
  import opened Models
  import opened Seqs

  /** `l.filter(s => s.id !== id)`: drops exactly the entries with that id and
      keeps the others in order; an id that is not present changes nothing. */
  function RemoveById(l: seq<SubTask>, id: Id): (r: seq<SubTask>)
    ensures forall i :: 0 <= i < |r| ==> r[i].id != id && r[i] in l
    ensures forall i :: 0 <= i < |l| && l[i].id != id ==> l[i] in r
    ensures (forall i :: 0 <= i < |l| ==> l[i].id != id) ==> r == l
  {
    var keep := (s: SubTask) => s.id != id;
    if forall i :: 0 <= i < |l| ==> keep(l[i]) then FilterKeepsAll(l, keep); Filter(l, keep)
    else Filter(l, keep)
  }

  /** Removing by id distributes over concatenation: each part loses its own
      entries with that id and the parts stay in order. */
  lemma RemoveByIdAppend(a: seq<SubTask>, b: seq<SubTask>, id: Id)
    ensures RemoveById(a + b, id) == RemoveById(a, id) + RemoveById(b, id)
  {
    FilterAppend(a, b, (s: SubTask) => s.id != id);
  }

  /** On one entry, removing by id drops it exactly when it has that id.
      With `RemoveByIdAppend` this fixes the result of every list: the
      entries without that id, in their original order. */
  lemma RemoveByIdOne(s: SubTask, id: Id)
    ensures RemoveById([s], id) == if s.id == id then [] else [s]
  {
  }

  /** `l.map(s => s.id === id ? { ...s, title } : s)`: only the titles of the
      entries with that id change; length, order, ids and flags are kept. */
  function RenameById(l: seq<SubTask>, id: Id, title: string): (r: seq<SubTask>)
    ensures |r| == |l|
    ensures forall i :: 0 <= i < |l| ==> r[i].id == l[i].id && r[i].taskId == l[i].taskId && r[i].status == l[i].status
    ensures forall i :: 0 <= i < |l| ==> r[i].title == if l[i].id == id then title else l[i].title
  {
    ReplaceWhere(l, (s: SubTask) => s.id == id, (s: SubTask) => s.(title := title))
  }

  /** `l.map(s => s.id === id ? { ...s, status: done } : s)`: the entries with
      that id get the flag `done`; nothing else changes. */
  function SetStatusById(l: seq<SubTask>, id: Id, done: bool): (r: seq<SubTask>)
    ensures |r| == |l|
    ensures forall i :: 0 <= i < |l| ==> r[i] == if l[i].id == id then l[i].(status := Some(done)) else l[i]
  {
    ReplaceWhere(l, (s: SubTask) => s.id == id, (s: SubTask) => s.(status := Some(done)))
  }

  /** `l.map(s => s.id === row.id ? row : s)`: the entries with the row's id
      become the row; the others, the length and the order are kept. */
  function ReplaceById(l: seq<SubTask>, row: SubTask): (r: seq<SubTask>)
    ensures |r| == |l|
    ensures forall i :: 0 <= i < |l| ==> r[i] == if l[i].id == row.id then row else l[i]
  {
    ReplaceWhere(l, (s: SubTask) => s.id == row.id, (_: SubTask) => row)
  }

  /** `l.find(s => s.id === id)`: the first entry with that id, if any. */
  function FindById(l: seq<SubTask>, id: Id): (r: Option<SubTask>)
    ensures r.None? <==> forall i :: 0 <= i < |l| ==> l[i].id != id
    ensures r.Some? ==> r.value.id == id && exists k :: 0 <= k < |l| && l[k] == r.value && forall j :: 0 <= j < k ==> l[j].id != id
  {
    var k := FirstIndex(l, (s: SubTask) => s.id == id);
    if k < |l| then Some(l[k]) else None
  }

  /** An entry typed into a form but not yet stored: a fresh id and the title. */
  function Pending(freshId: Id, title: string): SubTask {
    SubTask(freshId, None, title, None)
  }

  /** `[{ id: freshId, title: input }, ...l]` when the input does not trim to
      empty, and `l` itself otherwise. */
  function AddPending(l: seq<SubTask>, freshId: Id, input: string): (r: seq<SubTask>)
    ensures IsBlank(input) ==> r == l
    ensures !IsBlank(input) ==> |r| == |l| + 1 && r[0] == Pending(freshId, input) && r[1..] == l
  {
    if IsBlank(input) then l else [Pending(freshId, input)] + l
  }

  /** Removing the entry just added under a fresh id gives back the list as
      it was before the add. */
  lemma RemoveUndoesAdd(l: seq<SubTask>, freshId: Id, input: string)
    requires forall i :: 0 <= i < |l| ==> l[i].id != freshId
    ensures RemoveById(AddPending(l, freshId, input), freshId) == l
  {
    var r := AddPending(l, freshId, input);
    if !IsBlank(input) {
      var keep := (s: SubTask) => s.id != freshId;
      assert r[1..] == l;
      assert Filter(r, keep) == Filter(l, keep);
      FilterKeepsAll(l, keep);
    }
  }

  /** `l.map(s => ({ task_id: taskId, title: s.title }))`: one insert payload
      per entry, in order, each tagged with the owning task and carrying only
      the entry's title. */
  function TagAll(l: seq<SubTask>, taskId: Id): (b: seq<NewSubTask>)
    ensures |b| == |l|
    ensures forall i :: 0 <= i < |l| ==> b[i] == NewSubTask(taskId, l[i].title)
    decreases |l|
  {
    if l == [] then [] else [NewSubTask(taskId, l[0].title)] + TagAll(l[1..], taskId)
  }

  /** Setting the flag twice is setting it once with the second value: the
      state a failed toggle reverts to does not depend on whether the revert
      is computed from the list before or after the optimistic write. */
  lemma {:induction false} SetStatusTwice(l: seq<SubTask>, id: Id, first: bool, second: bool)
    ensures SetStatusById(SetStatusById(l, id, first), id, second) == SetStatusById(l, id, second)
  {
    var m := SetStatusById(l, id, first);
    var a, b := SetStatusById(m, id, second), SetStatusById(l, id, second);
    forall i | 0 <= i < |l| ensures a[i] == b[i] {
      assert m[i].id == l[i].id;
    }
  }

  /** When the toggle really flipped the flag of every matching entry (each
      held `!checked`), writing `!checked` back restores the list exactly. */
  lemma {:induction false} RevertRestores(l: seq<SubTask>, id: Id, checked: bool)
    requires forall i :: 0 <= i < |l| && l[i].id == id ==> l[i].status == Some(!checked)
    ensures SetStatusById(SetStatusById(l, id, checked), id, !checked) == l
  {
    SetStatusTwice(l, id, checked, !checked);
    var r := SetStatusById(l, id, !checked);
    forall i | 0 <= i < |l| ensures r[i] == l[i] {
    }
  }

  /** Submitting the same rename twice leaves the list as one rename does. */
  lemma {:induction false} RenameIdempotent(l: seq<SubTask>, id: Id, title: string)
    ensures RenameById(RenameById(l, id, title), id, title) == RenameById(l, id, title)
  {
    var r := RenameById(l, id, title);
    var rr := RenameById(r, id, title);
    forall i | 0 <= i < |l| ensures rr[i] == r[i] {
    }
  }
}
