/** The task board (the tasks page): per-status column metadata, grouping of the fetched
    tasks into columns, and the list updates after a status change, an edit or a delete. */
module Board {
  import opened Optional
  import opened Seqs
  import opened Tasks

  /** A column's heading and card border class. */
  datatype StatusInfo = StatusInfo(title: string, borderColor: string)

  /** `statusConfig`: heading and border class of each status column. */
  function StatusConfig(s: Status): StatusInfo {
    match s
    case TODO => StatusInfo("To Do", "border-red-500")
    case DOING => StatusInfo("Doing", "border-purple-500")
    case DONE => StatusInfo("Done", "border-green-500")
    case PAUSED => StatusInfo("Paused", "border-blue-500")
  }

  /** The columns in the order the page renders them (the key order of `statusConfig`). */
  const Columns: seq<Status> := [TODO, DOING, DONE, PAUSED]

  /** One step of the `groupedTasks` reducer: create the status's group if it is missing,
      then append the task to it. */
  function AddToGroup(acc: map<Status, seq<Task>>, t: Task): map<Status, seq<Task>> {
    var group := if t.status in acc then acc[t.status] else [];
    acc[t.status := group + [t]]
  }

  /** `groupedTasks`: the reducer run left to right over the fetched list. */
  function GroupedTasks(tasks: seq<Task>): map<Status, seq<Task>>
    decreases |tasks|
  {
    if tasks == [] then map[]
    else AddToGroup(GroupedTasks(tasks[..|tasks| - 1]), tasks[|tasks| - 1])
  }

  /** The tasks a column shows: its group, or nothing when the status has no group. */
  function ColumnTasks(tasks: seq<Task>, s: Status): seq<Task> {
    var groups := GroupedTasks(tasks);
    if s in groups then groups[s] else []
  }

  /** The page's state the handlers change. */
  datatype Page = Page(tasks: seq<Task>, dialogOpen: bool, authError: Option<string>)

  const StatusUpdateError: string := "Error updating task status. Please try again."
  const DeleteError: string := "Error deleting task. Please try again."

  /** `tasks.find(t => t.id === id)`: the first task with that id, if any. */
  function FindById(tasks: seq<Task>, id: string): (r: Option<Task>)
    ensures r.None? <==> forall i :: 0 <= i < |tasks| ==> tasks[i].id != id
    ensures r.Some? ==> exists i :: 0 <= i < |tasks| && tasks[i] == r.value && r.value.id == id
                          && forall j :: 0 <= j < i ==> tasks[j].id != id
  {
    match FindFirst(tasks, (t: Task) => t.id == id)
    case None => None
    case Some(i) => Some(tasks[i])
  }

  /** `tasks.map(t => t.id === id ? updated : t)`: every task with that id is replaced by
      `updated`; the length and every other position are unchanged. */
  function ReplaceById(tasks: seq<Task>, id: string, updated: Task): (r: seq<Task>)
    ensures |r| == |tasks|
    ensures forall i :: 0 <= i < |tasks| && tasks[i].id == id ==> r[i] == updated
    ensures forall i :: 0 <= i < |tasks| && tasks[i].id != id ==> r[i] == tasks[i]
  {
    if tasks == [] then []
    else [if tasks[0].id == id then updated else tasks[0]] + ReplaceById(tasks[1..], id, updated)
  }

  /** The body the status change PUTs: the found task with only its status replaced; no
      request is made when no task has the id. */
  function StatusChangePayload(tasks: seq<Task>, taskId: string, newStatus: Status): (r: Option<Task>)
    ensures r.None? <==> FindById(tasks, taskId).None?
    ensures r.Some? ==> r.value.status == newStatus && r.value.id == taskId
                        && r.value == FindById(tasks, taskId).value.(status := newStatus)
  {
    match FindById(tasks, taskId)
    case None => None
    case Some(t) => Some(t.(status := newStatus))
  }

  /** `handleStatusChange`: with `response` the task the server returned (None when the
      request failed). An unknown id raises "Task not found", which the handler catches like a
      failed request: the list stays as it was and the error is shown. */
  function HandleStatusChange(page: Page, taskId: string, newStatus: Status, response: Option<Task>): (r: Page)
    ensures FindById(page.tasks, taskId).None? || response.None? ==>
              r == page.(authError := Some(StatusUpdateError))
    ensures FindById(page.tasks, taskId).Some? && response.Some? ==>
              && r.tasks == ReplaceById(page.tasks, taskId, response.value)
              && !r.dialogOpen && r.authError == page.authError
  {
    match StatusChangePayload(page.tasks, taskId, newStatus)
    case None => page.(authError := Some(StatusUpdateError))
    case Some(_) =>
      match response
      case None => page.(authError := Some(StatusUpdateError))
      case Some(updated) => page.(tasks := ReplaceById(page.tasks, taskId, updated), dialogOpen := false)
  }

  /** `handleDeleteTask`: after the server accepted the delete, every task with the id is
      dropped and every other task stays, as often as it was listed; `DeleteTaskSplits`
      states that they keep their order. Otherwise the error is shown. */
  function HandleDeleteTask(page: Page, taskId: string, deleted: bool): (r: Page)
    ensures deleted ==> !r.dialogOpen && r.authError == page.authError
    ensures deleted ==> forall i :: 0 <= i < |r.tasks| ==> r.tasks[i].id != taskId && r.tasks[i] in page.tasks
    ensures deleted ==> forall i :: 0 <= i < |page.tasks| && page.tasks[i].id != taskId ==> page.tasks[i] in r.tasks
    ensures deleted ==> forall t :: multiset(r.tasks)[t] == if t.id == taskId then 0 else multiset(page.tasks)[t]
    ensures !deleted ==> r == page.(authError := Some(DeleteError))
  {
    if deleted then
      var kept := (t: Task) => t.id != taskId;
      FilterMembers(page.tasks, kept);
      FilterMultiplicity(page.tasks, kept);
      page.(tasks := Filter(page.tasks, kept), dialogOpen := false)
    else page.(authError := Some(DeleteError))
  }

  /** Deleting from a list split in two deletes from each part and keeps the parts in
      order; with the multiplicities `HandleDeleteTask` states, this fixes the result. */
  lemma DeleteTaskSplits(page: Page, a: seq<Task>, b: seq<Task>, taskId: string)
    ensures HandleDeleteTask(page.(tasks := a + b), taskId, true).tasks
            == HandleDeleteTask(page.(tasks := a), taskId, true).tasks + HandleDeleteTask(page.(tasks := b), taskId, true).tasks
  {
    FilterConcat(a, b, (t: Task) => t.id != taskId);
  }

  /** `onTaskUpdated`: the edited task replaces the task(s) with its id. */
  function OnTaskUpdated(page: Page, updated: Task): (r: Page)
    ensures |r.tasks| == |page.tasks|
    ensures forall i :: 0 <= i < |page.tasks| ==>
              r.tasks[i] == if page.tasks[i].id == updated.id then updated else page.tasks[i]
    ensures r.dialogOpen == page.dialogOpen && r.authError == page.authError
  {
    page.(tasks := ReplaceById(page.tasks, updated.id, updated))
  }

  // ---------------------------------------------------------------------------
  // Lemmas
  // ---------------------------------------------------------------------------

  /** The columns are the four statuses, each once. */
  lemma ColumnsAreStatuses()
    ensures |Columns| == 4
    ensures forall s: Status :: s in Columns
    ensures forall i, j :: 0 <= i < j < |Columns| ==> Columns[i] != Columns[j]
  {
    forall s: Status
      ensures s in Columns
    {
      match s
      case TODO => assert Columns[0] == s;
      case DOING => assert Columns[1] == s;
      case DONE => assert Columns[2] == s;
      case PAUSED => assert Columns[3] == s;
    }
  }

  /** The column headings and border classes are pairwise distinct. */
  lemma StatusConfigDistinct(a: Status, b: Status)
    requires a != b
    ensures StatusConfig(a).title != StatusConfig(b).title
    ensures StatusConfig(a).borderColor != StatusConfig(b).borderColor
  {
    assert StatusConfig(a).borderColor[7] != StatusConfig(b).borderColor[7];
    assert StatusConfig(a).title[0..2] != StatusConfig(b).title[0..2] || StatusConfig(a).title[3] != StatusConfig(b).title[3];
  }

  /** The reducer builds, for each status present in the list, the tasks with that status in
      input order, and no group for an absent status. */
  lemma {:induction false} GroupedTasksAreFilters(tasks: seq<Task>)
    ensures forall s :: s in GroupedTasks(tasks) <==> Filter(tasks, HasStatus(s)) != []
    ensures forall s :: s in GroupedTasks(tasks) ==> GroupedTasks(tasks)[s] == Filter(tasks, HasStatus(s))
    decreases |tasks|
  {
    if tasks != [] {
      var front := tasks[..|tasks| - 1];
      var last := tasks[|tasks| - 1];
      assert tasks == front + [last];
      GroupedTasksAreFilters(front);
      forall s: Status
        ensures Filter(tasks, HasStatus(s)) == Filter(front, HasStatus(s)) + (if last.status == s then [last] else [])
      {
        FilterSnoc(front, last, HasStatus(s));
      }
    }
  }

  /** Each column shows exactly the tasks with its status, in input order; a status without
      tasks shows an empty column. */
  lemma ColumnTasksByStatus(tasks: seq<Task>, s: Status)
    ensures ColumnTasks(tasks, s) == Filter(tasks, HasStatus(s))
  {
    GroupedTasksAreFilters(tasks);
  }

  /** The columns partition the list: every task is in its own status's column, and the
      column sizes add up to the number of tasks. */
  lemma ColumnsPartition(tasks: seq<Task>)
    ensures forall t :: t in tasks ==> t in ColumnTasks(tasks, t.status)
    ensures |ColumnTasks(tasks, TODO)| + |ColumnTasks(tasks, DOING)|
          + |ColumnTasks(tasks, DONE)| + |ColumnTasks(tasks, PAUSED)| == |tasks|
  {
    forall s: Status
      ensures ColumnTasks(tasks, s) == Filter(tasks, HasStatus(s))
    {
      ColumnTasksByStatus(tasks, s);
    }
    forall t | t in tasks
      ensures t in ColumnTasks(tasks, t.status)
    {
      var i :| 0 <= i < |tasks| && tasks[i] == t;
      assert HasStatus(t.status)(tasks[i]);
      FilterMembers(tasks, HasStatus(t.status));
    }
    StatusCountsSum(tasks);
  }

  /** Replacing by an id no task has is the identity (an edit of an unknown task changes nothing). */
  lemma ReplaceUnknownId(tasks: seq<Task>, id: string, updated: Task)
    requires forall i :: 0 <= i < |tasks| ==> tasks[i].id != id
    ensures ReplaceById(tasks, id, updated) == tasks
  {
  }

  /** An edit whose id matches no task leaves the list as it was. */
  lemma OnTaskUpdatedUnknown(page: Page, updated: Task)
    requires forall i :: 0 <= i < |page.tasks| ==> page.tasks[i].id != updated.id
    ensures OnTaskUpdated(page, updated) == page
  {
    ReplaceUnknownId(page.tasks, updated.id, updated);
  }

  /** A status change for an id not in the list leaves the list untouched and shows the error. */
  lemma StatusChangeUnknownTask(page: Page, taskId: string, newStatus: Status, response: Option<Task>)
    requires forall i :: 0 <= i < |page.tasks| ==> page.tasks[i].id != taskId
    ensures HandleStatusChange(page, taskId, newStatus, response).tasks == page.tasks
    ensures HandleStatusChange(page, taskId, newStatus, response).authError == Some(StatusUpdateError)
  {
  }
}
