/** The board's task record and its closed set of statuses, as the backend's `/api/tasks/`
    returns them and every task-showing component reads them. */
module Tasks {
  import opened Optional
  import opened Seqs

  /** The four workflow states a task can be in. */
  datatype Status = TODO | DOING | DONE | PAUSED

  /** A board task. `fecha` is the due date as text (`YYYY-MM-DD`), `hora` the time of day,
      `family` the id of the task's family (category), if any. */
  datatype Task = Task(
    id: string,
    title: string,
    fecha: string,
    hora: string,
    location: string,
    description: string,
    family: Option<string>,
    status: Status,
    puntosDeExperiencia: int)

  /** A task family (category) as the dialog and the completion chart declare it. */
  datatype Family = Family(id: string, title: string, color: string)

  /** The filter predicate "has status `s`". */
  function HasStatus(s: Status): Task -> bool {
    (t: Task) => t.status == s
  }

  /** The filter predicate "does not have status `s`". */
  function NotStatus(s: Status): Task -> bool {
    (t: Task) => t.status != s
  }

  /** The filter predicate "belongs to family `id` and has status `s`". */
  function InFamilyWithStatus(id: string, s: Status): Task -> bool {
    (t: Task) => t.family == Some(id) && t.status == s
  }

  /** The filter predicate "belongs to family `id`". */
  function InFamily(id: string): Task -> bool {
    (t: Task) => t.family == Some(id)
  }

  /** Every task has exactly one of the four statuses, so the four per-status counts add up
      to the length of the list. */
  lemma {:induction false} StatusCountsSum(tasks: seq<Task>)
    ensures Count(tasks, HasStatus(TODO)) + Count(tasks, HasStatus(DOING))
          + Count(tasks, HasStatus(DONE)) + Count(tasks, HasStatus(PAUSED)) == |tasks|
  {
    if tasks != [] {
      StatusCountsSum(tasks[1..]);
    }
  }

  /** Counting one more task adds one to its own status's count and nothing to the others. */
  lemma CountStep(tasks: seq<Task>, i: nat, s: Status)
    requires i < |tasks|
    ensures Count(tasks[..i + 1], HasStatus(s)) == Count(tasks[..i], HasStatus(s)) + (if tasks[i].status == s then 1 else 0)
  {
    assert tasks[..i + 1] == tasks[..i] + [tasks[i]];
    FilterSnoc(tasks[..i], tasks[i], HasStatus(s));
  }

  /** The tasks with status `s` and those without it together make up the list. */
  lemma StatusComplement(tasks: seq<Task>, s: Status)
    ensures Count(tasks, HasStatus(s)) + Count(tasks, NotStatus(s)) == |tasks|
  {
    FilterComplement(tasks, HasStatus(s), NotStatus(s));
  }

  /** A DONE task is never PAUSED, so there are no more DONE tasks than non-PAUSED ones. */
  lemma DoneAreActive(tasks: seq<Task>)
    ensures Count(tasks, HasStatus(DONE)) <= Count(tasks, NotStatus(PAUSED))
  {
    CountMonotone(tasks, HasStatus(DONE), NotStatus(PAUSED));
  }
}
