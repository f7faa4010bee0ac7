/** The dashboard's two counting widgets: the per-status stats widget and the quick-stats
    widget with its completion percentage. Both recompute only for a non-empty task list. */
module StatsWidget {
  import opened Seqs
  import opened Tasks

  datatype Stats = Stats(tasksDone: nat, tasksTodo: nat, tasksDoing: nat, tasksPaused: nat,
                         totalProjects: nat)

  /** The values before any tasks arrive. */
  const InitialStats: Stats := Stats(0, 0, 0, 0, 0)

  /** The counts of one pass over the list: each field is the number of tasks with its
      status, and the total is their sum, which is the length of the list. */
  method ComputeStats(tasks: seq<Task>) returns (r: Stats)
    ensures r.tasksTodo == Count(tasks, HasStatus(TODO))
    ensures r.tasksDoing == Count(tasks, HasStatus(DOING))
    ensures r.tasksDone == Count(tasks, HasStatus(DONE))
    ensures r.tasksPaused == Count(tasks, HasStatus(PAUSED))
    ensures r.totalProjects == r.tasksTodo + r.tasksDoing + r.tasksDone + r.tasksPaused
    ensures r.totalProjects == |tasks|
    ensures r.tasksTodo <= |tasks| && r.tasksDoing <= |tasks| && r.tasksDone <= |tasks| && r.tasksPaused <= |tasks|
  {
    var todo, doing, done, paused := 0, 0, 0, 0;
    var i := 0;
    while i < |tasks|
      invariant 0 <= i <= |tasks|
      invariant todo == Count(tasks[..i], HasStatus(TODO))
      invariant doing == Count(tasks[..i], HasStatus(DOING))
      invariant done == Count(tasks[..i], HasStatus(DONE))
      invariant paused == Count(tasks[..i], HasStatus(PAUSED))
    {
      CountStep(tasks, i, TODO);
      CountStep(tasks, i, DOING);
      CountStep(tasks, i, DONE);
      CountStep(tasks, i, PAUSED);
      match tasks[i].status {
        case TODO => todo := todo + 1;
        case DOING => doing := doing + 1;
        case DONE => done := done + 1;
        case PAUSED => paused := paused + 1;
      }
      i := i + 1;
    }
    assert tasks[..i] == tasks;
    StatusCountsSum(tasks);
    r := Stats(done, todo, doing, paused, todo + doing + done + paused);
  }

  /** The effect on the tasks: an empty list keeps the previous stats, any other list
      replaces them with its counts. */
  method UpdateStats(prev: Stats, tasks: seq<Task>) returns (r: Stats)
    ensures tasks == [] ==> r == prev
    ensures tasks != [] ==> r.totalProjects == |tasks| && r.tasksDone == Count(tasks, HasStatus(DONE))
                            && r.tasksTodo == Count(tasks, HasStatus(TODO))
                            && r.tasksDoing == Count(tasks, HasStatus(DOING))
                            && r.tasksPaused == Count(tasks, HasStatus(PAUSED))
  {
    if |tasks| > 0 {
      r := ComputeStats(tasks);
    } else {
      r := prev;
    }
  }
}

module QuickStatsWidget {
  import opened Seqs
  import opened Tasks

  /** The widget's stats; the day margin to the latest task is not modelled. */
  datatype QuickStats = QuickStats(tasksCompleted: nat, tasksRemaining: nat, tasksActive: nat,
                                   completionPercentage: real)

  const InitialQuickStats: QuickStats := QuickStats(0, 0, 0, 0.0)

  /** The share of DONE tasks in percent; the NaN guard yields 0 for an empty list. */
  function CompletionPercentage(completed: nat, total: nat): (p: real)
    requires completed <= total
    ensures 0.0 <= p <= 100.0
    ensures total > 0 ==> (p == 100.0 <==> completed == total)
    ensures p == 0.0 <==> completed == 0 || total == 0
    ensures total > 0 ==> p * (total as real) == 100.0 * (completed as real)
  {
    if total == 0 then 0.0 else (completed as real / total as real) * 100.0
  }

  /** The counts of a task list: DONE tasks, non-DONE tasks, non-PAUSED tasks and the
      completion percentage. */
  function ComputeQuickStats(tasks: seq<Task>): (r: QuickStats)
    ensures r.tasksCompleted == Count(tasks, HasStatus(DONE))
    ensures r.tasksRemaining == Count(tasks, NotStatus(DONE))
    ensures r.tasksActive == Count(tasks, NotStatus(PAUSED))
    ensures r.tasksCompleted + r.tasksRemaining == |tasks|
    ensures r.tasksActive + Count(tasks, HasStatus(PAUSED)) == |tasks|
    ensures r.tasksCompleted <= r.tasksActive
    ensures 0.0 <= r.completionPercentage <= 100.0
    ensures |tasks| > 0 ==> r.completionPercentage * (|tasks| as real) == 100.0 * (r.tasksCompleted as real)
  {
    var completed := Count(tasks, HasStatus(DONE));
    var remaining := Count(tasks, NotStatus(DONE));
    var active := Count(tasks, NotStatus(PAUSED));
    StatusComplement(tasks, DONE);
    StatusComplement(tasks, PAUSED);
    DoneAreActive(tasks);
    QuickStats(completed, remaining, active, CompletionPercentage(completed, |tasks|))
  }

  /** The effect on the tasks: an empty list keeps the previous stats, any other list
      replaces them with its own counts and percentage. */
  function UpdateQuickStats(prev: QuickStats, tasks: seq<Task>): (r: QuickStats)
    ensures tasks == [] ==> r == prev
    ensures tasks != [] ==> && r.tasksCompleted == Count(tasks, HasStatus(DONE))
                            && r.tasksRemaining == Count(tasks, NotStatus(DONE))
                            && r.tasksActive == Count(tasks, NotStatus(PAUSED))
                            && r.completionPercentage * (|tasks| as real) == 100.0 * (r.tasksCompleted as real)
    ensures tasks != [] ==> r.tasksCompleted + r.tasksRemaining == |tasks|
                            && r.tasksCompleted <= r.tasksActive <= |tasks|
                            && 0.0 <= r.completionPercentage <= 100.0
  {
    if |tasks| > 0 then ComputeQuickStats(tasks) else prev
  }

  /** Every task DONE is exactly a full completion bar. */
  lemma FullCompletion(tasks: seq<Task>)
    requires tasks != []
    ensures ComputeQuickStats(tasks).completionPercentage == 100.0
            <==> forall i :: 0 <= i < |tasks| ==> tasks[i].status == DONE
  {
    var completed := Count(tasks, HasStatus(DONE));
    if forall i :: 0 <= i < |tasks| ==> tasks[i].status == DONE {
      FilterAll(tasks, HasStatus(DONE));
    } else {
      var k :| 0 <= k < |tasks| && tasks[k].status != DONE;
      StatusComplement(tasks, DONE);
      assert NotStatus(DONE)(tasks[k]);
      FilterMembers(tasks, NotStatus(DONE));
      assert tasks[k] in Filter(tasks, NotStatus(DONE));
    }
  }
}
