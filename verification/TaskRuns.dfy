// `run_tasks` of scripts/verify.py: which tasks are run, blocked or skipped, and what the report
// says in the end. What a subprocess does is given from outside, as are the checks of host,
// device, files and tools.
module TaskRuns {
  import opened Options
  import opened TaskSelection

  datatype Status = Passed | Failed | Skipped | Blocked

  // How one command ends; `tests` is the number of tests its log reports, if it reports any.
  datatype Execution =
    | Exited(code: int, tests: Option<nat>)
    | CleanupFailed
    | CouldNotRun
    | Interrupted

  datatype Check = Check(task: Task, status: Status, executed: bool)

  datatype Overall = AllPassed | SomeFailed | Incomplete | WasInterrupted

  datatype Report = Report(checks: seq<Check>, status: Overall, passed: bool, code: int)

  datatype World = World(skips: Task -> bool, lacksTool: Task -> bool, runs: Task -> Execution)

  function StatusOf(e: Execution): Status
  {
    if e.Exited? && e.code == 0 && e.tests != Some(0) then Passed else Failed
  }

  // results: the status recorded last for each id.
  function Results(checks: seq<Check>): map<string, Status>
  {
    if checks == [] then map[]
    else Results(checks[..|checks| - 1])[checks[|checks| - 1].task.id := checks[|checks| - 1].status]
  }

  predicate HasPassed(results: map<string, Status>, id: string) { id in results && results[id].Passed? }

  predicate LeftProcesses(world: World, c: Check) { c.executed && world.runs(c.task).CleanupFailed? }

  predicate StoppedByUser(world: World, c: Check) { c.executed && world.runs(c.task).Interrupted? }

  predicate Uninterrupted(world: World, checks: seq<Check>)
  {
    checks != [] ==> !StoppedByUser(world, checks[|checks| - 1]) && Uninterrupted(world, checks[..|checks| - 1])
  }

  // Some check so far left a process tree behind.
  predicate Aborted(world: World, checks: seq<Check>)
  {
    checks != [] && (LeftProcesses(world, checks[|checks| - 1]) || Aborted(world, checks[..|checks| - 1]))
  }

  predicate MayRun(world: World, checks: seq<Check>, task: Task)
  {
    && !Aborted(world, checks) && !world.skips(task)
    && (forall id <- task.requirements :: HasPassed(Results(checks), id))
    && !world.lacksTool(task)
  }

  function Judged(world: World, checks: seq<Check>, task: Task): Check
  {
    if MayRun(world, checks, task) then Check(task, StatusOf(world.runs(task)), true)
    else Check(task,
               if Aborted(world, checks) then Blocked
               else if world.skips(task) then Skipped
               else if exists id <- task.requirements :: !HasPassed(Results(checks), id) then Blocked
               else Failed, false)
  }

  // The checks are those of the first tasks, each judged by the ones before it.
  ghost predicate IsRecord(world: World, tasks: seq<Task>, checks: seq<Check>)
  {
    checks == [] ||
    var before := checks[..|checks| - 1];
    |checks| <= |tasks| && IsRecord(world, tasks, before)
        && checks[|checks| - 1] == Judged(world, before, tasks[|before|])
  }

  function Overalls(results: map<string, Status>): Overall
  {
    var statuses := results.Values;
    if Failed in statuses then SomeFailed else if statuses != {Passed} then Incomplete else AllPassed
  }

  function CodeOf(status: Overall): int
  {
    match status
    case AllPassed => 0
    case SomeFailed => 1
    case Incomplete => 2
    case WasInterrupted => 130
  }

  function Concluded(checks: seq<Check>, results: map<string, Status>): Report
  {
    var status := Overalls(results);
    Report(checks, status, status.AllPassed?, CodeOf(status))
  }

  method CheckTask(task: Task, world: World, ghost checks: seq<Check>, results: map<string, Status>, aborted: bool)
    returns (check: Check)
    requires results == Results(checks) && aborted == Aborted(world, checks)
    ensures check == Judged(world, checks, task)
    ensures check.status.Passed? <==> check.executed && Succeeds(world, task)
    ensures check.executed && !check.status.Passed? ==> check.status.Failed?
  {
    if aborted {
      return Check(task, Blocked, false);
    }
    if world.skips(task) {
      return Check(task, Skipped, false);
    }
    if exists id <- task.requirements :: !HasPassed(results, id) {
      return Check(task, Blocked, false);
    }
    if world.lacksTool(task) {
      return Check(task, Failed, false);
    }
    return Check(task, StatusOf(world.runs(task)), true);
  }

  method RunTasks(tasks: seq<Task>, world: World) returns (report: Report)
    ensures IsRecord(world, tasks, report.checks)
    ensures if Uninterrupted(world, report.checks)
            then |report.checks| == |tasks| && report == Concluded(report.checks, Results(report.checks))
            else
              Uninterrupted(world, report.checks[..|report.checks| - 1])
              && report == Report(report.checks, WasInterrupted, false, 130)
    ensures forall c <- report.checks :: c.status.Passed? <==> c.executed && Succeeds(world, c.task)
  {
    var results: map<string, Status> := map[];
    var aborted := false;
    var checks: seq<Check> := [];
    var i := 0;
    while i < |tasks|
      invariant i == |checks| <= |tasks| && IsRecord(world, tasks, checks)
      invariant results == Results(checks) && aborted == Aborted(world, checks)
      invariant Uninterrupted(world, checks)
    {
      var task := tasks[i];
      var check := CheckTask(task, world, checks, results, aborted);
      if check.executed && world.runs(task).Interrupted? {
        RecordMore(world, tasks, checks, check);
        PassedSucceeded(world, tasks, checks + [check]);
        return Report(checks + [check], WasInterrupted, false, 130);
      }
      aborted := aborted || (check.executed && world.runs(task).CleanupFailed?);
      RecordMore(world, tasks, checks, check);
      results := results[task.id := check.status];
      checks := checks + [check];
      i := i + 1;
    }
    PassedSucceeded(world, tasks, checks);
    return Concluded(checks, results);
  }

  lemma RecordMore(world: World, tasks: seq<Task>, checks: seq<Check>, check: Check)
    requires IsRecord(world, tasks, checks) && |checks| < |tasks| && check == Judged(world, checks, tasks[|checks|])
    ensures IsRecord(world, tasks, checks + [check])
    ensures Results(checks + [check]) == Results(checks)[check.task.id := check.status]
    ensures Aborted(world, checks + [check]) == (Aborted(world, checks) || LeftProcesses(world, check))
    ensures Uninterrupted(world, checks + [check]) == (Uninterrupted(world, checks) && !StoppedByUser(world, check))
    ensures (checks + [check])[..|checks|] == checks
  {
    assert (checks + [check])[..|checks|] == checks;
  }

  // ---------------------------------------------------------------- what a report means

  lemma {:induction false} RecordAt(world: World, tasks: seq<Task>, checks: seq<Check>, k: nat)
    requires IsRecord(world, tasks, checks) && k < |checks|
    ensures |checks| <= |tasks| && checks[k] == Judged(world, checks[..k], tasks[k])
            && IsRecord(world, tasks, checks[..k])
  {
    var n := |checks| - 1;
    if k < n {
      RecordAt(world, tasks, checks[..n], k);
      assert checks[..n][..k] == checks[..k];
    }
  }

  lemma {:induction false} ResultIsLatest(checks: seq<Check>, id: string)
    ensures id in Results(checks) ==>
            exists j :: 0 <= j < |checks| && checks[j].task.id == id && checks[j].status == Results(checks)[id]
  {
    if checks != [] {
      var before := checks[..|checks| - 1];
      ResultIsLatest(before, id);
      if id in Results(checks) && checks[|checks| - 1].task.id != id {
        var j :| 0 <= j < |before| && before[j].task.id == id && before[j].status == Results(before)[id];
        assert checks[j].task.id == id;
      }
    }
  }

  // The command of the task ends well, and not with a log of no test at all.
  ghost predicate Succeeds(world: World, task: Task)
  {
    world.runs(task).Exited? && world.runs(task).code == 0 && world.runs(task).tests != Some(0)
  }

  // The last check of that id before k passed.
  ghost predicate LastPassed(checks: seq<Check>, k: nat, id: string)
    requires k <= |checks|
  {
    exists j :: 0 <= j < k && checks[j].task.id == id && checks[j].status.Passed? && NoneBetween(checks, j, k, id)
  }

  ghost predicate NoneBetween(checks: seq<Check>, j: int, k: nat, id: string)
    requires -1 <= j < k <= |checks|
  {
    forall i :: j < i < k ==> checks[i].task.id != id
  }

  ghost predicate LeftBefore(world: World, checks: seq<Check>, k: nat)
    requires k <= |checks|
  {
    exists j :: 0 <= j < k && checks[j].executed && world.runs(checks[j].task).CleanupFailed?
  }

  lemma {:induction false} AbortedExactly(world: World, checks: seq<Check>)
    ensures Aborted(world, checks) <==> LeftBefore(world, checks, |checks|)
  {
    if checks != [] {
      var n := |checks| - 1;
      AbortedExactly(world, checks[..n]);
      if LeftBefore(world, checks[..n], n) {
        var j :| 0 <= j < n && checks[..n][j].executed && world.runs(checks[..n][j].task).CleanupFailed?;
        assert checks[j].executed;
      }
      if LeftBefore(world, checks, n + 1) {
        var j :| 0 <= j < n + 1 && checks[j].executed && world.runs(checks[j].task).CleanupFailed?;
        assert j < n ==> checks[..n][j].executed;
      }
    }
  }

  lemma {:induction false} HasPassedExactly(checks: seq<Check>, id: string)
    ensures HasPassed(Results(checks), id) <==> LastPassed(checks, |checks|, id)
  {
    if checks != [] {
      var n := |checks| - 1;
      var before, last := checks[..n], checks[n];
      HasPassedExactly(before, id);
      if last.task.id == id {
        assert last.status.Passed? ==> NoneBetween(checks, n, n + 1, id);
      } else {
        if LastPassed(before, n, id) {
          var j :| 0 <= j < n && before[j].task.id == id && before[j].status.Passed? && NoneBetween(before, j, n, id);
          assert checks[j].task.id == id && NoneBetween(checks, j, n + 1, id);
        }
        if LastPassed(checks, n + 1, id) {
          var j :| 0 <= j < n + 1 && checks[j].task.id == id && checks[j].status.Passed?
            && NoneBetween(checks, j, n + 1, id);
          assert before[j].task.id == id && NoneBetween(before, j, n, id);
        }
      }
    }
  }

  lemma PrefixLastPassed(checks: seq<Check>, k: nat, id: string)
    requires k <= |checks|
    ensures LastPassed(checks[..k], k, id) <==> LastPassed(checks, k, id)
  {
    var front := checks[..k];
    if LastPassed(front, k, id) {
      var j :| 0 <= j < k && front[j].task.id == id && front[j].status.Passed? && NoneBetween(front, j, k, id);
      assert checks[j].task.id == id && NoneBetween(checks, j, k, id);
    }
    if LastPassed(checks, k, id) {
      var j :| 0 <= j < k && checks[j].task.id == id && checks[j].status.Passed? && NoneBetween(checks, j, k, id);
      assert front[j].task.id == id && NoneBetween(front, j, k, id);
    }
  }

  lemma PrefixLeft(world: World, checks: seq<Check>, k: nat)
    requires k <= |checks|
    ensures LeftBefore(world, checks[..k], k) <==> LeftBefore(world, checks, k)
  {
    var front := checks[..k];
    if LeftBefore(world, front, k) {
      var j :| 0 <= j < k && front[j].executed && world.runs(front[j].task).CleanupFailed?;
      assert checks[j].executed;
    }
    if LeftBefore(world, checks, k) {
      var j :| 0 <= j < k && checks[j].executed && world.runs(checks[j].task).CleanupFailed?;
      assert front[j].executed;
    }
  }

  // What becomes of check k: it is run exactly when no process tree was left behind, it is not to
  // be skipped, its requirements passed and its tools are there, and then its command decides.
  lemma CheckIsJudged(world: World, tasks: seq<Task>, checks: seq<Check>, k: nat)
    requires IsRecord(world, tasks, checks) && k < |checks|
    ensures k < |tasks| && checks[k].task == tasks[k]
    ensures var task, ready := tasks[k], forall id <- tasks[k].requirements :: LastPassed(checks, k, id);
            && (checks[k].executed <==>
                !LeftBefore(world, checks, k) && !world.skips(task) && ready && !world.lacksTool(task))
            && checks[k].status ==
                if LeftBefore(world, checks, k) then Blocked
                else if world.skips(task) then Skipped
                else if !ready then Blocked
                else if !world.lacksTool(task) && Succeeds(world, task) then Passed
                else Failed
  {
    RecordAt(world, tasks, checks, k);
    AbortedExactly(world, checks[..k]);
    PrefixLeft(world, checks, k);
    forall id <- tasks[k].requirements ensures HasPassed(Results(checks[..k]), id) <==> LastPassed(checks, k, id) {
      HasPassedExactly(checks[..k], id);
      PrefixLastPassed(checks, k, id);
    }
  }

  lemma PassedMeansSucceeded(world: World, tasks: seq<Task>, checks: seq<Check>, k: nat)
    requires IsRecord(world, tasks, checks) && k < |checks|
    ensures checks[k].status.Passed? <==> checks[k].executed && Succeeds(world, checks[k].task)
  {
    RecordAt(world, tasks, checks, k);
  }

  lemma PassedSucceeded(world: World, tasks: seq<Task>, checks: seq<Check>)
    requires IsRecord(world, tasks, checks)
    ensures forall c <- checks :: c.status.Passed? <==> c.executed && Succeeds(world, c.task)
  {
    forall c <- checks ensures c.status.Passed? <==> c.executed && Succeeds(world, c.task) {
      var k :| 0 <= k < |checks| && checks[k] == c;
      PassedMeansSucceeded(world, tasks, checks, k);
    }
  }

  // A task is run only when the checks before it passed all its requirements, and never after a
  // process tree was left behind.
  lemma RunsOnlyAfterRequirements(world: World, tasks: seq<Task>, checks: seq<Check>, k: nat, id: string)
    requires IsRecord(world, tasks, checks) && k < |checks| && checks[k].executed && id in tasks[k].requirements
    ensures exists j :: 0 <= j < k && checks[j].task.id == id && checks[j].status.Passed?
  {
    RecordAt(world, tasks, checks, k);
    ResultIsLatest(checks[..k], id);
    var j :| 0 <= j < k && checks[..k][j].task.id == id && checks[..k][j].status.Passed?;
    assert checks[j].status.Passed?;
  }

  lemma {:induction false} NothingRunsAfterCleanupFailure(world: World, tasks: seq<Task>, checks: seq<Check>, j: nat,
        k: nat)
    requires IsRecord(world, tasks, checks) && j < k < |checks| && LeftProcesses(world, checks[j])
    ensures !checks[k].executed && checks[k].status.Blocked?
  {
    RecordAt(world, tasks, checks, k);
    AbortedAfter(world, checks[..k], j);
  }

  lemma {:induction false} AbortedAfter(world: World, checks: seq<Check>, j: nat)
    requires j < |checks| && LeftProcesses(world, checks[j])
    ensures Aborted(world, checks)
  {
    if j < |checks| - 1 {
      AbortedAfter(world, checks[..|checks| - 1], j);
    }
  }

  // In a scheduled plan, whatever is run has its whole transitive requirement set run before, with
  // success.
  lemma {:induction false} WholeRequirementSetPassed(world: World, plan: seq<Task>, checks: seq<Check>,
        byId: map<string, Task>,
                                                     chain: seq<Task>, k: nat, n: nat) returns (at: nat)
    requires Scheduled(plan) && IsRecord(world, plan, checks)
    requires Registered(byId, plan) && IsChain(byId, chain) && 0 < n < |chain|
    requires k < |checks| && plan[k] == chain[0] && checks[k].executed
    ensures at < k && checks[at].task == plan[at] == chain[n] && checks[at].executed && checks[at].status.Passed?
    ensures Succeeds(world, chain[n])
    decreases n
  {
    var from := k;
    if n > 1 {
      from := WholeRequirementSetPassed(world, plan, checks, byId, chain, k, n - 1);
    }
    RecordAt(world, plan, checks, from);
    assert Requires(byId, chain[n - 1], chain[n]);
    RunsOnlyAfterRequirements(world, plan, checks, from, chain[n].id);
    at :| 0 <= at < from && checks[at].task.id == chain[n].id && checks[at].status.Passed?;
    RecordAt(world, plan, checks, at);
    PassedMeansSucceeded(world, plan, checks, at);
  }

  lemma {:induction false} ResultsOfDistinct(world: World, plan: seq<Task>, checks: seq<Check>, k: nat)
    requires Scheduled(plan) && IsRecord(world, plan, checks) && k < |checks|
    ensures checks[k].task.id in Results(checks) && Results(checks)[checks[k].task.id] == checks[k].status
  {
    var n := |checks| - 1;
    RecordAt(world, plan, checks, n);
    RecordAt(world, plan, checks, k);
    if k < n {
      ResultsOfDistinct(world, plan, checks[..n], k);
      NoTaskTwice(plan, k, n);
    }
  }

  // The report passes exactly when there was something to run and the command of every task was
  // run and ended well; it says what else happened, and the exit code says the same.
  lemma PassedMeansAllPassed(world: World, plan: seq<Task>, checks: seq<Check>)
    requires Scheduled(plan) && IsRecord(world, plan, checks)
    ensures var report := Concluded(checks, Results(checks));
            && (report.passed <==> checks != [] && forall c <- checks :: c.executed && Succeeds(world, c.task))
            && (report.status.SomeFailed? <==> exists c <- checks :: c.status.Failed?)
            && !report.status.WasInterrupted?
            && report.code == (if report.passed then 0 else if report.status.SomeFailed? then 1 else 2)
            && (report.passed <==> report.status.AllPassed?)
  {
    var results := Results(checks);
    forall k | 0 <= k < |checks|
      ensures checks[k].status in results.Values
      ensures checks[k].status.Passed? <==> checks[k].executed && Succeeds(world, checks[k].task) {
      ResultsOfDistinct(world, plan, checks, k);
      PassedMeansSucceeded(world, plan, checks, k);
    }
    forall id <- results ensures exists c <- checks :: c.status == results[id] {
      ResultIsLatest(checks, id);
    }
    if checks != [] && forall c <- checks :: c.status.Passed? {
      assert checks[0].status in results.Values;
      assert results.Values == {Passed};
    }
    if results.Values == {Passed} {
      assert Passed in results.Values;
      var id :| id in results;
      assert checks != [];
      forall c <- checks ensures c.status.Passed? {
        var k :| 0 <= k < |checks| && checks[k] == c;
      }
    }
    PassedChecks(world, checks);
  }

  lemma PassedChecks(world: World, checks: seq<Check>)
    requires forall k :: 0 <= k < |checks| ==>
               (checks[k].status.Passed? <==> checks[k].executed && Succeeds(world, checks[k].task))
    ensures (forall c <- checks :: c.status.Passed?) <==> forall c <- checks :: c.executed && Succeeds(world, c.task)
  {
    forall c <- checks ensures c.status.Passed? <==> c.executed && Succeeds(world, c.task) {
      var k :| 0 <= k < |checks| && checks[k] == c;
    }
  }

  // ---------------------------------------------------------------- selecting and running

  ghost predicate HasRunBefore(world: World, checks: seq<Check>, k: int, t: Task)
  {
    Succeeds(world, t) && exists at :: 0 <= at < k && at < |checks| && checks[at].task == t && checks[at].executed
  }

  // Whatever was run had its whole transitive requirement set run before it, with success.
  ghost predicate RequirementsHeld(world: World, byId: map<string, Task>, checks: seq<Check>)
  {
    forall k, chain, n | 0 <= k < |checks| && checks[k].executed && IsChain(byId, chain) && 0 < n < |chain| ::
      chain[0] == checks[k].task ==> HasRunBefore(world, checks, k, chain[n])
  }

  lemma PlanHoldsRequirements(world: World, byId: map<string, Task>, plan: seq<Task>, checks: seq<Check>)
    requires Scheduled(plan) && Registered(byId, plan) && IsRecord(world, plan, checks)
    ensures RequirementsHeld(world, byId, checks)
  {
    forall k, chain, n | 0 <= k < |checks| && checks[k].executed && IsChain(byId, chain) && 0 < n < |chain|
      && chain[0] == checks[k].task ensures HasRunBefore(world, checks, k, chain[n])
    {
      RecordAt(world, plan, checks, k);
      var at := WholeRequirementSetPassed(world, plan, checks, byId, chain, k, n);
    }
  }

  lemma PlanIsRegistered(tasks: seq<Task>, roots: seq<Task>, plan: seq<Task>)
    requires Distinct(tasks) && (forall r <- roots :: r in tasks) && IsPlan(ById(tasks), roots, plan)
    ensures Registered(ById(tasks), plan)
  {
    DistinctAreRegistered(tasks, roots);
    forall t <- plan ensures t.id in ById(tasks) && ById(tasks)[t.id] == t {
      NeededAreRegistered(ById(tasks), roots, t);
    }
  }

  // The path through main(): a selection that is refused runs nothing.
  method Verify(tasks: seq<Task>, layers: seq<string>, selected: seq<string>, world: World)
    returns (outcome: Outcome, report: Option<Report>)
    ensures outcome.Refused? <==> report.None?
    ensures outcome.Plan? ==> IsPlan(ById(tasks), Included(tasks, layers, selected), outcome.tasks)
    ensures report.Some? ==> IsRecord(world, outcome.tasks, report.value.checks)
    ensures report.Some? && Distinct(tasks) ==> RequirementsHeld(world, ById(tasks), report.value.checks)
    ensures report.Some? ==>
              && (report.value.passed <==>
                  && report.value.checks != []
                  && forall c <- report.value.checks :: c.executed && Succeeds(world, c.task))
              && (report.value.passed <==> report.value.code == 0)
  {
    outcome := SelectTasks(tasks, layers, selected);
    if outcome.Refused? {
      return outcome, None;
    }
    var result := RunTasks(outcome.tasks, world);
    PassedMeansAllPassed(world, outcome.tasks, result.checks);
    if Distinct(tasks) {
      PlanIsRegistered(tasks, Included(tasks, layers, selected), outcome.tasks);
      PlanHoldsRequirements(world, ById(tasks), outcome.tasks, result.checks);
    }
    return outcome, Some(result);
  }
}
