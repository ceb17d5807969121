// `select_tasks` of scripts/verify.py: the requested tasks and everything they need, every
// requirement before the tasks that need it.
module TaskSelection {
  import opened Options

  datatype Task = Task(id: string, layer: string, requirements: seq<string>)

  // The errors raised: a ValueError for unknown ids and for a cycle, a KeyError for a requirement
  // that no task has.
  datatype Failure = UnknownTasks(ids: set<string>) | CyclicTask(task: Task) | MissingTask(id: string)

  function Ids(tasks: seq<Task>): set<string>
  {
    if tasks == [] then {} else Ids(tasks[..|tasks| - 1]) + {tasks[|tasks| - 1].id}
  }

  lemma {:induction false} IdsAre(tasks: seq<Task>, id: string)
    ensures id in Ids(tasks) <==> exists i :: 0 <= i < |tasks| && tasks[i].id == id
  {
    if tasks != [] {
      IdsAre(tasks[..|tasks| - 1], id);
      if tasks[|tasks| - 1].id != id && id in Ids(tasks) {
        var i :| 0 <= i < |tasks| - 1 && tasks[..|tasks| - 1][i].id == id;
        assert tasks[i].id == id;
      }
    }
  }

  // The table of tasks by id: of two tasks with one id the later counts.
  function ById(tasks: seq<Task>): (m: map<string, Task>)
    ensures forall id <- m :: m[id] in tasks && m[id].id == id
    ensures forall t <- tasks :: t.id in m
  {
    if tasks == [] then map[]
    else
      var last := tasks[|tasks| - 1];
      assert tasks == tasks[..|tasks| - 1] + [last];
      ById(tasks[..|tasks| - 1])[last.id := last]
  }

  // ---------------------------------------------------------------- what is needed

  predicate Requires(byId: map<string, Task>, a: Task, b: Task)
  {
    b.id in a.requirements && b.id in byId && byId[b.id] == b
  }

  // Each task of a chain requires the next one.
  ghost predicate IsChain(byId: map<string, Task>, chain: seq<Task>)
  {
    forall i, j :: 0 <= i < j < |chain| && j == i + 1 ==> Requires(byId, chain[i], chain[j])
  }

  ghost predicate ChainFrom(byId: map<string, Task>, roots: seq<Task>, chain: seq<Task>)
  {
    chain != [] && chain[0] in roots && IsChain(byId, chain)
  }

  ghost predicate Needed(byId: map<string, Task>, roots: seq<Task>, t: Task)
  {
    exists chain :: ChainFrom(byId, roots, chain) && chain[|chain| - 1] == t
  }

  // A needed task that a chain of requirements leads back to.
  ghost predicate OnCycle(byId: map<string, Task>, roots: seq<Task>, t: Task)
  {
    exists chain: seq<Task>, i: nat ::
      ChainFrom(byId, roots, chain) && i < |chain| - 1 && chain[i].id == t.id && chain[|chain| - 1] == t
  }

  lemma ChainGrows(byId: map<string, Task>, roots: seq<Task>, chain: seq<Task>, t: Task)
    requires ChainFrom(byId, roots, chain) && Requires(byId, chain[|chain| - 1], t)
    ensures ChainFrom(byId, roots, chain + [t])
  {
  }

  // ---------------------------------------------------------------- what a selection promises

  // No task comes twice, and each comes after everything it requires.
  ghost predicate Scheduled(plan: seq<Task>)
  {
    plan == [] ||
    var before, last := plan[..|plan| - 1], plan[|plan| - 1];
    Scheduled(before) && last.id !in Ids(before) && forall id <- last.requirements :: id in Ids(before)
  }

  lemma IdsAppend(plan: seq<Task>, t: Task)
    ensures Ids(plan + [t]) == Ids(plan) + {t.id}
  {
    assert (plan + [t])[..|plan|] == plan;
  }

  lemma ScheduledAppend(plan: seq<Task>, t: Task)
    requires Scheduled(plan) && t.id !in Ids(plan) && forall id <- t.requirements :: id in Ids(plan)
    ensures Scheduled(plan + [t])
  {
    assert (plan + [t])[..|plan|] == plan;
  }

  // ---------------------------------------------------------------- the selection

  class Selection {
    const byId: map<string, Task>
    var visiting: set<string>
    var visited: set<string>
    var result: seq<Task>

    ghost predicate Valid()
      reads this
    {
      && (forall id <- byId :: byId[id].id == id)
      && visited == Ids(result) && visiting !! visited && visiting <= byId.Keys
      && Scheduled(result)
    }

    ghost predicate AllNeeded(roots: seq<Task>)
      reads this
    {
      forall t <- result :: Needed(byId, roots, t)
    }

    constructor (byId: map<string, Task>)
      requires forall id <- byId :: byId[id].id == id
      ensures Valid() && this.byId == byId && visiting == {} && result == []
    {
      this.byId := byId;
      visiting, visited, result := {}, {}, [];
    }

    // The tasks being visited, in the order in which each required the next; the recursion keeps
    // them implicitly.
    ghost predicate IsPathTo(roots: seq<Task>, path: seq<Task>)
      reads this
    {
      ChainFrom(byId, roots, path) && Ids(path) == visiting
    }

    method Add(task: Task, ghost roots: seq<Task>, ghost path: seq<Task>) returns (failure: Option<Failure>)
      requires Valid() && AllNeeded(roots) && task.id in byId && ChainFrom(byId, roots, path + [task])
              && Ids(path) == visiting
      modifies this
      decreases |byId.Keys - visiting|, 0
      ensures failure.None? ==>
                && Valid() && AllNeeded(roots) && visiting == old(visiting)
                && task.id in visited && old(visited) <= visited
      ensures failure.Some? ==> !failure.value.UnknownTasks? && IsReason(byId, roots, failure.value)
    {
      if task.id in visiting {
        CycleFound(byId, roots, path, task);
        return Some(CyclicTask(task));
      }
      if task.id in visited {
        return None;
      }
      FewerLeft(byId.Keys, visiting, task.id);
      IdsAppend(path, task);
      visiting := visiting + {task.id};
      failure := AddRequirements(task, roots, path);
      if failure.None? {
        LastIsNeeded(byId, roots, path, task);
        Finish(task, roots);
      }
    }

    method Finish(task: Task, ghost roots: seq<Task>)
      requires Valid() && AllNeeded(roots) && task.id in visiting
      requires (forall id <- task.requirements :: id in visited) && Needed(byId, roots, task)
      modifies this
      ensures Valid() && AllNeeded(roots) && visiting == old(visiting) - {task.id}
      ensures result == old(result) + [task] && visited == old(visited) + {task.id}
    {
      ScheduledAppend(result, task);
      IdsAppend(result, task);
      visiting := visiting - {task.id};
      visited := visited + {task.id};
      result := result + [task];
    }

    // Looks a requirement up and adds the task found.
    method AddById(id: string, ghost task: Task, ghost roots: seq<Task>, ghost path: seq<Task>)
      returns (failure: Option<Failure>)
      requires Valid() && AllNeeded(roots) && id in task.requirements
      requires IsPathTo(roots, path + [task])
      modifies this
      decreases |byId.Keys - visiting|, 1
      ensures failure.None? ==>
                && Valid() && AllNeeded(roots) && visiting == old(visiting)
                && id in visited && old(visited) <= visited
      ensures failure.Some? ==> !failure.value.UnknownTasks? && IsReason(byId, roots, failure.value)
    {
      if id !in byId {
        LastIsNeeded(byId, roots, path, task);
        return Some(MissingTask(id));
      }
      ChainGrows(byId, roots, path + [task], byId[id]);
      failure := Add(byId[id], roots, path + [task]);
    }

    method AddRequirements(task: Task, ghost roots: seq<Task>, ghost path: seq<Task>) returns (failure: Option<Failure>)
      requires Valid() && AllNeeded(roots) && task.id in visiting && task.id in byId
      requires IsPathTo(roots, path + [task])
      modifies this
      decreases |byId.Keys - visiting|, 2
      ensures failure.None? ==>
                && Valid() && AllNeeded(roots) && visiting == old(visiting)
                && (forall id <- task.requirements :: id in visited) && old(visited) <= visited
      ensures failure.Some? ==> !failure.value.UnknownTasks? && IsReason(byId, roots, failure.value)
    {
      var i := 0;
      while i < |task.requirements|
        invariant i <= |task.requirements| && Valid() && AllNeeded(roots) && visiting == old(visiting)
        invariant forall k :: 0 <= k < i ==> task.requirements[k] in visited
        invariant IsPathTo(roots, path + [task])
        invariant old(visited) <= visited
      {
        failure := AddById(task.requirements[i], task, roots, path);
        if failure.Some? {
          return;
        }
        i := i + 1;
      }
      return None;
    }
  }

  lemma FewerLeft(all: set<string>, visiting: set<string>, id: string)
    requires id in all && id !in visiting
    ensures |all - (visiting + {id})| < |all - visiting|
  {
    assert all - visiting == (all - (visiting + {id})) + {id};
  }

  lemma RootIsChain(byId: map<string, Task>, roots: seq<Task>, root: Task)
    requires root in roots
    ensures [] + [root] == [root] && ChainFrom(byId, roots, [] + [root])
  {
  }

  lemma LastIsNeeded(byId: map<string, Task>, roots: seq<Task>, path: seq<Task>, task: Task)
    requires ChainFrom(byId, roots, path + [task])
    ensures Needed(byId, roots, task)
  {
    assert (path + [task])[|path|] == task;
  }

  lemma CycleFound(byId: map<string, Task>, roots: seq<Task>, path: seq<Task>, task: Task)
    requires ChainFrom(byId, roots, path + [task]) && task.id in Ids(path)
    ensures OnCycle(byId, roots, task)
  {
    var chain := path + [task];
    IdsAre(path, task.id);
    var i :| 0 <= i < |path| && path[i].id == task.id;
    assert ChainFrom(byId, roots, chain) && i < |chain| - 1 && chain[i].id == task.id && chain[|chain| - 1] == task;
  }

  // Why a selection is refused.
  ghost predicate IsReason(byId: map<string, Task>, roots: seq<Task>, failure: Failure)
  {
    match failure
    case UnknownTasks(ids) => ids != {} && ids !! byId.Keys
    case CyclicTask(t) => OnCycle(byId, roots, t)
    case MissingTask(id) => id !in byId && exists t :: Needed(byId, roots, t) && id in t.requirements
  }

  // ---------------------------------------------------------------- the whole selection

  predicate IsIncluded(t: Task, layers: seq<string>, selected: seq<string>)
  {
    if selected != [] then t.id in selected else t.layer in layers
  }

  function Included(tasks: seq<Task>, layers: seq<string>, selected: seq<string>): (roots: seq<Task>)
    ensures forall t ::
              t in roots <==> t in tasks && if selected != [] then t.id in selected else t.layer in layers
  {
    if tasks == [] then []
    else
      var last := tasks[|tasks| - 1];
      assert tasks == tasks[..|tasks| - 1] + [last];
      Included(tasks[..|tasks| - 1], layers, selected) + (if IsIncluded(last, layers, selected) then [last] else [])
  }

  function Unknown(tasks: seq<Task>, selected: seq<string>): set<string>
  {
    (set id <- selected) - ById(tasks).Keys
  }

  datatype Outcome = Plan(tasks: seq<Task>) | Refused(failure: Failure)

  ghost predicate NobodyIs(tasks: seq<Task>, id: string) { forall t <- tasks :: t.id != id }

  // The selected ids that no task has.
  ghost function Nobodies(tasks: seq<Task>, selected: seq<string>): set<string>
  {
    set id <- selected | NobodyIs(tasks, id)
  }

  lemma UnknownAreNobody(tasks: seq<Task>, selected: seq<string>)
    ensures Unknown(tasks, selected) == Nobodies(tasks, selected)
  {
    forall id <- selected ensures id in ById(tasks) <==> !NobodyIs(tasks, id) {
      if id in ById(tasks) {
        assert ById(tasks)[id] in tasks;
      }
    }
  }

  method SelectTasks(tasks: seq<Task>, layers: seq<string>, selected: seq<string>) returns (outcome: Outcome)
    ensures Nobodies(tasks, selected) != {} ==> outcome == Refused(UnknownTasks(Nobodies(tasks, selected)))
    ensures outcome.Refused? && Nobodies(tasks, selected) == {} ==>
              !outcome.failure.UnknownTasks?
                  && IsReason(ById(tasks), Included(tasks, layers, selected), outcome.failure)
    ensures outcome.Plan? ==> IsPlan(ById(tasks), Included(tasks, layers, selected), outcome.tasks)
    ensures Distinct(tasks) && outcome.Plan? ==> IsExact(ById(tasks), Included(tasks, layers, selected), outcome.tasks)
  {
    var unknown := Unknown(tasks, selected);
    UnknownAreNobody(tasks, selected);
    if unknown != {} {
      return Refused(UnknownTasks(unknown));
    }
    outcome := AddIncluded(tasks, layers, selected);
    if outcome.Plan? && Distinct(tasks) {
      DistinctPlanIsExact(tasks, Included(tasks, layers, selected), outcome.tasks);
    }
  }

  // With distinct ids a plan holds exactly the needed tasks, and there is no reason to refuse.
  ghost predicate IsExact(byId: map<string, Task>, roots: seq<Task>, plan: seq<Task>)
  {
    && (forall t :: t in plan <==> Needed(byId, roots, t))
    && (forall t :: !OnCycle(byId, roots, t))
    && (forall t, id :: Needed(byId, roots, t) && id in t.requirements ==> id in byId)
  }

  lemma DistinctPlanIsExact(tasks: seq<Task>, roots: seq<Task>, plan: seq<Task>)
    requires Distinct(tasks) && (forall r <- roots :: r in tasks) && IsPlan(ById(tasks), roots, plan)
    ensures IsExact(ById(tasks), roots, plan)
  {
    var byId := ById(tasks);
    DistinctAreRegistered(tasks, roots);
    RegisteredAreDistinct(byId, roots);
    PlanIsExact(byId, roots, plan);
    forall t ensures !OnCycle(byId, roots, t) {
      if OnCycle(byId, roots, t) {
        NoNeededCycle(byId, roots, plan, t);
      }
    }
    forall t, id | Needed(byId, roots, t) && id in t.requirements ensures id in byId {
      NothingNeededIsMissing(byId, roots, plan, t, id);
    }
  }

  method AddIncluded(tasks: seq<Task>, layers: seq<string>, selected: seq<string>) returns (outcome: Outcome)
    ensures outcome.Refused? ==>
              !outcome.failure.UnknownTasks?
                  && IsReason(ById(tasks), Included(tasks, layers, selected), outcome.failure)
    ensures outcome.Plan? ==> IsPlan(ById(tasks), Included(tasks, layers, selected), outcome.tasks)
  {
    ghost var roots := Included(tasks, layers, selected);
    var byId := ById(tasks);
    var selection := new Selection(byId);
    var i := 0;
    while i < |tasks|
      invariant i <= |tasks| && selection.Valid() && selection.AllNeeded(roots) && selection.visiting == {}
      invariant fresh(selection) && selection.byId == byId
      invariant forall k :: 0 <= k < i && tasks[k] in roots ==> tasks[k].id in selection.visited
    {
      if IsIncluded(tasks[i], layers, selected) {
        RootIsChain(byId, roots, tasks[i]);
        var failure := selection.Add(tasks[i], roots, []);
        if failure.Some? {
          return Refused(failure.value);
        }
      }
      i := i + 1;
    }
    return Plan(selection.result);
  }

  // A plan: scheduled, nothing that is not needed, everything that was asked for.
  ghost predicate IsPlan(byId: map<string, Task>, roots: seq<Task>, plan: seq<Task>)
  {
    && Scheduled(plan)
    && (forall t <- plan :: Needed(byId, roots, t))
    && (forall r <- roots :: r.id in Ids(plan))
  }

  // ---------------------------------------------------------------- what a plan rules out

  lemma {:induction false} RequirementsComeFirst(plan: seq<Task>, i: nat, id: string)
    requires Scheduled(plan) && i < |plan| && id in plan[i].requirements
    ensures exists j :: 0 <= j < i && plan[j].id == id
  {
    var n := |plan| - 1;
    if i == n {
      IdsAre(plan[..n], id);
      var j :| 0 <= j < |plan[..n]| && plan[..n][j].id == id;
      assert plan[j].id == id;
    } else {
      RequirementsComeFirst(plan[..n], i, id);
      var j :| 0 <= j < i && plan[..n][j].id == id;
      assert plan[j].id == id;
    }
  }

  lemma {:induction false} NoTaskTwice(plan: seq<Task>, i: nat, j: nat)
    requires Scheduled(plan) && i < j < |plan|
    ensures plan[i].id != plan[j].id
  {
    var n := |plan| - 1;
    if j == n {
      assert plan[..n][i] == plan[i];
      IdsAre(plan[..n], plan[i].id);
    } else {
      NoTaskTwice(plan[..n], i, j);
    }
  }

  predicate Distinct(tasks: seq<Task>)
  {
    forall i, j :: 0 <= i < |tasks| && 0 <= j < |tasks| && tasks[i].id == tasks[j].id ==> tasks[i] == tasks[j]
  }

  // Tasks that the table holds under their own id; with distinct ids these are all tasks.
  ghost predicate Registered(byId: map<string, Task>, tasks: seq<Task>)
  {
    forall t <- tasks :: t.id in byId && byId[t.id] == t
  }

  lemma DistinctAreRegistered(tasks: seq<Task>, some: seq<Task>)
    requires Distinct(tasks) && forall t <- some :: t in tasks
    ensures Registered(ById(tasks), some)
  {
    forall t <- some ensures t.id in ById(tasks) && ById(tasks)[t.id] == t {
      var u := ById(tasks)[t.id];
      var i :| 0 <= i < |tasks| && tasks[i] == t;
      var j :| 0 <= j < |tasks| && tasks[j] == u;
    }
  }

  lemma NeededAreRegistered(byId: map<string, Task>, roots: seq<Task>, t: Task)
    requires Registered(byId, roots) && Needed(byId, roots, t)
    ensures t.id in byId && byId[t.id] == t
  {
    var chain :| ChainFrom(byId, roots, chain) && chain[|chain| - 1] == t;
    if |chain| > 1 {
      assert Requires(byId, chain[|chain| - 2], chain[|chain| - 1]);
    }
  }

  // No two needed tasks share an id. Where ids repeat, a requested task and the one that the table
  // holds under its id may both be needed.
  ghost predicate NeededDistinct(byId: map<string, Task>, roots: seq<Task>)
  {
    forall t, u :: Needed(byId, roots, t) && Needed(byId, roots, u) && t.id == u.id ==> t == u
  }

  lemma RegisteredAreDistinct(byId: map<string, Task>, roots: seq<Task>)
    requires Registered(byId, roots)
    ensures NeededDistinct(byId, roots)
  {
    forall t, u | Needed(byId, roots, t) && Needed(byId, roots, u) && t.id == u.id ensures t == u {
      NeededAreRegistered(byId, roots, t);
      NeededAreRegistered(byId, roots, u);
    }
  }

  lemma ChainIsNeeded(byId: map<string, Task>, roots: seq<Task>, chain: seq<Task>, k: nat)
    requires ChainFrom(byId, roots, chain) && k < |chain|
    ensures Needed(byId, roots, chain[k])
  {
    var prefix := chain[..k + 1];
    assert ChainFrom(byId, roots, prefix) && prefix[|prefix| - 1] == chain[k];
  }

  // A chain from a requested task stays within the plan.
  lemma {:induction false} ChainStaysInPlan(
      byId: map<string, Task>, roots: seq<Task>, plan: seq<Task>, chain: seq<Task>, k: nat) returns (at: nat)
    requires NeededDistinct(byId, roots) && IsPlan(byId, roots, plan) && ChainFrom(byId, roots, chain) && k < |chain|
    ensures at < |plan| && plan[at] == chain[k]
    decreases k
  {
    ChainIsNeeded(byId, roots, chain, k);
    if k == 0 {
      IdsAre(plan, chain[0].id);
      at :| 0 <= at < |plan| && plan[at].id == chain[0].id;
    } else {
      var before := ChainStaysInPlan(byId, roots, plan, chain, k - 1);
      assert Requires(byId, chain[k - 1], chain[k]);
      RequirementsComeFirst(plan, before, chain[k].id);
      at :| 0 <= at < before && plan[at].id == chain[k].id;
    }
    assert plan[at] in plan;
  }

  lemma NeededInPlan(byId: map<string, Task>, roots: seq<Task>, plan: seq<Task>, t: Task)
    requires NeededDistinct(byId, roots) && IsPlan(byId, roots, plan) && Needed(byId, roots, t)
    ensures t in plan
  {
    var chain :| ChainFrom(byId, roots, chain) && chain[|chain| - 1] == t;
    var at := ChainStaysInPlan(byId, roots, plan, chain, |chain| - 1);
  }

  // A plan holds exactly the needed tasks if and only if no two of them share an id.
  lemma PlanIsExact(byId: map<string, Task>, roots: seq<Task>, plan: seq<Task>)
    requires IsPlan(byId, roots, plan)
    ensures (forall t :: t in plan <==> Needed(byId, roots, t)) <==> NeededDistinct(byId, roots)
  {
    if NeededDistinct(byId, roots) {
      forall t | Needed(byId, roots, t) ensures t in plan {
        NeededInPlan(byId, roots, plan, t);
      }
    } else {
      var t, u :| Needed(byId, roots, t) && Needed(byId, roots, u) && t.id == u.id && t != u;
      if t in plan && u in plan {
        SameIdSameTask(plan, t, u);
      }
    }
  }

  // And exactly then it is also free of needed cycles: the promise as a whole.
  lemma PlanIsSoundExactly(byId: map<string, Task>, roots: seq<Task>, plan: seq<Task>)
    requires IsPlan(byId, roots, plan)
    ensures (forall t :: t in plan <==> Needed(byId, roots, t)) && (forall t :: !OnCycle(byId, roots, t)) <==>
            NeededDistinct(byId, roots)
  {
    PlanIsExact(byId, roots, plan);
    forall t | OnCycle(byId, roots, t) ensures !NeededDistinct(byId, roots) {
      NoNeededCycle(byId, roots, plan, t);
    }
  }

  lemma SameIdSameTask(plan: seq<Task>, t: Task, u: Task)
    requires Scheduled(plan) && t in plan && u in plan && t.id == u.id
    ensures t == u
  {
    var i :| 0 <= i < |plan| && plan[i] == t;
    var j :| 0 <= j < |plan| && plan[j] == u;
    if i < j {
      NoTaskTwice(plan, i, j);
    } else if j < i {
      NoTaskTwice(plan, j, i);
    }
  }

  // Within a plan a chain of requirements goes strictly backwards.
  lemma {:induction false} ChainGoesBack(byId: map<string, Task>, plan: seq<Task>, chain: seq<Task>, i: nat, k: nat)
    returns (first: nat, later: nat)
    requires Scheduled(plan) && IsChain(byId, chain) && i < k < |chain| && forall m :: i <= m <= k ==> chain[m] in plan
    ensures later < first < |plan| && plan[first] == chain[i] && plan[later] == chain[k]
    decreases k
  {
    var between: nat;
    if i == k - 1 {
      first :| 0 <= first < |plan| && plan[first] == chain[i];
      between := first;
    } else {
      first, between := ChainGoesBack(byId, plan, chain, i, k - 1);
    }
    assert Requires(byId, chain[k - 1], chain[k]);
    RequirementsComeFirst(plan, between, chain[k].id);
    later :| 0 <= later < between && plan[later].id == chain[k].id;
    SameIdSameTask(plan, plan[later], chain[k]);
  }

  // Every cycle of requirements leaves the plan.
  lemma CycleLeavesPlan(byId: map<string, Task>, plan: seq<Task>, chain: seq<Task>, i: nat)
    requires Scheduled(plan) && IsChain(byId, chain) && i < |chain| - 1 && chain[i].id == chain[|chain| - 1].id
    ensures exists k :: i <= k < |chain| && chain[k] !in plan
  {
    if forall k :: i <= k < |chain| ==> chain[k] in plan {
      var first, later := ChainGoesBack(byId, plan, chain, i, |chain| - 1);
      NoTaskTwice(plan, later, first);
    }
  }

  lemma CycleHasOutsider(byId: map<string, Task>, roots: seq<Task>, plan: seq<Task>, t: Task) returns (u: Task)
    requires Scheduled(plan) && OnCycle(byId, roots, t)
    ensures Needed(byId, roots, u) && u !in plan
  {
    var chain: seq<Task>, i: nat :| ChainFrom(byId, roots, chain) && i < |chain| - 1
      && chain[i].id == t.id && chain[|chain| - 1] == t;
    CycleLeavesPlan(byId, plan, chain, i);
    var k :| i <= k < |chain| && chain[k] !in plan;
    ChainIsNeeded(byId, roots, chain, k);
    u := chain[k];
  }

  // A plan next to a needed cycle means that two needed tasks share an id.
  lemma NoNeededCycle(byId: map<string, Task>, roots: seq<Task>, plan: seq<Task>, t: Task)
    requires IsPlan(byId, roots, plan) && OnCycle(byId, roots, t)
    ensures !NeededDistinct(byId, roots)
  {
    var u := CycleHasOutsider(byId, roots, plan, t);
    if NeededDistinct(byId, roots) {
      NeededInPlan(byId, roots, plan, u);
    }
  }

  lemma NeededHasEntry(byId: map<string, Task>, roots: seq<Task>, t: Task)
    requires (forall r <- roots :: r.id in byId) && Needed(byId, roots, t)
    ensures t.id in byId
  {
    var chain :| ChainFrom(byId, roots, chain) && chain[|chain| - 1] == t;
    if |chain| > 1 {
      assert Requires(byId, chain[|chain| - 2], chain[|chain| - 1]);
    }
  }

  lemma NothingNeededIsMissing(byId: map<string, Task>, roots: seq<Task>, plan: seq<Task>, t: Task, id: string)
    requires NeededDistinct(byId, roots) && IsPlan(byId, roots, plan) && forall r <- roots :: r.id in byId
    requires Needed(byId, roots, t) && id in t.requirements
    ensures id in byId
  {
    NeededInPlan(byId, roots, plan, t);
    var i :| 0 <= i < |plan| && plan[i] == t;
    RequirementsComeFirst(plan, i, id);
    var j :| 0 <= j < i && plan[j].id == id;
    assert plan[j] in plan;
    NeededHasEntry(byId, roots, plan[j]);
  }

  // A plan and a reason to refuse exclude each other, unless two needed tasks share an id.
  lemma PlanOrReason(byId: map<string, Task>, roots: seq<Task>, plan: seq<Task>, failure: Failure)
    requires IsPlan(byId, roots, plan) && forall r <- roots :: r.id in byId
    requires IsReason(byId, roots, failure) && !failure.UnknownTasks?
    ensures !NeededDistinct(byId, roots)
  {
    if NeededDistinct(byId, roots) {
      if failure.MissingTask? {
        var t :| Needed(byId, roots, t) && failure.id in t.requirements;
        NothingNeededIsMissing(byId, roots, plan, t, failure.id);
      } else {
        NoNeededCycle(byId, roots, plan, failure.task);
      }
    }
  }

  lemma AskedForIsNeeded(byId: map<string, Task>, roots: seq<Task>, t: Task)
    requires t in roots
    ensures Needed(byId, roots, t)
  {
    assert ChainFrom(byId, roots, [t]) && [t][|[t]| - 1] == t;
  }

  lemma CycleHasRequirements(byId: map<string, Task>, roots: seq<Task>, t: Task)
    requires OnCycle(byId, roots, t)
    ensures exists r <- roots :: r.requirements != []
  {
    var chain: seq<Task>, i: nat :| ChainFrom(byId, roots, chain) && i < |chain| - 1
      && chain[i].id == t.id && chain[|chain| - 1] == t;
    assert Requires(byId, chain[0], chain[1]);
  }

  // Two tasks with one id, both asked for: the plan has the first alone. There is no cycle, so
  // distinct ids are more than the absence of cycles needs.
  lemma RepeatedIdsCanDiffer()
    ensures var one, two := Task("a", "fast", []), Task("a", "slow", []); var tasks := [one, two];
            && IsPlan(ById(tasks), tasks, [one]) && Needed(ById(tasks), tasks, two) && two !in [one]
            && forall t :: !OnCycle(ById(tasks), tasks, t)
  {
    var one, two := Task("a", "fast", []), Task("a", "slow", []);
    var tasks := [one, two];
    var byId := ById(tasks);
    AskedForIsNeeded(byId, tasks, one);
    AskedForIsNeeded(byId, tasks, two);
    assert [one][..0] == [] && Ids([one]) == {"a"};
    forall t ensures !OnCycle(byId, tasks, t) {
      if OnCycle(byId, tasks, t) {
        CycleHasRequirements(byId, tasks, t);
      }
    }
  }

  // The later task requires its own id: it is needed and on a cycle, and yet there is a plan,
  // because the earlier task of that id was selected first.
  lemma PlanBesideCycle()
    ensures var one, two := Task("a", "fast", []), Task("a", "fast", ["a"]); var tasks := [one, two];
            IsPlan(ById(tasks), tasks, [one]) && OnCycle(ById(tasks), tasks, two)
  {
    var one, two := Task("a", "fast", []), Task("a", "fast", ["a"]);
    var tasks := [one, two];
    var byId := ById(tasks);
    AskedForIsNeeded(byId, tasks, one);
    assert [one][..0] == [] && Ids([one]) == {"a"};
    assert byId["a"] == two && two.requirements[0] == "a" && Requires(byId, two, two);
    var chain := [two, two];
    assert chain[0] == tasks[1] && ChainFrom(byId, tasks, chain);
    assert 0 < |chain| - 1 && chain[0].id == two.id && chain[|chain| - 1] == two;
  }
}
