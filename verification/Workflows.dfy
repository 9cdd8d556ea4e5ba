/** The workflow runner: greedy allocation of robots to steps, and the run ledger. */
module Workflows {
  import opened Common
  import opened Tasks
  import opened Fleet

  type RunId = nat
  type Registry = map<RobotId, Robot>

  /** Fixed robot if not empty, otherwise a selector's capabilities, otherwise any able robot. */
  datatype WorkflowStep = WorkflowStep(
    robot: RobotId, selector: Option<seq<string>>, scenario: string, payload: Payload, zone: string)

  datatype RunStatus = RunRunning | RunFailed

  datatype WorkflowRun = WorkflowRun(workflow: string, tenant: string, status: RunStatus, tasks: seq<(TaskId, nat)>)

  datatype RunResult = RunResult(run: RunId, taskIds: seq<TaskId>)

  /** What the allocator looks at: the fleet, the capabilities each scenario requires, the
      tasks, and the tenant asking (empty for any). */
  datatype View = View(registry: Registry, catalog: map<string, seq<string>>, tasks: TaskMap, tenant: string)

  // ---- Which robots a step may get ----------------------------------------------

  ghost predicate Candidate(v: View, required: seq<string>, used: set<RobotId>, id: RobotId) {
    && id in v.registry && id !in used
    && (v.tenant != "" ==> v.registry[id].tenant == v.tenant)
    && HasAll(v.registry[id], required) && !HasRunning(v.tasks, id)
  }

  ghost predicate Fits(v: View, step: WorkflowStep, id: RobotId) {
    && id in v.registry && (v.tenant != "" ==> v.registry[id].tenant == v.tenant)
    && step.scenario in v.catalog && HasAll(v.registry[id], v.catalog[step.scenario])
    && !HasRunning(v.tasks, id)
  }

  /** The robot may be assigned to the step when the robots in `used` are taken. */
  ghost predicate Assignable(v: View, step: WorkflowStep, used: set<RobotId>, id: RobotId) {
    && Fits(v, step, id)
    && (if step.robot != "" then id == step.robot else id !in used)
    && (step.robot == "" && step.selector.Some? ==>
          Candidate(v, step.selector.value, used, id) || forall x :: !Candidate(v, step.selector.value, used, x))
  }

  /** The step ends the run: a fixed robot that does not fit, a selector that may choose a robot
      unfit for the scenario, or no able robot left. */
  ghost predicate Blocked(v: View, step: WorkflowStep, used: set<RobotId>) {
    if step.robot != "" then !Fits(v, step, step.robot)
    else
      var noneLeft := step.scenario in v.catalog ==> forall id :: !Candidate(v, v.catalog[step.scenario], used, id);
      if step.selector.None? then noneLeft
      else
        || (exists id :: Candidate(v, step.selector.value, used, id) && !Fits(v, step, id))
        || ((forall id :: !Candidate(v, step.selector.value, used, id)) && noneLeft)
  }

  function Taken(robots: seq<RobotId>): set<RobotId> {
    set i | 0 <= i < |robots| :: robots[i]
  }

  ghost predicate Assigned(v: View, steps: seq<WorkflowStep>, robots: seq<RobotId>) {
    && |robots| <= |steps|
    && forall i | 0 <= i < |robots| :: Assignable(v, steps[i], Taken(robots[..i]), robots[i])
  }

  /** A possible outcome of a run: step i got robots[i], and the first step without one is blocked. */
  ghost predicate Allocation(v: View, steps: seq<WorkflowStep>, robots: seq<RobotId>) {
    && Assigned(v, steps, robots)
    && (|robots| < |steps| ==> Blocked(v, steps[|robots|], Taken(robots)))
  }

  /** The task a step creates for a robot: pending, for that robot and its tenant, with the step's
      scenario and payload, or with the step's zone as its only payload. */
  ghost predicate ForStep(t: Task, step: WorkflowStep, id: RobotId, robot: Robot) {
    && t.robot == id && t.scenario == step.scenario && t.status == Pending && t.completedAt == None
    && t.tenant == (if robot.tenant == "" then "default" else robot.tenant)
    && (if step.payload.Absent? && step.zone != ""
        then t.payload.Fields? && t.payload == Fields(0.0, 0.0, 0.0, 0, step.zone, "", "", "", "")
        else t.payload == step.payload)
  }

  // ---- Counting ----------------------------------------------------------------

  /** Robots that could take the scenario on their own. */
  ghost function Eligible(v: View, scenario: string): set<RobotId> {
    set id | id in v.registry && scenario in v.catalog && Candidate(v, v.catalog[scenario], {}, id)
  }

  lemma {:induction false} TakenSize(robots: seq<RobotId>)
    requires forall i | 0 <= i < |robots| :: robots[i] !in Taken(robots[..i])
    ensures |Taken(robots)| == |robots|
  {
    if robots != [] {
      var n := |robots| - 1;
      forall i | 0 <= i < n ensures robots[..n][i] !in Taken(robots[..n][..i]) {
        assert robots[..n][..i] == robots[..i];
      }
      TakenSize(robots[..n]);
      assert Taken(robots) == Taken(robots[..n]) + {robots[n]};
    }
  }

  /** Identical steps without a fixed robot or selector get exactly min(steps, eligible robots)
      pairwise distinct robots. */
  lemma GreedyCount(v: View, steps: seq<WorkflowStep>, robots: seq<RobotId>, scenario: string)
    requires Allocation(v, steps, robots)
    requires forall s | s in steps :: s.robot == "" && s.selector.None? && s.scenario == scenario
    ensures |robots| == if |steps| <= |Eligible(v, scenario)| then |steps| else |Eligible(v, scenario)|
    ensures |Taken(robots)| == |robots| && Taken(robots) <= Eligible(v, scenario)
  {
    forall i | 0 <= i < |robots| ensures robots[i] !in Taken(robots[..i]) && robots[i] in Eligible(v, scenario) {
      assert steps[i] in steps && Assignable(v, steps[i], Taken(robots[..i]), robots[i]);
    }
    TakenSize(robots);
    SubsetSize(Taken(robots), Eligible(v, scenario));
    if |robots| < |steps| {
      assert steps[|robots|] in steps && Blocked(v, steps[|robots|], Taken(robots));
      forall id | id in Eligible(v, scenario) ensures id in Taken(robots) {
        assert !Candidate(v, v.catalog[scenario], Taken(robots), id);
      }
      SubsetSize(Eligible(v, scenario), Taken(robots));
    }
  }

  /** The same said of the tasks: identical steps without a fixed robot or selector create exactly
      min(steps, able robots) new tasks, for pairwise distinct robots that are of the tenant, have every
      required capability and had no running task. */
  lemma CreatedCount(v: View, steps: seq<WorkflowStep>, robots: seq<RobotId>, ids: seq<TaskId>, after: TaskMap,
                     scenario: string, able: set<RobotId>)
    requires Allocation(v, steps, robots) && Created(v.registry, steps, robots, ids, v.tasks, after)
    requires forall s | s in steps :: s.robot == "" && s.selector.None? && s.scenario == scenario
    requires scenario in v.catalog
    requires forall id :: id in able <==>
               && id in v.registry && (v.tenant != "" ==> v.registry[id].tenant == v.tenant)
               && (forall c | c in v.catalog[scenario] :: c in v.registry[id].capabilities)
               && forall t | t in v.tasks :: v.tasks[t].robot == id ==> v.tasks[t].status != Running
    ensures |after.Keys - v.tasks.Keys| == if |steps| <= |able| then |steps| else |able|
    ensures forall t | t in after.Keys - v.tasks.Keys :: after[t].robot in able && after[t].status == Pending
    ensures forall t, u | t in after.Keys - v.tasks.Keys && u in after.Keys - v.tasks.Keys && t != u ::
              after[t].robot != after[u].robot
  {
    hide Allocation, Created, Taken, Candidate, HasRunning, Eligible;
    GreedyCount(v, steps, robots, scenario);
    AbleIsEligible(v, scenario, able);
    NewTasks(v.registry, steps, robots, ids, v.tasks, after);
    DistinctAmong(v, steps, robots, able);
    NewTaskRobots(v.registry, steps, robots, ids, v.tasks, after, able);
  }

  lemma AbleIsEligible(v: View, scenario: string, able: set<RobotId>)
    requires scenario in v.catalog
    requires forall id :: id in able <==>
               && id in v.registry && (v.tenant != "" ==> v.registry[id].tenant == v.tenant)
               && (forall c | c in v.catalog[scenario] :: c in v.registry[id].capabilities)
               && forall t | t in v.tasks :: v.tasks[t].robot == id ==> v.tasks[t].status != Running
    ensures able == Eligible(v, scenario)
  {
    hide Candidate;
    forall id ensures id in able <==> id in Eligible(v, scenario) {
      EligibleMeans(v, scenario, id);
    }
  }

  lemma DistinctAmong(v: View, steps: seq<WorkflowStep>, robots: seq<RobotId>, able: set<RobotId>)
    requires Allocation(v, steps, robots) && Taken(robots) <= able && forall s | s in steps :: s.robot == ""
    ensures forall i, j | 0 <= i < j < |robots| :: robots[i] != robots[j]
    ensures forall i | 0 <= i < |robots| :: robots[i] in able
  {
    hide Allocation;
    forall i, j | 0 <= i < j < |robots| ensures robots[i] != robots[j] {
      SearchedFresh(v, steps, robots, i, j);
    }
    forall i | 0 <= i < |robots| ensures robots[i] in able {
      assert robots[i] in Taken(robots);
    }
  }

  lemma NewTaskRobots(registry: Registry, steps: seq<WorkflowStep>, robots: seq<RobotId>, ids: seq<TaskId>,
                      before: TaskMap, after: TaskMap, able: set<RobotId>)
    requires Created(registry, steps, robots, ids, before, after)
    requires forall i, j | 0 <= i < j < |robots| :: robots[i] != robots[j]
    requires forall i | 0 <= i < |robots| :: robots[i] in able
    ensures forall t | t in after.Keys - before.Keys :: after[t].robot in able && after[t].status == Pending
    ensures forall t, u | t in after.Keys - before.Keys && u in after.Keys - before.Keys && t != u ::
              after[t].robot != after[u].robot
  {
    hide Created;
    CreatedTasks(registry, steps, robots, ids, before, after);
    forall t, u | t in after.Keys - before.Keys && u in after.Keys - before.Keys && t != u
      ensures after[t].robot != after[u].robot
    {
      assert t in ids && u in ids;
      var i :| 0 <= i < |ids| && ids[i] == t;
      var j :| 0 <= j < |ids| && ids[j] == u;
    }
  }

  lemma EligibleMeans(v: View, scenario: string, id: RobotId)
    requires scenario in v.catalog
    ensures id in Eligible(v, scenario) <==>
            && id in v.registry && (v.tenant != "" ==> v.registry[id].tenant == v.tenant)
            && (forall c | c in v.catalog[scenario] :: c in v.registry[id].capabilities)
            && forall t | t in v.tasks :: v.tasks[t].robot == id ==> v.tasks[t].status != Running
  {
  }

  lemma SearchedFresh(v: View, steps: seq<WorkflowStep>, robots: seq<RobotId>, i: nat, j: nat)
    requires Allocation(v, steps, robots) && i < j < |robots|
    requires forall s | s in steps :: s.robot == ""
    ensures robots[i] != robots[j]
  {
    assert |robots| <= |steps|;
    assert steps[j] in steps;
    SearchedRobotsAreFresh(v, steps, robots, i, j);
  }

  lemma {:induction false} DistinctSize(ids: seq<TaskId>, all: set<TaskId>)
    requires forall i, j | 0 <= i < j < |ids| :: ids[i] != ids[j]
    requires forall id :: id in all <==> id in ids
    ensures |all| == |ids|
  {
    if ids != [] {
      var n := |ids| - 1;
      assert ids == ids[..n] + [ids[n]];
      DistinctSize(ids[..n], all - {ids[n]});
    } else {
      assert all == {};
    }
  }

  lemma NewTasks(registry: Registry, steps: seq<WorkflowStep>, robots: seq<RobotId>, ids: seq<TaskId>,
                 before: TaskMap, after: TaskMap)
    requires Created(registry, steps, robots, ids, before, after)
    ensures forall t :: t in after.Keys - before.Keys <==> t in ids
    ensures |after.Keys - before.Keys| == |ids| == |robots|
  {
    hide ForStep;
    DistinctSize(ids, after.Keys - before.Keys);
  }

  /** What was created, task by task. */
  lemma CreatedTasks(registry: Registry, steps: seq<WorkflowStep>, robots: seq<RobotId>, ids: seq<TaskId>,
                     before: TaskMap, after: TaskMap)
    requires Created(registry, steps, robots, ids, before, after)
    ensures |ids| == |robots| <= |steps| && forall id | id in after :: id in before || id in ids
    ensures forall id | id in before :: id in after && after[id] == before[id]
    ensures forall i | 0 <= i < |ids| ::
              ids[i] in after && ids[i] !in before && robots[i] in registry
              && ForStep(after[ids[i]], steps[i], robots[i], registry[robots[i]])
  {
    hide ForStep;
  }

  /** What holds of every robot chosen. */
  lemma ChosenRobots(v: View, steps: seq<WorkflowStep>, robots: seq<RobotId>)
    requires Allocation(v, steps, robots)
    ensures |robots| <= |steps|
    ensures forall i | 0 <= i < |robots| ::
              && robots[i] in v.registry && (v.tenant != "" ==> v.registry[robots[i]].tenant == v.tenant)
              && steps[i].scenario in v.catalog
              && (forall c | c in v.catalog[steps[i].scenario] :: c in v.registry[robots[i]].capabilities)
              && (forall id | id in v.tasks :: v.tasks[id].robot == robots[i] ==> v.tasks[id].status != Running)
              && (if steps[i].robot != "" then robots[i] == steps[i].robot
                  else forall j | 0 <= j < i :: robots[j] != robots[i])
  {
    hide Blocked;
    forall i | 0 <= i < |robots|
      ensures Fits(v, steps[i], robots[i])
      ensures if steps[i].robot != "" then robots[i] == steps[i].robot else robots[i] !in Taken(robots[..i])
    {
      assert Assignable(v, steps[i], Taken(robots[..i]), robots[i]);
    }
    forall i, j | 0 <= j < i < |robots| && steps[i].robot == "" ensures robots[j] != robots[i] {
      assert robots[..i][j] == robots[j];
    }
  }

  /** Robots found by selector or by search are never shared with an earlier step. */
  lemma SearchedRobotsAreFresh(v: View, steps: seq<WorkflowStep>, robots: seq<RobotId>, i: nat, j: nat)
    requires Allocation(v, steps, robots) && i < j < |robots| && steps[j].robot == ""
    ensures robots[i] != robots[j]
  {
    assert Assignable(v, steps[j], Taken(robots[..j]), robots[j]);
    assert robots[..j][i] == robots[i];
  }

  // ---- Created tasks are pending, so the view stays the same -------------------------

  lemma CreatedKeepsView(v: View, tasks: TaskMap, steps: seq<WorkflowStep>, robots: seq<RobotId>, ids: seq<TaskId>,
                         step: WorkflowStep, used: set<RobotId>, id: RobotId)
    requires Created(v.registry, steps, robots, ids, v.tasks, tasks)
    ensures Blocked(v.(tasks := tasks), step, used) <==> Blocked(v, step, used)
    ensures Assignable(v.(tasks := tasks), step, used, id) <==> Assignable(v, step, used, id)
  {
    var w := v.(tasks := tasks);
    forall r ensures HasRunning(tasks, r) <==> HasRunning(v.tasks, r) {
      CreatedKeepsRunning(v.registry, steps, robots, ids, v.tasks, tasks, r);
    }
    assert forall required, x :: Candidate(w, required, used, x) <==> Candidate(v, required, used, x);
    assert forall x :: Fits(w, step, x) <==> Fits(v, step, x);
  }

  lemma CreatedKeepsRunning(registry: Registry, steps: seq<WorkflowStep>, robots: seq<RobotId>, ids: seq<TaskId>,
                            before: TaskMap, after: TaskMap, r: RobotId)
    requires Created(registry, steps, robots, ids, before, after)
    ensures HasRunning(after, r) <==> HasRunning(before, r)
  {
    if HasRunning(after, r) {
      var id :| id in after && after[id].robot == r && after[id].status == Running;
      assert id in before;
    }
    if HasRunning(before, r) {
      var id :| id in before && before[id].robot == r && before[id].status == Running;
      assert after[id] == before[id];
    }
  }

  lemma FitsRegistered(v: View, step: WorkflowStep, used: set<RobotId>, id: RobotId)
    requires Assignable(v, step, used, id)
    ensures id in v.registry
  {
  }

  lemma CreatedGrows(registry: Registry, steps: seq<WorkflowStep>, robots: seq<RobotId>, ids: seq<TaskId>,
                     before: TaskMap, after: TaskMap, task: TaskId, t: Task, id: RobotId)
    requires Created(registry, steps, robots, ids, before, after) && |robots| < |steps|
    requires task !in after && id in registry && ForStep(t, steps[|robots|], id, registry[id])
    ensures Created(registry, steps, robots + [id], ids + [task], before, after[task := t])
  {
    hide ForStep;
  }

  lemma StartCreated(registry: Registry, steps: seq<WorkflowStep>, tasks: TaskMap, v: View)
    ensures Created(registry, steps, [], [], tasks, tasks) && Assigned(v, steps, []) && Ledger([]) == []
            && Taken([]) == {}
  {
  }

  lemma AssignedGrows(v: View, steps: seq<WorkflowStep>, robots: seq<RobotId>, id: RobotId)
    requires Assigned(v, steps, robots) && |robots| < |steps| && Assignable(v, steps[|robots|], Taken(robots), id)
    ensures Assigned(v, steps, robots + [id]) && Taken(robots + [id]) == Taken(robots) + {id}
  {
    hide Assignable;
    TakenGrows(robots, id);
    forall i | 0 <= i < |robots| + 1 ensures Assignable(v, steps[i], Taken((robots + [id])[..i]), (robots + [id])[i]) {
      if i < |robots| {
        assert (robots + [id])[..i] == robots[..i];
      } else {
        assert (robots + [id])[..i] == robots;
      }
    }
  }

  lemma LedgerGrows(ids: seq<TaskId>, task: TaskId)
    ensures Ledger(ids + [task]) == Ledger(ids) + [(task, |ids|)]
  {
  }

  lemma TakenGrows(robots: seq<RobotId>, id: RobotId)
    ensures Taken(robots + [id]) == Taken(robots) + {id}
  {
    var all := robots + [id];
    assert all[|robots|] == id;
    forall x | x in Taken(robots) ensures x in Taken(all) {
      var i :| 0 <= i < |robots| && robots[i] == x;
      assert all[i] == x;
    }
  }

  // ---- Running a workflow --------------------------------------------------------

  class RunStore {
    var runs: map<RunId, WorkflowRun>
    var nextId: RunId

    ghost predicate Valid()
      reads this
    {
      forall id | id in runs :: id < nextId
    }

    constructor ()
      ensures Valid() && runs == map[]
    {
      runs, nextId := map[], 0;
    }

    method Create(workflow: string) returns (id: RunId)
      requires Valid()
      modifies this
      ensures Valid() && id !in old(runs) && runs == old(runs)[id := WorkflowRun(workflow, "", RunRunning, [])]
    {
      id := nextId;
      runs, nextId := runs[id := WorkflowRun(workflow, "", RunRunning, [])], id + 1;
    }

    method UpdateStatus(id: RunId, status: RunStatus)
      requires Valid()
      modifies this`runs
      ensures Valid() && runs == if id in old(runs) then old(runs)[id := old(runs)[id].(status := status)]
              else old(runs)
    {
      if id in runs {
        runs := runs[id := runs[id].(status := status)];
      }
    }

    method UpdateTenantID(id: RunId, tenant: string)
      requires Valid()
      modifies this`runs
      ensures Valid() && runs == if id in old(runs) then old(runs)[id := old(runs)[id].(tenant := tenant)]
              else old(runs)
    {
      if id in runs {
        runs := runs[id := runs[id].(tenant := tenant)];
      }
    }

    method AddTask(id: RunId, task: TaskId, index: nat)
      requires Valid()
      modifies this`runs
      ensures Valid() && runs == if id in old(runs)
                                 then old(runs)[id := old(runs)[id].(tasks := old(runs)[id].tasks + [(task, index)])]
                                 else old(runs)
    {
      if id in runs {
        runs := runs[id := runs[id].(tasks := runs[id].tasks + [(task, index)])];
      }
    }
  }

  class WorkflowRunner {
    const store: TaskStore
    const runs: RunStore
    const registry: Registry
    const catalog: map<string, seq<string>>
    const workflows: map<string, seq<WorkflowStep>>

    constructor (store: TaskStore, runs: RunStore, registry: Registry, catalog: map<string, seq<string>>,
                 workflows: map<string, seq<WorkflowStep>>)
      ensures this.store == store && this.runs == runs && this.registry == registry
      ensures this.catalog == catalog && this.workflows == workflows
    {
      this.store, this.runs, this.registry, this.catalog, this.workflows := store, runs, registry, catalog, workflows;
    }

    ghost function Look(tenant: string): View
      reads store
    {
      View(registry, catalog, store.tasks, tenant)
    }

    /** The search shared by resolveSelector and pickAvailableRobot, in any registry order. */
    method FindRobot(required: seq<string>, used: set<RobotId>, tenant: string) returns (id: RobotId)
      requires "" !in registry
      ensures id == "" ==> forall x :: !Candidate(Look(tenant), required, used, x)
      ensures id != "" ==> Candidate(Look(tenant), required, used, id)
    {
      var todo := registry.Keys;
      while todo != {}
        invariant todo <= registry.Keys
        invariant forall x | x in registry.Keys - todo :: !Candidate(Look(tenant), required, used, x)
      {
        id :| id in todo;
        todo := todo - {id};
        if tenant != "" && registry[id].tenant != tenant {
          continue;
        }
        if id in used {
          continue;
        }
        var able := HasCapability(Some(registry[id]), required);
        if !able {
          continue;
        }
        var busy := store.HasRunningForRobot(id);
        if busy {
          continue;
        }
        return id;
      }
      id := "";
    }

    /** Selection and checks for one step; empty when the step ends the run. */
    method ChooseRobot(step: WorkflowStep, used: set<RobotId>, tenant: string) returns (id: RobotId)
      requires "" !in registry && (step.robot != "" ==> step.robot in registry)
      ensures id == "" ==> Blocked(Look(tenant), step, used)
      ensures id != "" ==> Assignable(Look(tenant), step, used, id)
    {
      id := step.robot;
      if id == "" && step.selector.Some? {
        id := FindRobot(step.selector.value, used, tenant);
      }
      if id == "" && step.scenario in catalog {
        id := FindRobot(catalog[step.scenario], used, tenant);
      }
      if id != "" && tenant != "" && registry[id].tenant != tenant {
        return "";
      }
      if id == "" || step.scenario !in catalog {
        return "";
      }
      var able := HasCapability(Some(registry[id]), catalog[step.scenario]);
      if !able {
        return "";
      }
      var busy := store.HasRunningForRobot(id);
      if busy {
        return "";
      }
    }

    /** Run a workflow: one task per step until a step is blocked. */
    method Run(workflow: string, tenant: string) returns (r: Option<RunResult>, robots: seq<RobotId>)
      requires store.Valid() && runs.Valid() && "" !in registry
      requires workflow in workflows ==> forall s | s in workflows[workflow] :: s.robot != "" ==> s.robot in registry
      modifies store, runs
      ensures store.Valid() && runs.Valid()
      ensures r.None? <==> workflow !in workflows
      ensures r.None? ==> unchanged(store) && unchanged(runs)
      ensures r.Some? ==>
        var steps, ids := workflows[workflow], r.value.taskIds;
        && Allocation(old(Look(tenant)), steps, robots) && |ids| == |robots|
        && Created(registry, steps, robots, ids, old(store.tasks), store.tasks)
        && r.value.run !in old(runs.runs)
        && runs.runs == old(runs.runs)[r.value.run :=
             WorkflowRun(workflow, if ids == [] then "" else store.tasks[ids[0]].tenant,
                         if |ids| < |steps| then RunFailed else RunRunning,
                         Ledger(ids))]
      // Every created task, in terms of its step and its robot.
      ensures r.Some? ==>
        var steps, ids := workflows[workflow], r.value.taskIds;
        && |ids| == |robots| <= |steps| && (forall id | id in store.tasks :: id in old(store.tasks) || id in ids)
        && (forall id | id in old(store.tasks) :: id in store.tasks && store.tasks[id] == old(store.tasks)[id])
        && forall i | 0 <= i < |ids| ::
             && ids[i] in store.tasks && ids[i] !in old(store.tasks)
             && var t, step := store.tasks[ids[i]], steps[i];
             && t.robot == robots[i] && t.scenario == step.scenario && t.status == Pending && t.completedAt == None
             && robots[i] in registry
             && t.tenant == (if registry[robots[i]].tenant == "" then "default" else registry[robots[i]].tenant)
             && t.payload == (if step.payload.Absent? && step.zone != ""
                              then Fields(0.0, 0.0, 0.0, 0, step.zone, "", "", "", "") else step.payload)
      // Every robot chosen: of the tenant, able, free, and the step's own or not used before.
      ensures r.Some? ==>
        var steps := workflows[workflow];
        forall i | 0 <= i < |robots| ::
          && robots[i] in registry && (tenant != "" ==> registry[robots[i]].tenant == tenant)
          && steps[i].scenario in catalog
          && (forall c | c in catalog[steps[i].scenario] :: c in registry[robots[i]].capabilities)
          && (forall id | id in old(store.tasks) ::
                old(store.tasks)[id].robot == robots[i] ==> old(store.tasks)[id].status != Running)
          && (if steps[i].robot != "" then robots[i] == steps[i].robot
              else forall j | 0 <= j < i :: robots[j] != robots[i])
    {
      hide Allocation, Created, Ledger, HasRunning;
      if workflow !in workflows {
        return None, [];
      }
      ghost var view := Look(tenant);
      var run := runs.Create(workflow);
      var ids;
      ids, robots := RunSteps(run, workflows[workflow], tenant);
      CreatedTasks(registry, workflows[workflow], robots, ids, view.tasks, store.tasks);
      ChosenRobots(view, workflows[workflow], robots);
      return Some(RunResult(run, ids)), robots;
    }

    method RunSteps(run: RunId, steps: seq<WorkflowStep>, tenant: string)
        returns (ids: seq<TaskId>, robots: seq<RobotId>)
      requires store.Valid() && runs.Valid() && "" !in registry
      requires forall s | s in steps :: s.robot != "" ==> s.robot in registry
      requires run in runs.runs && runs.runs[run].status == RunRunning
      requires runs.runs[run].tenant == "" && runs.runs[run].tasks == []
      modifies store, runs`runs
      ensures store.Valid() && runs.Valid()
      ensures Allocation(old(Look(tenant)), steps, robots) && |ids| == |robots|
      ensures Created(registry, steps, robots, ids, old(store.tasks), store.tasks)
      ensures ids != [] ==> ids[0] in store.tasks
      ensures runs.runs == old(runs.runs)[run := WorkflowRun(
                old(runs.runs)[run].workflow, if ids == [] then "" else store.tasks[ids[0]].tenant,
                if |ids| < |steps| then RunFailed else RunRunning, Ledger(ids))]
    {
      hide Assigned, Blocked, Created, Assignable, Taken, Ledger, ForStep;
      ghost var view := Look(tenant);
      ids, robots := [], [];
      var used := {};
      StartCreated(registry, steps, store.tasks, view);
      for i := 0 to |steps|
        invariant store.Valid() && runs.Valid()
        invariant |ids| == |robots| == i && used == Taken(robots) && Assigned(view, steps, robots)
        invariant Created(registry, steps, robots, ids, view.tasks, store.tasks)
        invariant ids != [] ==> ids[0] in store.tasks && store.tasks[ids[0]].tenant != ""
        invariant runs.runs == old(runs.runs)[run := WorkflowRun(old(runs.runs)[run].workflow,
                    if ids == [] then "" else store.tasks[ids[0]].tenant, RunRunning, Ledger(ids))]
      {
        ghost var before := store.tasks;
        assert Look(tenant) == view.(tasks := before);
        var task, id := RunStep(run, i, steps[i], used, tenant);
        CreatedKeepsView(view, before, steps, robots, ids, steps[i], used, id);
        if task.None? {
          return;
        }
        CreatedGrows(registry, steps, robots, ids, view.tasks, before, task.value, store.tasks[task.value], id);
        AssignedGrows(view, steps, robots, id);
        LedgerGrows(ids, task.value);
        ids, robots, used := ids + [task.value], robots + [id], used + {id};
      }
    }

    /** One step of a run: None if it is blocked and the run marked failed. */
    method RunStep(run: RunId, index: nat, step: WorkflowStep, used: set<RobotId>, tenant: string)
      returns (task: Option<TaskId>, id: RobotId)
      requires store.Valid() && runs.Valid() && run in runs.runs && "" !in registry
      requires step.robot != "" ==> step.robot in registry
      modifies store, runs`runs
      ensures store.Valid() && runs.Valid()
      ensures task.None? ==> && Blocked(old(Look(tenant)), step, used) && unchanged(store)
                             && runs.runs == old(runs.runs)[run := old(runs.runs)[run].(status := RunFailed)]
      ensures task.Some? ==>
        && Assignable(old(Look(tenant)), step, used, id) && id in registry
        && task.value !in old(store.tasks) && task.value in store.tasks
        && store.tasks == old(store.tasks)[task.value := store.tasks[task.value]]
        && ForStep(store.tasks[task.value], step, id, registry[id]) && store.tasks[task.value].tenant != ""
        && var was := old(runs.runs)[run];
           runs.runs == old(runs.runs)[run := was.(
             tenant := if was.tenant == "" then store.tasks[task.value].tenant else was.tenant,
             tasks := was.tasks + [(task.value, index)])]
    {
      hide Assignable, Blocked;
      id := ChooseRobot(step, used, tenant);
      if id == "" {
        runs.UpdateStatus(run, RunFailed);
        return None, id;
      }
      FitsRegistered(Look(tenant), step, used, id);
      var tenantId := registry[id].tenant;
      if tenantId == "" {
        tenantId := "default";
      }
      if runs.runs[run].tenant == "" {
        runs.UpdateTenantID(run, tenantId);
      }
      var payload := step.payload;
      if payload.Absent? && step.zone != "" {
        payload := Fields(0.0, 0.0, 0.0, 0, step.zone, "", "", "", "");
      }
      var t := store.Create(Task(id, tenantId, step.scenario, payload, Pending, None));
      runs.AddTask(run, t, index);
      return Some(t), id;
    }
  }

  function Ledger(ids: seq<TaskId>): (l: seq<(TaskId, nat)>)
    ensures |l| == |ids| && forall i | 0 <= i < |ids| :: l[i] == (ids[i], i)
  {
    seq(|ids|, i requires 0 <= i < |ids| => (ids[i], i))
  }

  /** Task ids[i] was created, pending, for step i and robots[i]; nothing else changed. */
  ghost predicate Created(registry: Registry, steps: seq<WorkflowStep>, robots: seq<RobotId>, ids: seq<TaskId>,
                          before: TaskMap, after: TaskMap)
  {
    && |ids| == |robots| <= |steps|
    && (forall i, j | 0 <= i < j < |ids| :: ids[i] != ids[j])
    && (forall i | 0 <= i < |ids| :: ids[i] !in before && robots[i] in registry
          && ids[i] in after && ForStep(after[ids[i]], steps[i], robots[i], registry[robots[i]]))
    && (forall id | id in after :: id in before || id in ids)
    && (forall id | id in before :: id in after && after[id] == before[id])
  }
}
