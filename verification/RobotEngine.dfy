/** The robot execution engine: guarded state transitions, result handling and their history. */
module RobotEngine {
  import opened Common
  import opened Tasks
  import opened Safety

  datatype RobotState = Idle | Greeting | Processing | Planning | Navigating | AtDestination | Returning | Error

  predicate CanTransition(from: RobotState, to: RobotState) {
    if to == Error then true
    else match from
      case Idle => to == Greeting || to == Navigating || to == Returning
      case Greeting => to == Processing
      case Processing => to == Planning
      case Planning => to == Navigating
      case Navigating => to == AtDestination || to == Idle
      case AtDestination => to == Returning || to == Idle
      case Returning => to == Idle
      case Error => to == Returning || to == Idle
  }

  /** The work of a robot goes round one way: a visit is greeted, processed and planned, then the robot
      navigates, arrives and returns. It may navigate or return at once, stop early, and leave an error
      by returning or resting; an error may come anywhere. */
  lemma TransitionTable(from: RobotState, to: RobotState)
    ensures CanTransition(from, to) <==>
            || to == Error
            || (from, to) in {(Idle, Greeting), (Greeting, Processing), (Processing, Planning), (Planning, Navigating),
                              (Navigating, AtDestination), (AtDestination, Returning), (Returning, Idle)}
            || (from, to) in {(Idle, Navigating), (Idle, Returning), (Navigating, Idle), (AtDestination, Idle),
                              (Error, Returning), (Error, Idle)}
  {
  }

  datatype Details = Details(task: TaskId, store: string, node: string, coords: string, message: string)

  datatype RobotContext = RobotContext(current: RobotState, previous: RobotState, details: Details)

  type Contexts = map<RobotId, RobotContext>

  /** The state the API reports; a robot without a context counts as idle. */
  function StateOf(ctxs: Contexts, robot: RobotId): RobotState {
    if robot in ctxs then ctxs[robot].current else Idle
  }

  /** Contexts after a requested transition; even a refused first one leaves an idle context. */
  function Transitioned(ctxs: Contexts, robot: RobotId, to: RobotState, d: Details): Contexts {
    var ctx := if robot in ctxs then ctxs[robot] else RobotContext(Idle, Idle, d);
    ctxs[robot := if CanTransition(ctx.current, to) then RobotContext(to, ctx.current, d) else ctx]
  }

  class StateManager {
    var ctxs: Contexts

    constructor ()
      ensures ctxs == map[]
    {
      ctxs := map[];
    }

    method Transition(robot: RobotId, to: RobotState, d: Details) returns (applied: bool)
      modifies this
      ensures ctxs == Transitioned(old(ctxs), robot, to, d)
      ensures applied <==> CanTransition(StateOf(old(ctxs), robot), to)
    {
      if robot !in ctxs {
        ctxs := ctxs[robot := RobotContext(Idle, Idle, d)];
      }
      var ctx := ctxs[robot];
      if !CanTransition(ctx.current, to) {
        return false;
      }
      ctxs := ctxs[robot := RobotContext(to, ctx.current, d)];
      return true;
    }

    method GetRobotState(robot: RobotId) returns (s: RobotState)
      ensures s == StateOf(ctxs, robot)
    {
      s := if robot in ctxs then ctxs[robot].current else Idle;
    }
  }

  // ---- Tasks and their outcomes ------------------------------------------------

  datatype NavigationResult = NavigationResult(success: bool, timeout: bool, cancelled: bool, reason: string)

  datatype Event =
    | StateChanged(robot: RobotId, state: RobotState, previous: RobotState, task: TaskId)
    | NavigationStarted(robot: RobotId, task: TaskId)
    | NavigationCompleted(robot: RobotId, task: TaskId)
    | NavigationFailed(robot: RobotId, task: TaskId, reason: string)
    | ReturningToBase(robot: RobotId, task: TaskId)
    | RobotIdle(robot: RobotId)

  /** TaskExecutor.ExecuteTask: both navigation scenarios are always handled. */
  function TaskResult(task: Task, nav: NavigationResult): NavigationResult {
    if !task.payload.Fields? || task.payload.target == ""
    then NavigationResult(false, false, false, "missing target_coordinates")
    else nav
  }

  predicate Succeeds(r: NavigationResult, timeoutAsCompletion: bool) {
    r.success || (r.timeout && timeoutAsCompletion)
  }

  function FinalStatus(r: NavigationResult, timeoutAsCompletion: bool): Status {
    if Succeeds(r, timeoutAsCompletion) then Completed else if r.cancelled then Cancelled else Failed
  }

  function StoreName(task: Task): string {
    if !task.payload.Fields? then ""
    else if task.payload.store != "" then task.payload.store else task.payload.targetStore
  }

  function NodeName(task: Task): string {
    if task.payload.Fields? then task.payload.node else ""
  }

  function Coordinates(task: Task): string {
    if task.payload.Fields? then task.payload.target else ""
  }

  datatype Kind = Navigate | Return

  /** Contexts when a task of the given kind begins. */
  function Begun(ctxs: Contexts, kind: Kind, id: TaskId, task: Task): Contexts {
    match kind
    case Navigate =>
      var at := Details(id, StoreName(task), NodeName(task), Coordinates(task), "navigating");
      Transitioned(ctxs, task.robot, Navigating, at)
    case Return => Transitioned(ctxs, task.robot, Returning, Details(id, "", "", "", "returning to base"))
  }

  /** Contexts after a task of the given kind has succeeded or failed. */
  function EngineStep(ctxs: Contexts, kind: Kind, id: TaskId, task: Task, r: NavigationResult, ok: bool): Contexts {
    var robot, begun := task.robot, Begun(ctxs, kind, id, task);
    match kind
    case Navigate =>
      var store, at := StoreName(task), Coordinates(task);
      if ok then Transitioned(begun, robot, AtDestination, Details(id, store, "", at, "arrived"))
      else Transitioned(begun, robot, Error, Details(id, store, "", at, r.reason))
    case Return =>
      if ok then Transitioned(begun, robot, Idle, Details(id, "", "", "", "idle"))
      else Transitioned(begun, robot, Error, Details(id, "", "", "", r.reason))
  }

  /** The state broadcast when a task begins, and the one named as previous. */
  function AnnouncedFirst(kind: Kind): (RobotState, RobotState) {
    if kind == Navigate then (Navigating, Idle) else (Returning, AtDestination)
  }

  /** The state broadcast when a task ends. */
  function Announced(kind: Kind, ok: bool): RobotState {
    if !ok then Error else if kind == Navigate then AtDestination else Idle
  }

  /** The events of one task; the states in them are announced, not read back. */
  function Broadcasts(kind: Kind, robot: RobotId, id: TaskId, ok: bool, reason: string): seq<Event> {
    [StateChanged(robot, AnnouncedFirst(kind).0, AnnouncedFirst(kind).1, id),
     if kind == Navigate then NavigationStarted(robot, id) else ReturningToBase(robot, id),
     StateChanged(robot, Announced(kind, ok), AnnouncedFirst(kind).0, id),
     if !ok then NavigationFailed(robot, id, reason)
     else if kind == Navigate then NavigationCompleted(robot, id) else RobotIdle(robot)]
  }

  class Engine {
    const manager: StateManager
    const store: TaskStore
    const timeoutAsCompletion: bool

    var events: seq<Event>
    var commands: seq<Command>
    var completions: seq<(TaskId, Status)>

    constructor (manager: StateManager, store: TaskStore, timeoutAsCompletion: bool)
      ensures this.manager == manager && this.store == store && this.timeoutAsCompletion == timeoutAsCompletion
      ensures events == [] && commands == [] && completions == []
    {
      this.manager, this.store, this.timeoutAsCompletion := manager, store, timeoutAsCompletion;
      events, commands, completions := [], [], [];
    }

    method Finish(id: TaskId, status: Status, now: Time)
      requires store.Valid()
      modifies this`completions, store`tasks
      ensures store.Valid() && store.tasks == Close(old(store.tasks), id, status, now)
      ensures completions == old(completions) + [(id, status)]
    {
      completions := completions + [(id, status)];
      store.UpdateStatusAndCompletedAt(id, status, now);
    }

    method SendSafeStop(robot: RobotId)
      modifies this`commands
      ensures commands == old(commands) + [Command(robot, "safe_stop", Absent)]
    {
      var cmd := Command(robot, "safe_stop", Absent);
      if ArbiterAllow(cmd) {
        commands := commands + [cmd];
      }
    }

    /** The result handler shared by both scenarios; `active` is the state broadcast as previous. */
    method HandleResult(id: TaskId, robot: RobotId, r: NavigationResult, now: Time,
                        active: RobotState, goal: RobotState, good: Details, bad: Details, done: Event)
      requires store.Valid()
      modifies manager, store`tasks, this`events, this`commands, this`completions
      ensures store.Valid()
      ensures var ok := r.success || (r.timeout && timeoutAsCompletion);
              var status := if ok then Completed else if r.cancelled then Cancelled else Failed;
              && manager.ctxs == Transitioned(old(manager.ctxs), robot,
                                              if ok then goal else Error, if ok then good else bad)
              && events == old(events) + [StateChanged(robot, if ok then goal else Error, active, id),
                                          if ok then done else NavigationFailed(robot, id, r.reason)]
              && commands == old(commands) + (if ok then [] else [Command(robot, "safe_stop", Absent)])
              && completions == old(completions) + [(id, status)]
              && store.tasks == Close(old(store.tasks), id, status, now)
    {
      if r.success || (r.timeout && timeoutAsCompletion) {
        var _ := manager.Transition(robot, goal, good);
        events := events + [StateChanged(robot, goal, active, id), done];
        Finish(id, Completed, now);
        return;
      }
      var _ := manager.Transition(robot, Error, bad);
      events := events + [StateChanged(robot, Error, active, id), NavigationFailed(robot, id, r.reason)];
      SendSafeStop(robot);
      Finish(id, if r.cancelled then Cancelled else Failed, now);
    }

    /** Runs a navigation task whose executor answers `nav`; false for any other scenario. */
    method ExecuteTaskEntry(id: TaskId, task: Task, nav: NavigationResult, now: Time) returns (handled: bool)
      requires store.Valid()
      modifies manager, store`tasks, this`events, this`commands, this`completions
      ensures store.Valid()
      ensures handled <==> task.scenario == NAVIGATE_TO_STORE || task.scenario == NAVIGATION
      ensures !handled ==> unchanged(manager) && unchanged(store) && unchanged(this)
      // What the payload and the navigation result decide: the status, the command and the state.
      ensures handled ==>
        var missing := !task.payload.Fields? || task.payload.target == "";
        var good := !missing && (nav.success || (nav.timeout && timeoutAsCompletion));
        var status := if good then Completed else if !missing && nav.cancelled then Cancelled else Failed;
        && completions == old(completions) + [(id, status)]
        && (id in old(store.tasks) ==>
              && id in store.tasks
              && store.tasks[id] == old(store.tasks)[id].(status := status, completedAt := Some(now)))
        && commands == old(commands) + (if good then [] else [Command(task.robot, "safe_stop", Absent)])
        && |events| == |old(events)| + 4
        && (!good ==>
              events[|events| - 1] ==
              NavigationFailed(task.robot, id, if missing then "missing target_coordinates" else nav.reason))
        && (AtRest(StateOf(old(manager.ctxs), task.robot)) ==>
              StateOf(manager.ctxs, task.robot) ==
              if !good then Error
              else if task.scenario == NAVIGATION then Idle
              else if StateOf(old(manager.ctxs), task.robot) == Error then Error else AtDestination)
      ensures handled ==>
        var kind := if task.scenario == NAVIGATION then Return else Navigate;
        var r := TaskResult(task, nav);
        var ok := Succeeds(r, timeoutAsCompletion);
        var status := FinalStatus(r, timeoutAsCompletion);
        && manager.ctxs == EngineStep(old(manager.ctxs), kind, id, task, r, ok)
        && completions == old(completions) + [(id, status)]
        && store.tasks == Close(old(store.tasks), id, status, now)
        && commands == old(commands) + (if ok then [] else [Command(task.robot, "safe_stop", Absent)])
        && events == old(events) + Broadcasts(kind, task.robot, id, ok, r.reason)
    {
      hide Transitioned, EngineStep, Close;
      var r := TaskResult(task, nav);
      if task.scenario == NAVIGATE_TO_STORE {
        RestsAfter(manager.ctxs, Navigate, id, task, r, Succeeds(r, timeoutAsCompletion));
        Closes(store.tasks, id, FinalStatus(r, timeoutAsCompletion), now);
        ExecuteNavigateToStore(id, task, nav, now);
        return true;
      } else if task.scenario == NAVIGATION {
        RestsAfter(manager.ctxs, Return, id, task, r, Succeeds(r, timeoutAsCompletion));
        Closes(store.tasks, id, FinalStatus(r, timeoutAsCompletion), now);
        ExecuteReturnToBase(id, task, nav, now);
        return true;
      }
      return false;
    }

    method ExecuteNavigateToStore(id: TaskId, task: Task, nav: NavigationResult, now: Time)
      requires store.Valid()
      modifies manager, store`tasks, this`events, this`commands, this`completions
      ensures store.Valid()
      ensures var r := TaskResult(task, nav);
              var ok, status := Succeeds(r, timeoutAsCompletion), FinalStatus(r, timeoutAsCompletion);
              && manager.ctxs == EngineStep(old(manager.ctxs), Navigate, id, task, r, ok)
              && completions == old(completions) + [(id, status)]
              && store.tasks == Close(old(store.tasks), id, status, now)
              && commands == old(commands) + (if ok then [] else [Command(task.robot, "safe_stop", Absent)])
              && events == old(events) + Broadcasts(Navigate, task.robot, id, ok, r.reason)
    {
      hide Transitioned, Close;
      var robot, store, at := task.robot, StoreName(task), Coordinates(task);
      var _ := manager.Transition(robot, Navigating, Details(id, store, NodeName(task), at, "navigating"));
      events := events + [StateChanged(robot, Navigating, Idle, id), NavigationStarted(robot, id)];
      var r := TaskResult(task, nav);
      HandleResult(id, robot, r, now, Navigating, AtDestination, Details(id, store, "", at, "arrived"),
                   Details(id, store, "", at, r.reason), NavigationCompleted(robot, id));
    }

    method ExecuteReturnToBase(id: TaskId, task: Task, nav: NavigationResult, now: Time)
      requires store.Valid()
      modifies manager, store`tasks, this`events, this`commands, this`completions
      ensures store.Valid()
      ensures var r := TaskResult(task, nav);
              var ok, status := Succeeds(r, timeoutAsCompletion), FinalStatus(r, timeoutAsCompletion);
              && manager.ctxs == EngineStep(old(manager.ctxs), Return, id, task, r, ok)
              && completions == old(completions) + [(id, status)]
              && store.tasks == Close(old(store.tasks), id, status, now)
              && commands == old(commands) + (if ok then [] else [Command(task.robot, "safe_stop", Absent)])
              && events == old(events) + Broadcasts(Return, task.robot, id, ok, r.reason)
    {
      hide Transitioned, Close;
      var robot := task.robot;
      var _ := manager.Transition(robot, Returning, Details(id, "", "", "", "returning to base"));
      events := events + [StateChanged(robot, Returning, AtDestination, id), ReturningToBase(robot, id)];
      var r := TaskResult(task, nav);
      HandleResult(id, robot, r, now, Returning, Idle, Details(id, "", "", "", "idle"),
                   Details(id, "", "", "", r.reason), RobotIdle(robot));
    }
  }

  // ---- The three-state machine ---------------------------------------------------

  predicate AtRest(s: RobotState) {
    s == Idle || s == AtDestination || s == Error
  }

  function RestStep(s: RobotState, kind: Kind, ok: bool): RobotState {
    match kind
    case Navigate => if s == Error || !ok then Error else AtDestination
    case Return => if ok then Idle else Error
  }

  /** One executed task: who, what, how it ended, and the data it carried. */
  datatype Job = Job(kind: Kind, ok: bool, id: TaskId, task: Task, result: NavigationResult)

  function RunJobs(ctxs: Contexts, jobs: seq<Job>): Contexts {
    if jobs == [] then ctxs
    else
      var j := jobs[|jobs| - 1];
      EngineStep(RunJobs(ctxs, jobs[..|jobs| - 1]), j.kind, j.id, j.task, j.result, j.ok)
  }

  function RestAfter(s: RobotState, jobs: seq<Job>, robot: RobotId): RobotState {
    if jobs == [] then s
    else
      var j, before := jobs[|jobs| - 1], RestAfter(s, jobs[..|jobs| - 1], robot);
      if j.task.robot == robot then RestStep(before, j.kind, j.ok) else before
  }

  ghost predicate AllAtRest(ctxs: Contexts) {
    forall r | r in ctxs :: AtRest(ctxs[r].current)
  }

  /** One task of the engine is one step of the three-state machine, for its own robot only. */
  lemma StepRefines(ctxs: Contexts, j: Job)
    requires AllAtRest(ctxs)
    ensures var next := EngineStep(ctxs, j.kind, j.id, j.task, j.result, j.ok);
            && AllAtRest(next)
            && StateOf(next, j.task.robot) == RestStep(StateOf(ctxs, j.task.robot), j.kind, j.ok)
            && forall r | r != j.task.robot :: (r in next <==> r in ctxs) && (r in ctxs ==> next[r] == ctxs[r])
  {
  }

  lemma RestsAfter(ctxs: Contexts, kind: Kind, id: TaskId, task: Task, r: NavigationResult, ok: bool)
    ensures AtRest(StateOf(ctxs, task.robot)) ==>
              StateOf(EngineStep(ctxs, kind, id, task, r, ok), task.robot) ==
              RestStep(StateOf(ctxs, task.robot), kind, ok)
  {
  }

  lemma Closes(tasks: TaskMap, id: TaskId, status: Status, now: Time)
    ensures id in tasks ==>
              && id in Close(tasks, id, status, now)
              && Close(tasks, id, status, now)[id] == tasks[id].(status := status, completedAt := Some(now))
  {
  }

  /** What is kept of a robot that was at rest after a task: the state it came from, and the details
      of the transition. A store has a display name under one of two keys, the first preferred. */
  lemma ContextAfter(ctxs: Contexts, j: Job)
    requires AtRest(StateOf(ctxs, j.task.robot))
    ensures var p, was := j.task.payload, StateOf(ctxs, j.task.robot);
            var store := if !p.Fields? then "" else if p.store != "" then p.store else p.targetStore;
            var after := EngineStep(ctxs, j.kind, j.id, j.task, j.result, j.ok);
            && j.task.robot in after
            && var at, failed := if p.Fields? then p.target else "", j.result.reason;
            after[j.task.robot] ==
            if j.kind == Return
            then if j.ok then RobotContext(Idle, Returning, Details(j.id, "", "", "", "idle"))
                 else RobotContext(Error, Returning, Details(j.id, "", "", "", failed))
            else if !j.ok
            then RobotContext(Error, if was == Idle then Navigating else was, Details(j.id, store, "", at, failed))
            else if was == Idle then RobotContext(AtDestination, Navigating, Details(j.id, store, "", at, "arrived"))
            else ctxs[j.task.robot]
    ensures j.kind == Navigate && StateOf(ctxs, j.task.robot) == Idle ==>
              j.task.robot in Begun(ctxs, j.kind, j.id, j.task)
              && Begun(ctxs, j.kind, j.id, j.task)[j.task.robot].details.node ==
                 if j.task.payload.Fields? then j.task.payload.node else ""
  {
  }

  /** Over any sequence of tasks every robot rests where the three-state machine says. */
  lemma {:induction false} EngineRefines(ctxs: Contexts, jobs: seq<Job>, robot: RobotId)
    requires AllAtRest(ctxs)
    ensures AllAtRest(RunJobs(ctxs, jobs))
    ensures StateOf(RunJobs(ctxs, jobs), robot) == RestAfter(StateOf(ctxs, robot), jobs, robot)
    ensures (forall j | j in jobs :: j.task.robot != robot) && robot in ctxs ==>
              robot in RunJobs(ctxs, jobs) && RunJobs(ctxs, jobs)[robot] == ctxs[robot]
  {
    if jobs != [] {
      var n := |jobs| - 1;
      EngineRefines(ctxs, jobs[..n], robot);
      assert jobs[n] in jobs && forall j | j in jobs[..n] :: j in jobs;
      StepRefines(RunJobs(ctxs, jobs[..n]), jobs[n]);
    }
  }

  /** The first broadcast of a navigation is the stored state exactly for an idle robot, that of a
      return always; with the previous state it names it is true exactly if the robot was in it. */
  lemma FirstAnnouncementMatches(ctxs: Contexts, j: Job)
    requires AllAtRest(ctxs)
    ensures var was, now := StateOf(ctxs, j.task.robot), StateOf(Begun(ctxs, j.kind, j.id, j.task), j.task.robot);
            && (now == AnnouncedFirst(j.kind).0 <==> j.kind == Return || was == Idle)
            && ((now, was) == AnnouncedFirst(j.kind) <==> was == if j.kind == Return then AtDestination else Idle)
  {
  }

  /** The broadcast state is the stored one, except when a navigation succeeds on a robot in error. */
  lemma AnnouncementMatches(ctxs: Contexts, j: Job)
    requires AllAtRest(ctxs)
    ensures StateOf(EngineStep(ctxs, j.kind, j.id, j.task, j.result, j.ok), j.task.robot) == Announced(j.kind, j.ok)
            <==> !(j.kind == Navigate && j.ok && StateOf(ctxs, j.task.robot) == Error)
  {
    StepRefines(ctxs, j);
  }

  // ---- The resting state read off the history ---------------------------------------

  ghost predicate Recovered(jobs: seq<Job>, robot: RobotId, from: int)
    requires from >= 0
  {
    exists k :: from < k < |jobs| && jobs[k].task.robot == robot && jobs[k].kind == Return && jobs[k].ok
  }

  ghost predicate InError(jobs: seq<Job>, robot: RobotId) {
    exists i :: 0 <= i < |jobs| && jobs[i].task.robot == robot && !jobs[i].ok && !Recovered(jobs, robot, i)
  }

  ghost predicate HasArrived(jobs: seq<Job>, robot: RobotId) {
    exists i :: && 0 <= i < |jobs| && jobs[i].task.robot == robot && jobs[i].kind == Navigate && jobs[i].ok
                && !Recovered(jobs, robot, i)
  }

  lemma HistoryGrows(jobs: seq<Job>, j: Job, robot: RobotId)
    ensures var all := jobs + [j];
            var mine := j.task.robot == robot;
            var back := mine && j.kind == Return && j.ok;
            && (InError(all, robot) <==> (mine && !j.ok) || (InError(jobs, robot) && !back))
            && (HasArrived(all, robot) <==> (mine && j.kind == Navigate && j.ok) || (HasArrived(jobs, robot) && !back))
  {
    var all, n := jobs + [j], |jobs|;
    assert all[n] == j && forall i | 0 <= i < n :: all[i] == jobs[i];
    assert !Recovered(all, robot, n);
    forall i | 0 <= i < n
      ensures Recovered(all, robot, i) <==>
              Recovered(jobs, robot, i) || (j.task.robot == robot && j.kind == Return && j.ok)
    {
      RecoveredGrows(jobs, j, robot, i);
    }
    if InError(jobs, robot) {
      var i :| 0 <= i < |jobs| && jobs[i].task.robot == robot && !jobs[i].ok && !Recovered(jobs, robot, i);
      assert all[i] == jobs[i];
    }
    if HasArrived(jobs, robot) {
      var i :| && 0 <= i < |jobs| && jobs[i].task.robot == robot && jobs[i].kind == Navigate && jobs[i].ok
               && !Recovered(jobs, robot, i);
      assert all[i] == jobs[i];
    }
  }

  lemma RecoveredGrows(jobs: seq<Job>, j: Job, robot: RobotId, i: int)
    requires 0 <= i < |jobs|
    ensures Recovered(jobs + [j], robot, i) <==>
            Recovered(jobs, robot, i) || (j.task.robot == robot && j.kind == Return && j.ok)
  {
    var all := jobs + [j];
    assert all[|jobs|] == j;
    if Recovered(jobs, robot, i) {
      var k :| i < k < |jobs| && jobs[k].task.robot == robot && jobs[k].kind == Return && jobs[k].ok;
      assert all[k] == jobs[k];
    }
  }

  /** A robot that started idle is in error exactly when a task failed on it and no later return
      succeeded; otherwise it is at a destination exactly when it got there and has not returned. */
  lemma {:induction false} RestingStateFromHistory(jobs: seq<Job>, robot: RobotId)
    ensures RestAfter(Idle, jobs, robot) ==
            if InError(jobs, robot) then Error else if HasArrived(jobs, robot) then AtDestination else Idle
  {
    if jobs != [] {
      var front := jobs[..|jobs| - 1];
      assert jobs == front + [jobs[|jobs| - 1]];
      HistoryGrows(front, jobs[|jobs| - 1], robot);
      RestingStateFromHistory(front, robot);
    }
  }
}
