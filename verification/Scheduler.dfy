/** The task protocol: runners, API calls and mall assistants working on one task store.
    Every mutex-protected store call is one atomic step; anything may happen in between. */
module Scheduler {
  import opened Common
  import opened Tasks

  /** Where a runner is inside runOne. */
  datatype Runner =
    | Polling
    | Picked(id: TaskId)       // listed as pending
    | Clear(id: TaskId)        // its robot had no running task
    | Started(id: TaskId)      // marked running; being executed

  /** Where a mall assistant is inside Handler.Run. */
  datatype Phase =
    | Listening
    | Waiting(nav: TaskId)
    | Arrived(nav: TaskId, observed: Option<Status>)
    | Returned
    | Finished

  datatype Assistant = Assistant(task: TaskId, robot: RobotId, phase: Phase)

  datatype State = State(
    tasks: TaskMap,
    runners: seq<Runner>,
    assistants: seq<Assistant>,
    cancels: multiset<TaskId>)  // cancel requests that have read a live status

  datatype Action =
    | Create(id: TaskId, task: Task)
    | CancelRead(id: TaskId)
    | CancelWrite(id: TaskId)
    | Pick(k: nat, id: TaskId)
    | Check(k: nat)
    | Abandon(k: nat)
    | Reject(k: nat, now: Time)
    | Start(k: nat)
    | Spawn(k: nat)
    | Finish(k: nat, status: Status, now: Time)
    | Stop(h: nat, status: Status, now: Time)
    | Guide(h: nat, id: TaskId, task: Task)
    | Observe(h: nat)
    | GiveUp(h: nat)
    | SendBack(h: nat, id: TaskId, task: Task)
    | Complete(h: nat, now: Time)

  ghost predicate Init(s: State, n: nat) {
    && OneRunning(s.tasks)
    && |s.runners| == n && (forall k | 0 <= k < n :: s.runners[k] == Polling)
    && s.assistants == [] && s.cancels == multiset{}
  }

  predicate Next(s: State, a: Action, t: State) {
    match a
    case Create(id, task) =>
      id !in s.tasks && task.status == Pending && t == s.(tasks := s.tasks[id := task])
    case CancelRead(id) =>
      && id in s.tasks && (s.tasks[id].status == Pending || s.tasks[id].status == Running)
      && t == s.(cancels := s.cancels + multiset{id})
    case CancelWrite(id) =>
      && id in s.cancels
      && t == s.(cancels := s.cancels - multiset{id}, tasks := SetStatus(s.tasks, id, Cancelled))
    case Pick(k, id) =>
      && k < |s.runners| && s.runners[k] == Polling && id in s.tasks && s.tasks[id].status == Pending
      && t == s.(runners := s.runners[k := Picked(id)])
    case Check(k) =>
      && k < |s.runners| && s.runners[k].Picked? && s.runners[k].id in s.tasks
      && var id := s.runners[k].id;
         t == s.(runners := s.runners[k := if HasRunning(s.tasks, s.tasks[id].robot) then Polling else Clear(id)])
    case Abandon(k) =>
      && k < |s.runners| && s.runners[k].Clear? && t == s.(runners := s.runners[k := Polling])
    case Reject(k, now) =>
      && k < |s.runners| && s.runners[k].Clear?
      && t == s.(runners := s.runners[k := Polling], tasks := Close(s.tasks, s.runners[k].id, Failed, now))
    case Start(k) =>
      && k < |s.runners| && s.runners[k].Clear?
      && var id := s.runners[k].id;
         t == s.(runners := s.runners[k := Started(id)], tasks := SetStatus(s.tasks, id, Running))
    case Spawn(k) =>
      && k < |s.runners| && s.runners[k].Started? && s.runners[k].id in s.tasks
      && var id := s.runners[k].id;
      && s.tasks[id].scenario == MALL_ASSISTANT
      && t == s.(runners := s.runners[k := Polling],
                 assistants := s.assistants + [Assistant(id, s.tasks[id].robot, Listening)])
    case Finish(k, status, now) =>
      && k < |s.runners| && s.runners[k].Started? && Terminal(status)
      && t == s.(runners := s.runners[k := Polling], tasks := Close(s.tasks, s.runners[k].id, status, now))
    case Stop(h, status, now) =>
      && h < |s.assistants| && s.assistants[h].phase == Listening && Terminal(status)
      && t == Advance(s, h, Finished).(tasks := Close(s.tasks, s.assistants[h].task, status, now))
    case Guide(h, id, task) =>
      && h < |s.assistants| && s.assistants[h].phase == Listening && id !in s.tasks
      && task.robot == s.assistants[h].robot && task.scenario == NAVIGATE_TO_STORE && task.status == Pending
      && t == Advance(s, h, Waiting(id)).(tasks := s.tasks[id := task])
    case Observe(h) =>
      && h < |s.assistants| && s.assistants[h].phase.Waiting? && s.assistants[h].phase.nav in s.tasks
      && var nav := s.assistants[h].phase.nav;
      && Terminal(s.tasks[nav].status)
      && t == Advance(s, h, Arrived(nav, Some(s.tasks[nav].status)))
    case GiveUp(h) =>
      && h < |s.assistants| && s.assistants[h].phase.Waiting?
      && t == Advance(s, h, Arrived(s.assistants[h].phase.nav, None))
    case SendBack(h, id, task) =>
      && h < |s.assistants| && s.assistants[h].phase.Arrived? && id !in s.tasks
      && task.robot == s.assistants[h].robot && task.scenario == NAVIGATION && task.status == Pending
      && t == Advance(s, h, Returned).(tasks := s.tasks[id := task])
    case Complete(h, now) =>
      && h < |s.assistants| && s.assistants[h].phase == Returned
      && t == Advance(s, h, Finished).(tasks := Close(s.tasks, s.assistants[h].task, Completed, now))
  }

  function Advance(s: State, h: nat, phase: Phase): State
    requires h < |s.assistants|
  {
    s.(assistants := s.assistants[h := s.assistants[h].(phase := phase)])
  }

  ghost predicate IsRun(states: seq<State>, actions: seq<Action>, n: nat) {
    && |states| == |actions| + 1 && Init(states[0], n)
    && forall i | 0 <= i < |actions| :: Next(states[i], actions[i], states[i + 1])
  }

  // ---- Invariants ------------------------------------------------------------

  /** No robot has two tasks in status running. */
  ghost predicate OneRunning(tasks: TaskMap) {
    forall a, b | a in tasks && b in tasks && a != b && tasks[a].robot == tasks[b].robot ::
      !(tasks[a].status == Running && tasks[b].status == Running)
  }

  ghost predicate RunnerOk(tasks: TaskMap, r: Runner) {
    match r
    case Polling => true
    case Picked(id) => id in tasks
    case Clear(id) => id in tasks && !HasRunning(tasks, tasks[id].robot)
    case Started(id) => id in tasks && tasks[id].status != Pending
  }

  /** A mall assistant's own task was started once and can never be picked again. */
  ghost predicate AssistantOk(tasks: TaskMap, r: Runner, h: Assistant) {
    && h.task in tasks && tasks[h.task].robot == h.robot
    && tasks[h.task].scenario == MALL_ASSISTANT && tasks[h.task].status != Pending
    && (r != Polling ==> r.id != h.task)
    && (h.phase.Waiting? ==> WaitingOk(tasks, r, h))
  }

  /** While the assistant's task runs, its navigation task is pending or cancelled. */
  ghost predicate WaitingOk(tasks: TaskMap, r: Runner, h: Assistant)
    requires h.phase.Waiting? && h.task in tasks
  {
    var nav := h.phase.nav;
    && nav in tasks && tasks[nav].robot == h.robot && tasks[nav].scenario == NAVIGATE_TO_STORE
    && (tasks[h.task].status == Running ==>
          (tasks[nav].status == Pending || tasks[nav].status == Cancelled) && r != Clear(nav) && r != Started(nav))
  }

  ghost predicate Invariant(s: State) {
    && OneRunning(s.tasks)
    && |s.runners| <= 1
    && RunnerOk(s.tasks, TheRunner(s))
    && (forall h | h in s.assistants :: AssistantOk(s.tasks, TheRunner(s), h))
    && OneAssistantPerTask(s.assistants)
  }

  ghost predicate OneAssistantPerTask(assistants: seq<Assistant>) {
    forall i, j | 0 <= i < j < |assistants| :: assistants[i].task != assistants[j].task
  }

  function TheRunner(s: State): Runner {
    if s.runners == [] then Polling else s.runners[0]
  }

  lemma InitInvariant(s: State, n: nat)
    requires Init(s, n) && n <= 1
    ensures Invariant(s)
  {
  }

  lemma StepKeepsInvariant(s: State, a: Action, t: State)
    requires Invariant(s) && Next(s, a, t)
    ensures Invariant(t)
  {
    if a.Create? || a.CancelRead? || a.CancelWrite? {
      ApiStep(s, a, t);
    } else if a.Pick? || a.Check? || a.Abandon? || a.Reject? || a.Start? || a.Spawn? || a.Finish? {
      RunnerStep(s, a, t);
    } else {
      AssistantStep(s, a, t);
    }
  }

  /** Adding a task, or writing a status other than pending and running, disturbs no assistant
      unless it settles the navigation task of one whose own task is running. */
  lemma AddKeeps(tasks: TaskMap, id: TaskId, task: Task, r: Runner, h: Assistant)
    requires id !in tasks && AssistantOk(tasks, r, h)
    ensures AssistantOk(tasks[id := task], r, h)
  {
  }

  lemma WriteKeeps(tasks: TaskMap, after: TaskMap, id: TaskId, status: Status, r: Runner, h: Assistant)
    requires Writes(tasks, after, id, status) && AssistantOk(tasks, r, h)
    requires h.phase == Waiting(id) && status != Cancelled ==> tasks[h.task].status != Running
    ensures AssistantOk(after, r, h)
  {
  }

  lemma WriteKeepsRunner(tasks: TaskMap, after: TaskMap, id: TaskId, status: Status, r: Runner)
    requires Writes(tasks, after, id, status) && OneRunning(tasks) && RunnerOk(tasks, r)
    ensures OneRunning(after) && RunnerOk(after, r)
  {
  }

  /** A terminal status is written to a task, with or without a completion time. */
  ghost predicate Writes(tasks: TaskMap, after: TaskMap, id: TaskId, status: Status) {
    && Terminal(status)
    && (after == SetStatus(tasks, id, status) || exists now :: after == Close(tasks, id, status, now))
  }

  lemma AddKeepsRunner(tasks: TaskMap, id: TaskId, task: Task, r: Runner)
    requires id !in tasks && task.status == Pending && OneRunning(tasks) && RunnerOk(tasks, r)
    ensures OneRunning(tasks[id := task]) && RunnerOk(tasks[id := task], r)
  {
  }

  lemma ApiStep(s: State, a: Action, t: State)
    requires Invariant(s) && Next(s, a, t) && (a.Create? || a.CancelRead? || a.CancelWrite?)
    ensures Invariant(t)
  {
    hide AssistantOk, RunnerOk, OneRunning;
    var r := TheRunner(s);
    if a.Create? {
      AddKeepsRunner(s.tasks, a.id, a.task, r);
      forall h | h in t.assistants ensures AssistantOk(t.tasks, r, h) {
        AddKeeps(s.tasks, a.id, a.task, r, h);
      }
    } else if a.CancelWrite? {
      WriteKeepsRunner(s.tasks, t.tasks, a.id, Cancelled, r);
      forall h | h in t.assistants ensures AssistantOk(t.tasks, r, h) {
        WriteKeeps(s.tasks, t.tasks, a.id, Cancelled, r, h);
      }
    }
  }

  lemma RunnerStep(s: State, a: Action, t: State)
    requires Invariant(s) && Next(s, a, t)
    requires a.Pick? || a.Check? || a.Abandon? || a.Reject? || a.Start? || a.Spawn? || a.Finish?
    ensures Invariant(t)
  {
    hide AssistantOk, OneRunning, HasRunning;
    var r := TheRunner(s);
    if a.Reject? || a.Finish? {
      var status := if a.Reject? then Failed else a.status;
      WriteKeepsRunner(s.tasks, t.tasks, r.id, status, Polling);
      forall h | h in t.assistants ensures AssistantOk(t.tasks, Polling, h) {
        LetGo(s.tasks, r, h);
        WriteKeeps(s.tasks, t.tasks, r.id, status, Polling, h);
      }
    } else if a.Start? {
      StartKeepsOne(s.tasks, r.id);
      forall h | h in t.assistants ensures AssistantOk(t.tasks, Started(r.id), h) {
        StartKeeps(s.tasks, r.id, h);
      }
    } else {
      forall h | h in s.assistants ensures AssistantOk(t.tasks, TheRunner(t), h) {
        MoveKeeps(s.tasks, r, TheRunner(t), h);
      }
      if a.Spawn? {
        SpawnOk(s.tasks, r);
        forall i | 0 <= i < |s.assistants| ensures s.assistants[i].task != r.id {
          NotHeld(s.tasks, r, s.assistants[i]);
        }
      }
    }
  }

  /** The runner holding a task has excluded that any assistant of its robot is running. */
  lemma LetGo(tasks: TaskMap, r: Runner, h: Assistant)
    requires AssistantOk(tasks, r, h)
    ensures AssistantOk(tasks, Polling, h)
    ensures (r.Clear? || r.Started?) && h.phase == Waiting(r.id) ==> tasks[h.task].status != Running
  {
  }

  /** Moving the runner on without a write: a check that passed excludes running assistants. */
  lemma MoveKeeps(tasks: TaskMap, r: Runner, r': Runner, h: Assistant)
    requires AssistantOk(tasks, r, h)
    requires r' == Polling || (r'.Picked? && r'.id in tasks && tasks[r'.id].status == Pending)
             || (r'.Clear? && r == Picked(r'.id) && r'.id in tasks && !HasRunning(tasks, tasks[r'.id].robot))
    ensures AssistantOk(tasks, r', h)
  {
  }

  lemma StartKeeps(tasks: TaskMap, id: TaskId, h: Assistant)
    requires RunnerOk(tasks, Clear(id)) && AssistantOk(tasks, Clear(id), h)
    ensures AssistantOk(SetStatus(tasks, id, Running), Started(id), h)
  {
  }

  lemma StartKeepsOne(tasks: TaskMap, id: TaskId)
    requires OneRunning(tasks) && RunnerOk(tasks, Clear(id))
    ensures OneRunning(SetStatus(tasks, id, Running))
  {
  }

  lemma SpawnOk(tasks: TaskMap, r: Runner)
    requires r.Started? && RunnerOk(tasks, r) && tasks[r.id].scenario == MALL_ASSISTANT
    ensures AssistantOk(tasks, Polling, Assistant(r.id, tasks[r.id].robot, Listening))
  {
  }

  lemma NotHeld(tasks: TaskMap, r: Runner, h: Assistant)
    requires r != Polling && AssistantOk(tasks, r, h)
    ensures h.task != r.id
  {
  }

  lemma AssistantStep(s: State, a: Action, t: State)
    requires Invariant(s) && Next(s, a, t)
    requires a.Stop? || a.Guide? || a.Observe? || a.GiveUp? || a.SendBack? || a.Complete?
    ensures Invariant(t)
  {
    hide AssistantOk, OneRunning, RunnerOk;
    var r, me := TheRunner(s), s.assistants[a.h];
    assert me in s.assistants;
    if a.Stop? || a.Complete? {
      WriteKeepsRunner(s.tasks, t.tasks, me.task, if a.Stop? then a.status else Completed, r);
    } else if a.Guide? || a.SendBack? {
      AddKeepsRunner(s.tasks, a.id, a.task, r);
    }
    forall i | 0 <= i < |t.assistants| ensures AssistantOk(t.tasks, r, t.assistants[i]) {
      if i == a.h {
        OwnStep(s, a, t);
      } else {
        OtherStep(s, a, t, s.assistants[i]);
      }
    }
  }

  lemma OwnStep(s: State, a: Action, t: State)
    requires Invariant(s) && Next(s, a, t)
    requires a.Stop? || a.Guide? || a.Observe? || a.GiveUp? || a.SendBack? || a.Complete?
    ensures AssistantOk(t.tasks, TheRunner(s), t.assistants[a.h])
  {
    hide OneRunning, HasRunning;
    assert AssistantOk(s.tasks, TheRunner(s), s.assistants[a.h]);
  }

  lemma OtherStep(s: State, a: Action, t: State, h: Assistant)
    requires Invariant(s) && Next(s, a, t) && h in s.assistants
    requires a.Stop? || a.Guide? || a.Observe? || a.GiveUp? || a.SendBack? || a.Complete?
    ensures AssistantOk(t.tasks, TheRunner(s), h)
  {
    hide OneRunning, RunnerOk;
    var r, me := TheRunner(s), s.assistants[a.h];
    if a.Stop? || a.Complete? {
      assert AssistantOk(s.tasks, r, me) && AssistantOk(s.tasks, r, h);
      WriteKeeps(s.tasks, t.tasks, me.task, if a.Stop? then a.status else Completed, r, h);
    } else if a.Guide? || a.SendBack? {
      AddKeeps(s.tasks, a.id, a.task, r, h);
    }
  }

  // ---- Whole runs ------------------------------------------------------------

  lemma {:induction false} RunInvariant(states: seq<State>, actions: seq<Action>, n: nat, i: nat)
    requires IsRun(states, actions, n) && n <= 1 && i < |states|
    ensures Invariant(states[i])
  {
    hide Invariant, Next, Init;
    if i == 0 {
      InitInvariant(states[0], n);
    } else {
      RunInvariant(states, actions, n, i - 1);
      assert Next(states[i - 1], actions[i - 1], states[i - 1 + 1]);
      StepKeepsInvariant(states[i - 1], actions[i - 1], states[i]);
    }
  }

  /** With a single runner no robot ever has two running tasks and no task two assistants. */
  lemma OneOfEach(states: seq<State>, actions: seq<Action>, n: nat, i: nat)
    requires IsRun(states, actions, n) && n <= 1 && i < |states|
    ensures OneRunning(states[i].tasks) && OneAssistantPerTask(states[i].assistants)
  {
    hide OneRunning, OneAssistantPerTask, IsRun;
    RunInvariant(states, actions, n, i);
  }

  /** With a single runner, in every interleaving, an assistant whose task is still running never
      sees its navigation task completed or failed, and that task leaves pending only when
      an API cancel is written. */
  lemma NavigationBlocked(states: seq<State>, actions: seq<Action>, n: nat, i: nat, h: nat)
    requires IsRun(states, actions, n) && n <= 1 && i < |actions|
    requires h < |states[i].assistants| && states[i].assistants[h].phase.Waiting?
    requires states[i].assistants[h].task in states[i].tasks
    requires states[i].tasks[states[i].assistants[h].task].status == Running
    ensures var nav := states[i].assistants[h].phase.nav;
            && nav in states[i].tasks && nav in states[i + 1].tasks
            && (states[i].tasks[nav].status == Pending || states[i].tasks[nav].status == Cancelled)
            && (actions[i] == Observe(h) ==> states[i + 1].assistants[h].phase == Arrived(nav, Some(Cancelled)))
            && (states[i].tasks[nav].status == Pending && states[i + 1].tasks[nav].status != Pending
                ==> actions[i] == CancelWrite(nav))
  {
    RunInvariant(states, actions, n, i);
    var s, a, t := states[i], actions[i], states[i + 1];
    assert Next(s, a, t);
    assert s.assistants[h] in s.assistants && AssistantOk(s.tasks, TheRunner(s), s.assistants[h]);
    if a.Stop? || a.Complete? {
      assert s.assistants[a.h] in s.assistants && AssistantOk(s.tasks, TheRunner(s), s.assistants[a.h]);
    }
  }

  // ---- How many runners -------------------------------------------------------

  /** In every run with n runners no robot ever has two running tasks. */
  ghost predicate Safe(n: nat) {
    forall states: seq<State>, actions: seq<Action> | IsRun(states, actions, n) ::
      forall i | 0 <= i < |states| :: OneRunning(states[i].tasks)
  }

  /** Two runners check the same robot before either marks its task running: the state after i steps. */
  function Race(n: nat, i: nat): State
    requires n >= 2 && i <= 6
  {
    var job := Task("r", "default", "standby", Absent, Pending, None);
    State(map[0 := if i >= 5 then job.(status := Running) else job,
              1 := if i >= 6 then job.(status := Running) else job],
          [[Polling, Picked(0), Picked(0), Clear(0), Clear(0), Started(0), Started(0)][i],
           [Polling, Polling, Picked(1), Picked(1), Clear(1), Clear(1), Started(1)][i]] + seq(n - 2, _ => Polling),
          [], multiset{})
  }

  const RACE := [Pick(0, 0), Pick(1, 1), Check(0), Check(1), Start(0), Start(1)]

  lemma RaceStep(n: nat, i: nat)
    requires n >= 2 && i < 6
    ensures Next(Race(n, i), RACE[i], Race(n, i + 1))
  {
    var s, t := Race(n, i), Race(n, i + 1);
    if i == 0 || i == 2 || i == 4 {
      assert t.runners == s.runners[0 := t.runners[0]];
    } else {
      assert t.runners == s.runners[1 := t.runners[1]];
    }
    assert !HasRunning(Race(n, 2).tasks, "r");
  }

  lemma TwoRunnersRace(n: nat) returns (states: seq<State>, actions: seq<Action>)
    requires n >= 2
    ensures IsRun(states, actions, n) && |states| == 7 && !OneRunning(states[6].tasks)
  {
    assert Init(Race(n, 0), n) && !OneRunning(Race(n, 6).tasks) by {
      assert Race(n, 6).tasks[0].status == Running && Race(n, 6).tasks[1].status == Running;
    }
    hide Next, Init, Race, OneRunning;
    states, actions := seq(7, i requires 0 <= i < 7 => Race(n, i)), RACE;
    forall i | 0 <= i < |actions| ensures Next(states[i], actions[i], states[i + 1]) {
      RaceStep(n, i);
    }
  }

  /** One runner is safe in every interleaving; two or more never are. */
  lemma SafeExactlyWithOneRunner(n: nat)
    ensures Safe(n) <==> n <= 1
  {
    hide OneRunning, IsRun;
    if n <= 1 {
      forall states: seq<State>, actions: seq<Action>, i | IsRun(states, actions, n) && 0 <= i < |states|
        ensures OneRunning(states[i].tasks)
      {
        RunInvariant(states, actions, n, i);
      }
    } else {
      var states, actions := TwoRunnersRace(n);
    }
  }
}
