/** One iteration of the task runner: dispatch, zone bracket, step loop and cancellation, with the
    other users of the task store at work before each of its store calls. */
module TaskRunner {
  import opened Common
  import opened Tasks
  import opened Safety
  import opened Zones
  import opened Fleet
  import opened Scenarios
  import RobotEngine
  import opened RunnerProtocol
  import Scheduler

  /** What the outside contributes: shutdown at the k-th poll, the steps of API calls and mall
      assistants before the k-th store or bus call, the fate of the k-th publish, and by how many
      milliseconds the sleep after the k-th poll overshoots. */
  datatype Environment = Environment(
    shutdown: nat -> bool,
    others: nat -> seq<(Scheduler.Action, Scheduler.State)>,
    publishOk: nat -> bool,
    oversleep: nat -> nat)

  datatype Outcome =
    | NoPendingTask
    | RobotBusy(id: TaskId)
    | RobotUnknown(id: TaskId)
    | Refused(id: TaskId)         // unknown scenario or missing capability
    | ToAssistant(id: TaskId)
    | ToEngine(id: TaskId, status: Status)
    | Ran(id: TaskId, status: Status, steps: nat)

  function SafeStop(robot: RobotId): Command {
    Command(robot, "safe_stop", Absent)
  }

  predicate NeedsZone(task: Task) {
    Decoded(task.payload).zone != "" && (task.scenario == PATROL || task.scenario == NAVIGATION)
  }

  /** The zone of the task is occupied. */
  predicate Blocked(task: Task, hasCoordinator: bool, locks: Locks) {
    hasCoordinator && NeedsZone(task) && Decoded(task.payload).zone in locks
  }

  /** The lock map while the task executes. */
  function Bracket(task: Task, hasCoordinator: bool, locks: Locks): Locks {
    if hasCoordinator && NeedsZone(task) then locks[Decoded(task.payload).zone := task.robot] else locks
  }

  /** Navigation to a store, and a return to base, which has coordinates instead of a zone. */
  predicate ForEngine(task: Task) {
    task.scenario == NAVIGATE_TO_STORE || (task.scenario == NAVIGATION && Decoded(task.payload).target != "")
  }

  predicate ForAssistant(task: Task, hasAssistant: bool) {
    task.scenario == MALL_ASSISTANT && hasAssistant
  }

  /** The moment of a command: the lock map, and how many polls and protocol steps came before. */
  datatype Sending = Sending(locks: Locks, polls: nat, steps: nat)

  datatype Outbox = Outbox(commands: seq<Command>, sends: seq<Sending>, clock: Time)

  class Runner {
    const store: TaskStore
    const zones: ZoneStore
    const engine: RobotEngine.Engine
    const catalog: map<string, Scenario>
    const registry: map<RobotId, Robot>
    const hasCoordinator: bool
    const hasAssistant: bool
    const hasEngine: bool
    const env: Environment

    var clock: Time                                // milliseconds
    var polls: nat
    var calls: nat                                 // store and bus calls
    var commands: seq<Command>                     // every command handed to the bus
    var completions: seq<(TaskId, Status)>         // onTaskCompleted calls
    var assistants: seq<Scheduler.Assistant>       // mall assistants at work
    var cancels: multiset<TaskId>                  // API cancels between their read and their write
    ghost var log: Log                             // the run of the task protocol so far
    ghost var sends: seq<Sending>                  // the moment of each of the commands
    ghost var pollTimes: seq<Time>                 // the clock at each of the polls

    ghost predicate Valid()
      reads this, store
    {
      && store.Valid() && engine.store == store
      && |sends| == |commands| && |pollTimes| == polls && Paced(env, pollTimes, clock)
      && Sound(log) && |log.polled| == polls
      && Last(log) == Scheduler.State(store.tasks, [At()], assistants, cancels)
    }

    /** Where the runner is in the protocol. */
    ghost function At(): Scheduler.Runner
      reads this
      requires Sound(log)
    {
      Last(log).runners[0]
    }

    /** Task id was closed just now. */
    ghost predicate Closed(id: TaskId, status: Status)
      reads this, store
    {
      && Sound(log) && At() == Scheduler.Polling && id in store.tasks
      && store.tasks[id].status == status && store.tasks[id].completedAt == Some(clock)
    }

    /** The runner has held task id since log g, when `from` polls had been made. */
    ghost predicate Holds(g: Log, from: nat, id: TaskId)
      reads this, store
    {
      Valid() && Waits(g, log) && At() == Scheduler.Started(id) && id in store.tasks && |g.polled| == from <= polls
    }

    /** It holds the task and no poll since then said to stop. */
    ghost predicate Runs(g: Log, from: nat, id: TaskId)
      reads this, store
    {
      Holds(g, from, id) && Undisturbed(env, log, id, from, polls)
    }

    /** It holds the task and a poll since then said to stop. */
    ghost predicate MustStop(g: Log, from: nat, id: TaskId)
      reads this, store
    {
      Holds(g, from, id) && !Undisturbed(env, log, id, from, polls)
    }

    /** The task it has held since g ended just now, cancelled exactly if a poll said to stop. */
    ghost predicate Ended(g: Log, from: nat, id: TaskId, status: Status)
      reads this, store
    {
      && Valid() && Ends(g, log, status, clock) && Closed(id, status) && Terminal(status) && from <= polls
      && (status == Cancelled <==> !Undisturbed(env, log, id, from, polls))
    }

    /** After a step: the runner goes on with the task, or the task has ended and was reported. */
    ghost predicate StepEnded(g: Log, from: nat, id: TaskId, end: Option<Status>, reported: seq<(TaskId, Status)>)
      reads this, store
    {
      if end.None? then Runs(g, from, id) && completions == reported
      else Ended(g, from, id, end.value) && completions == reported + [(id, end.value)]
    }

    /** What was handed to the bus so far, and the time. */
    ghost function Sent(): Outbox
      reads this
    {
      Outbox(commands, sends, clock)
    }

    constructor (store: TaskStore, zones: ZoneStore, engine: RobotEngine.Engine, catalog: map<string, Scenario>,
                 registry: map<RobotId, Robot>, hasCoordinator: bool, hasAssistant: bool, hasEngine: bool,
                 env: Environment)
      requires store.Valid() && engine.store == store && Scheduler.OneRunning(store.tasks)
      ensures Valid() && At() == Scheduler.Polling && this.store == store && this.zones == zones
              && this.engine == engine
      ensures this.catalog == catalog && this.registry == registry && this.env == env
      ensures commands == [] && completions == [] && log.actions == []
    {
      this.store, this.zones, this.engine, this.catalog, this.registry := store, zones, engine, catalog, registry;
      this.hasCoordinator, this.hasAssistant, this.hasEngine, this.env := hasCoordinator, hasAssistant, hasEngine, env;
      clock, polls, calls, commands, completions, assistants, cancels := 0, 0, 0, [], [], [], multiset{};
      log := Log([Scheduler.State(store.tasks, [Scheduler.Polling], [], multiset{})], [], []);
      sends, pollTimes := [], [];
    }

    method Publish(c: Command) returns (ok: bool)
      requires Valid()
      modifies this`commands, this`sends
      ensures Valid() && commands == old(commands) + [c]
      ensures sends == old(sends) + [Sending(zones.locks, polls, |log.actions|)]
      ensures ok == env.publishOk(|old(commands)|)
    {
      ok := env.publishOk(|commands|);
      commands, sends := commands + [c], sends + [Sending(zones.locks, polls, |log.actions|)];
    }

    // ---- Store calls -------------------------------------------------------------------

    /** The steps of the others up to the next store call. */
    method LetOthersWork()
      requires Valid()
      modifies store, this`assistants, this`cancels, this`calls, this`log
      ensures Valid() && Waits(old(log), log) && calls == old(calls) + 1
      ensures log == Joined(old(log), env.others(old(calls)), old(store.nextId))
    {
      hide Continues, Own, Sound, Joined, Played;
      WaitsNow(log);
      var todo := env.others(calls);
      calls := calls + 1;
      JoinedNone(log, todo, store.nextId);
      for i := 0 to |todo|
        invariant Valid() && Waits(old(log), log) && calls == old(calls) + 1
        invariant log == Joined(old(log), todo[..i], old(store.nextId))
        invariant store.nextId == old(store.nextId) + |log.actions| - |old(log).actions|
      {
        ghost var g := log;
        LetOther(todo[i].0, todo[i].1);
        JoinedOneMore(old(log), todo, i, old(store.nextId));
        WaitsOn(old(log), g, log);
      }
      assert todo[..|todo|] == todo;
    }

    /** Step a to state t, if the others can take it. */
    method LetOther(a: Scheduler.Action, t: Scheduler.State)
      requires Valid()
      modifies store, this`assistants, this`cancels, this`log
      ensures Valid() && Waits(old(log), log) && log == Played(old(log), a, t, old(store.nextId))
      ensures store.nextId == old(store.nextId) + |log.actions| - |old(log).actions|
    {
      hide Scheduler.Next, Sound, Own, Kept;
      WaitsNow(log);
      var s := Scheduler.State(store.tasks, [], assistants, cancels);
      assert Last(log).(runners := []) == s;
      if !ByRunner(a) && Scheduler.Next(s, a, t) && t.tasks.Keys <= s.tasks.Keys + {store.nextId} {
        OthersStep(log, a, t);
        log := Logged(log, a, t.(runners := Last(log).runners));
        store.tasks, store.nextId := t.tasks, store.nextId + 1;
        assistants, cancels := t.assistants, t.cancels;
      }
    }

    /** The runner takes step a of the protocol and is then at r. */
    ghost method Record(a: Scheduler.Action, r: Scheduler.Runner)
      requires Sound(log) && ByRunner(a)
      requires Scheduler.Next(Last(log), a, Scheduler.State(store.tasks, [r], assistants, cancels))
      modifies this`log
      ensures Continues(old(log), log) && Last(log) == Scheduler.State(store.tasks, [r], assistants, cancels)
      ensures log == Logged(old(log), a, Last(log)) && Own(log.actions) == Own(old(log).actions) + [a]
    {
      LogStep(log, a, Scheduler.State(store.tasks, [r], assistants, cancels));
      log := Logged(log, a, Scheduler.State(store.tasks, [r], assistants, cancels));
    }

    /** Lists the pending tasks and picks the first. */
    method PickPending() returns (r: Option<(TaskId, Task)>)
      requires Valid() && At() == Scheduler.Polling
      modifies store, this`assistants, this`cancels, this`calls, this`log
      ensures Valid() && Continues(old(log), log) && calls == old(calls) + 1
      ensures r.None? ==> && Own(log.actions) == Own(old(log).actions) && At() == Scheduler.Polling
                          && forall id | id in store.tasks :: store.tasks[id].status != Pending
      ensures r.Some? ==> var (id, task) := r.value;
                          && Own(log.actions) == Own(old(log).actions) + [Scheduler.Pick(0, id)]
                          && At() == Scheduler.Picked(id) && id in store.tasks && SameJob(task, store.tasks[id])
    {
      hide Sound, Own, Kept;
      LetOthersWork();
      var pending := store.List("", "", Some(Pending));
      if |pending| == 0 {
        assert forall id | id in store.tasks :: id !in pending;
        return None;
      }
      var id := pending[0];
      assert id in pending;
      ghost var g := log;
      MoveOne(At(), Scheduler.Picked(id));
      Record(Scheduler.Pick(0, id), Scheduler.Picked(id));
      ContinuesOn(old(log), g, log);
      return Some((id, store.tasks[id]));
    }

    /** Asks whether the robot of the picked task has a running one. */
    method IsBusy(id: TaskId, robot: RobotId) returns (busy: bool)
      requires Valid() && At() == Scheduler.Picked(id) && id in store.tasks && store.tasks[id].robot == robot
      modifies store, this`assistants, this`cancels, this`calls, this`log
      ensures Valid() && Continues(old(log), log) && id in store.tasks && calls == old(calls) + 1
      ensures Own(log.actions) == Own(old(log).actions) + [Scheduler.Check(0)]
      ensures busy <==> HasRunning(store.tasks, robot)
      ensures At() == if busy then Scheduler.Polling else Scheduler.Clear(id)
    {
      hide Sound, Own, HasRunning;
      LetOthersWork();
      busy := store.HasRunningForRobot(robot);
      ghost var g, r := log, if busy then Scheduler.Polling else Scheduler.Clear(id);
      MoveOne(At(), r);
      Record(Scheduler.Check(0), r);
      ContinuesOn(old(log), g, log);
    }

    /** Leaves a task alone whose robot is not registered; no store call. */
    ghost method Abandon(id: TaskId)
      requires Valid() && At() == Scheduler.Clear(id)
      modifies this`log
      ensures Valid() && Continues(old(log), log) && At() == Scheduler.Polling
      ensures Own(log.actions) == Own(old(log).actions) + [Scheduler.Abandon(0)]
    {
      hide Sound, Own, Kept;
      MoveOne(At(), Scheduler.Polling);
      Record(Scheduler.Abandon(0), Scheduler.Polling);
    }

    /** Fails a task that was not started, and reports it. */
    method Refuse(id: TaskId)
      requires Valid() && At() == Scheduler.Clear(id)
      modifies store, this`assistants, this`cancels, this`calls, this`log, this`completions
      ensures Valid() && Continues(old(log), log) && At() == Scheduler.Polling
      ensures Own(log.actions) == Own(old(log).actions) + [Scheduler.Reject(0, clock)]
      ensures completions == old(completions) + [(id, Failed)] && calls == old(calls) + 1
    {
      hide Sound, Own, Kept, Close;
      LetOthersWork();
      store.UpdateStatusAndCompletedAt(id, Failed, clock);
      completions := completions + [(id, Failed)];
      ghost var g := log;
      MoveOne(Last(g).runners[0], Scheduler.Polling);
      Record(Scheduler.Reject(0, clock), Scheduler.Polling);
      ContinuesOn(old(log), g, log);
    }

    method MarkRunning(id: TaskId)
      requires Valid() && At() == Scheduler.Clear(id)
      modifies store, this`assistants, this`cancels, this`calls, this`log
      ensures Valid() && Continues(old(log), log) && At() == Scheduler.Started(id)
      ensures Own(log.actions) == Own(old(log).actions) + [Scheduler.Start(0)]
      ensures JustMarked(log, id) && |log.actions| > |old(log).actions| && calls == old(calls) + 1
    {
      hide Sound, Own, Kept, SetStatus;
      LetOthersWork();
      store.UpdateStatus(id, Running);
      ghost var g := log;
      MoveOne(Last(g).runners[0], Scheduler.Started(id));
      Marked(g, Scheduler.State(store.tasks, [Scheduler.Started(id)], assistants, cancels), id);
      Record(Scheduler.Start(0), Scheduler.Started(id));
      ContinuesOn(old(log), g, log);
    }

    /** Hands a started task to a mall assistant; no store call. */
    method SpawnAssistant(id: TaskId, robot: RobotId)
      requires Valid() && At() == Scheduler.Started(id) && id in store.tasks
      requires store.tasks[id].scenario == MALL_ASSISTANT && store.tasks[id].robot == robot
      modifies this`assistants, this`log
      ensures Valid() && Continues(old(log), log) && At() == Scheduler.Polling
      ensures Own(log.actions) == Own(old(log).actions) + [Scheduler.Spawn(0)]
    {
      hide Sound, Own, Kept;
      assistants := assistants + [Scheduler.Assistant(id, robot, Scheduler.Listening)];
      MoveOne(Last(log).runners[0], Scheduler.Polling);
      Record(Scheduler.Spawn(0), Scheduler.Polling);
    }

    /** The others work while the runner holds a task. */
    method WaitHolding(ghost g: Log, ghost from: nat, id: TaskId)
      requires Holds(g, from, id)
      modifies store, this`assistants, this`cancels, this`calls, this`log
      ensures Holds(g, from, id) && calls == old(calls) + 1 && Continues(old(log), log) && log.polled == old(log).polled
      ensures Undisturbed(env, log, id, from, polls) <==> old(Undisturbed(env, log, id, from, polls))
    {
      hide Sound, Own, Undisturbed, Kept, Joined, Paced;
      LetOthersWork();
      WaitsOn(g, old(log), log);
      UndisturbedOn(env, old(log), log, id, from, polls);
      StillThere(old(log), log, id);
    }

    /** Closes a started task and reports it. */
    method Settle(ghost g: Log, ghost from: nat, id: TaskId, status: Status)
      requires Terminal(status) && (if status == Cancelled then MustStop(g, from, id) else Runs(g, from, id))
      modifies store, this`assistants, this`cancels, this`calls, this`log, this`completions
      ensures Ended(g, from, id, status) && Continues(old(log), log)
      ensures completions == old(completions) + [(id, status)] && calls == old(calls) + 1
    {
      hide Sound, Own, Undisturbed, Kept, Terminal, Paced;
      WaitHolding(g, from, id);
      ghost var held := log;
      store.UpdateStatusAndCompletedAt(id, status, clock);
      completions := completions + [(id, status)];
      RecordFinish(g, status);
      UndisturbedOn(env, held, log, id, from, polls);
      ContinuesOn(old(log), held, log);
    }

    /** The store has just been told that the started task ended. */
    ghost method RecordFinish(g: Log, status: Status)
      requires Waits(g, log) && Last(log).runners[0].Started? && |Last(log).runners| == 1 && Terminal(status)
      requires Last(log) == Scheduler.State(Last(log).tasks, [Last(log).runners[0]], assistants, cancels)
      requires store.tasks == Close(Last(log).tasks, Last(log).runners[0].id, status, clock)
      modifies this`log
      ensures Ends(g, log, status, clock) && Continues(old(log), log) && log.polled == old(log).polled
      ensures Last(log) == Scheduler.State(store.tasks, [Scheduler.Polling], assistants, cancels)
    {
      hide Sound, Own, Close;
      var t := Scheduler.State(store.tasks, [Scheduler.Polling], assistants, cancels);
      MoveOne(Last(log).runners[0], Scheduler.Polling);
      assert Scheduler.Next(Last(log), Scheduler.Finish(0, status, clock), t);
      FinishEnds(g, log, status, clock, t);
      log := Logged(log, Scheduler.Finish(0, status, clock), t);
    }

    // ---- Polling and the step loop ---------------------------------------------------------

    /** A poll for shutdown or cancellation. */
    method Stopped(ghost g: Log, ghost from: nat, id: TaskId) returns (stop: bool)
      requires Runs(g, from, id)
      modifies store, this`assistants, this`cancels, this`calls, this`log, this`polls, this`pollTimes
      ensures polls == old(polls) + 1 && calls == old(calls) + 1 && id in store.tasks && Continues(old(log), log)
      ensures stop <==> env.shutdown(old(polls)) || store.tasks[id].status == Cancelled
      ensures if stop then MustStop(g, from, id) else Runs(g, from, id)
      ensures pollTimes == old(pollTimes) + [clock]
    {
      hide Own, Sound, Undisturbed, Continues, Paced, Joined;
      LetOthersWork();
      WaitsOn(g, old(log), log);
      StillThere(old(log), log, id);
      stop := env.shutdown(polls);
      ghost var noted := log.(polled := log.polled + [|log.actions|]);
      NoteRead(log);
      WaitsOn(g, log, noted);
      ContinuesOn(old(log), log, noted);
      PollDecides(env, old(log), log, id, from);
      PollPaced(env, pollTimes, clock);
      polls, log, pollTimes := polls + 1, noted, pollTimes + [clock];
      if !stop {
        var t := store.Get(id);
        stop := t.Some? && t.value.status == Cancelled;
      }
    }

    /** Holds a step until its deadline, polling before every sleep of 500 ms. */
    method Hold(ghost g: Log, ghost from: nat, id: TaskId, seconds: int) returns (stop: bool)
      requires Runs(g, from, id)
      modifies store, this`assistants, this`cancels, this`calls, this`log, this`polls, this`pollTimes, this`clock
      ensures if stop then MustStop(g, from, id) else Runs(g, from, id)
      ensures Continues(old(log), log) && HeldFor(env, seconds, old(polls), polls, old(clock), clock, stop)
    {
      hide *;
      stop := false;
      PollsCounted(g, from, id);
      ContinuesNow(log);
      HoldingStarts(env, seconds, polls, clock);
      var deadline := clock + 1000 * seconds;
      while clock < deadline
        invariant Runs(g, from, id) && Continues(old(log), log)
        invariant Holding(env, seconds, old(polls), polls, old(clock), clock)
        decreases deadline - clock
      {
        ghost var before := log;
        HoldingGoesOn(env, seconds, old(polls), polls, old(clock), clock);
        stop := Stopped(g, from, id);
        ContinuesOn(old(log), before, log);
        if stop {
          return;
        }
        Sleep(g, from, id);
      }
      HoldingEnds(env, seconds, old(polls), polls, old(clock), clock);
    }

    /** Sleeps for 500 ms or more, directly after a poll. */
    method Sleep(ghost g: Log, ghost from: nat, id: TaskId)
      requires Runs(g, from, id) && pollTimes != [] && pollTimes[|pollTimes| - 1] == clock && polls > 0
      modifies this`clock
      ensures Runs(g, from, id) && clock == old(clock) + 500 + env.oversleep(polls - 1)
    {
      hide Undisturbed, Waits, Sound, Paced;
      SleepPaced(env, pollTimes, clock);
      clock := clock + 500 + env.oversleep(polls - 1);
    }

    /** Hands a command to the bus after a poll made since log f. */
    method Send(ghost f: Log, ghost g: Log, ghost from: nat, id: TaskId, cmd: Command) returns (ok: bool)
      requires Runs(g, from, id) && Continues(f, log) && |f.polled| + 1 == polls && from <= |f.polled|
      modifies store, this`assistants, this`cancels, this`calls, this`log, this`commands, this`sends
      ensures Runs(g, from, id) && Continues(f, log) && commands == old(commands) + [cmd]
      ensures |sends| == |old(sends)| + 1 && SameViews(old(sends), sends, zones.locks)
      ensures AfterPoll(env, log, id, |f.polled|, |f.actions|, |old(sends)|, sends)
      ensures ok == env.publishOk(|old(commands)|)
    {
      hide Undisturbed, Waits, Sound, Paced, Continues, AfterPoll;
      WaitHolding(g, from, id);
      ContinuesOn(f, old(log), log);
      ok := Publish(cmd);
      AfterPollNow(env, f, log, id, from, sends);
    }

    /** Safety check and publish, after a poll made since log f. */
    method Deliver(ghost f: Log, ghost g: Log, ghost from: nat, id: TaskId, robot: RobotId, cmd: Command)
        returns (end: Option<Status>, sent: bool)
      requires Runs(g, from, id) && Continues(f, log) && |f.polled| + 1 == polls && from <= |f.polled|
      modifies store, this`assistants, this`cancels, this`calls, this`log
      modifies this`commands, this`sends, this`completions
      ensures end.None? || end == Some(Failed)
      ensures StepDone(env, cmd, robot, end, sent, f, log, id, old(commands), commands, old(sends), sends, zones.locks)
      ensures StepEnded(g, from, id, end, old(completions))
    {
      hide ArbiterAllow, SafeStop, Runs, Ended, Continues, AfterPoll;
      end, sent := None, ArbiterAllow(cmd);
      ghost var held, ok := log, false;
      if sent {
        var published := Send(f, g, from, id, cmd);
        held, ok := log, published;
        if !published {
          end := Some(Failed);
        }
      } else {
        end := Some(Failed);
      }
      if end.Some? {
        Settle(g, from, id, Failed);
        ContinuesOn(f, held, log);
        if sent {
          AfterPollOn(env, held, log, id, |f.polled|, |f.actions|, |old(sends)|, sends, sends);
        }
      }
    }

    /** The first half of a step: poll, safety check and publish. */
    method Launch(ghost g: Log, ghost from: nat, id: TaskId, robot: RobotId, cmd: Command)
        returns (end: Option<Status>, sent: bool)
      requires Runs(g, from, id)
      modifies store, this`assistants, this`cancels, this`calls, this`log, this`polls, this`pollTimes
      modifies this`commands, this`sends, this`completions
      ensures polls == old(polls) + 1 && (sent ==> end != Some(Cancelled))
      ensures end.None? || end == Some(Failed) || end == Some(Cancelled)
      ensures StepDone(env, cmd, robot, end, sent, old(log), log, id, old(commands), commands, old(sends), sends,
                       zones.locks)
      ensures StepEnded(g, from, id, end, old(completions))
    {
      hide ArbiterAllow, SafeStop, Runs, MustStop, Ended, Continues, AfterPoll;
      PollsCounted(g, from, id);
      var stop := Stopped(g, from, id);
      if stop {
        ghost var polled := log;
        CancelTask(g, from, id, robot);
        ContinuesOn(old(log), polled, log);
        end, sent := Some(Cancelled), false;
      } else {
        hide StepDone, StepEnded;
        end, sent := Deliver(old(log), g, from, id, robot, cmd);
      }
    }

    lemma PollsCounted(g: Log, from: nat, id: TaskId)
      requires Runs(g, from, id)
      ensures Sound(log) && |log.polled| == polls && from <= polls
    {
    }

    /** One turn of the step loop: None to go on, or the status that ended the task. */
    method RunStep(ghost g: Log, ghost from: nat, id: TaskId, task: Task, step: Step)
        returns (end: Option<Status>, sent: bool)
      requires Runs(g, from, id)
      modifies store, this`assistants, this`cancels, this`calls, this`log, this`polls, this`pollTimes, this`clock
      modifies this`commands, this`sends, this`completions
      ensures end.None? || end == Some(Failed) || end == Some(Cancelled)
      ensures StepDone(env, StepCommand(task, step), task.robot, end, sent, old(log), log, id, old(commands), commands,
                       old(sends), sends, zones.locks)
      ensures StepEnded(g, from, id, end, old(completions))
      // One poll before the command, and the polls of its hold.
      ensures if sent && end != Some(Failed)
              then HeldFor(env, HoldSeconds(step, task.payload), old(polls) + 1, polls, old(clock), clock,
                           end == Some(Cancelled))
              else polls == old(polls) + 1 && clock == old(clock)
    {
      hide ArbiterAllow, StepCommand, SafeStop, HoldSeconds, Runs, MustStop, Ended, Continues, StepDone, HeldFor;
      end, sent := Launch(g, from, id, task.robot, StepCommand(task, step));
      if end.None? {
        ghost var launched, launchedCommands, launchedSends := log, commands, sends;
        NextStepSent(env, StepCommand(task, step), task.robot, end, sent, old(log), log, id, old(commands), commands,
                     old(sends), sends, zones.locks);
        var stop := Hold(g, from, id, HoldSeconds(step, task.payload));
        if stop {
          ghost var held := log;
          CancelTask(g, from, id, task.robot);
          ContinuesOn(launched, held, log);
          end := Some(Cancelled);
        }
        StepHeld(env, StepCommand(task, step), task.robot, end, old(log), launched, log, id,
                 old(commands), launchedCommands, commands, old(sends), launchedSends, sends, zones.locks);
      }
    }

    method CancelTask(ghost g: Log, ghost from: nat, id: TaskId, robot: RobotId)
      requires MustStop(g, from, id)
      modifies store, this`assistants, this`cancels, this`calls, this`log, this`completions, this`commands, this`sends
      ensures Ended(g, from, id, Cancelled) && Continues(old(log), log)
      ensures completions == old(completions) + [(id, Cancelled)]
      ensures commands == old(commands) + [SafeStop(robot)]
      ensures old(sends) <= sends && SameViews(old(sends), sends, zones.locks)
    {
      hide Undisturbed, Ends, Continues, Paced, Waits;
      Settle(g, from, id, Cancelled);
      var stop := SafeStop(robot);
      if ArbiterAllow(stop) {
        var _ := Publish(stop);
      }
    }

    /** The step loop. `steps` counts the scenario commands handed to the bus. */
    method RunSteps(ghost g: Log, ghost from: nat, id: TaskId, task: Task, scenario: Scenario)
        returns (status: Status, steps: nat)
      requires Runs(g, from, id)
      modifies store, this`assistants, this`cancels, this`calls, this`log, this`polls, this`pollTimes, this`clock
      modifies this`commands, this`sends, this`completions
      ensures StepEnded(g, from, id, Some(status), old(completions))
      ensures LoopDone(env, Plan(scenario, task), task.robot, status, steps, log, id, from, old(commands), commands,
                       old(sends), sends, zones.locks)
      ensures HeldAll(scenario, task.payload, status, old(clock), clock)
    {
      hide *;
      ghost var plan := Plan(scenario, task);
      PollsCounted(g, from, id);
      LoopStarts(env, plan, log, id, from, commands, sends, zones.locks);
      HeldNone(scenario, task.payload);
      PlanSize(scenario, task);
      Begins(g, from, id);
      for i := 0 to |scenario.steps|
        invariant StepEnded(g, from, id, None, old(completions))
        invariant LoopRuns(env, plan, i, log, id, from, old(commands), commands, old(sends), sends, zones.locks)
        invariant clock >= old(clock) + 1000 * TotalHeld(scenario, task.payload, i)
      {
        ghost var mid, mids, loop, begun, p := commands, sends, log, clock, polls;
        PlanAt(scenario, task, i);
        GoesOn(g, from, id, old(completions));
        var end, sent := RunStep(g, from, id, task, scenario.steps[i]);
        LoopSteps(env, plan, i, task.robot, end, sent, loop, log, id, from, old(commands), mid, commands,
                  old(sends), mids, sends, zones.locks);
        if end.Some? {
          HeldAllOr(scenario, task.payload, end.value, old(clock), clock);
          return end.value, if sent then i + 1 else i;
        }
        NextStepSent(env, plan[i], task.robot, end, sent, loop, log, id, mid, commands, mids, sends, zones.locks);
        HeldNext(env, scenario, task.payload, i, p + 1, polls, begun, clock);
      }
      GoesOn(g, from, id, old(completions));
      ghost var loop := log;
      Settle(g, from, id, Completed);
      LoopEnds(env, plan, task.robot, loop, log, id, from, old(commands), commands, old(sends), sends, zones.locks);
      Reports(g, from, id, Completed, old(completions));
      HeldAllDone(scenario, task.payload, old(clock), clock);
      return Completed, |scenario.steps|;
    }

    lemma Begins(g: Log, from: nat, id: TaskId)
      requires Runs(g, from, id)
      ensures StepEnded(g, from, id, None, completions)
    {
    }

    lemma GoesOn(g: Log, from: nat, id: TaskId, reported: seq<(TaskId, Status)>)
      requires StepEnded(g, from, id, None, reported)
      ensures Runs(g, from, id) && completions == reported && Terminal(Completed)
    {
    }

    lemma Reports(g: Log, from: nat, id: TaskId, status: Status, reported: seq<(TaskId, Status)>)
      requires Ended(g, from, id, status) && completions == reported + [(id, status)]
      ensures StepEnded(g, from, id, Some(status), reported)
    {
    }

    lemma RunsNow(id: TaskId)
      requires Valid() && At() == Scheduler.Started(id) && id in store.tasks
      ensures Runs(log, polls, id)
    {
      WaitsNow(log);
      UndisturbedNow(env, log, id, polls);
    }

    /** Zone bracket around the step loop. */
    method RunInline(ghost g: Log, ghost from: nat, id: TaskId, task: Task, scenario: Scenario)
        returns (status: Status, steps: nat)
      requires Runs(g, from, id)
      modifies store, zones, this`assistants, this`cancels, this`calls, this`log, this`polls, this`pollTimes, this`clock
      modifies this`commands, this`sends, this`completions
      // The task was cancelled exactly if a poll told it to stop.
      ensures StepEnded(g, from, id, Some(status), old(completions))
      // A completed task held every step for its full duration.
      ensures HeldAll(scenario, task.payload, status, old(clock), clock)
      // The lock map is restored. An occupied zone fails the task at once; otherwise a zone task
      // held its zone at every command.
      ensures zones.locks == old(zones.locks)
      ensures Zoned(task, hasCoordinator, old(zones.locks), status, old(Sent()), Sent())
      ensures if Blocked(task, hasCoordinator, old(zones.locks))
              then status == Failed && steps == 0 && commands == old(commands) && sends == old(sends)
              else LoopDone(env, Plan(scenario, task), task.robot, status, steps, log, id, from,
                            old(commands), commands, old(sends), sends, Bracket(task, hasCoordinator, old(zones.locks)))
    {
      hide NeedsZone, Blocked, Bracket, Runs, Ended, LoopDone, Continues, Zoned;
      ghost var locks := zones.locks;
      ZoneRule(task, hasCoordinator, locks);
      var zone := Decoded(task.payload).zone;
      if hasCoordinator && NeedsZone(task) {
        var acquired := zones.AcquireZone(task.robot, zone);
        if !acquired {
          Settle(g, from, id, Failed);
          ZonedBlocked(task, hasCoordinator, zones.locks, Sent(), Sent());
          return Failed, 0;
        }
        status, steps := RunSteps(g, from, id, task, scenario);
        var _ := zones.ReleaseZone(task.robot, zone);
      } else {
        status, steps := RunSteps(g, from, id, task, scenario);
      }
      ZonedLoop(env, Plan(scenario, task), status, steps, log, id, from, task, hasCoordinator, locks,
                old(Sent()), Sent());
    }

    // ---- Dispatch ------------------------------------------------------------------------

    /** Runs a started task on the execution engine, whose navigation answers `nav`. */
    method RunEngine(id: TaskId, task: Task, nav: RobotEngine.NavigationResult) returns (handled: bool, status: Status)
      requires Valid() && At() == Scheduler.Started(id) && id in store.tasks && ForEngine(task)
      modifies store, engine, engine.manager, this`assistants, this`cancels, this`calls, this`log
      ensures handled && calls == old(calls) + 1
      ensures status == RobotEngine.FinalStatus(RobotEngine.TaskResult(task, nav), engine.timeoutAsCompletion)
      ensures Valid() && Ends(old(log), log, status, clock) && Closed(id, status) && At() == Scheduler.Polling
      ensures EngineReported(task, nav, engine.timeoutAsCompletion, ToEngine(id, status),
                             old(engine.completions), engine.completions)
      ensures var r := RobotEngine.TaskResult(task, nav);
              engine.manager.ctxs == RobotEngine.EngineStep(
                old(engine.manager.ctxs),
                if task.scenario == NAVIGATION then RobotEngine.Return else RobotEngine.Navigate,
                id, task, r, RobotEngine.Succeeds(r, engine.timeoutAsCompletion))
    {
      hide Sound, Own, Kept, Joined, Paced, Close;
      hide RobotEngine.EngineStep, RobotEngine.Broadcasts, RobotEngine.StateOf, RobotEngine.AtRest;
      LetOthersWork();
      StillThere(old(log), log, id);
      handled := engine.ExecuteTaskEntry(id, task, nav, clock);
      status := RobotEngine.FinalStatus(RobotEngine.TaskResult(task, nav), engine.timeoutAsCompletion);
      RecordFinish(old(log), status);
    }

    /** A marked task goes to the assistant, to the engine or through the step loop. */
    method Execute(id: TaskId, task: Task, scenario: Scenario, nav: RobotEngine.NavigationResult) returns (o: Outcome)
      requires Valid() && At() == Scheduler.Started(id) && JustMarked(log, id)
      requires id in store.tasks && SameJob(task, store.tasks[id])
      requires Runnable(task, catalog, registry) && task.scenario in catalog && scenario == catalog[task.scenario]
      modifies store, zones, engine, engine.manager, this
      ensures Valid() && At() == Scheduler.Polling && zones.locks == old(zones.locks) && Continues(old(log), log)
      ensures (o.ToAssistant? || o.ToEngine? || o.Ran?) && o.id == id
      ensures Own(log.actions) == Own(old(log).actions) +
                [if o.ToAssistant? then Scheduler.Spawn(0) else Scheduler.Finish(0, o.status, clock)]
      ensures Chosen(task, registry, catalog, hasAssistant, hasEngine, o) && Reported(o, old(completions), completions)
      ensures EngineReported(task, nav, engine.timeoutAsCompletion, o, old(engine.completions), engine.completions)
      ensures Commanded(task, catalog, hasCoordinator, old(zones.locks), env, o, old(Sent()), Sent())
      ensures o.Ran? ==> && CancelledFor(env, log, |old(log).actions| - 1, id, old(polls), polls, o.status)
                         && Guarded(env, log, id, old(polls), sends, |old(sends)|, o.steps)
                         && Prompt(log, |old(log).actions| - 1, id, sends, |old(sends)|, o.steps)
    {
      hide Sound, Own, Continues, Ends, CancelledFor, Guarded, Prompt, LoopDone, Blocked, Bracket, Plan, HeldAll;
      hide Runnable, JustMarked, Commanded, Paced, Chosen, EngineReported;
      hide RobotEngine.FinalStatus, RobotEngine.TaskResult, RobotEngine.EngineStep, RobotEngine.Succeeds, Closed;
      if ForAssistant(task, hasAssistant) {
        SpawnAssistant(id, task.robot);
        NothingSent(task, catalog, hasCoordinator, zones.locks, env, ToAssistant(id), Sent());
        Delegated(task, registry, catalog, hasAssistant, hasEngine, ToAssistant(id));
        NotByEngine(task, nav, engine.timeoutAsCompletion, ToAssistant(id), engine.completions);
        return ToAssistant(id);
      }
      if hasEngine && ForEngine(task) {
        var handled, status := RunEngine(id, task, nav);
        if handled {
          EndsOwn(old(log), log, status, clock);
          NothingSent(task, catalog, hasCoordinator, zones.locks, env, ToEngine(id, status), Sent());
          Delegated(task, registry, catalog, hasAssistant, hasEngine, ToEngine(id, status));
          return ToEngine(id, status);
        }
      }
      var status, steps := RunMarked(id, task, scenario);
      Delegated(task, registry, catalog, hasAssistant, hasEngine, Ran(id, status, steps));
      NotByEngine(task, nav, engine.timeoutAsCompletion, Ran(id, status, steps), engine.completions);
      return Ran(id, status, steps);
    }

    /** The step loop of a task that was just marked. */
    method RunMarked(id: TaskId, task: Task, scenario: Scenario) returns (status: Status, steps: nat)
      requires Valid() && At() == Scheduler.Started(id) && id in store.tasks && JustMarked(log, id)
      requires task.scenario in catalog && scenario == catalog[task.scenario]
      modifies store, zones, this
      ensures Valid() && At() == Scheduler.Polling && zones.locks == old(zones.locks) && Continues(old(log), log)
      ensures Own(log.actions) == Own(old(log).actions) + [Scheduler.Finish(0, status, clock)]
      ensures completions == old(completions) + [(id, status)]
      ensures CancelledFor(env, log, |old(log).actions| - 1, id, old(polls), polls, status)
      ensures Guarded(env, log, id, old(polls), sends, |old(sends)|, steps)
      ensures Prompt(log, |old(log).actions| - 1, id, sends, |old(sends)|, steps)
      ensures Commanded(task, catalog, hasCoordinator, old(zones.locks), env, Ran(id, status, steps),
                        old(Sent()), Sent())
    {
      hide Sound, Own, Continues, Ends, Undisturbed, CancelledFor, Traced, FailedExactly, SameViews, Plan, HeldAll,
           Paced;
      hide Blocked, Bracket, Prompt, Commanded, Zoned;
      RunsNow(id);
      status, steps := RunInline(log, polls, id, task, scenario);
      EndsOwn(old(log), log, status, clock);
      CancelCause(env, old(log), log, id, status, clock, old(polls), polls);
      CancelIsPrompt(env, old(log), log, id, status, clock, sends, |old(sends)|, steps);
      RanAs(task, catalog, hasCoordinator, old(zones.locks), env, id, status, steps, old(Sent()), Sent());
    }

    /** A task that may start is refused, or marked running and executed. */
    method Take(id: TaskId, task: Task, nav: RobotEngine.NavigationResult) returns (o: Outcome)
      requires Valid() && At() == Scheduler.Clear(id)
      requires id in store.tasks && SameJob(task, store.tasks[id]) && task.robot in registry
      modifies store, zones, engine, engine.manager, this
      ensures Valid() && At() == Scheduler.Polling && zones.locks == old(zones.locks) && Continues(old(log), log)
      ensures (o.Refused? || o.ToAssistant? || o.ToEngine? || o.Ran?) && o.id == id
      ensures Own(log.actions) == Own(old(log).actions) + Fate(o, clock)
      ensures Chosen(task, registry, catalog, hasAssistant, hasEngine, o) && Reported(o, old(completions), completions)
      ensures EngineReported(task, nav, engine.timeoutAsCompletion, o, old(engine.completions), engine.completions)
      ensures Commanded(task, catalog, hasCoordinator, old(zones.locks), env, o, old(Sent()), Sent())
      ensures o.Ran? ==> CancelledAsTold(env, old(log), log, id, old(polls), polls, sends, |old(sends)|, o.status,
                                         o.steps)
    {
      hide Sound, Own, Continues, JustMarked, CancelledFor, Guarded, Prompt, CancelledAsTold, ForEngine, ForAssistant;
      hide Traced, FailedExactly, Plan, HeldAll, Blocked, Paced;
      if task.scenario !in catalog {
        Refuse(id);
        return Refused(id);
      }
      var scenario := catalog[task.scenario];
      var able := HasCapability(Some(registry[task.robot]), scenario.required);
      if !able {
        Refuse(id);
        return Refused(id);
      }
      MarkRunning(id);
      ghost var marked := log;
      JobStays(old(log), marked, id, task);
      o := Execute(id, task, scenario, nav);
      ContinuesOn(old(log), marked, log);
      if o.Ran? {
        AsTold(env, old(log), marked, log, id, old(polls), polls, sends, |old(sends)|, o.status, o.steps);
      }
    }

    /** What becomes of a picked task. */
    method Consider(id: TaskId, task: Task, nav: RobotEngine.NavigationResult) returns (o: Outcome)
      requires Valid() && At() == Scheduler.Picked(id) && id in store.tasks && SameJob(task, store.tasks[id])
      modifies store, zones, engine, engine.manager, this
      ensures Valid() && At() == Scheduler.Polling && zones.locks == old(zones.locks) && Continues(old(log), log)
      ensures !o.NoPendingTask? && o.id == id && id in store.tasks
      ensures Own(log.actions) == Own(old(log).actions) + [Scheduler.Check(0)] + Fate(o, clock)
      ensures var task := store.tasks[id];
              && Chosen(task, registry, catalog, hasAssistant, hasEngine, o)
              && EngineReported(task, nav, engine.timeoutAsCompletion, o, old(engine.completions), engine.completions)
              && Commanded(task, catalog, hasCoordinator, old(zones.locks), env, o, old(Sent()), Sent())
              && (o.RobotBusy? ==> HasRunning(store.tasks, task.robot))
      ensures Reported(o, old(completions), completions)
      ensures o.Ran? ==> CancelledAsTold(env, old(log), log, o.id, old(polls), polls, sends, |old(sends)|, o.status,
                                         o.steps)
    {
      hide Sound, Own, Kept, CancelledAsTold, Continues, HasRunning, Runnable, Traced, Plan;
      var busy := IsBusy(id, task.robot);
      JobStays(old(log), log, id, task);
      if busy {
        return RobotBusy(id);
      }
      ghost var g := log;
      if task.robot !in registry {
        Abandon(id);
        ContinuesOn(old(log), g, log);
        return RobotUnknown(id);
      }
      hide EngineReported, Commanded, Chosen;
      o := Take(id, task, nav);
      ContinuesOn(old(log), g, log);
      JobStays(g, log, id, task);
      SameFate(task, store.tasks[id], registry, catalog, hasAssistant, hasEngine, o);
      SameReport(task, store.tasks[id], nav, engine.timeoutAsCompletion, o, old(engine.completions),
                 engine.completions);
      SameCommands(task, store.tasks[id], catalog, hasCoordinator, old(zones.locks), env, o, old(Sent()), Sent());
      if o.Ran? {
        AsToldSince(env, old(log), g, log, id, old(polls), polls, sends, |old(sends)|, o.status, o.steps);
      }
    }

    /** runOne; `nav` is the answer of the engine's navigation if it comes to that. */
    method RunOne(nav: RobotEngine.NavigationResult) returns (o: Outcome)
      requires Valid() && At() == Scheduler.Polling
      modifies store, zones, engine, engine.manager, this
      ensures Valid() && At() == Scheduler.Polling && zones.locks == old(zones.locks) && Continues(old(log), log)
      ensures Own(log.actions) == Own(old(log).actions) + Script(o, clock)
      ensures Reported(o, old(completions), completions)
      ensures o.NoPendingTask? ==> && (forall id | id in store.tasks :: store.tasks[id].status != Pending)
                                   && commands == old(commands) && engine.completions == old(engine.completions)
      ensures !o.NoPendingTask? ==>
                && o.id in store.tasks
                && var task := store.tasks[o.id];
                && Chosen(task, registry, catalog, hasAssistant, hasEngine, o)
                && EngineReported(task, nav, engine.timeoutAsCompletion, o, old(engine.completions), engine.completions)
                && Commanded(task, catalog, hasCoordinator, old(zones.locks), env, o, old(Sent()), Sent())
                && (o.RobotBusy? ==> HasRunning(store.tasks, task.robot))
      ensures o.Ran? ==> CancelledAsTold(env, old(log), log, o.id, old(polls), polls, sends, |old(sends)|, o.status,
                                         o.steps)
    {
      hide Sound, Own, Kept, CancelledAsTold, Continues, HasRunning, SameJob, EngineReported, Commanded, Chosen;
      var picked := PickPending();
      if picked.None? {
        return NoPendingTask;
      }
      var id, task := picked.value.0, picked.value.1;
      ghost var g := log;
      o := Consider(id, task, nav);
      ContinuesOn(old(log), g, log);
      if o.Ran? {
        AsToldSince(env, old(log), g, log, id, old(polls), polls, sends, |old(sends)|, o.status, o.steps);
      }
    }
  }

  // ---- What the polls say -----------------------------------------------------------------

  /** Poll k stops the task: shutdown, or the stored status reads cancelled. */
  ghost predicate Stops(env: Environment, g: Log, id: TaskId, k: nat)
    requires Sound(g)
  {
    env.shutdown(k) || SawCancelled(g, id, k)
  }

  ghost predicate Undisturbed(env: Environment, g: Log, id: TaskId, from: nat, to: nat)
    requires Sound(g)
  {
    forall k: nat | from <= k < to :: !Stops(env, g, id, k)
  }

  lemma PollDecides(env: Environment, f: Log, g: Log, id: TaskId, from: nat)
    requires Continues(f, g) && |f.polled| == |g.polled| && id in Last(g).tasks && from <= |g.polled|
    requires Undisturbed(env, f, id, from, |g.polled|)
    ensures var n, h := |g.polled|, g.(polled := g.polled + [|g.actions|]);
            && Sound(h)
            && (Undisturbed(env, h, id, from, n + 1) <==> !(env.shutdown(n) || Last(g).tasks[id].status == Cancelled))
  {
    hide Scheduler.IsRun;
    var n, h := |g.polled|, g.(polled := g.polled + [|g.actions|]);
    assert Stops(env, h, id, n) <==> env.shutdown(n) || Last(g).tasks[id].status == Cancelled;
    UndisturbedOn(env, f, g, id, from, n);
    forall k: nat | from <= k < n ensures Stops(env, h, id, k) <==> Stops(env, g, id, k) {
    }
  }

  lemma UndisturbedNow(env: Environment, g: Log, id: TaskId, at: nat)
    requires Sound(g)
    ensures Undisturbed(env, g, id, at, at)
  {
  }

  lemma UndisturbedOn(env: Environment, g: Log, h: Log, id: TaskId, from: nat, to: nat)
    requires Continues(g, h) && to <= |g.polled|
    ensures Undisturbed(env, g, id, from, to) <==> Undisturbed(env, h, id, from, to)
  {
    hide Sound, Kept;
    forall k: nat | from <= k < to ensures Stops(env, g, id, k) <==> Stops(env, h, id, k) {
      SawContinues(g, h, id, k);
    }
  }

  lemma StillThere(g: Log, h: Log, id: TaskId)
    requires Continues(g, h) && id in Last(g).tasks
    ensures id in Last(h).tasks
  {
    hide Sound;
  }

  /** Time passes only in sleeps of 500 ms and more, each directly after a poll. */
  ghost predicate Paced(env: Environment, times: seq<Time>, clock: Time) {
    (times == [] ==> clock == 0) && forall k: nat | k < |times| :: PacedAt(env, times, clock, k)
  }

  /** Between poll k and the next one, or now, there was one sleep or none. */
  ghost predicate PacedAt(env: Environment, times: seq<Time>, clock: Time, k: nat)
    requires k < |times|
  {
    var next := if k + 1 < |times| then times[k + 1] else clock;
    next == times[k] || next == times[k] + 500 + env.oversleep(k)
  }

  lemma PollPaced(env: Environment, times: seq<Time>, clock: Time)
    requires Paced(env, times, clock)
    ensures Paced(env, times + [clock], clock)
  {
    forall k: nat | k < |times| + 1 ensures PacedAt(env, times + [clock], clock, k) {
      assert k < |times| ==> PacedAt(env, times, clock, k);
    }
  }

  lemma SleepPaced(env: Environment, times: seq<Time>, clock: Time)
    requires Paced(env, times, clock) && times != [] && times[|times| - 1] == clock
    ensures Paced(env, times, clock + 500 + env.oversleep(|times| - 1))
  {
    var woken := clock + 500 + env.oversleep(|times| - 1);
    forall k: nat | k < |times| ensures PacedAt(env, times, woken, k) {
      assert PacedAt(env, times, clock, k);
    }
  }

  /** The time slept after the polls from `from` up to `to`. */
  ghost function Slept(env: Environment, from: nat, to: int): nat
    decreases to - from
  {
    if to <= from then 0 else Slept(env, from, to - 1) + 500 + env.oversleep(to - 1)
  }

  /** A hold of the given seconds took the sleeps after those of its polls that did not stop it; every
      poll came before the deadline, and without a stop the deadline has passed. */
  ghost predicate HeldFor(env: Environment, seconds: int, from: nat, to: nat, begun: Time, ended: Time, stop: bool) {
    && from <= to && (stop ==> from < to)
    && ended == begun + Slept(env, from, if stop then to - 1 else to)
    && (from < to ==> Slept(env, from, to - 1) < 1000 * seconds)
    && (!stop ==> ended >= begun + 1000 * seconds)
  }

  /** A completed task held every step of its scenario. */
  ghost predicate HeldAll(scenario: Scenario, p: Payload, status: Status, begun: Time, ended: Time) {
    status == Completed ==> ended >= begun + 1000 * TotalHeld(scenario, p, |scenario.steps|)
  }

  lemma HeldAllOr(scenario: Scenario, p: Payload, status: Status, begun: Time, ended: Time)
    requires status != Completed
    ensures HeldAll(scenario, p, status, begun, ended)
  {
  }

  lemma HeldAllDone(scenario: Scenario, p: Payload, begun: Time, ended: Time)
    requires ended >= begun + 1000 * TotalHeld(scenario, p, |scenario.steps|)
    ensures HeldAll(scenario, p, Completed, begun, ended)
  {
  }

  lemma HeldNext(env: Environment, scenario: Scenario, p: Payload, n: nat, from: nat, to: nat, begun: Time, ended: Time)
    requires n < |scenario.steps| && HeldFor(env, HoldSeconds(scenario.steps[n], p), from, to, begun, ended, false)
    ensures ended - begun + 1000 * TotalHeld(scenario, p, n) >= 1000 * TotalHeld(scenario, p, n + 1)
  {
  }

  /** The hold is not over. */
  ghost predicate Holding(env: Environment, seconds: int, from: nat, to: nat, begun: Time, now: Time) {
    && from <= to && now == begun + Slept(env, from, to)
    && (from < to ==> Slept(env, from, to - 1) < 1000 * seconds)
  }

  lemma HoldingStarts(env: Environment, seconds: int, from: nat, now: Time)
    ensures Holding(env, seconds, from, from, now, now)
  {
  }

  lemma HoldingGoesOn(env: Environment, seconds: int, from: nat, to: nat, begun: Time, now: Time)
    requires Holding(env, seconds, from, to, begun, now) && now < begun + 1000 * seconds
    ensures HeldFor(env, seconds, from, to + 1, begun, now, true)
    ensures Holding(env, seconds, from, to + 1, begun, now + 500 + env.oversleep(to))
  {
  }

  lemma HoldingEnds(env: Environment, seconds: int, from: nat, to: nat, begun: Time, now: Time)
    requires Holding(env, seconds, from, to, begun, now) && now >= begun + 1000 * seconds
    ensures HeldFor(env, seconds, from, to, begun, now, false)
  {
  }

  // ---- What the step loop sends ----------------------------------------------------------

  /** The commands attempted are a prefix of the plan, whole if the task completed, followed by
      one safe_stop exactly if it was cancelled; the arbiter allows every one of them. */
  ghost predicate Traced(plan: seq<Command>, robot: RobotId, status: Status, steps: nat,
                         before: seq<Command>, after: seq<Command>)
  {
    && steps <= |plan|
    && after == before + plan[..steps] + (if status == Cancelled then [SafeStop(robot)] else [])
    && (status == Completed ==> steps == |plan|)
    && (forall i | |before| <= i < |after| :: ArbiterAllow(after[i]))
  }

  /** A task fails exactly if its last command could not be published, or its next is forbidden
      and the task was not cancelled before it; all earlier commands were published. */
  ghost predicate FailedExactly(plan: seq<Command>, status: Status, steps: nat, sentBefore: nat, env: Environment) {
    && (forall j: nat | sentBefore <= j < sentBefore + steps - 1 :: env.publishOk(j))
    && (status == Failed <==>
          || (steps > 0 && !env.publishOk(sentBefore + steps - 1))
          || (steps < |plan| && !ArbiterAllow(plan[steps]) && status != Cancelled))
  }

  /** Every moment added since `before` had the given lock map. */
  ghost predicate SameViews(before: seq<Sending>, sends: seq<Sending>, locks: Locks) {
    before <= sends && forall i | |before| <= i < |sends| :: sends[i].locks == locks
  }

  /** The commands of one step: the step's own unless it was rejected or stopped before, and a
      safe_stop if it was cancelled; a step fails exactly if the bus or the arbiter rejects it. */
  ghost predicate StepTrace(cmd: Command, robot: RobotId, end: Option<Status>, sent: bool,
                            before: seq<Command>, after: seq<Command>, env: Environment)
  {
    && after == before + (if sent then [cmd] else []) + (if end == Some(Cancelled) then [SafeStop(robot)] else [])
    && (sent ==> ArbiterAllow(cmd) && (end == Some(Failed) <==> !env.publishOk(|before|)))
    && (!sent ==> end == Some(Cancelled) || (end == Some(Failed) && !ArbiterAllow(cmd)))
  }

  /** The first n commands of the plan were allowed and published. */
  ghost predicate Passed(plan: seq<Command>, n: nat, before: seq<Command>, after: seq<Command>, env: Environment) {
    && n <= |plan| && after == before + plan[..n]
    && (forall j | 0 <= j < n :: ArbiterAllow(plan[j]))
    && (forall j: nat | |before| <= j < |before| + n :: env.publishOk(j))
  }

  lemma PassedStep(plan: seq<Command>, i: nat, robot: RobotId, end: Option<Status>, sent: bool,
                   before: seq<Command>, mid: seq<Command>, after: seq<Command>, env: Environment)
    requires i < |plan| && Passed(plan, i, before, mid, env) && StepTrace(plan[i], robot, end, sent, mid, after, env)
    requires end.None? ==> sent
    ensures end.None? ==> Passed(plan, i + 1, before, after, env)
    ensures end == Some(Failed) || end == Some(Cancelled) ==>
              var steps := if sent then i + 1 else i;
              && Traced(plan, robot, end.value, steps, before, after)
              && FailedExactly(plan, end.value, steps, |before|, env)
  {
    assert plan[..i + 1] == plan[..i] + [plan[i]];
    assert ArbiterAllow(SafeStop(robot));
    hide ArbiterAllow, SafeStop;
  }

  lemma PassedAll(plan: seq<Command>, robot: RobotId, before: seq<Command>, after: seq<Command>, env: Environment)
    requires Passed(plan, |plan|, before, after, env)
    ensures Traced(plan, robot, Completed, |plan|, before, after)
    ensures FailedExactly(plan, Completed, |plan|, |before|, env)
  {
    hide ArbiterAllow;
  }

  lemma SameViewsOn(a: seq<Sending>, b: seq<Sending>, c: seq<Sending>, locks: Locks)
    requires SameViews(a, b, locks) && SameViews(b, c, locks)
    ensures SameViews(a, c, locks) && b <= c
  {
  }

  // ---- A poll before every command -----------------------------------------------------------

  /** Command number `at` was sent directly after poll p, which did not say to stop; the poll came
      after the given number of protocol steps. */
  ghost predicate AfterPoll(env: Environment, g: Log, id: TaskId, p: nat, steps: nat, at: nat, sends: seq<Sending>) {
    && Sound(g) && p < |g.polled| && at < |sends| && !Stops(env, g, id, p)
    && sends[at].polls == p + 1 && steps <= g.polled[p] <= sends[at].steps <= |g.actions|
  }

  lemma AfterPollNow(env: Environment, g: Log, h: Log, id: TaskId, from: nat, sends: seq<Sending>)
    requires Continues(g, h) && |h.polled| == |g.polled| + 1 && from <= |g.polled| && sends != []
    requires Undisturbed(env, h, id, from, |h.polled|)
    requires sends[|sends| - 1].polls == |h.polled| && sends[|sends| - 1].steps == |h.actions|
    ensures AfterPoll(env, h, id, |g.polled|, |g.actions|, |sends| - 1, sends)
  {
    hide Stops, Kept, Scheduler.IsRun;
  }

  lemma AfterPollOn(env: Environment, g: Log, h: Log, id: TaskId, p: nat, steps: nat, at: nat,
                    sends: seq<Sending>, more: seq<Sending>)
    requires AfterPoll(env, g, id, p, steps, at, sends) && Continues(g, h) && sends <= more
    ensures AfterPoll(env, h, id, p, steps, at, more)
  {
    hide Kept, Scheduler.IsRun;
    SawContinues(g, h, id, p);
  }

  /** The same, for a poll made since the command before, or since `from` polls for the first one. */
  ghost predicate GuardedAt(env: Environment, g: Log, id: TaskId, from: nat, sends: seq<Sending>, b: nat, i: nat)
    requires b <= i < |sends|
  {
    && (if i == b then from else sends[i - 1].polls) < sends[i].polls
    && AfterPoll(env, g, id, sends[i].polls - 1, if i == b then 0 else sends[i - 1].steps, i, sends)
  }

  /** Each of the n commands from number b on has a poll of its own that did not say to stop. */
  ghost predicate Guarded(env: Environment, g: Log, id: TaskId, from: nat, sends: seq<Sending>, b: nat, n: nat) {
    && Sound(g) && from <= |g.polled| && b + n <= |sends|
    && forall i: nat | b <= i < b + n :: GuardedAt(env, g, id, from, sends, b, i)
  }

  lemma GuardedOn(env: Environment, g: Log, h: Log, id: TaskId, from: nat, b: nat, n: nat,
                  sends: seq<Sending>, more: seq<Sending>)
    requires Guarded(env, g, id, from, sends, b, n) && Continues(g, h) && sends <= more
    ensures Guarded(env, h, id, from, more, b, n)
  {
    hide AfterPoll, Kept, Scheduler.IsRun;
    forall i: nat | b <= i < b + n ensures GuardedAt(env, h, id, from, more, b, i) {
      assert GuardedAt(env, g, id, from, sends, b, i);
      AfterPollOn(env, g, h, id, sends[i].polls - 1, if i == b then 0 else sends[i - 1].steps, i, sends, more);
    }
  }

  lemma GuardedStep(env: Environment, g: Log, h: Log, id: TaskId, from: nat, b: nat, n: nat,
                    sends: seq<Sending>, more: seq<Sending>)
    requires Guarded(env, g, id, from, sends, b, n) && Continues(g, h) && sends <= more && |sends| == b + n
    requires AfterPoll(env, h, id, |g.polled|, |g.actions|, |sends|, more)
    ensures Guarded(env, h, id, from, more, b, n + 1)
  {
    GuardedOn(env, g, h, id, from, b, n, sends, more);
    hide Kept, Scheduler.IsRun, Stops;
    if n > 0 {
      assert GuardedAt(env, g, id, from, sends, b, b + n - 1);
    }
    assert GuardedAt(env, h, id, from, more, b, b + n);
    forall i: nat | b <= i < b + n + 1 ensures GuardedAt(env, h, id, from, more, b, i) {
    }
  }

  // ---- The step loop as a whole --------------------------------------------------------------

  /** One step of the loop, from log g to log h. */
  ghost predicate StepDone(env: Environment, cmd: Command, robot: RobotId, end: Option<Status>, sent: bool,
                           g: Log, h: Log, id: TaskId, before: seq<Command>, after: seq<Command>,
                           was: seq<Sending>, sends: seq<Sending>, locks: Locks)
  {
    && StepTrace(cmd, robot, end, sent, before, after, env) && SameViews(was, sends, locks) && Continues(g, h)
    && (sent ==> AfterPoll(env, h, id, |g.polled|, |g.actions|, |was|, sends))
    && (end.None? ==> sent && |sends| == |was| + 1)
  }

  lemma NextStepSent(env: Environment, cmd: Command, robot: RobotId, end: Option<Status>, sent: bool, g: Log, h: Log,
                     id: TaskId, before: seq<Command>, after: seq<Command>, was: seq<Sending>, sends: seq<Sending>,
                     locks: Locks)
    requires StepDone(env, cmd, robot, end, sent, g, h, id, before, after, was, sends, locks)
    ensures end.None? ==> sent
  {
  }

  /** Holding a step, and cancelling it meanwhile, keeps what was done to launch it. */
  lemma StepHeld(env: Environment, cmd: Command, robot: RobotId, end: Option<Status>, f: Log, g: Log, h: Log,
                 id: TaskId, before: seq<Command>, mid: seq<Command>, after: seq<Command>,
                 was: seq<Sending>, mids: seq<Sending>, sends: seq<Sending>, locks: Locks)
    requires StepDone(env, cmd, robot, None, true, f, g, id, before, mid, was, mids, locks) && Continues(g, h)
    requires if end == Some(Cancelled) then after == mid + [SafeStop(robot)] && SameViews(mids, sends, locks)
             else end.None? && after == mid && sends == mids
    ensures StepDone(env, cmd, robot, end, true, f, h, id, before, after, was, sends, locks)
  {
    hide ArbiterAllow, SafeStop, AfterPoll, Continues;
    ContinuesOn(f, g, h);
    AfterPollOn(env, g, h, id, |f.polled|, |f.actions|, |was|, mids, sends);
  }

  /** The loop before its step n. */
  ghost predicate LoopRuns(env: Environment, plan: seq<Command>, n: nat, g: Log, id: TaskId, from: nat,
                           before: seq<Command>, after: seq<Command>, was: seq<Sending>, sends: seq<Sending>,
                           locks: Locks)
  {
    && Passed(plan, n, before, after, env) && SameViews(was, sends, locks)
    && Guarded(env, g, id, from, sends, |was|, n) && |sends| == |was| + n
  }

  /** The loop when the task has ended: its commands, why it failed, its locks and its polls. */
  ghost predicate LoopDone(env: Environment, plan: seq<Command>, robot: RobotId, status: Status, steps: nat, g: Log,
                           id: TaskId, from: nat, before: seq<Command>, after: seq<Command>,
                           was: seq<Sending>, sends: seq<Sending>, locks: Locks)
  {
    && Traced(plan, robot, status, steps, before, after) && FailedExactly(plan, status, steps, |before|, env)
    && SameViews(was, sends, locks) && Guarded(env, g, id, from, sends, |was|, steps)
  }

  lemma LoopStarts(env: Environment, plan: seq<Command>, g: Log, id: TaskId, from: nat,
                   before: seq<Command>, was: seq<Sending>, locks: Locks)
    requires Sound(g) && from <= |g.polled|
    ensures LoopRuns(env, plan, 0, g, id, from, before, before, was, was, locks)
  {
  }

  lemma LoopSteps(env: Environment, plan: seq<Command>, n: nat, robot: RobotId, end: Option<Status>, sent: bool,
                  g: Log, h: Log, id: TaskId, from: nat, before: seq<Command>, mid: seq<Command>, after: seq<Command>,
                  was: seq<Sending>, mids: seq<Sending>, sends: seq<Sending>, locks: Locks)
    requires LoopRuns(env, plan, n, g, id, from, before, mid, was, mids, locks) && n < |plan|
    requires StepDone(env, plan[n], robot, end, sent, g, h, id, mid, after, mids, sends, locks)
    ensures end.None? ==> LoopRuns(env, plan, n + 1, h, id, from, before, after, was, sends, locks)
    ensures end == Some(Failed) || end == Some(Cancelled) ==>
              LoopDone(env, plan, robot, end.value, if sent then n + 1 else n, h, id, from,
                       before, after, was, sends, locks)
  {
    hide Passed, StepTrace, Traced, FailedExactly, Guarded, AfterPoll, Continues, SameViews;
    PassedStep(plan, n, robot, end, sent, before, mid, after, env);
    SameViewsOn(was, mids, sends, locks);
    if sent {
      GuardedStep(env, g, h, id, from, |was|, n, mids, sends);
    } else {
      GuardedOn(env, g, h, id, from, |was|, n, mids, sends);
    }
  }

  lemma LoopEnds(env: Environment, plan: seq<Command>, robot: RobotId, g: Log, h: Log, id: TaskId, from: nat,
                 before: seq<Command>, after: seq<Command>, was: seq<Sending>, sends: seq<Sending>, locks: Locks)
    requires LoopRuns(env, plan, |plan|, g, id, from, before, after, was, sends, locks) && Continues(g, h)
    ensures LoopDone(env, plan, robot, Completed, |plan|, h, id, from, before, after, was, sends, locks)
  {
    hide Passed, Traced, FailedExactly, Guarded, Continues, SameViews;
    PassedAll(plan, robot, before, after, env);
    GuardedOn(env, g, h, id, from, |was|, |plan|, sends, sends);
  }

  // ---- A cancel is prompt ----------------------------------------------------------------------

  /** Once an API cancel is written after the mark, no poll lets a command through any more: at most
      the last one, whose poll had already been made, is still sent. */
  ghost predicate Prompt(g: Log, mark: int, id: TaskId, sends: seq<Sending>, b: nat, n: nat) {
    && b + n <= |sends|
    && forall i, j | b <= i < b + n && mark < j < |g.actions| && 0 <= j && g.actions[j] == Scheduler.CancelWrite(id) ::
         && 0 < sends[i].polls <= |g.polled| && g.polled[sends[i].polls - 1] <= j
         && (i < b + n - 1 ==> sends[i].steps <= j)
  }

  lemma CancelIsPrompt(env: Environment, m: Log, h: Log, id: TaskId, status: Status, now: Time,
                       sends: seq<Sending>, b: nat, n: nat)
    requires Sound(m) && JustMarked(m, id) && Ends(m, h, status, now)
    requires Guarded(env, h, id, |m.polled|, sends, b, n)
    ensures Prompt(h, |m.actions| - 1, id, sends, b, n)
  {
    hide Kept, Own, Scheduler.IsRun;
    var mark := |m.actions| - 1;
    forall i, j | b <= i < b + n && mark < j < |h.actions| && h.actions[j] == Scheduler.CancelWrite(id)
      ensures 0 < sends[i].polls <= |h.polled| && h.polled[sends[i].polls - 1] <= j
      ensures i < b + n - 1 ==> sends[i].steps <= j
    {
      PollBeforeCancel(env, m, h, id, status, now, sends, b, n, i, j);
      if i < b + n - 1 {
        PollBeforeCancel(env, m, h, id, status, now, sends, b, n, i + 1, j);
      }
    }
  }

  lemma PollBeforeCancel(env: Environment, m: Log, h: Log, id: TaskId, status: Status, now: Time,
                         sends: seq<Sending>, b: nat, n: nat, i: nat, j: nat)
    requires Sound(m) && JustMarked(m, id) && Ends(m, h, status, now)
    requires Guarded(env, h, id, |m.polled|, sends, b, n) && b <= i < b + n
    requires |m.actions| - 1 < j < |h.actions| && h.actions[j] == Scheduler.CancelWrite(id)
    ensures 0 < sends[i].polls <= |h.polled| && h.polled[sends[i].polls - 1] <= j
    ensures i > b ==> sends[i - 1].steps <= j
  {
    hide Kept, Own, Scheduler.IsRun, Ends, JustMarked;
    LaterPolls(env, h, id, |m.polled|, sends, b, n, i);
    var k := sends[i].polls - 1;
    assert GuardedAt(env, h, id, |m.polled|, sends, b, i);
    PollSeesCancel(m, h, id, status, now, k);
  }

  lemma {:induction false} LaterPolls(env: Environment, g: Log, id: TaskId, from: nat, sends: seq<Sending>, b: nat,
                                      n: nat, i: nat)
    requires Guarded(env, g, id, from, sends, b, n) && b <= i < b + n
    ensures from < sends[i].polls
  {
    assert GuardedAt(env, g, id, from, sends, b, i);
    if i > b {
      LaterPolls(env, g, id, from, sends, b, n, i - 1);
    }
  }

  // ---- What an iteration amounts to -----------------------------------------------------

  ghost predicate Runnable(task: Task, catalog: map<string, Scenario>, registry: map<RobotId, Robot>) {
    && task.robot in registry && task.scenario in catalog
    && HasAll(registry[task.robot], catalog[task.scenario].required)
  }

  /** Why a task met the given fate. */
  ghost predicate Chosen(task: Task, registry: map<RobotId, Robot>, catalog: map<string, Scenario>,
                         hasAssistant: bool, hasEngine: bool, o: Outcome)
  {
    var known := task.robot in registry;
    var able := && known && task.scenario in catalog
                && forall c | c in catalog[task.scenario].required :: c in registry[task.robot].capabilities;
    var assisted := hasAssistant && task.scenario == MALL_ASSISTANT;
    var steered := && hasEngine && !assisted
                   && (|| task.scenario == NAVIGATE_TO_STORE
                       || (task.scenario == NAVIGATION && task.payload.Fields? && task.payload.target != ""));
    match o
    case NoPendingTask => false
    case RobotBusy(_) => true
    case RobotUnknown(_) => !known
    case Refused(_) => known && !able
    case ToAssistant(_) => able && assisted
    case ToEngine(_, _) => able && steered
    case Ran(_, _, _) => able && !assisted && !steered
  }

  lemma Delegated(task: Task, registry: map<RobotId, Robot>, catalog: map<string, Scenario>,
                  hasAssistant: bool, hasEngine: bool, o: Outcome)
    requires Runnable(task, catalog, registry)
    requires match o
             case ToAssistant(_) => ForAssistant(task, hasAssistant)
             case ToEngine(_, _) => !ForAssistant(task, hasAssistant) && hasEngine && ForEngine(task)
             case Ran(_, _, _) => !ForAssistant(task, hasAssistant) && !(hasEngine && ForEngine(task))
             case _ => false
    ensures Chosen(task, registry, catalog, hasAssistant, hasEngine, o)
  {
  }

  /** The protocol steps of an iteration with the given outcome. */
  ghost function Script(o: Outcome, now: Time): seq<Scheduler.Action> {
    if o.NoPendingTask? then [] else [Scheduler.Pick(0, o.id), Scheduler.Check(0)] + Fate(o, now)
  }

  /** Those after the check. */
  ghost function Fate(o: Outcome, now: Time): seq<Scheduler.Action> {
    match o
    case NoPendingTask => []
    case RobotBusy(_) => []
    case RobotUnknown(_) => [Scheduler.Abandon(0)]
    case Refused(_) => [Scheduler.Reject(0, now)]
    case ToAssistant(_) => [Scheduler.Start(0), Scheduler.Spawn(0)]
    case ToEngine(_, status) => [Scheduler.Start(0), Scheduler.Finish(0, status, now)]
    case Ran(_, status, _) => [Scheduler.Start(0), Scheduler.Finish(0, status, now)]
  }

  /** The runner itself reports the tasks that it refused or ran. */
  ghost predicate Reported(o: Outcome, before: seq<(TaskId, Status)>, after: seq<(TaskId, Status)>) {
    after == before + (if o.Refused? then [(o.id, Failed)] else if o.Ran? then [(o.id, o.status)] else [])
  }

  /** The engine decides and reports how a task given to it ended. */
  ghost predicate EngineReported(task: Task, nav: RobotEngine.NavigationResult, timeoutAsCompletion: bool, o: Outcome,
                                 before: seq<(TaskId, Status)>, after: seq<(TaskId, Status)>)
  {
    if o.ToEngine? then
      && after == before + [(o.id, o.status)]
      && var missing := !task.payload.Fields? || task.payload.target == "";
      o.status == if missing then Failed
                  else if nav.success || (nav.timeout && timeoutAsCompletion) then Completed
                  else if nav.cancelled then Cancelled else Failed
    else after == before
  }

  lemma ZoneRule(task: Task, hasCoordinator: bool, locks: Locks)
    ensures Blocked(task, hasCoordinator, locks) <==>
            hasCoordinator && NeedsZone(task) && Decoded(task.payload).zone in locks
    ensures Bracket(task, hasCoordinator, locks) ==
            if hasCoordinator && NeedsZone(task) then locks[Decoded(task.payload).zone := task.robot] else locks
  {
  }

  lemma ZonedBlocked(task: Task, hasCoordinator: bool, locks: Locks, was: Outbox, now: Outbox)
    requires Blocked(task, hasCoordinator, locks) && now == was
    ensures Zoned(task, hasCoordinator, locks, Failed, was, now)
  {
  }

  lemma ZonedLoop(env: Environment, plan: seq<Command>, status: Status, steps: nat, g: Log, id: TaskId, from: nat,
                  task: Task, hasCoordinator: bool, locks: Locks, was: Outbox, now: Outbox)
    requires !Blocked(task, hasCoordinator, locks)
    requires LoopDone(env, plan, task.robot, status, steps, g, id, from, was.commands, now.commands,
                      was.sends, now.sends, Bracket(task, hasCoordinator, locks))
    ensures Zoned(task, hasCoordinator, locks, status, was, now)
  {
    hide Traced, FailedExactly, Guarded;
  }

  lemma NotByEngine(task: Task, nav: RobotEngine.NavigationResult, timeoutAsCompletion: bool, o: Outcome,
                    reported: seq<(TaskId, Status)>)
    requires !o.ToEngine?
    ensures EngineReported(task, nav, timeoutAsCompletion, o, reported, reported)
  {
  }

  /** A patrol or navigation with a zone, under a coordinator, fails without a command if the zone is
      locked, and otherwise has it locked for its robot at every command; any other task leaves the
      lock map alone. */
  ghost predicate Zoned(task: Task, hasCoordinator: bool, locks: Locks, status: Status, was: Outbox, now: Outbox) {
    if && hasCoordinator && task.payload.Fields? && task.payload.zone != ""
       && (task.scenario == PATROL || task.scenario == NAVIGATION)
    then
      if task.payload.zone in locks then status == Failed && now.commands == was.commands
      else forall i | |was.sends| <= i < |now.sends| :: now.sends[i].locks == locks[task.payload.zone := task.robot]
    else forall i | |was.sends| <= i < |now.sends| :: now.sends[i].locks == locks
  }

  /** The payload of a step's command: the step's own, or else the task's for velocities and targets,
      zero velocities standing in for a missing one. */
  ghost predicate Carries(p: Payload, step: Step, given: Payload) {
    if !step.payload.Absent? then p == step.payload
    else if step.command == "cmd_vel" && given.Absent? then p == Fields(0.0, 0.0, 0.0, 0, "", "", "", "", "")
    else if step.command == "cmd_vel" || step.command == "navigate_to" then p == given
    else p.Absent?
  }

  /** The commands of a task that ran: all for its robot and lawful, the steps' in order, and a
      safe_stop after them exactly if it was cancelled. */
  ghost predicate Ordered(task: Task, scenario: Scenario, status: Status, steps: nat, was: Outbox, now: Outbox) {
    && steps <= |scenario.steps| && was.commands <= now.commands
    && |now.commands| == |was.commands| + steps + (if status == Cancelled then 1 else 0)
    && (forall i | |was.commands| <= i < |now.commands| ::
          now.commands[i].robot == task.robot && Lawful(now.commands[i]))
    && (forall i | 0 <= i < steps ::
          var c := now.commands[|was.commands| + i];
          c.name == scenario.steps[i].command && Carries(c.payload, scenario.steps[i], task.payload))
    && (status == Cancelled ==> now.commands[|was.commands| + steps] == Command(task.robot, "safe_stop", Absent))
  }

  /** The runner sends commands only for a task that goes through the step loop. An occupied zone
      fails the task without any; otherwise it fails exactly for the bus or the arbiter. A completed
      task held every step for its duration. */
  ghost predicate Commanded(task: Task, catalog: map<string, Scenario>, hasCoordinator: bool, locks: Locks,
                            env: Environment, o: Outcome, was: Outbox, now: Outbox)
  {
    if o.Ran? then
      && task.scenario in catalog
      && var scenario := catalog[task.scenario];
      && var plan := Plan(scenario, task);
      && Zoned(task, hasCoordinator, locks, o.status, was, now) && Ordered(task, scenario, o.status, o.steps, was, now)
      && HeldAll(scenario, task.payload, o.status, was.clock, now.clock)
      && (Blocked(task, hasCoordinator, locks) ||
          (&& Traced(plan, task.robot, o.status, o.steps, was.commands, now.commands)
           && FailedExactly(plan, o.status, o.steps, |was.commands|, env)))
    else now.commands == was.commands && now.sends == was.sends
  }

  lemma NothingSent(task: Task, catalog: map<string, Scenario>, hasCoordinator: bool, locks: Locks, env: Environment,
                    o: Outcome, now: Outbox)
    requires !o.Ran?
    ensures Commanded(task, catalog, hasCoordinator, locks, env, o, now, now)
  {
  }

  /** What the zone bracket and the step loop amount to. */
  lemma RanAs(task: Task, catalog: map<string, Scenario>, hasCoordinator: bool, locks: Locks, env: Environment,
              id: TaskId, status: Status, steps: nat, was: Outbox, now: Outbox)
    requires task.scenario in catalog && HeldAll(catalog[task.scenario], task.payload, status, was.clock, now.clock)
    requires Zoned(task, hasCoordinator, locks, status, was, now)
    requires var plan := Plan(catalog[task.scenario], task);
             if Blocked(task, hasCoordinator, locks)
             then status == Failed && steps == 0 && now.commands == was.commands && now.sends == was.sends
             else && Traced(plan, task.robot, status, steps, was.commands, now.commands)
                  && FailedExactly(plan, status, steps, |was.commands|, env)
    ensures Commanded(task, catalog, hasCoordinator, locks, env, Ran(id, status, steps), was, now)
  {
    hide Plan, Traced, FailedExactly, HeldAll, Zoned;
    if !Blocked(task, hasCoordinator, locks) {
      OrderedAs(task, catalog[task.scenario], status, steps, was, now);
    }
  }

  lemma OrderedAs(task: Task, scenario: Scenario, status: Status, steps: nat, was: Outbox, now: Outbox)
    requires Traced(Plan(scenario, task), task.robot, status, steps, was.commands, now.commands)
    ensures Ordered(task, scenario, status, steps, was, now)
  {
    hide ArbiterAllow, Lawful;
    var b := |was.commands|;
    forall i | b <= i < |now.commands| ensures now.commands[i].robot == task.robot && Lawful(now.commands[i]) {
      ArbiterList(now.commands[i]);
    }
    forall i | 0 <= i < steps ensures now.commands[b + i] == StepCommand(task, scenario.steps[i]) {
      PlanAt(scenario, task, i);
    }
  }

  /** A task marked at step `mark` ends cancelled exactly if some poll met a shutdown or came
      after an API cancel that was written since the mark. */
  ghost predicate CancelledFor(env: Environment, g: Log, mark: int, id: TaskId, from: nat, to: nat, status: Status) {
    && |g.polled| == to
    && (status == Cancelled <==>
          exists k: nat :: from <= k < to && (env.shutdown(k) || CancelledBetween(g.actions, mark, g.polled[k], id)))
  }

  lemma CancelCause(env: Environment, m: Log, h: Log, id: TaskId, status: Status, now: Time, from: nat, to: nat)
    requires Sound(m) && JustMarked(m, id) && Ends(m, h, status, now) && |m.polled| == from && to == |h.polled|
    requires status == Cancelled <==> !Undisturbed(env, h, id, from, to)
    ensures CancelledFor(env, h, |m.actions| - 1, id, from, to, status)
  {
    hide Kept, Own, CancelledBetween, SawCancelled;
    forall k: nat | from <= k < to
      ensures Stops(env, h, id, k) <==> env.shutdown(k) || CancelledBetween(h.actions, |m.actions| - 1, h.polled[k], id)
    {
      PollSeesCancel(m, h, id, status, now, k);
    }
  }

  /** For the mark that was set between the logs f and h: the task is cancelled exactly if a poll met
      a shutdown or an API cancel, every command has a poll of its own, and a cancel is prompt. */
  ghost predicate CancelledAsTold(env: Environment, f: Log, h: Log, id: TaskId, from: nat, to: nat,
                                  sends: seq<Sending>, b: nat, status: Status, steps: nat)
  {
    && Guarded(env, h, id, from, sends, b, steps)
    && exists mark :: && |f.actions| <= mark < |h.actions| && h.actions[mark] == Scheduler.Start(0)
                      && CancelledFor(env, h, mark, id, from, to, status) && Prompt(h, mark, id, sends, b, steps)
  }

  lemma AsTold(env: Environment, f: Log, m: Log, h: Log, id: TaskId, from: nat, to: nat,
               sends: seq<Sending>, b: nat, status: Status, steps: nat)
    requires |f.actions| < |m.actions| && JustMarked(m, id) && Continues(m, h)
    requires CancelledFor(env, h, |m.actions| - 1, id, from, to, status)
    requires Guarded(env, h, id, from, sends, b, steps) && Prompt(h, |m.actions| - 1, id, sends, b, steps)
    ensures CancelledAsTold(env, f, h, id, from, to, sends, b, status, steps)
  {
    hide CancelledFor, Sound, Kept, Guarded, Prompt;
    assert h.actions[|m.actions| - 1] == Scheduler.Start(0);
  }

  lemma AsToldSince(env: Environment, f: Log, g: Log, h: Log, id: TaskId, from: nat, to: nat,
                    sends: seq<Sending>, b: nat, status: Status, steps: nat)
    requires Continues(f, g) && CancelledAsTold(env, g, h, id, from, to, sends, b, status, steps)
    ensures CancelledAsTold(env, f, h, id, from, to, sends, b, status, steps)
  {
    hide CancelledFor, Sound, Kept, Guarded, Prompt;
  }

  // What is decided about a task depends on its data and not on its status.

  lemma SameFate(a: Task, b: Task, registry: map<RobotId, Robot>, catalog: map<string, Scenario>,
                 hasAssistant: bool, hasEngine: bool, o: Outcome)
    requires SameJob(a, b) && Chosen(a, registry, catalog, hasAssistant, hasEngine, o)
    ensures Chosen(b, registry, catalog, hasAssistant, hasEngine, o)
  {
  }

  lemma SameReport(a: Task, b: Task, nav: RobotEngine.NavigationResult, timeoutAsCompletion: bool, o: Outcome,
                   before: seq<(TaskId, Status)>, after: seq<(TaskId, Status)>)
    requires SameJob(a, b) && EngineReported(a, nav, timeoutAsCompletion, o, before, after)
    ensures EngineReported(b, nav, timeoutAsCompletion, o, before, after)
  {
  }

  lemma SameCommands(a: Task, b: Task, catalog: map<string, Scenario>, hasCoordinator: bool, locks: Locks,
                     env: Environment, o: Outcome, was: Outbox, now: Outbox)
    requires SameJob(a, b) && Commanded(a, catalog, hasCoordinator, locks, env, o, was, now)
    ensures Commanded(b, catalog, hasCoordinator, locks, env, o, was, now)
  {
    hide Traced, FailedExactly, TotalHeld, Lawful;
    if o.Ran? {
      assert Plan(catalog[a.scenario], a) == Plan(catalog[b.scenario], b);
    }
  }

  /** Whatever the others do and however often the runner iterates, no robot has had two tasks in
      status running and no task two assistants at any moment. */
  lemma OneRunningThroughout(r: Runner, i: nat)
    requires r.Valid() && i < |r.log.states|
    ensures Scheduler.OneRunning(r.store.tasks) && Scheduler.OneRunning(r.log.states[i].tasks)
    ensures Scheduler.OneAssistantPerTask(r.log.states[i].assistants)
  {
    hide Scheduler.OneRunning, Scheduler.Init, Scheduler.Next, Scheduler.OneAssistantPerTask;
    Scheduler.OneOfEach(r.log.states, r.log.actions, 1, i);
    Scheduler.OneOfEach(r.log.states, r.log.actions, 1, |r.log.actions|);
  }
}
