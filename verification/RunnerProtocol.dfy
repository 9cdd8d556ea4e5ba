/** One runner among the other users of the store: the log of a run in which it takes part, and
    what the others can do to the task it holds. */
module RunnerProtocol {
  import opened Common
  import opened Tasks
  import opened Scheduler

  predicate ByRunner(a: Action) {
    a.Pick? || a.Check? || a.Abandon? || a.Reject? || a.Start? || a.Spawn? || a.Finish?
  }

  /** The steps of the runner, in order. */
  ghost function Own(actions: seq<Action>): seq<Action> {
    if actions == [] then []
    else
      var last := |actions| - 1;
      Own(actions[..last]) + if ByRunner(actions[last]) then [actions[last]] else []
  }

  lemma OwnExtend(actions: seq<Action>, a: Action)
    ensures Own(actions + [a]) == Own(actions) + if ByRunner(a) then [a] else []
  {
    assert (actions + [a])[..|actions|] == actions;
  }

  /** Steps that add nothing to the runner's own are everybody else's. */
  lemma {:induction false} OthersBetween(actions: seq<Action>, i: nat)
    requires i <= |actions|
    ensures |Own(actions[..i])| <= |Own(actions)|
    ensures |Own(actions[..i])| == |Own(actions)| ==> forall k | i <= k < |actions| :: !ByRunner(actions[k])
  {
    if i < |actions| {
      var last := |actions| - 1;
      assert actions[..last][..i] == actions[..i];
      OthersBetween(actions[..last], i);
    } else {
      assert actions[..i] == actions;
    }
  }

  /** A run so far, and the number of steps before each poll of the runner. */
  datatype Log = Log(states: seq<State>, actions: seq<Action>, polled: seq<nat>)

  ghost predicate Sound(g: Log) {
    && IsRun(g.states, g.actions, 1) && |g.states[|g.actions|].runners| == 1
    && forall k | 0 <= k < |g.polled| :: g.polled[k] <= |g.actions|
  }

  ghost function Last(g: Log): State
    requires Sound(g)
  {
    g.states[|g.actions|]
  }

  ghost function Logged(g: Log, a: Action, t: State): Log {
    g.(states := g.states + [t], actions := g.actions + [a])
  }

  predicate SameJob(a: Task, b: Task) {
    b == a.(status := b.status, completedAt := b.completedAt)
  }

  /** No task disappears and none changes in more than its status. */
  ghost predicate Kept(before: TaskMap, after: TaskMap) {
    forall id | id in before :: id in after && SameJob(before[id], after[id])
  }

  lemma StepKeepsJobs(s: State, a: Action, t: State)
    requires Next(s, a, t)
    ensures Kept(s.tasks, t.tasks)
  {
    hide HasRunning;
  }

  /** The run h goes on from the run g. */
  ghost predicate Continues(g: Log, h: Log) {
    && Sound(g) && Sound(h) && g.states <= h.states && g.actions <= h.actions && g.polled <= h.polled
    && (forall k | |g.polled| <= k < |h.polled| :: h.polled[k] >= |g.actions|)
    && Kept(Last(g).tasks, Last(h).tasks)
  }

  /** Only others took steps. */
  ghost predicate Waits(g: Log, h: Log) {
    Continues(g, h) && Own(h.actions) == Own(g.actions) && Last(h).runners == Last(g).runners
  }

  lemma ContinuesOn(f: Log, g: Log, h: Log)
    requires Continues(f, g) && Continues(g, h)
    ensures Continues(f, h)
  {
    hide Sound;
  }

  lemma JobStays(g: Log, h: Log, id: TaskId, task: Task)
    requires Continues(g, h) && id in Last(g).tasks && SameJob(task, Last(g).tasks[id])
    ensures id in Last(h).tasks && SameJob(task, Last(h).tasks[id])
  {
    hide Sound;
  }

  lemma ContinuesNow(g: Log)
    requires Sound(g)
    ensures Continues(g, g)
  {
  }

  lemma WaitsNow(g: Log)
    requires Sound(g)
    ensures Waits(g, g)
  {
  }

  lemma WaitsOn(f: Log, g: Log, h: Log)
    requires Waits(f, g) && Waits(g, h)
    ensures Waits(f, h)
  {
    hide Sound, Own, Last;
    ContinuesOn(f, g, h);
  }

  /** Others took steps, and then the runner closed the task it had started. */
  ghost predicate Ends(g: Log, h: Log, status: Status, now: Time) {
    && Continues(g, h) && |g.actions| < |h.actions|
    && h.actions[|h.actions| - 1] == Finish(0, status, now) && Own(h.actions[..|h.actions| - 1]) == Own(g.actions)
    && forall k | 0 <= k < |h.polled| :: h.polled[k] < |h.actions|
  }

  lemma FinishEnds(f: Log, g: Log, status: Status, now: Time, t: State)
    requires Waits(f, g) && Next(Last(g), Finish(0, status, now), t)
    ensures Ends(f, Logged(g, Finish(0, status, now), t), status, now)
    ensures Continues(g, Logged(g, Finish(0, status, now), t))
    ensures Last(Logged(g, Finish(0, status, now), t)) == t
  {
    hide Next, Own, Kept, Init, IsRun;
    var h := Logged(g, Finish(0, status, now), t);
    LogStep(g, Finish(0, status, now), t);
    ContinuesOn(f, g, h);
    assert h.actions[..|h.actions| - 1] == g.actions;
  }

  lemma EndsOwn(g: Log, h: Log, status: Status, now: Time)
    requires Ends(g, h, status, now)
    ensures Continues(g, h) && Own(h.actions) == Own(g.actions) + [Finish(0, status, now)]
  {
    hide Sound, Kept;
    assert h.actions == h.actions[..|h.actions| - 1] + [h.actions[|h.actions| - 1]];
  }

  lemma LogStep(g: Log, a: Action, t: State)
    requires Sound(g) && Next(Last(g), a, t)
    ensures Continues(g, Logged(g, a, t)) && Last(Logged(g, a, t)) == t
    ensures Own(Logged(g, a, t).actions) == Own(g.actions) + if ByRunner(a) then [a] else []
  {
    hide Next, Own, Kept, Init;
    OwnExtend(g.actions, a);
    StepKeepsJobs(Last(g), a, t);
    StepKeepsCount(Last(g), a, t);
    RunExtend(g.states, g.actions, a, t);
    hide IsRun;
  }

  lemma RunExtend(states: seq<State>, actions: seq<Action>, a: Action, t: State)
    requires IsRun(states, actions, 1) && Next(states[|actions|], a, t)
    ensures IsRun(states + [t], actions + [a], 1)
  {
    hide Next, Init;
    var longer, more := states + [t], actions + [a];
    forall i | 0 <= i < |more| ensures Next(longer[i], more[i], longer[i + 1]) {
      if i < |actions| {
        assert Next(states[i], actions[i], states[i + 1]);
      }
    }
  }

  lemma StepKeepsCount(s: State, a: Action, t: State)
    requires Next(s, a, t)
    ensures |t.runners| == |s.runners|
  {
    hide HasRunning;
  }

  lemma NoteRead(g: Log)
    requires Sound(g)
    ensures Waits(g, g.(polled := g.polled + [|g.actions|]))
  {
  }

  /** What others do does not depend on where the runner is. */
  lemma OthersStep(g: Log, a: Action, t: State)
    requires Sound(g) && !ByRunner(a) && Next(Last(g).(runners := []), a, t)
    ensures var next := t.(runners := Last(g).runners);
            Next(Last(g), a, next) && Waits(g, Logged(g, a, next)) && Last(Logged(g, a, next)) == next
  {
    OthersUnaware(Last(g), a, t);
    LogStep(g, a, t.(runners := Last(g).runners));
    hide Next, Own, Kept, Init;
  }

  lemma OthersUnaware(s: State, a: Action, t: State)
    requires !ByRunner(a) && Next(s.(runners := []), a, t)
    ensures Next(s, a, t.(runners := s.runners))
  {
    hide HasRunning;
  }

  lemma MoveOne(r: Runner, r': Runner)
    ensures [r][0 := r'] == [r']
  {
  }

  /** The run g with the step of the others played, if they can take it; a created task gets the
      identifier `next`. */
  ghost function Played(g: Log, a: Action, t: State, next: int): Log
    requires Sound(g)
  {
    if && !ByRunner(a) && Next(Last(g).(runners := []), a, t)
       && t.tasks.Keys <= Last(g).tasks.Keys + {next}
    then Logged(g, a, t.(runners := Last(g).runners))
    else g
  }

  /** The run g with all of `todo` played as far as possible. */
  ghost function Joined(g: Log, todo: seq<(Action, State)>, next: int): Log {
    if todo == [] then g
    else
      var n := |todo| - 1;
      var h := Joined(g, todo[..n], next);
      if Sound(h) then Played(h, todo[n].0, todo[n].1, next + |h.actions| - |g.actions|) else h
  }

  lemma JoinedNone(g: Log, todo: seq<(Action, State)>, next: int)
    ensures Joined(g, todo[..0], next) == g
  {
  }

  lemma JoinedOneMore(g: Log, todo: seq<(Action, State)>, i: nat, next: int)
    requires i < |todo| && Sound(Joined(g, todo[..i], next))
    ensures var h := Joined(g, todo[..i], next);
            Joined(g, todo[..i + 1], next) == Played(h, todo[i].0, todo[i].1, next + |h.actions| - |g.actions|)
  {
    hide Sound, Played;
    assert todo[..i + 1][..i] == todo[..i];
  }

  // ---- A task in the runner's hands -----------------------------------------------------

  lemma HeldStep(s: State, a: Action, t: State, id: TaskId)
    requires Invariant(s) && s.runners == [Started(id)] && Next(s, a, t) && !ByRunner(a)
    ensures t.runners == s.runners && id in s.tasks && id in t.tasks
    ensures t.tasks[id].status == if a == CancelWrite(id) then Cancelled else s.tasks[id].status
  {
    hide OneRunning, HasRunning;
    if a.Stop? || a.Complete? {
      assert AssistantOk(s.tasks, TheRunner(s), s.assistants[a.h]);
    }
  }

  lemma StartStep(s: State, t: State, id: TaskId)
    requires Invariant(s) && Next(s, Start(0), t) && TheRunner(s) == Clear(id)
    ensures t.runners == [Started(id)] && id in t.tasks && t.tasks[id].status == Running
  {
    hide OneRunning, HasRunning, AssistantOk;
  }

  /** An API cancel of the task was written between steps i and j. */
  ghost predicate CancelledBetween(actions: seq<Action>, i: int, j: int, id: TaskId) {
    exists k :: i < k < j && 0 <= k < |actions| && actions[k] == CancelWrite(id)
  }

  /** From the moment the runner marks a task running until its own next step, the status of the
      task is running, or cancelled exactly if an API cancel was written since. */
  lemma {:induction false} HeldStatus(states: seq<State>, actions: seq<Action>, i: nat, j: nat, id: TaskId)
    requires IsRun(states, actions, 1) && i < j <= |actions|
    requires actions[i] == Start(0) && TheRunner(states[i]) == Clear(id)
    requires forall k | i < k < j :: !ByRunner(actions[k])
    ensures states[j].runners == [Started(id)] && id in states[j].tasks
    ensures states[j].tasks[id].status == if CancelledBetween(actions, i, j, id) then Cancelled else Running
  {
    hide Next, Invariant, Init;
    RunInvariant(states, actions, 1, j - 1);
    assert Next(states[j - 1], actions[j - 1], states[j - 1 + 1]);
    if j == i + 1 {
      StartStep(states[i], states[j], id);
      assert !CancelledBetween(actions, i, j, id);
    } else {
      HeldStatus(states, actions, i, j - 1, id);
      hide IsRun;
      HeldStep(states[j - 1], actions[j - 1], states[j], id);
      CancelledStep(actions, i, j, id);
    }
  }

  lemma CancelledStep(actions: seq<Action>, i: int, j: int, id: TaskId)
    requires 0 <= i < j - 1 < |actions|
    ensures CancelledBetween(actions, i, j, id) <==>
            CancelledBetween(actions, i, j - 1, id) || actions[j - 1] == CancelWrite(id)
  {
  }

  // ---- Which cancels are lost ------------------------------------------------------------------

  ghost predicate IsPath(states: seq<State>, actions: seq<Action>) {
    |states| == |actions| + 1 && forall i | 0 <= i < |actions| :: Next(states[i], actions[i], states[i + 1])
  }

  /** Some continuation from s has task id running in the end. */
  ghost predicate CanRun(s: State, id: TaskId) {
    exists states, actions ::
      IsPath(states, actions) && states[0] == s && EndsRunning(states, id)
  }

  ghost predicate EndsRunning(states: seq<State>, id: TaskId) {
    |states| > 0 && id in states[|states| - 1].tasks && states[|states| - 1].tasks[id].status == Running
  }

  /** The task is closed and no runner is about to mark it. */
  ghost predicate OutOfReach(s: State, id: TaskId) {
    && id in s.tasks && Terminal(s.tasks[id].status)
    && forall k | 0 <= k < |s.runners| :: s.runners[k] != Picked(id) && s.runners[k] != Clear(id)
  }

  lemma StaysOutOfReach(s: State, a: Action, t: State, id: TaskId)
    requires OutOfReach(s, id) && Next(s, a, t)
    ensures OutOfReach(t, id)
  {
    hide HasRunning;
  }

  lemma {:induction false} NeverRunsAgain(states: seq<State>, actions: seq<Action>, i: nat, id: TaskId)
    requires IsPath(states, actions) && OutOfReach(states[0], id) && i < |states|
    ensures OutOfReach(states[i], id)
  {
    hide Next, OutOfReach;
    if i > 0 {
      NeverRunsAgain(states, actions, i - 1, id);
      assert Next(states[i - 1], actions[i - 1], states[i - 1 + 1]);
      StaysOutOfReach(states[i - 1], actions[i - 1], states[i], id);
    }
  }

  /** With one runner, a task can still come to run after an API cancel of it is written exactly if
      the runner has picked it and not yet marked it; the cancel is then lost. */
  lemma CancelLostExactly(s: State, id: TaskId, t: State)
    requires Invariant(s) && |s.runners| == 1 && Next(s, CancelWrite(id), t) && id in s.tasks
    ensures CanRun(t, id) <==> s.runners[0] == Picked(id) || s.runners[0] == Clear(id)
  {
    hide HasRunning, Invariant, IsPath, EndsRunning;
    if s.runners[0] == Clear(id) {
      var states, actions := MarkPath(t, id);
    } else if s.runners[0] == Picked(id) {
      StepKeepsInvariant(s, CancelWrite(id), t);
      var states, actions := CheckPath(t, id);
    } else {
      OutOfReachNow(s, id, t);
    }
  }

  lemma OutOfReachNow(s: State, id: TaskId, t: State)
    requires |s.runners| == 1 && Next(s, CancelWrite(id), t) && id in s.tasks
    requires s.runners[0] != Picked(id) && s.runners[0] != Clear(id)
    ensures !CanRun(t, id)
  {
    assert OutOfReach(t, id);
    forall states: seq<State>, actions: seq<Action> | IsPath(states, actions) && states[0] == t
      ensures !EndsRunning(states, id)
    {
      NeverRunsAgain(states, actions, |states| - 1, id);
    }
  }

  lemma MarkPath(t: State, id: TaskId) returns (states: seq<State>, actions: seq<Action>)
    requires t.runners == [Clear(id)] && id in t.tasks
    ensures IsPath(states, actions) && states[0] == t && EndsRunning(states, id)
  {
    hide HasRunning;
    MoveOne(Clear(id), Started(id));
    var marked := t.(runners := [Started(id)], tasks := SetStatus(t.tasks, id, Running));
    states, actions := [t, marked], [Start(0)];
  }

  lemma PathFront(s: State, a: Action, states: seq<State>, actions: seq<Action>)
    requires IsPath(states, actions) && Next(s, a, states[0])
    ensures IsPath([s] + states, [a] + actions)
  {
    hide Next;
    forall i | 0 <= i < |actions| + 1 ensures Next(([s] + states)[i], ([a] + actions)[i], ([s] + states)[i + 1]) {
      if i > 0 {
        assert Next(states[i - 1], actions[i - 1], states[i - 1 + 1]);
      }
    }
  }

  /** A running task of the same robot can be cancelled first, and it is the only one. */
  lemma CheckPath(t: State, id: TaskId) returns (states: seq<State>, actions: seq<Action>)
    requires Invariant(t) && t.runners == [Picked(id)] && id in t.tasks && t.tasks[id].status == Cancelled
    ensures IsPath(states, actions) && states[0] == t && EndsRunning(states, id)
  {
    hide IsPath, EndsRunning, Invariant;
    if HasRunning(t.tasks, t.tasks[id].robot) {
      var x :| x in t.tasks && t.tasks[x].robot == t.tasks[id].robot && t.tasks[x].status == Running;
      var asked := t.(cancels := t.cancels + multiset{x});
      var freed := t.(tasks := SetStatus(t.tasks, x, Cancelled));
      assert asked.cancels - multiset{x} == t.cancels;
      OnlyRunning(t, x);
      states, actions := FreePath(freed, id);
      hide HasRunning;
      PathFront(asked, CancelWrite(x), states, actions);
      PathFront(t, CancelRead(x), [asked] + states, [CancelWrite(x)] + actions);
      EndsRunningFront(asked, states, id);
      EndsRunningFront(t, [asked] + states, id);
      states, actions := [t] + ([asked] + states), [CancelRead(x)] + ([CancelWrite(x)] + actions);
    } else {
      states, actions := FreePath(t, id);
    }
  }

  lemma EndsRunningFront(s: State, states: seq<State>, id: TaskId)
    requires EndsRunning(states, id)
    ensures EndsRunning([s] + states, id)
  {
  }

  lemma OnlyRunning(t: State, x: TaskId)
    requires Invariant(t) && x in t.tasks && t.tasks[x].status == Running
    ensures !HasRunning(SetStatus(t.tasks, x, Cancelled), t.tasks[x].robot)
  {
    hide AssistantOk, RunnerOk;
  }

  lemma FreePath(t: State, id: TaskId) returns (states: seq<State>, actions: seq<Action>)
    requires t.runners == [Picked(id)] && id in t.tasks && !HasRunning(t.tasks, t.tasks[id].robot)
    ensures IsPath(states, actions) && states[0] == t && EndsRunning(states, id)
  {
    hide IsPath, EndsRunning, HasRunning;
    MoveOne(Picked(id), Clear(id));
    var clear := t.(runners := [Clear(id)]);
    states, actions := MarkPath(clear, id);
    PathFront(t, Check(0), states, actions);
    EndsRunningFront(t, states, id);
    states, actions := [t] + states, [Check(0)] + actions;
  }

  /** A cancel that is written between the pick and the mark is lost: a run at whose end the task
      is running and no cancel is left to be written. */
  lemma EarlyCancelIsLost(job: Task) returns (states: seq<State>, actions: seq<Action>)
    requires job.status == Pending
    ensures IsRun(states, actions, 1)
    ensures actions == [Create(0, job), Pick(0, 0), Check(0), CancelRead(0), CancelWrite(0), Start(0)]
    ensures var end := states[6];
            end.tasks == map[0 := job.(status := Running)] && end.runners == [Started(0)] && end.cancels == multiset{}
  {
    var pending, running := map[0 := job], map[0 := job.(status := Running)];
    var cancelled := map[0 := job.(status := Cancelled)];
    actions := [Create(0, job), Pick(0, 0), Check(0), CancelRead(0), CancelWrite(0), Start(0)];
    states := [State(map[], [Polling], [], multiset{}), State(pending, [Polling], [], multiset{}),
               State(pending, [Picked(0)], [], multiset{}), State(pending, [Clear(0)], [], multiset{}),
               State(pending, [Clear(0)], [], multiset{0}), State(cancelled, [Clear(0)], [], multiset{}),
               State(running, [Started(0)], [], multiset{})];
    MoveOne(Polling, Picked(0));
    MoveOne(Picked(0), Clear(0));
    MoveOne(Clear(0), Started(0));
    assert map[][0 := job] == pending && SetStatus(pending, 0, Cancelled) == cancelled
           && SetStatus(cancelled, 0, Running) == running;
  }

  /** The task that step a closes, and the status it writes. */
  function Closed(s: State, a: Action): Option<(TaskId, Status)> {
    match a
    case Finish(k, status, _) =>
      if k < |s.runners| && s.runners[k].Started? then Some((s.runners[k].id, status)) else None
    case Stop(h, status, _) => if h < |s.assistants| then Some((s.assistants[h].task, status)) else None
    case Complete(h, _) => if h < |s.assistants| then Some((s.assistants[h].task, Completed)) else None
    case _ => None
  }

  /** Runner, engine and assistants close a task without reading it: whatever cancel was written
      before, the status is the closing one. */
  lemma ClosingOverwrites(s: State, a: Action, t: State)
    requires Next(s, a, t) && Closed(s, a).Some? && Closed(s, a).value.0 in s.tasks
    ensures var (id, status) := Closed(s, a).value; id in t.tasks && t.tasks[id].status == status
    ensures exists u :: && Next(s.(tasks := SetStatus(s.tasks, Closed(s, a).value.0, Cancelled)), a, u)
                        && u.tasks == t.tasks
  {
    hide HasRunning;
    var id := Closed(s, a).value.0;
    var cancelled := s.(tasks := SetStatus(s.tasks, id, Cancelled));
    assert Next(cancelled, a, t);
  }

  /** The last step was the runner marking task id. */
  ghost predicate JustMarked(g: Log, id: TaskId) {
    && |g.states| == |g.actions| + 1 && |g.actions| > 0
    && g.actions[|g.actions| - 1] == Start(0) && TheRunner(g.states[|g.actions| - 1]) == Clear(id)
  }

  lemma Marked(g: Log, t: State, id: TaskId)
    requires Sound(g) && Last(g).runners[0] == Clear(id)
    ensures JustMarked(Logged(g, Start(0), t), id)
  {
    hide Next, Init;
  }

  /** Poll k read status cancelled. */
  ghost predicate SawCancelled(g: Log, id: TaskId, k: int)
    requires Sound(g)
  {
    && 0 <= k < |g.polled| && id in g.states[g.polled[k]].tasks
    && g.states[g.polled[k]].tasks[id].status == Cancelled
  }

  lemma SawContinues(g: Log, h: Log, id: TaskId, k: int)
    requires Continues(g, h) && 0 <= k < |g.polled|
    ensures SawCancelled(g, id, k) <==> SawCancelled(h, id, k)
  {
    hide Next, Init, Kept;
  }

  /** Between marking and closing, a poll reads cancelled exactly if an API cancel was written
      after the mark. */
  lemma PollSeesCancel(m: Log, h: Log, id: TaskId, status: Status, now: Time, k: int)
    requires Sound(m) && JustMarked(m, id) && Ends(m, h, status, now) && |m.polled| <= k < |h.polled|
    ensures SawCancelled(h, id, k) <==> CancelledBetween(h.actions, |m.actions| - 1, h.polled[k], id)
  {
    hide Kept, Own, Next, Init;
    var before, n := h.actions[..|h.actions| - 1], |m.actions|;
    assert before[..n] == m.actions;
    OthersBetween(before, n);
    HeldStatus(h.states, h.actions, n - 1, h.polled[k], id);
  }
}
