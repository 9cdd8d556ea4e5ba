/** Waiting for arrival: telemetry callbacks race the polling loop over a shared result.
    Every critical section is one atomic step, in any order. */
module NavigationExecutor {
  import opened Common
  import opened Tasks
  import opened RobotEngine

  datatype Sample = Sample(online: bool, distance: Option<real>)

  predicate Within(x: Sample, threshold: real) {
    x.distance.Some? && 0.0 <= x.distance.value < threshold
  }

  /** A sample that the callback acts on: offline, or online within the threshold. */
  predicate Decisive(x: Sample, threshold: real) {
    !x.online || Within(x, threshold)
  }

  const UNSET := NavigationResult(false, false, false, "")
  const OFFLINE := NavigationResult(false, false, false, "robot offline")
  const ARRIVED := NavigationResult(true, false, false, "")
  const CANCELLED := NavigationResult(false, false, true, "context cancelled")
  const TIMED_OUT := NavigationResult(false, true, false, "navigation timeout")

  predicate IsSettled(r: NavigationResult) {
    r.success || r.timeout || r.cancelled || r.reason != ""
  }

  /** The verdict of the callback on a decisive sample. */
  function Verdict(x: Sample): NavigationResult {
    if x.online then ARRIVED else OFFLINE
  }

  datatype State = State(
    result: NavigationResult,          // guarded by the mutex
    closing: nat,                      // callbacks between unlock and close(done)
    closes: nat,                       // calls of close(done)
    ticked: bool,                      // the loop saw no result and is about to read the clock
    answer: Option<NavigationResult>,  // what Execute returned
    samples: seq<Sample>)              // telemetry handled so far

  datatype Action =
    | Callback(x: Sample)
    | CloseDone
    | ContextDone
    | DoneSignal
    | Tick
    | Deadline(passed: bool)

  ghost predicate Init(s: State) {
    s == State(UNSET, 0, 0, false, None, [])
  }

  ghost predicate Next(s: State, a: Action, t: State, threshold: real) {
    match a
    case Callback(x) =>
      var heard := s.(samples := s.samples + [x]);
      if IsSettled(s.result) || !Decisive(x, threshold) then t == heard
      else t == heard.(result := Verdict(x), closing := s.closing + 1)
    case CloseDone =>
      s.closing > 0 && t == s.(closing := s.closing - 1, closes := s.closes + 1)
    case ContextDone =>
      && s.answer.None? && !s.ticked
      && var r := if s.result.success || s.result.timeout then s.result else CANCELLED;
         t == s.(result := r, answer := Some(r))
    case DoneSignal =>
      s.answer.None? && !s.ticked && s.closes > 0 && t == s.(answer := Some(s.result))
    case Tick =>
      && s.answer.None? && !s.ticked
      && t == if IsSettled(s.result) then s.(answer := Some(s.result)) else s.(ticked := true)
    case Deadline(passed) =>
      && s.answer.None? && s.ticked
      && t == if passed then s.(ticked := false, answer := Some(TIMED_OUT)) else s.(ticked := false)
  }

  ghost predicate IsRun(states: seq<State>, actions: seq<Action>, threshold: real) {
    && |states| == |actions| + 1 && Init(states[0])
    && forall i | 0 <= i < |actions| :: Next(states[i], actions[i], states[i + 1], threshold)
  }

  /** Sample i is the first decisive one. */
  ghost predicate First(samples: seq<Sample>, threshold: real, i: int) {
    && 0 <= i < |samples| && Decisive(samples[i], threshold)
    && forall j | 0 <= j < i :: !Decisive(samples[j], threshold)
  }

  ghost predicate Quiet(samples: seq<Sample>, threshold: real) {
    forall i | 0 <= i < |samples| :: !Decisive(samples[i], threshold)
  }

  /** The shared result is the verdict on the first decisive sample unless the context was
      cancelled; done is closed once for a callback verdict and never otherwise. */
  ghost predicate Invariant(s: State, threshold: real) {
    && (s.result == UNSET || s.result == CANCELLED || s.result == ARRIVED || s.result == OFFLINE)
    && (s.result == UNSET ==> Quiet(s.samples, threshold) && s.closing + s.closes == 0)
    && (s.result == ARRIVED || s.result == OFFLINE ==>
          s.closing + s.closes == 1 && exists i :: First(s.samples, threshold, i) && s.result == Verdict(s.samples[i]))
    && (s.result == CANCELLED ==> s.closing + s.closes <= 1 && s.answer == Some(CANCELLED))
    && (s.answer.Some? ==> s.answer == Some(TIMED_OUT) || (s.answer == Some(s.result) && s.result != UNSET))
    && (s.answer.Some? ==> !s.ticked)
  }

  lemma StepKeepsInvariant(s: State, a: Action, t: State, threshold: real)
    requires Invariant(s, threshold) && Next(s, a, t, threshold)
    ensures Invariant(t, threshold)
    ensures s.result.success ==> t.result.success
    ensures s.answer.Some? ==> t.answer == s.answer
  {
    if a.Callback? {
      var n := |s.samples|;
      assert t.samples[n] == a.x && forall j | 0 <= j < n :: t.samples[j] == s.samples[j];
      if s.result == ARRIVED || s.result == OFFLINE {
        var i :| First(s.samples, threshold, i) && s.result == Verdict(s.samples[i]);
        assert First(t.samples, threshold, i);
      } else if s.result == UNSET && Decisive(a.x, threshold) {
        assert First(t.samples, threshold, n);
      }
    }
  }

  lemma {:induction false} RunInvariant(states: seq<State>, actions: seq<Action>, threshold: real, k: nat)
    requires IsRun(states, actions, threshold) && k < |states|
    ensures Invariant(states[k], threshold)
  {
    if k > 0 {
      RunInvariant(states, actions, threshold, k - 1);
      assert Next(states[k - 1], actions[k - 1], states[k - 1 + 1], threshold);
      StepKeepsInvariant(states[k - 1], actions[k - 1], states[k], threshold);
    }
  }

  /** In every interleaving: done is closed at most once; a success that was recorded is still
      there at every later point; and Execute answers with the verdict on the first decisive
      sample, a cancellation or a timeout, so success means that this sample was an arrival. */
  lemma {:induction false} OutcomeFixedByFirstSample(states: seq<State>, actions: seq<Action>, threshold: real, k: nat,
                                                     m: nat)
    requires IsRun(states, actions, threshold) && k <= m < |states|
    ensures states[m].closes <= 1
    ensures states[k].result.success ==> states[m].result.success
    ensures states[k].answer.Some? ==> states[m].answer == states[k].answer
    ensures states[m].answer.Some? ==>
              || states[m].answer.value == CANCELLED || states[m].answer.value == TIMED_OUT
              || exists i :: && First(states[m].samples, threshold, i)
                             && states[m].answer.value == Verdict(states[m].samples[i])
    ensures states[m].answer.Some? && states[m].answer.value.success ==>
              exists i :: && First(states[m].samples, threshold, i)
                          && states[m].samples[i].online && Within(states[m].samples[i], threshold)
    decreases m - k
  {
    RunInvariant(states, actions, threshold, m);
    if k < m {
      OutcomeFixedByFirstSample(states, actions, threshold, k, m - 1);
      RunInvariant(states, actions, threshold, m - 1);
      assert Next(states[m - 1], actions[m - 1], states[m - 1 + 1], threshold);
      StepKeepsInvariant(states[m - 1], actions[m - 1], states[m], threshold);
    }
  }

  /** Listening to samples whose last is the first decisive one, Execute can answer with the
      verdict on it. */
  lemma VerdictIsReached(samples: seq<Sample>, threshold: real) returns (states: seq<State>, actions: seq<Action>)
    requires First(samples, threshold, |samples| - 1)
    ensures IsRun(states, actions, threshold)
    ensures states[|actions|].samples == samples
    ensures states[|actions|].answer == Some(Verdict(samples[|samples| - 1]))
  {
    var n := |samples|;
    var r := Verdict(samples[n - 1]);
    var listening := seq(n, (i: int) requires 0 <= i <= n => State(UNSET, 0, 0, false, None, samples[..i]));
    var settled := State(r, 1, 0, false, None, samples);
    var closed := State(r, 0, 1, false, None, samples);
    states := listening + [settled, closed, closed.(answer := Some(r))];
    actions := seq(n, (i: int) requires 0 <= i < n => Callback(samples[i])) + [CloseDone, DoneSignal];
    forall i | 0 <= i < |actions| ensures Next(states[i], actions[i], states[i + 1], threshold) {
      if i < n {
        assert samples[..i] + [samples[i]] == samples[..i + 1] && samples[..n] == samples;
      }
    }
  }

  lemma RunSize(states: seq<State>, actions: seq<Action>, threshold: real)
    requires IsRun(states, actions, threshold)
    ensures |states| == |actions| + 1
  {
  }

  // ---- How a navigation ends, and its task ------------------------------------------------

  /** The first decisive sample is online within the threshold. */
  ghost predicate HeardArrival(samples: seq<Sample>, threshold: real) {
    exists i :: && First(samples, threshold, i) && samples[i].online
                && samples[i].distance.Some? && 0.0 <= samples[i].distance.value < threshold
  }

  ghost predicate HeardOffline(samples: seq<Sample>, threshold: real) {
    exists i :: First(samples, threshold, i) && !samples[i].online
  }

  /** What an action that ends Execute in state s makes it answer. */
  ghost predicate AnswersBy(s: State, a: Action, answer: NavigationResult, threshold: real) {
    var arrived := NavigationResult(true, false, false, "");
    var offline := NavigationResult(false, false, false, "robot offline");
    match a
    case ContextDone =>
      answer == if HeardArrival(s.samples, threshold) then arrived
                else NavigationResult(false, false, true, "context cancelled")
    case Deadline(passed) => passed && answer == NavigationResult(false, true, false, "navigation timeout")
    case DoneSignal =>
      || (answer == arrived && HeardArrival(s.samples, threshold))
      || (answer == offline && HeardOffline(s.samples, threshold))
    case Tick =>
      || (answer == arrived && HeardArrival(s.samples, threshold))
      || (answer == offline && HeardOffline(s.samples, threshold))
    case _ => false
  }

  /** The answer is given by one action of the loop and decided by it and by what was heard before. */
  lemma {:induction false} AnsweredOnce(states: seq<State>, actions: seq<Action>, threshold: real, k: nat)
      returns (j: nat)
    requires IsRun(states, actions, threshold) && k < |states| && states[k].answer.Some?
    ensures j < k && states[j].answer.None? && AnswersBy(states[j], actions[j], states[k].answer.value, threshold)
  {
    hide Invariant, Next, First, Quiet;
    InitSilent(states, actions, threshold);
    assert Next(states[k - 1], actions[k - 1], states[k - 1 + 1], threshold);
    RunInvariant(states, actions, threshold, k - 1);
    StepKeepsInvariant(states[k - 1], actions[k - 1], states[k], threshold);
    if states[k - 1].answer.Some? {
      j := AnsweredOnce(states, actions, threshold, k - 1);
    } else {
      j := k - 1;
      AnswerStep(states[j], actions[j], states[k], threshold);
    }
  }

  lemma InitSilent(states: seq<State>, actions: seq<Action>, threshold: real)
    requires IsRun(states, actions, threshold)
    ensures states[0].answer.None?
  {
  }

  lemma AnswerStep(s: State, a: Action, t: State, threshold: real)
    requires Invariant(s, threshold) && Next(s, a, t, threshold) && s.answer.None? && t.answer.Some?
    ensures AnswersBy(s, a, t.answer.value, threshold)
  {
    FirstIsUnique(s.samples, threshold);
    assert a.DoneSignal? ==> s.result != UNSET;
  }

  lemma FirstIsUnique(samples: seq<Sample>, threshold: real)
    ensures forall i, j | First(samples, threshold, i) && First(samples, threshold, j) :: i == j
  {
  }

  /** The status of a task whose navigation ran under the executor, by what ended the navigation: a
      first decisive sample within the threshold completes it, offline fails it, a cancelled context
      cancels it unless the arrival was already heard, and a deadline counts as the engine is set,
      even if the arrival was heard before it was read. */
  lemma TaskEndsBy(states: seq<State>, actions: seq<Action>, threshold: real, k: nat, task: Task,
                   timeoutAsCompletion: bool)
      returns (j: nat)
    requires IsRun(states, actions, threshold) && k < |states| && states[k].answer.Some?
    requires task.payload.Fields? && task.payload.target != ""
    ensures j < k && states[j].answer.None?
    ensures var status := FinalStatus(TaskResult(task, states[k].answer.value), timeoutAsCompletion);
            var heard := states[j].samples;
            match actions[j]
            case ContextDone => status == if HeardArrival(heard, threshold) then Completed else Cancelled
            case Deadline(passed) => passed && status == if timeoutAsCompletion then Completed else Failed
            case DoneSignal =>
              && (status == Completed || status == Failed)
              && if status == Completed then HeardArrival(heard, threshold) else HeardOffline(heard, threshold)
            case Tick =>
              && (status == Completed || status == Failed)
              && if status == Completed then HeardArrival(heard, threshold) else HeardOffline(heard, threshold)
            case _ => false
  {
    hide IsRun, First;
    j := AnsweredOnce(states, actions, threshold, k);
  }

  /** A deadline that passes between the tick and the reading of the clock hides an arrival that
      was heard meanwhile. */
  lemma ArrivalLostToDeadline(x: Sample, threshold: real) returns (states: seq<State>, actions: seq<Action>)
    requires x.online && Within(x, threshold)
    ensures actions == [Tick, Callback(x), Deadline(true)] && IsRun(states, actions, threshold)
    ensures states[3].result == ARRIVED && states[3].answer == Some(TIMED_OUT)
  {
    var s0 := State(UNSET, 0, 0, false, None, []);
    var s2 := State(ARRIVED, 1, 0, true, None, [x]);
    actions := [Tick, Callback(x), Deadline(true)];
    states := [s0, s0.(ticked := true), s2, s2.(ticked := false, answer := Some(TIMED_OUT))];
  }
}
