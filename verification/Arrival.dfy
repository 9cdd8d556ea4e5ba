/** The simulated robot under the navigation executor: when a reported arrival is a real one. */
module Arrival {
  import opened Common
  import opened SimRobot
  import NavigationExecutor

  /** The part of published telemetry that the executor reads. */
  function Telemetry(s: SimState): NavigationExecutor.Sample {
    NavigationExecutor.Sample(s.online, Some(s.distance))
  }

  /** The modes in which telemetry carries the target position. */
  predicate ShowsTarget(m: Mode) {
    m == Navigating || m == ReturningMode || m == ArrivedMode
  }

  /** Telemetry published in the course of events: one sample for each tick. */
  function Published(w: World, events: seq<Event>): seq<NavigationExecutor.Sample> {
    if events == [] then []
    else
      var last := |events| - 1;
      Published(w, events[..last]) + if events[last].Tick? then [Telemetry(Play(w, events).state)] else []
  }

  ghost predicate Near(p: Position, q: Position, threshold: real) {
    exists d :: IsDistance(p, q, d) && d < threshold
  }

  lemma AwayFrom(p: Position, q: Position, d: real, threshold: real)
    requires IsDistance(p, q, d) && d >= threshold
    ensures !Near(p, q, threshold)
  {
    hide IsDistance;
    if Near(p, q, threshold) {
      var e :| IsDistance(p, q, e) && e < threshold;
      DistanceUnique(p, q, d, e);
    }
  }

  // ---- When an arrival report is true ----------------------------------------------------

  /** The target of the latest accepted navigate_to. */
  function Commanded(events: seq<Event>): Option<Position> {
    if events == [] then None
    else
      var last := |events| - 1;
      if events[last].Receive? && AcceptedNavigate(events[last].order) then events[last].order.target
      else Commanded(events[..last])
  }

  lemma CommandedExtend(events: seq<Event>, e: Event)
    ensures Commanded(events + [e]) ==
            if e.Receive? && AcceptedNavigate(e.order) then e.order.target else Commanded(events)
  {
    assert (events + [e])[..|events|] == events;
  }

  lemma {:induction false} ShownTargetIsCommanded(events: seq<Event>)
    ensures ShowsTarget(Play(BOOT, events).state.mode) ==> Commanded(events) == Some(Play(BOOT, events).state.target)
  {
    if events != [] {
      var n := |events| - 1;
      ShownTargetIsCommanded(events[..n]);
      ShownStep(Play(BOOT, events[..n]), events[n]);
    }
  }

  lemma ShownStep(w: World, e: Event)
    ensures var t := Step(w, e).state;
            ShowsTarget(t.mode) ==>
              if e.Receive? && AcceptedNavigate(e.order) then Some(t.target) == e.order.target
              else ShowsTarget(w.state.mode) && t.target == w.state.target
  {
    hide Stride, MoveToward, Triggered;
    if e.Tick? {
      ShownTick(w.state, w.failure, e.dist);
      hide TickStep;
    }
  }

  lemma ShownTick(s: SimState, f: Option<Failure>, dist: real)
    ensures var t := TickStep(s, f, dist).0;
            ShowsTarget(t.mode) ==> ShowsTarget(s.mode) && t.target == s.target
  {
    hide Stride, MoveToward, Triggered;
  }

  /** In every run from the start that has just published telemetry in mode m, an online report
      within the threshold of a commanded target means that the robot is there. */
  ghost predicate Trustworthy(m: Mode, threshold: real) {
    forall events: seq<Event> ::
      LegalRun(BOOT, events) && events != [] && events[|events| - 1].Tick? && Commanded(events).Some? ==>
        var s := Play(BOOT, events).state;
        s.mode == m && s.online && NavigationExecutor.Within(Telemetry(s), threshold) ==>
          Near(s.position, Commanded(events).value, threshold)
  }

  /** A report within the threshold can be believed exactly in the modes whose telemetry shows a
      target position. */
  lemma TrueExactlyWithTargetShown(m: Mode, threshold: real)
    requires threshold > 0.0
    ensures Trustworthy(m, threshold) <==> ShowsTarget(m)
  {
    if ShowsTarget(m) {
      forall events: seq<Event> | LegalRun(BOOT, events) && Play(BOOT, events).state.mode == m
                      && NavigationExecutor.Within(Telemetry(Play(BOOT, events).state), threshold)
        ensures Commanded(events).Some? && Near(Play(BOOT, events).state.position, Commanded(events).value, threshold)
      {
        ShownReportIsTrue(events, threshold);
      }
    } else {
      var events := FalseReport(m, threshold);
      assert !ShowsTarget(m) && !Trustworthy(m, threshold);
    }
  }

  lemma ShownReportIsTrue(events: seq<Event>, threshold: real)
    requires LegalRun(BOOT, events) && ShowsTarget(Play(BOOT, events).state.mode) && threshold > 0.0
    requires NavigationExecutor.Within(Telemetry(Play(BOOT, events).state), threshold)
    ensures Commanded(events).Some? && Near(Play(BOOT, events).state.position, Commanded(events).value, threshold)
  {
    RunIsSafe(events);
    ShownTargetIsCommanded(events);
    var s := Play(BOOT, events).state;
    assert s.mode == ArrivedMode ==> IsDistance(s.position, s.target, 0.0);
    hide IsDistance;
  }

  function Own(name: string): Order {
    Order(true, name, None, [], "", 0.0)
  }

  function GoTo(q: Position, d: real): Order {
    Order(true, "navigate_to", Some(q), [], "", d)
  }

  const STOP := Receive(Own("safe_stop"))

  /** What brings a stopped robot into mode m, where m shows no target. */
  function Into(m: Mode): Event {
    match m
    case IdleMode => Receive(Own("release_control"))
    case Stand => Receive(Own("stand_mode"))
    case Walk => Receive(Own("walk_mode"))
    case ErrorMode => Inject(Failure(CommandRejected, 1, 0.0, "", 0.0, 0.0, 0, false))
    case _ => ClearInjection
  }

  lemma StoppedInto(w: World, m: Mode)
    requires !ShowsTarget(m) && w.failure.None?
    ensures var s := Step(Step(Step(w, STOP), Into(m)), Tick(0.0)).state;
            s.mode == m && s.online == w.state.online && s.distance == 0.0 && s.position == w.state.position
  {
    hide Stride, MoveToward;
    var stopped := Step(w, STOP);
    assert stopped == w.(state := Halt(w.state.(lastCommand := "safe_stop")));
    var s := Step(stopped, Into(m)).state;
    assert s.position == w.state.position && s.distance == 0.0 && s.online == w.state.online && !Moving(s);
    assert m != ErrorMode ==> s.mode == m && Step(stopped, Into(m)).failure.None?;
  }

  /** A run from the start that ends in mode m, away from the commanded target and reporting zero. */
  lemma FalseReport(m: Mode, threshold: real) returns (events: seq<Event>)
    requires !ShowsTarget(m) && threshold > 0.0
    ensures LegalRun(BOOT, events) && events != [] && events[|events| - 1].Tick? && Commanded(events).Some?
    ensures var s := Play(BOOT, events).state;
            && s.mode == m && s.online && s.distance == 0.0
            && !Near(s.position, Commanded(events).value, threshold)
  {
    var q := Position(threshold, 0.0);
    AwayFrom(ORIGIN, q, threshold, threshold);
    Marching(q, threshold, 0);
    var going := March(q, threshold, 0);
    assert going == [] + [going[0]];
    CommandedExtend([], going[0]);
    hide Near, LegalRun, Commanded, IsDistance, March;
    events := StoppedRun(going, m);
  }

  lemma StoppedRun(going: seq<Event>, m: Mode) returns (events: seq<Event>)
    requires LegalRun(BOOT, going) && !ShowsTarget(m) && Play(BOOT, going).failure.None?
    ensures LegalRun(BOOT, events) && events != [] && events[|events| - 1].Tick?
            && Commanded(events) == Commanded(going)
    ensures var w, s := Play(BOOT, going).state, Play(BOOT, events).state;
            s.mode == m && s.online == w.online && s.distance == 0.0 && s.position == w.position
  {
    LegalStop(Play(BOOT, going), m);
    StoppedInto(Play(BOOT, going), m);
    CommandedExtend(going, STOP);
    hide Play, LegalRun, Step, Legal, Commanded;
    var stopped := going + [STOP];
    LegalExtend(BOOT, going, STOP);
    CommandedExtend(stopped, Into(m));
    LegalExtend(BOOT, stopped, Into(m));
    CommandedExtend(stopped + [Into(m)], Tick(0.0));
    LegalExtend(BOOT, stopped + [Into(m)], Tick(0.0));
    events := stopped + [Into(m)] + [Tick(0.0)];
  }

  lemma LegalStop(w: World, m: Mode)
    ensures Legal(w, STOP) && Legal(Step(w, STOP), Into(m)) && Legal(Step(Step(w, STOP), Into(m)), Tick(0.0))
  {
  }

  // ---- A false success --------------------------------------------------------------------

  /** navigate_to a target q at distance d, then n undisturbed ticks at the default speed. */
  function March(q: Position, d: real, n: nat): seq<Event> {
    if n == 0 then [Receive(GoTo(q, d))]
    else March(q, d, n - 1) + [Tick(d - Times(n - 1, 0.5))]
  }

  ghost predicate Underway(w: World, q: Position, d: real) {
    && w.failure.None? && w.state.online && w.state.mode == Navigating && w.state.speed == DEFAULT_SPEED
    && w.state.target == q && w.state.distance == d && IsDistance(w.state.position, q, d)
  }

  lemma UnderwayTick(w: World, q: Position, d: real)
    requires Underway(w, q, d) && d > 0.5
    ensures Legal(w, Tick(d)) && Underway(Step(w, Tick(d)), q, d - 0.5)
  {
    MoveShortens(w.state.position, q, d, 0.5);
    hide IsDistance, MoveToward;
  }

  lemma {:induction false} Marching(q: Position, d: real, n: nat)
    requires IsDistance(ORIGIN, q, d) && (n > 0 ==> d - Times(n - 1, 0.5) > 0.5)
    ensures LegalRun(BOOT, March(q, d, n)) && Underway(Play(BOOT, March(q, d, n)), q, d - Times(n, 0.5))
  {
    hide IsDistance;
    if n == 0 {
      var go := March(q, d, 0)[0];
      assert March(q, d, 0) == [] + [go];
      assert LegalRun(BOOT, []) && Legal(BOOT, go);
      LegalExtend(BOOT, [], go);
    } else {
      TimesNext(n, 0.5);
      if n > 1 {
        TimesNext(n - 1, 0.5);
      }
      Marching(q, d, n - 1);
      hide Underway, Step, Legal, Times;
      var x := d - Times(n - 1, 0.5);
      UnderwayTick(Play(BOOT, March(q, d, n - 1)), q, x);
      LegalExtend(BOOT, March(q, d, n - 1), Tick(x));
    }
  }

  /** Telemetry so far was not decisive, and the robot was at no moment within the threshold of q. */
  ghost predicate StillAway(events: seq<Event>, q: Position, threshold: real) {
    && NavigationExecutor.Quiet(Published(BOOT, events), threshold)
    && NeverNear(events, q, threshold)
  }

  ghost predicate NeverNear(events: seq<Event>, q: Position, threshold: real) {
    forall i | 0 <= i <= |events| :: !Near(Play(BOOT, events[..i]).state.position, q, threshold)
  }

  lemma NeverNearExtend(events: seq<Event>, e: Event, q: Position, threshold: real)
    requires NeverNear(events, q, threshold)
    requires !Near(Play(BOOT, events + [e]).state.position, q, threshold)
    ensures NeverNear(events + [e], q, threshold)
  {
    hide Near, Play;
    var longer := events + [e];
    forall i | 0 <= i <= |longer| ensures !Near(Play(BOOT, longer[..i]).state.position, q, threshold) {
      if i == |longer| {
        assert longer[..i] == longer;
      } else {
        assert longer[..i] == events[..i];
      }
    }
  }

  lemma PublishedExtend(w: World, events: seq<Event>, e: Event)
    ensures Published(w, events + [e]) ==
            Published(w, events) + if e.Tick? then [Telemetry(Play(w, events + [e]).state)] else []
  {
    assert (events + [e])[..|events|] == events;
  }

  lemma StillAwayExtend(events: seq<Event>, e: Event, q: Position, threshold: real)
    requires StillAway(events, q, threshold)
    requires var s := Play(BOOT, events + [e]).state;
             !Near(s.position, q, threshold) && (e.Tick? ==> !NavigationExecutor.Decisive(Telemetry(s), threshold))
    ensures StillAway(events + [e], q, threshold)
  {
    hide Near, Play, NavigationExecutor.Decisive;
    NeverNearExtend(events, e, q, threshold);
    PublishedExtend(BOOT, events, e);
    hide NeverNear, Published;
  }

  lemma AwayNow(events: seq<Event>, q: Position, threshold: real)
    requires StillAway(events, q, threshold)
    ensures !Near(Play(BOOT, events).state.position, q, threshold)
  {
    hide Near, Play;
    assert events[..|events|] == events;
  }

  lemma UnderwayIsAway(w: World, q: Position, d: real, threshold: real)
    requires Underway(w, q, d) && d >= threshold > 0.0
    ensures !Near(w.state.position, q, threshold) && !NavigationExecutor.Decisive(Telemetry(w.state), threshold)
  {
    AwayFrom(w.state.position, q, d, threshold);
  }

  lemma {:induction false} MarchStaysAway(q: Position, d: real, n: nat, threshold: real)
    requires IsDistance(ORIGIN, q, d) && (n > 0 ==> d - Times(n - 1, 0.5) > 0.5)
    requires d - Times(n, 0.5) >= threshold > 0.0
    ensures StillAway(March(q, d, n), q, threshold)
  {
    hide Play, StillAway, Underway, Near, IsDistance, NavigationExecutor.Decisive;
    Marching(q, d, n);
    UnderwayIsAway(Play(BOOT, March(q, d, n)), q, d - Times(n, 0.5), threshold);
    if n == 0 {
      var go := March(q, d, 0)[0];
      assert March(q, d, 0) == [] + [go];
      AwayAtStart(q, d, threshold);
      StillAwayExtend([], go, q, threshold);
    } else {
      TimesNext(n, 0.5);
      if n > 1 {
        TimesNext(n - 1, 0.5);
      }
      hide Times;
      MarchStaysAway(q, d, n - 1, threshold);
      StillAwayExtend(March(q, d, n - 1), Tick(d - Times(n - 1, 0.5)), q, threshold);
    }
  }

  lemma AwayAtStart(q: Position, d: real, threshold: real)
    requires IsDistance(ORIGIN, q, d) && d >= threshold
    ensures StillAway([], q, threshold)
  {
    assert Play(BOOT, []).state.position == ORIGIN;
    AwayFrom(ORIGIN, q, d, threshold);
  }

  /** A robot sent to q and stopped by safe_stop while still at least the threshold away makes the
      executor that waits for q answer success. */
  lemma FalseSuccess(q: Position, d: real, n: nat, threshold: real)
      returns (events: seq<Event>, states: seq<NavigationExecutor.State>, actions: seq<NavigationExecutor.Action>)
    requires IsDistance(ORIGIN, q, d) && (n > 0 ==> d - Times(n - 1, 0.5) > 0.5)
    requires d - Times(n, 0.5) >= threshold > 0.0
    ensures events == March(q, d, n) + [STOP] + [Tick(0.0)] && LegalRun(BOOT, events)
    ensures NavigationExecutor.IsRun(states, actions, threshold)
    ensures states[|actions|].samples == Published(BOOT, events)
    ensures states[|actions|].answer == Some(NavigationExecutor.ARRIVED)
    ensures NeverNear(events, q, threshold)
  {
    hide Play, StillAway, Near, IsDistance, Times, NavigationExecutor.IsRun;
    Marching(q, d, n);
    MarchStaysAway(q, d, n, threshold);
    events := StoppedOnTheWay(March(q, d, n), q, threshold);
    states, actions := NavigationExecutor.VerdictIsReached(Published(BOOT, events), threshold);
  }

  lemma StoppedReport(w: World)
    requires w.failure.None?
    ensures Legal(w, STOP) && Step(w, STOP).state.position == w.state.position
    ensures Legal(Step(w, STOP), Tick(0.0))
    ensures var s := Step(Step(w, STOP), Tick(0.0)).state;
            s.position == w.state.position && Telemetry(s) == NavigationExecutor.Sample(w.state.online, Some(0.0))
  {
    hide Stride, MoveToward;
    assert Step(w, STOP) == w.(state := Halt(w.state.(lastCommand := "safe_stop")));
  }

  /** A stop within a run that is still away is published as an arrival. */
  lemma StoppedOnTheWay(going: seq<Event>, q: Position, threshold: real) returns (events: seq<Event>)
    requires LegalRun(BOOT, going) && StillAway(going, q, threshold) && threshold > 0.0
    requires Play(BOOT, going).failure.None? && Play(BOOT, going).state.online
    ensures events == going + [STOP] + [Tick(0.0)] && LegalRun(BOOT, events) && NeverNear(events, q, threshold)
    ensures var heard := Published(BOOT, events);
            NavigationExecutor.First(heard, threshold, |heard| - 1) && heard[|heard| - 1].online
  {
    hide Play, Near, Legal, Step, Published, LegalRun, StillAway, NeverNear;
    AwayNow(going, q, threshold);
    StoppedReport(Play(BOOT, going));
    LegalExtend(BOOT, going, STOP);
    LegalExtend(BOOT, going + [STOP], Tick(0.0));
    StillAwayExtend(going, STOP, q, threshold);
    events := going + [STOP] + [Tick(0.0)];
    ArrivalHeard(going + [STOP], Tick(0.0), q, threshold);
  }

  lemma ArrivalHeard(events: seq<Event>, e: Event, q: Position, threshold: real)
    requires StillAway(events, q, threshold) && e.Tick?
    requires var s := Play(BOOT, events + [e]).state;
             !Near(s.position, q, threshold) && s.online && NavigationExecutor.Within(Telemetry(s), threshold)
    ensures NeverNear(events + [e], q, threshold)
    ensures var heard := Published(BOOT, events + [e]);
            NavigationExecutor.First(heard, threshold, |heard| - 1) && heard[|heard| - 1].online
  {
    hide Near, Play;
    NeverNearExtend(events, e, q, threshold);
    PublishedExtend(BOOT, events, e);
    hide NeverNear, Published;
  }

  /** An executor that subscribes before the robot has handled its order can hear the telemetry of a
      robot that has nowhere to go, and answers success at once. */
  lemma StaleSuccess(q: Position, d: real, threshold: real)
      returns (events: seq<Event>, states: seq<NavigationExecutor.State>, actions: seq<NavigationExecutor.Action>)
    requires IsDistance(ORIGIN, q, d) && d >= threshold > 0.0
    ensures events == [Tick(0.0)] + [Receive(GoTo(q, d))] && LegalRun(BOOT, events)
    ensures NavigationExecutor.IsRun(states, actions, threshold)
    ensures states[|actions|].samples == Published(BOOT, events)
    ensures states[|actions|].answer == Some(NavigationExecutor.ARRIVED)
    ensures NeverNear(events, q, threshold)
  {
    hide Near, IsDistance, NavigationExecutor.IsRun;
    events := [Tick(0.0)] + [Receive(GoTo(q, d))];
    AwayAtStart(q, d, threshold);
    AwayNow([], q, threshold);
    var tick, go := Tick(0.0), Receive(GoTo(q, d));
    IdleTick(q, d);
    assert [] + [tick] == [tick];
    LegalExtend(BOOT, [], tick);
    LegalExtend(BOOT, [tick], go);
    ArrivalHeard([], tick, q, threshold);
    NeverNearExtend([tick], go, q, threshold);
    PublishedExtend(BOOT, [tick], go);
    states, actions := NavigationExecutor.VerdictIsReached(Published(BOOT, events), threshold);
  }

  lemma IdleTick(q: Position, d: real)
    requires IsDistance(ORIGIN, q, d)
    ensures LegalRun(BOOT, []) && Legal(BOOT, Tick(0.0)) && Legal(Step(BOOT, Tick(0.0)), Receive(GoTo(q, d)))
    ensures var s := Step(BOOT, Tick(0.0)).state; s.online && s.distance == 0.0 && s.position == ORIGIN
    ensures Step(Step(BOOT, Tick(0.0)), Receive(GoTo(q, d))).state.position == ORIGIN
  {
  }

  // ---- What the deciding sample shows ---------------------------------------------------

  /** The target that telemetry of s shows. */
  function Shown(s: SimState): Option<Position> {
    if ShowsTarget(s.mode) then Some(s.target) else None
  }

  ghost function At(events: seq<Event>, n: nat): SimState
    requires n <= |events|
  {
    Play(BOOT, events[..n]).state
  }

  /** The samples are telemetry published at the given moments of the run; any other may have been
      lost or published before the subscription. */
  ghost predicate Hears(events: seq<Event>, at: seq<nat>, samples: seq<NavigationExecutor.Sample>) {
    && |at| == |samples| && (forall i, j | 0 <= i < j < |at| :: at[i] < at[j])
    && forall i | 0 <= i < |at| ::
         0 < at[i] <= |events| && events[at[i] - 1].Tick? && samples[i] == Telemetry(At(events, at[i]))
  }

  /** In a run from the start, an executor hears telemetry and answers success on sample i. */
  ghost predicate Succeeds(events: seq<Event>, at: seq<nat>, states: seq<NavigationExecutor.State>,
                           actions: seq<NavigationExecutor.Action>, k: nat, i: nat, threshold: real)
  {
    && LegalRun(BOOT, events) && NavigationExecutor.IsRun(states, actions, threshold)
    && k < |states| && Hears(events, at, states[k].samples)
    && states[k].answer == Some(NavigationExecutor.ARRIVED)
    && NavigationExecutor.First(states[k].samples, threshold, i)
  }

  /** Whenever the deciding sample shows this, the robot is within the threshold of q. */
  ghost predicate Believable(shown: Option<Position>, q: Position, threshold: real) {
    forall events, at, states, actions, k, i | Succeeds(events, at, states, actions, k, i, threshold) ::
      Shown(At(events, at[i])) == shown ==> Near(At(events, at[i]).position, q, threshold)
  }

  /** Success of an executor that waits for q can be believed exactly if the deciding sample shows a
      target and that target is q. */
  lemma BelievableExactlyWithItsTarget(shown: Option<Position>, q: Position, threshold: real)
    requires threshold > 0.0
    ensures Believable(shown, q, threshold) <==> shown == Some(q)
  {
    hide LegalRun, NavigationExecutor.IsRun, Near, At, Shown, Telemetry;
    if shown == Some(q) {
      forall events, at, states, actions, k, i
        | Succeeds(events, at, states, actions, k, i, threshold) && Shown(At(events, at[i])) == shown
        ensures Near(At(events, at[i]).position, q, threshold)
      {
        DecidedByItsTarget(events, at, states, actions, k, i, q, threshold);
      }
    } else {
      var events;
      if shown.None? {
        events := Nowhere(q, threshold);
      } else {
        events := Elsewhere(shown.value, q, threshold);
      }
      var at, states, actions, k := HeardAtTheEnd(events, threshold);
      assert !Near(At(events, at[0]).position, q, threshold) && Shown(At(events, at[0])) == shown;
    }
  }

  lemma DecidedByItsTarget(events: seq<Event>, at: seq<nat>, states: seq<NavigationExecutor.State>,
                           actions: seq<NavigationExecutor.Action>, k: nat, i: nat, q: Position, threshold: real)
    requires Succeeds(events, at, states, actions, k, i, threshold) && threshold > 0.0
    requires Shown(At(events, at[i])) == Some(q)
    ensures Near(At(events, at[i]).position, q, threshold)
  {
    hide Near, LegalRun, Play, NavigationExecutor.IsRun;
    NavigationExecutor.OutcomeFixedByFirstSample(states, actions, threshold, k, k);
    LegalPrefix(BOOT, events, at[i]);
    ShownTargetIsCommanded(events[..at[i]]);
    ShownReportIsTrue(events[..at[i]], threshold);
  }

  /** A run that ends in a tick, online within the threshold, is heard as an arrival. */
  lemma HeardAtTheEnd(events: seq<Event>, threshold: real)
      returns (at: seq<nat>, states: seq<NavigationExecutor.State>, actions: seq<NavigationExecutor.Action>, k: nat)
    requires LegalRun(BOOT, events) && events != [] && events[|events| - 1].Tick?
    requires At(events, |events|).online && NavigationExecutor.Within(Telemetry(At(events, |events|)), threshold)
    ensures at == [|events|] && Succeeds(events, at, states, actions, k, 0, threshold)
  {
    hide At, LegalRun, NavigationExecutor.IsRun;
    at := [|events|];
    states, actions := NavigationExecutor.VerdictIsReached([Telemetry(At(events, |events|))], threshold);
    k := |actions|;
    NavigationExecutor.RunSize(states, actions, threshold);
  }

  /** The robot stands at p, able to move, with nothing injected. */
  ghost predicate Ready(w: World, p: Position) {
    w.failure.None? && w.state.online && w.state.speed == DEFAULT_SPEED && w.state.position == p
  }

  lemma {:induction false} Arrive(events: seq<Event>, q: Position, d: real) returns (more: seq<Event>)
    requires LegalRun(BOOT, events) && Underway(Play(BOOT, events), q, d)
    ensures LegalRun(BOOT, more) && Ready(Play(BOOT, more), q)
    decreases if d > 0.5 then 1 + (2.0 * d).Floor else 0
  {
    hide Legal, Step, LegalRun, Play, IsDistance;
    var w := Play(BOOT, events);
    if d > 0.5 {
      UnderwayTick(w, q, d);
      LegalExtend(BOOT, events, Tick(d));
      more := Arrive(events + [Tick(d)], q, d - 0.5);
    } else {
      ArrivingTick(w, q, d);
      LegalExtend(BOOT, events, Tick(d));
      more := events + [Tick(d)];
    }
  }

  lemma ArrivingTick(w: World, q: Position, d: real)
    requires Underway(w, q, d) && d <= 0.5
    ensures Legal(w, Tick(d)) && Ready(Step(w, Tick(d)), q)
    ensures var s := Step(w, Tick(d)).state; Shown(s) == Some(q) && s.distance == 0.0
  {
    hide IsDistance;
  }

  lemma OrderTo(events: seq<Event>, p: Position, q: Position, d: real)
    requires LegalRun(BOOT, events) && Ready(Play(BOOT, events), p) && IsDistance(p, q, d)
    ensures LegalRun(BOOT, events + [Receive(GoTo(q, d))])
    ensures Underway(Play(BOOT, events + [Receive(GoTo(q, d))]), q, d)
    ensures Play(BOOT, events + [Receive(GoTo(q, d))]).state.position == p
  {
    hide LegalRun, Play, IsDistance;
    LegalExtend(BOOT, events, Receive(GoTo(q, d)));
  }

  /** Along the axes the robot gets from the start to any position. */
  lemma Visit(p: Position) returns (events: seq<Event>)
    ensures LegalRun(BOOT, events) && Ready(Play(BOOT, events), p)
  {
    var corner := Position(p.x, 0.0);
    var dx, dy := if p.x < 0.0 then -p.x else p.x, if p.y < 0.0 then -p.y else p.y;
    assert IsDistance(ORIGIN, corner, dx) && IsDistance(corner, p, dy);
    assert LegalRun(BOOT, []) && Ready(Play(BOOT, []), ORIGIN);
    hide LegalRun, Play, IsDistance, Ready, Underway;
    OrderTo([], ORIGIN, corner, dx);
    events := Arrive([] + [Receive(GoTo(corner, dx))], corner, dx);
    OrderTo(events, corner, p, dy);
    events := Arrive(events + [Receive(GoTo(p, dy))], p, dy);
  }

  /** Let go next to q, the robot shows no target and reports zero. */
  lemma Nowhere(q: Position, threshold: real) returns (events: seq<Event>)
    requires threshold > 0.0
    ensures LegalRun(BOOT, events) && events != [] && events[|events| - 1].Tick?
    ensures var s := At(events, |events|);
            && s.online && NavigationExecutor.Within(Telemetry(s), threshold) && Shown(s) == None
            && !Near(s.position, q, threshold)
  {
    var p := Position(q.x + threshold, q.y);
    FarAlongX(p, q, threshold);
    hide Near, LegalRun, Play, Ready, Legal, Step;
    var visit := Visit(p);
    LetGo(Play(BOOT, visit), p);
    LegalExtend(BOOT, visit, RELEASE);
    LegalExtend(BOOT, visit + [RELEASE], Tick(0.0));
    events := visit + [RELEASE] + [Tick(0.0)];
    assert events[..|events|] == events;
  }

  const RELEASE := Receive(Own("release_control"))

  lemma LetGo(w: World, p: Position)
    requires Ready(w, p)
    ensures Legal(w, RELEASE) && Legal(Step(w, RELEASE), Tick(0.0))
    ensures var s := Step(Step(w, RELEASE), Tick(0.0)).state;
            s.online && s.distance == 0.0 && s.position == p && Shown(s) == None
  {
    assert Step(w, RELEASE).state.mode == IdleMode;
  }

  lemma FarAlongX(a: Position, b: Position, threshold: real)
    requires threshold > 0.0 && (a.x - b.x >= threshold || b.x - a.x >= threshold)
    ensures !Near(a, b, threshold)
  {
    if Near(a, b, threshold) {
      var d :| IsDistance(a, b, d) && d < threshold;
      var dx, dy := b.x - a.x, b.y - a.y;
      SquareGrows(d, threshold);
      ProductMonotone(threshold, if dx < 0.0 then -dx else dx, threshold);
      ProductMonotone(threshold, if dx < 0.0 then -dx else dx, if dx < 0.0 then -dx else dx);
      SquareNonNegative(dy);
    }
  }

  lemma FarAlongY(a: Position, b: Position, threshold: real)
    requires threshold > 0.0 && (a.y - b.y >= threshold || b.y - a.y >= threshold)
    ensures !Near(a, b, threshold)
  {
    if Near(a, b, threshold) {
      var d :| IsDistance(a, b, d) && d < threshold;
      assert IsDistance(Position(a.y, a.x), Position(b.y, b.x), d);
      assert Near(Position(a.y, a.x), Position(b.y, b.x), threshold);
      FarAlongX(Position(a.y, a.x), Position(b.y, b.x), threshold);
    }
  }

  lemma SquareNonNegative(x: real)
    ensures x * x >= 0.0
  {
  }

  /** The distance, at most the threshold, from which a robot that comes to r from the side away from
      q reports r within the threshold while it is still not near q. */
  function Gap(r: real, q: real, threshold: real): real {
    var apart := if r < q then q - r else r - q;
    if apart < threshold then threshold - apart else 0.0
  }

  function Sign(x: real): real {
    if x < 0.0 then -1.0 else 1.0
  }

  /** On the way to another target r, on its far side from q, the robot shows r. */
  lemma Elsewhere(r: Position, q: Position, threshold: real) returns (events: seq<Event>)
    requires threshold > 0.0 && r != q
    ensures LegalRun(BOOT, events) && events != [] && events[|events| - 1].Tick?
    ensures var s := At(events, |events|);
            && s.online && NavigationExecutor.Within(Telemetry(s), threshold) && Shown(s) == Some(r)
            && !Near(s.position, q, threshold)
  {
    hide LegalRun, Near, At;
    var sx, sy, gap := FarSide(r, q, threshold);
    events := Beside(r, sx, sy, gap);
  }

  ghost predicate AlongAxis(sx: real, sy: real) {
    (sx == 0.0 && (sy == 1.0 || sy == -1.0)) || (sy == 0.0 && (sx == 1.0 || sx == -1.0))
  }

  lemma FarSide(r: Position, q: Position, threshold: real) returns (sx: real, sy: real, gap: real)
    requires threshold > 0.0 && r != q
    ensures AlongAxis(sx, sy) && 0.0 <= gap < threshold
    ensures !Near(Position(r.x + sx * gap, r.y + sy * gap), q, threshold)
  {
    hide Near;
    if r.x != q.x {
      sx, sy, gap := Sign(r.x - q.x), 0.0, Gap(r.x, q.x, threshold);
      FarAlongX(Position(r.x + sx * gap, r.y), q, threshold);
    } else {
      sx, sy, gap := 0.0, Sign(r.y - q.y), Gap(r.y, q.y, threshold);
      FarAlongY(Position(r.x, r.y + sy * gap), q, threshold);
    }
  }

  /** A run whose last tick brings the robot to the given distance from its target r along an axis. */
  lemma Beside(r: Position, sx: real, sy: real, gap: real) returns (events: seq<Event>)
    requires gap >= 0.0 && AlongAxis(sx, sy)
    ensures LegalRun(BOOT, events) && events != [] && events[|events| - 1].Tick?
    ensures var s := At(events, |events|);
            && s.online && s.distance == gap && Shown(s) == Some(r)
            && s.position == Position(r.x + sx * gap, r.y + sy * gap)
  {
    hide LegalRun, Play, Ready, Legal, Step, IsDistance, Underway;
    var d := gap + 0.5;
    var p := Position(r.x + sx * d, r.y + sy * d);
    AxisDistance(r, sx, sy, d);
    var visit := Visit(p);
    OrderTo(visit, p, r, d);
    var ordered := visit + [Receive(GoTo(r, d))];
    LastTick(Play(BOOT, ordered), r, sx, sy, gap);
    LegalExtend(BOOT, ordered, Tick(d));
    events := ordered + [Tick(d)];
    assert events[..|events|] == events;
  }

  lemma AxisDistance(r: Position, sx: real, sy: real, d: real)
    requires d >= 0.0 && AlongAxis(sx, sy)
    ensures IsDistance(Position(r.x + sx * d, r.y + sy * d), r, d)
  {
  }

  lemma LastTick(w: World, r: Position, sx: real, sy: real, gap: real)
    requires Underway(w, r, gap + 0.5) && gap >= 0.0
    requires w.state.position == Position(r.x + sx * (gap + 0.5), r.y + sy * (gap + 0.5))
    ensures Legal(w, Tick(gap + 0.5))
    ensures var s := Step(w, Tick(gap + 0.5)).state;
            && s.online && s.distance == gap && Shown(s) == Some(r)
            && s.position == Position(r.x + sx * gap, r.y + sy * gap)
  {
    hide IsDistance;
    var d := gap + 0.5;
    if gap > 0.0 {
      Halfway(r.x, sx, gap);
      Halfway(r.y, sy, gap);
    }
  }

  lemma Halfway(r: real, sign: real, gap: real)
    requires gap >= 0.0
    ensures var d := gap + 0.5; r + sign * d + (r - (r + sign * d)) / d * 0.5 == r + sign * gap
  {
    var d := gap + 0.5;
    QuotientTimes(-(sign * d), d);
    assert r - (r + sign * d) == (-sign) * d;
    QuotientOf(-sign, d);
  }

  lemma QuotientOf(a: real, d: real)
    requires d > 0.0
    ensures a * d / d == a
  {
  }

  // ---- Harmless runs ----------------------------------------------------------------------

  const TIMEOUT_DISTANCE := 999.0

  /** An injection that leaves the report about q true, or too high to count. */
  predicate HarmlessFailure(f: Failure, threshold: real) {
    f.kind != SafeStopMidRoute && (f.kind == NavigationTimeout ==> threshold <= TIMEOUT_DISTANCE)
  }

  /** Any tick, any injection but a stop on the way, and any command but safe_stop,
      release_control and a navigate_to elsewhere. */
  predicate Harmless(e: Event, q: Position, threshold: real) {
    match e
    case Receive(o) =>
      o.mine ==>
        && o.name != "safe_stop" && o.name != "release_control"
        && (AcceptedNavigate(o) ==> o.target == Some(q))
    case Inject(f) => HarmlessFailure(f, threshold)
    case _ => true
  }

  ghost predicate Tracks(w: World, q: Position, threshold: real) {
    && w.state.target == q && (w.failure.Some? ==> HarmlessFailure(w.failure.value, threshold))
    && (|| IsDistance(w.state.position, q, w.state.distance)
        || (w.state.distance == TIMEOUT_DISTANCE >= threshold && !Moving(w.state)))
  }

  lemma StepTracks(w: World, e: Event, q: Position, threshold: real)
    requires Tracks(w, q, threshold) && Legal(w, e) && Harmless(e, q, threshold)
    ensures Tracks(Step(w, e), q, threshold)
  {
    hide IsDistance;
    if e.Tick? {
      TickTracks(w, e.dist, q, threshold);
      hide TickStep, Fires;
    }
  }

  lemma TickTracks(w: World, dist: real, q: Position, threshold: real)
    requires Tracks(w, q, threshold) && Legal(w, Tick(dist))
    ensures Tracks(Step(w, Tick(dist)), q, threshold)
  {
    hide IsDistance, MotionStep, Triggered;
    var s1 := w.state.(ticks := w.state.ticks + 1);
    MotionTracks(s1, dist);
    if w.failure.Some? {
      MotionTracks(FailureStep(s1, w.failure.value).0, dist);
    }
  }

  lemma MotionTracks(s: SimState, dist: real)
    ensures var t := MotionStep(s, dist);
            && t.target == s.target
            && (Moving(s) && IsDistance(s.position, s.target, dist) ==> IsDistance(t.position, t.target, t.distance))
            && (!Moving(s) ==> t == s)
  {
    if Moving(s) && IsDistance(s.position, s.target, dist) && dist > ARRIVAL_THRESHOLD {
      MoveShortens(s.position, s.target, dist, Stride(s, dist));
    }
  }

  ghost predicate HarmlessRun(w: World, events: seq<Event>, q: Position, threshold: real) {
    LegalRun(w, events) && forall e | e in events :: Harmless(e, q, threshold)
  }

  lemma {:induction false} RunTracks(w: World, events: seq<Event>, q: Position, threshold: real)
    requires Tracks(w, q, threshold) && HarmlessRun(w, events, q, threshold)
    ensures Tracks(Play(w, events), q, threshold)
  {
    hide Tracks, Harmless, Legal, Step;
    if events != [] {
      var n := |events| - 1;
      LegalPrefix(w, events, n);
      RunTracks(w, events[..n], q, threshold);
      assert events[n] in events;
      StepTracks(Play(w, events[..n]), events[n], q, threshold);
    }
  }

  lemma {:induction false} PublishedAt(w: World, events: seq<Event>, i: nat) returns (j: nat)
    requires i < |Published(w, events)|
    ensures j <= |events| && Published(w, events)[i] == Telemetry(Play(w, events[..j]).state)
  {
    var n := |events| - 1;
    if i < |Published(w, events[..n])| {
      j := PublishedAt(w, events[..n], i);
      assert events[..n][..j] == events[..j];
    } else {
      j := |events|;
      assert events[..j] == events;
    }
  }

  /** Nothing pending or injected takes the robot offline. */
  predicate StaysConnected(w: World, events: seq<Event>) {
    && w.state.online && (w.failure.Some? ==> w.failure.value.kind != Offline)
    && forall e | e in events :: e.Inject? ==> e.failure.kind != Offline
  }

  lemma {:induction false} ConnectedRun(w: World, events: seq<Event>)
    requires StaysConnected(w, events)
    ensures StaysConnected(Play(w, events), [])
  {
    if events != [] {
      var n := |events| - 1;
      assert events[n] in events;
      ConnectedRun(w, events[..n]);
      ConnectedStep(Play(w, events[..n]), events[n]);
    }
  }

  lemma ConnectedStep(w: World, e: Event)
    requires StaysConnected(w, [e])
    ensures StaysConnected(Step(w, e), [])
  {
    assert e in [e];
    hide Stride, MoveToward, Triggered;
  }

  /** Fed with the telemetry of a robot that comes to head for q after some events and then meets any
      harmless commands and injections, in any interleaving with the polling loop, the executor's
      success means that the robot was online and truly within the threshold of q at some moment, and
      it answers offline only if an injection takes the robot offline, unless the deciding sample is
      older than the order. */
  lemma HarmlessSuccessIsTrue(w: World, before: seq<Event>, events: seq<Event>, q: Position, threshold: real,
                              states: seq<NavigationExecutor.State>, actions: seq<NavigationExecutor.Action>, k: nat)
      returns (i: nat)
    requires var handled := Play(w, before);
             Tracks(handled, q, threshold) && HarmlessRun(handled, events, q, threshold)
    requires NavigationExecutor.IsRun(states, actions, threshold) && k < |states|
    requires states[k].samples == Published(w, before) + Published(Play(w, before), events) && states[k].answer.Some?
    ensures var answer, handled := states[k].answer.value, Play(w, before);
            answer == NavigationExecutor.CANCELLED || answer == NavigationExecutor.TIMED_OUT
            || (&& NavigationExecutor.First(states[k].samples, threshold, i)
                && (i < |Published(w, before)|
                    || (&& (answer.success ==> exists j: nat ::
                              && j <= |events| && Play(handled, events[..j]).state.online
                              && Near(Play(handled, events[..j]).state.position, q, threshold))
                        && (answer == NavigationExecutor.OFFLINE ==> !StaysConnected(handled, events)))))
  {
    hide Play, Published, LegalRun, IsDistance, NavigationExecutor.IsRun;
    NavigationExecutor.OutcomeFixedByFirstSample(states, actions, threshold, k, k);
    var answer, samples, handled, stale := states[k].answer.value, states[k].samples, Play(w, before),
        |Published(w, before)|;
    i := 0;
    if answer != NavigationExecutor.CANCELLED && answer != NavigationExecutor.TIMED_OUT {
      i :| NavigationExecutor.First(samples, threshold, i) && answer == NavigationExecutor.Verdict(samples[i]);
      if i >= stale {
        var j := PublishedAt(handled, events, i - stale);
        LegalPrefix(handled, events, j);
        RunTracks(handled, events[..j], q, threshold);
        if StaysConnected(handled, events) {
          ConnectedRun(handled, events[..j]);
        }
      }
    }
  }
}
