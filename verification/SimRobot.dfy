/** The simulated robot: motion, commands and injected failures.
    Reals have no square root, so a distance is a measured value that must be the non-negative
    root of the squared coordinate differences. */
module SimRobot {
  import opened Common

  datatype Position = Position(x: real, y: real)

  const ORIGIN := Position(0.0, 0.0)
  const ARRIVAL_THRESHOLD := 0.5
  const DEFAULT_SPEED := 1.0

  predicate IsDistance(a: Position, b: Position, d: real) {
    d >= 0.0 && d * d == (b.x - a.x) * (b.x - a.x) + (b.y - a.y) * (b.y - a.y)
  }

  datatype Mode = IdleMode | Navigating | ArrivedMode | ReturningMode | SafeStopped | ErrorMode | Stand | Walk

  datatype SimState = SimState(
    online: bool, mode: Mode, position: Position, target: Position, route: seq<string>,
    distance: real, speed: real, battery: real, lastCommand: string, spoken: string, ticks: nat)

  datatype FailureKind = NavigationTimeout | Offline | SafeStopMidRoute | BatteryLow | CommandRejected | DelayedArrival

  datatype Failure = Failure(
    kind: FailureKind, afterTicks: int, whenDistanceLt: real, afterCommand: string,
    batteryLevel: real, slowdown: real, durationTicks: int, applied: bool)

  const START := SimState(true, IdleMode, ORIGIN, ORIGIN, [], 0.0, DEFAULT_SPEED, 100.0, "", "", 0)

  predicate Moving(s: SimState) {
    s.mode == Navigating || s.mode == ReturningMode
  }

  /** A moving robot reports its true distance to the target. */
  predicate Honest(s: SimState) {
    Moving(s) ==> IsDistance(s.position, s.target, s.distance)
  }

  // ---- Failure injection -----------------------------------------------------------

  predicate Triggered(s: SimState, f: Failure) {
    || (f.afterTicks > 0 && s.ticks >= f.afterTicks)
    || (f.whenDistanceLt > 0.0 && 0.0 < s.distance < f.whenDistanceLt)
    || (f.afterCommand != "" && s.lastCommand == f.afterCommand && s.ticks > 0)
  }

  function Halt(s: SimState): SimState {
    s.(mode := SafeStopped, target := ORIGIN, route := [], distance := 0.0)
  }

  /** State, remaining injection, and whether the tick ends here. */
  function FailureStep(s: SimState, f: Failure): (SimState, Option<Failure>, bool) {
    if !Triggered(s, f) then (s, Some(f), false)
    else match f.kind
      case NavigationTimeout => (s.(mode := ErrorMode, distance := 999.0), None, true)
      case Offline => (s.(online := false, mode := ErrorMode), None, true)
      case SafeStopMidRoute => (Halt(s), None, true)
      case BatteryLow => (s.(battery := if f.batteryLevel > 0.0 then f.batteryLevel else 5.0), None, true)
      case CommandRejected => (s.(mode := ErrorMode), None, true)
      case DelayedArrival =>
        var slow := !f.applied && f.slowdown > 0.0;
        (if slow then s.(speed := s.speed * f.slowdown) else s,
         if f.durationTicks > 1
         then Some(f.(applied := f.applied || slow, durationTicks := f.durationTicks - 1)) else None,
         false)
  }

  // ---- Motion ----------------------------------------------------------------------

  function Stride(s: SimState, dist: real): real {
    var step := (if s.speed <= 0.0 then DEFAULT_SPEED else s.speed) * 0.5;
    if step > dist then dist else step
  }

  function MoveToward(p: Position, t: Position, norm: real, step: real): Position
    requires norm > 0.0
  {
    Position(p.x + (t.x - p.x) / norm * step, p.y + (t.y - p.y) / norm * step)
  }

  /** Movement of a tick at measured distance dist from the target. */
  function MotionStep(s: SimState, dist: real): SimState {
    if !Moving(s) then s
    else if dist > ARRIVAL_THRESHOLD then
      s.(position := MoveToward(s.position, s.target, dist, Stride(s, dist)), distance := dist - Stride(s, dist))
    else s.(position := s.target, distance := 0.0, mode := ArrivedMode)
  }

  function TickStep(s: SimState, f: Option<Failure>, dist: real): (SimState, Option<Failure>) {
    var s1 := s.(ticks := s.ticks + 1);
    if f.None? then (MotionStep(s1, dist), None)
    else
      var (s2, f2, ended) := FailureStep(s1, f.value);
      if ended then (s2, f2) else (MotionStep(s2, dist), f2)
  }

  /** Scaling a direction vector scales its length. */
  lemma MoveShortens(p: Position, t: Position, d: real, step: real)
    requires IsDistance(p, t, d) && d > 0.0 && 0.0 <= step <= d
    ensures IsDistance(MoveToward(p, t, d, step), t, d - step)
  {
    var dx, dy, k := t.x - p.x, t.y - p.y, step / d;
    var q := MoveToward(p, t, d, step);
    assert k * d == step;
    Scaled(dx, d, step, k);
    Scaled(dy, d, step, k);
    var a, b := t.x - q.x, t.y - q.y;
    assert a == dx * (1.0 - k) && b == dy * (1.0 - k);
    SquareScaled(dx, dy, d, k);
    assert d * (1.0 - k) == d - step;
  }

  lemma Scaled(x: real, d: real, step: real, k: real)
    requires d > 0.0 && k * d == step
    ensures x / d * step == x * k
  {
    assert x / d * step == (x / d * d) * k;
  }

  lemma SquareScaled(dx: real, dy: real, d: real, k: real)
    requires d * d == dx * dx + dy * dy
    ensures (d * (1.0 - k)) * (d * (1.0 - k)) ==
            (dx * (1.0 - k)) * (dx * (1.0 - k)) + (dy * (1.0 - k)) * (dy * (1.0 - k))
  {
    var c := (1.0 - k) * (1.0 - k);
    assert (d * (1.0 - k)) * (d * (1.0 - k)) == d * d * c;
    assert (dx * (1.0 - k)) * (dx * (1.0 - k)) == dx * dx * c;
    assert (dy * (1.0 - k)) * (dy * (1.0 - k)) == dy * dy * c;
    assert (dx * dx + dy * dy) * c == dx * dx * c + dy * dy * c;
  }

  lemma ProductPositive(a: real, b: real)
    requires a > 0.0 && b > 0.0
    ensures a * b > 0.0
  {
  }

  lemma SquareGrows(d: real, e: real)
    requires 0.0 <= d < e
    ensures d * d < e * e
  {
    ProductPositive(e - d, e + d);
    assert (e - d) * (e + d) == e * e - d * d;
  }

  lemma DistanceUnique(a: Position, b: Position, d: real, e: real)
    requires IsDistance(a, b, d) && IsDistance(a, b, e)
    ensures d == e
  {
    if d < e {
      SquareGrows(d, e);
    } else if e < d {
      SquareGrows(e, d);
    }
  }

  // ---- Commands --------------------------------------------------------------------

  /** A command as the simulator decodes it; target is None when the coordinates are missing or
      malformed, and dist is the distance measured to it. */
  datatype Order = Order(mine: bool, name: string, target: Option<Position>, route: seq<string>, text: string,
                         dist: real)

  predicate AcceptedNavigate(o: Order) {
    o.mine && o.name == "navigate_to" && o.target.Some?
  }

  function CommandStep(s0: SimState, o: Order): SimState {
    if !o.mine then s0
    else
      var s := s0.(lastCommand := o.name);
      match o.name
      case "navigate_to" =>
        if o.target.None? then s
        else s.(target := o.target.value, route := o.route, mode := Navigating, distance := o.dist)
      case "safe_stop" => Halt(s)
      case "release_control" => s.(mode := IdleMode, target := ORIGIN, distance := 0.0)
      case "walk_mode" => if Moving(s) then s else s.(mode := Walk)
      case "stand_mode" => if Moving(s) then s else s.(mode := Stand)
      case "zero_mode" => if Moving(s) then s else s.(mode := Stand)
      case "speak" => s.(spoken := o.text)
      case "cmd_vel" => s.(mode := Walk)
      case _ => s
  }

  // ---- The robot object ----------------------------------------------------------------

  class Robot {
    var state: SimState
    var failure: Option<Failure>

    constructor ()
      ensures state == START && failure == None
      ensures state.online && state.mode == IdleMode && state.position == state.target == Position(0.0, 0.0)
      ensures state.distance == 0.0 && state.speed == 1.0 && state.battery == 100.0 && state.ticks == 0
    {
      state, failure := START, None;
    }

    method SetFailureConfig(f: Option<Failure>)
      modifies this
      ensures failure == f && state == old(state)
    {
      failure := f;
    }

    method HandleCommand(o: Order)
      modifies this`state
      ensures state == CommandStep(old(state), o)
    {
      if !o.mine {
        return;
      }
      state := state.(lastCommand := o.name);
      match o.name {
        case "navigate_to" =>
          if o.target.None? {
            return;
          }
          state := state.(target := o.target.value);
          state := state.(route := o.route);
          state := state.(mode := Navigating);
          state := state.(distance := o.dist);
        case "safe_stop" =>
          state := state.(mode := SafeStopped);
          state := state.(target := ORIGIN);
          state := state.(route := []);
          state := state.(distance := 0.0);
        case "release_control" =>
          state := state.(mode := IdleMode);
          state := state.(target := ORIGIN);
          state := state.(distance := 0.0);
        case "walk_mode" =>
          if !Moving(state) {
            state := state.(mode := Walk);
          }
        case "stand_mode" =>
          if !Moving(state) {
            state := state.(mode := Stand);
          }
        case "zero_mode" =>
          if !Moving(state) {
            state := state.(mode := Stand);
          }
        case "speak" =>
          state := state.(spoken := o.text);
        case "cmd_vel" =>
          state := state.(mode := Walk);
        case _ =>
      }
    }

    /** Returns whether the tick ends here. */
    method ApplyFailure() returns (ended: bool)
      requires failure.Some?
      modifies this
      ensures (state, failure, ended) == FailureStep(old(state), old(failure).value)
    {
      var f := failure.value;
      var triggered := false;
      if f.afterTicks > 0 && state.ticks >= f.afterTicks {
        triggered := true;
      }
      if f.whenDistanceLt > 0.0 && state.distance > 0.0 && state.distance < f.whenDistanceLt {
        triggered := true;
      }
      if f.afterCommand != "" && state.lastCommand == f.afterCommand && state.ticks > 0 {
        triggered := true;
      }
      if !triggered {
        return false;
      }
      match f.kind {
        case NavigationTimeout =>
          state := state.(mode := ErrorMode);
          state := state.(distance := 999.0);
        case Offline =>
          state := state.(online := false);
          state := state.(mode := ErrorMode);
        case SafeStopMidRoute =>
          state := Halt(state);
        case BatteryLow =>
          state := state.(battery := if f.batteryLevel > 0.0 then f.batteryLevel else 5.0);
        case CommandRejected =>
          state := state.(mode := ErrorMode);
        case DelayedArrival =>
          if !f.applied && f.slowdown > 0.0 {
            state := state.(speed := state.speed * f.slowdown);
            f := f.(applied := true);
            failure := Some(f);
          }
          if f.durationTicks > 0 {
            f := f.(durationTicks := f.durationTicks - 1);
            failure := if f.durationTicks <= 0 then None else Some(f);
          } else {
            failure := None;
          }
          assert failure == FailureStep(old(state), old(failure).value).1;
          assert state == FailureStep(old(state), old(failure).value).0;
          return false;
      }
      failure := None;
      return true;
    }

    /** `dist` is the measured distance to the target; the distance after the move is measured
        by MoveShortens. */
    method Tick(dist: real)
      requires Moving(state) ==> IsDistance(state.position, state.target, dist)
      modifies this
      ensures (state, failure) == TickStep(old(state), old(failure), dist)
      ensures old(Honest(state)) ==> Honest(state)
    {
      hide IsDistance, FailureStep;
      if Honest(state) {
        TickReports(state, failure, dist);
      }
      state := state.(ticks := state.ticks + 1);
      if failure.Some? {
        var ended := ApplyFailure();
        if ended {
          return;
        }
      }
      if !Moving(state) {
        return;
      }
      var speed := if state.speed <= 0.0 then DEFAULT_SPEED else state.speed;
      var step := speed * 0.5;
      if step > dist {
        step := dist;
      }
      if dist > ARRIVAL_THRESHOLD {
        state := state.(position := MoveToward(state.position, state.target, dist, step));
        state := state.(distance := dist - step);
      } else {
        state := state.(position := state.target);
        state := state.(distance := 0.0);
        state := state.(mode := ArrivedMode);
      }
    }
  }

  lemma TickReports(s: SimState, f: Option<Failure>, dist: real)
    requires Moving(s) ==> IsDistance(s.position, s.target, dist)
    requires Honest(s)
    ensures Honest(TickStep(s, f, dist).0)
  {
    hide IsDistance, MotionStep;
    var s1 := s.(ticks := s.ticks + 1);
    MotionReports(s1, dist);
    if f.Some? {
      MotionReports(FailureStep(s1, f.value).0, dist);
    }
  }

  lemma MotionReports(s: SimState, dist: real)
    ensures (Moving(s) ==> IsDistance(s.position, s.target, dist)) ==> Honest(MotionStep(s, dist))
  {
    if Moving(s) && IsDistance(s.position, s.target, dist) && dist > ARRIVAL_THRESHOLD {
      MoveShortens(s.position, s.target, dist, Stride(s, dist));
    }
  }

  // ---- Time of arrival --------------------------------------------------------------

  /** n undisturbed ticks. A moving robot reports its true distance, which is what a tick measures. */
  function Ticks(s: SimState, n: nat): SimState {
    if n == 0 then s else TickStep(Ticks(s, n - 1), None, Ticks(s, n - 1).distance).0
  }

  function Ceil(x: real): int {
    -((-x).Floor)
  }

  function Times(n: int, x: real): real {
    n as real * x
  }

  lemma QuotientTimes(a: real, b: real)
    requires b > 0.0
    ensures a / b * b == a
  {
  }

  lemma Distribute(a: real, b: real, c: real)
    ensures (b - a) * c == b * c - a * c
  {
  }

  lemma ProductMonotone(a: real, b: real, c: real)
    requires c > 0.0
    ensures a < b ==> a * c < b * c
    ensures a <= b ==> a * c <= b * c
  {
    if a < b {
      ProductPositive(b - a, c);
      Distribute(a, b, c);
    }
  }

  /** Whole multiples of c against x * c. */
  lemma TimesMonotone(n: int, x: real, c: real)
    requires c > 0.0
    ensures n as real < x ==> Times(n, c) < x * c
    ensures x <= n as real ==> x * c <= Times(n, c)
  {
    ProductMonotone(n as real, x, c);
    ProductMonotone(x, n as real, c);
  }

  lemma TimesNext(n: int, c: real)
    ensures Times(n, c) == Times(n - 1, c) + c
  {
    Distribute(1.0, n as real, c);
    assert (n - 1) as real == n as real - 1.0;
  }

  lemma TimesOrdered(n: int, k: int, c: real)
    requires c > 0.0 && n <= k
    ensures Times(n, c) <= Times(k, c)
  {
    ProductMonotone(n as real, k as real, c);
  }

  lemma CeilBetween(x: real)
    ensures (Ceil(x) - 1) as real < x <= Ceil(x) as real
  {
  }

  lemma PositiveFactor(x: real, c: real)
    requires x * c > 0.0 && c > 0.0
    ensures x > 0.0
  {
    if x <= 0.0 {
      ProductMonotone(x, 0.0, c);
      assert 0.0 * c == 0.0;
    }
  }

  lemma CeilTimes(x: real, gap: real, stride: real)
    requires stride > 0.0 && x * stride == gap
    ensures Times(Ceil(x) - 1, stride) < gap <= Times(Ceil(x), stride)
  {
    hide Times, Ceil;
    CeilBetween(x);
    TimesMonotone(Ceil(x) - 1, x, stride);
    TimesMonotone(Ceil(x), x, stride);
  }

  lemma CeilBounds(d: real, stride: real) returns (m: int)
    requires stride > 0.0 && d > ARRIVAL_THRESHOLD
    ensures m == Ceil((d - ARRIVAL_THRESHOLD) / stride) && m >= 1
    ensures Times(m - 1, stride) < d - ARRIVAL_THRESHOLD <= Times(m, stride)
  {
    hide Times, Ceil;
    var x := (d - ARRIVAL_THRESHOLD) / stride;
    m := Ceil(x);
    QuotientTimes(d - ARRIVAL_THRESHOLD, stride);
    PositiveFactor(x, stride);
    CeilBetween(x);
    CeilTimes(x, d - ARRIVAL_THRESHOLD, stride);
  }

  /** The distance after n undisturbed ticks from distance d, up to the arrival bound. */
  ghost predicate OnTheWay(s: SimState, t: SimState, d: real, stride: real, n: nat, m: int) {
    && t.mode == Navigating && t.speed == s.speed && t.target == s.target && Honest(t)
    && (n < m ==> t.distance == d - Times(n, stride) && t.distance > ARRIVAL_THRESHOLD)
    && (n == m ==> t.distance <= ARRIVAL_THRESHOLD)
  }

  lemma {:induction false} Travel(s: SimState, d: real, stride: real, n: nat, m: int)
    requires s.mode == Navigating && s.speed > 0.0 && stride == s.speed * 0.5
    requires d == s.distance > ARRIVAL_THRESHOLD && Honest(s)
    requires Times(m - 1, stride) < d - ARRIVAL_THRESHOLD <= Times(m, stride) && n <= m && m >= 1
    ensures OnTheWay(s, Ticks(s, n), d, stride, n, m)
    ensures 0 < n ==>
              Ticks(s, n).distance ==
              var before := Ticks(s, n - 1).distance; before - (if stride > before then before else stride)
  {
    assert Times(0, stride) == 0.0;
    hide Honest, TickStep, Times;
    if n > 0 {
      var p := Ticks(s, n - 1);
      Travel(s, d, stride, n - 1, m);
      MoveOnce(p, stride);
      Approach(d, stride, n, m, p.distance);
    }
  }

  lemma MoveOnce(p: SimState, stride: real)
    requires p.mode == Navigating && Honest(p) && p.speed > 0.0 && stride == p.speed * 0.5
             && p.distance > ARRIVAL_THRESHOLD
    ensures var t := TickStep(p, None, p.distance).0;
            && t.mode == Navigating && Honest(t) && t.speed == p.speed && t.target == p.target
            && t.distance == p.distance - (if stride > p.distance then p.distance else stride)
  {
    TickReports(p, None, p.distance);
  }

  lemma Approach(d: real, stride: real, n: nat, m: int, x: real)
    requires 0 < n <= m && stride > 0.0 && x == d - Times(n - 1, stride)
    requires Times(m - 1, stride) < d - ARRIVAL_THRESHOLD <= Times(m, stride)
    ensures var y := x - (if stride > x then x else stride);
            && (n < m ==> y == d - Times(n, stride) && y > ARRIVAL_THRESHOLD)
            && (n == m ==> y <= ARRIVAL_THRESHOLD)
  {
    hide Times;
    TimesNext(n, stride);
    if n < m {
      TimesOrdered(n, m - 1, stride);
    }
  }

  /** From distance d above the threshold an undisturbed robot moves for exactly
      ceil((d - 0.5) / stride) ticks, each reducing the true distance by min(stride, distance),
      and arrives on the tick after. */
  lemma ArrivalTime(s: SimState) returns (m: nat)
    requires s.mode == Navigating && s.speed > 0.0
    requires s.distance > ARRIVAL_THRESHOLD && Honest(s)
    ensures m == Ceil((s.distance - ARRIVAL_THRESHOLD) / (s.speed * 0.5)) && m >= 1
    ensures forall n: nat | n <= m :: Ticks(s, n).mode == Navigating && Honest(Ticks(s, n))
    ensures forall n: nat | n < m ::
              var before := Ticks(s, n).distance;
              && before > ARRIVAL_THRESHOLD
              && Ticks(s, n + 1).distance < before
              && Ticks(s, n + 1).distance == before - (if s.speed * 0.5 > before then before else s.speed * 0.5)
    ensures Ticks(s, m).distance <= ARRIVAL_THRESHOLD
    ensures Ticks(s, m + 1).mode == ArrivedMode && Ticks(s, m + 1).position == s.target
            && Ticks(s, m + 1).distance == 0.0
  {
    var d, stride := s.distance, s.speed * 0.5;
    m := CeilBounds(d, stride);
    hide IsDistance, Times;
    forall n: nat | n <= m ensures OnTheWay(s, Ticks(s, n), d, stride, n, m) {
      Travel(s, d, stride, n, m);
    }
    forall n: nat | n < m
      ensures var before := Ticks(s, n).distance;
              Ticks(s, n + 1).distance == before - (if stride > before then before else stride)
    {
      Travel(s, d, stride, n + 1, m);
    }
  }

  // ---- Whole runs ---------------------------------------------------------------------

  datatype Event = Tick(dist: real) | Receive(order: Order) | Inject(failure: Failure) | ClearInjection

  /** The robot together with the number of injections so far and which of them have fired. */
  datatype World = World(state: SimState, failure: Option<Failure>, injections: nat, fired: seq<nat>)

  /** Measurements are true distances. */
  predicate Legal(w: World, e: Event) {
    match e
    case Tick(dist) => Moving(w.state) ==> IsDistance(w.state.position, w.state.target, dist)
    case Receive(o) => AcceptedNavigate(o) ==> IsDistance(w.state.position, o.target.value, o.dist)
    case _ => true
  }

  /** The next tick ends in the pending injection; only a delay never ends a tick. */
  predicate Fires(w: World) {
    w.failure.Some? && FailureStep(w.state.(ticks := w.state.ticks + 1), w.failure.value).2
  }

  function Step(w: World, e: Event): World {
    match e
    case Tick(dist) =>
      var (s, f) := TickStep(w.state, w.failure, dist);
      World(s, f, w.injections, if Fires(w) then w.fired + [w.injections] else w.fired)
    case Receive(o) => w.(state := CommandStep(w.state, o))
    case Inject(f) => w.(failure := Some(f), injections := w.injections + 1)
    case ClearInjection => w.(failure := None)
  }

  function Play(w: World, events: seq<Event>): World {
    if events == [] then w else Step(Play(w, events[..|events| - 1]), events[|events| - 1])
  }

  /** A new robot with no injection pending. */
  const BOOT := World(START, None, 0, [])

  ghost predicate LegalRun(w: World, events: seq<Event>) {
    forall i | 0 <= i < |events| :: Legal(Play(w, events[..i]), events[i])
  }

  lemma LegalPrefix(w: World, events: seq<Event>, n: nat)
    requires LegalRun(w, events) && n <= |events|
    ensures LegalRun(w, events[..n])
  {
    forall i | 0 <= i < n ensures Legal(Play(w, events[..n][..i]), events[..n][i]) {
      assert events[..n][..i] == events[..i];
      assert Legal(Play(w, events[..i]), events[i]);
    }
  }

  lemma LegalExtend(w: World, events: seq<Event>, e: Event)
    requires LegalRun(w, events) && Legal(Play(w, events), e)
    ensures LegalRun(w, events + [e]) && Play(w, events + [e]) == Step(Play(w, events), e)
  {
    hide Legal, Step;
    var longer := events + [e];
    assert longer[..|events|] == events;
    forall i | 0 <= i < |longer| ensures Legal(Play(w, longer[..i]), longer[i]) {
      if i < |events| {
        assert longer[..i] == events[..i];
      }
    }
  }

  ghost predicate Safe(w: World) {
    && w.state.speed > 0.0 && w.state.mode != ReturningMode && Honest(w.state)
    && (w.state.mode == ArrivedMode ==> w.state.position == w.state.target)
    && (forall k | k in w.fired :: k <= w.injections)
    && (w.failure.Some? ==> w.injections !in w.fired)
    && (forall i, j | 0 <= i < j < |w.fired| :: w.fired[i] != w.fired[j])
  }

  lemma StepKeepsSafe(w: World, e: Event)
    requires Safe(w) && Legal(w, e)
    ensures Safe(Step(w, e))
  {
    hide IsDistance;
    match e {
      case Tick(dist) => {
        hide TickStep, FailureStep;
        TickReports(w.state, w.failure, dist);
        TickKeepsSpeed(w.state, w.failure, dist);
      }
      case Receive(o) => CommandKeepsSafe(w, o);
      case _ =>
    }
  }

  lemma CommandKeepsSafe(w: World, o: Order)
    requires Safe(w) && (AcceptedNavigate(o) ==> IsDistance(w.state.position, o.target.value, o.dist))
    ensures Safe(w.(state := CommandStep(w.state, o)))
  {
    hide IsDistance;
  }

  lemma TickKeepsSpeed(s: SimState, f: Option<Failure>, dist: real)
    requires s.speed > 0.0 && s.mode != ReturningMode && (s.mode == ArrivedMode ==> s.position == s.target)
    ensures var (t, g) := TickStep(s, f, dist);
            && t.speed > 0.0 && t.mode != ReturningMode && (t.mode == ArrivedMode ==> t.position == t.target)
            && (f.None? ==> g.None?)
            && (f.Some? && FailureStep(s.(ticks := s.ticks + 1), f.value).2 ==> g.None?)
  {
    hide FailureStep, MotionStep;
    var s1 := s.(ticks := s.ticks + 1);
    MotionKeepsSpeed(s1, dist);
    if f.Some? {
      FailureKeepsSpeed(s1, f.value);
      MotionKeepsSpeed(FailureStep(s1, f.value).0, dist);
    }
  }

  lemma FailureKeepsSpeed(s: SimState, f: Failure)
    requires s.speed > 0.0 && s.mode != ReturningMode && (s.mode == ArrivedMode ==> s.position == s.target)
    ensures var (t, g, ended) := FailureStep(s, f);
            && t.speed > 0.0 && t.mode != ReturningMode && (t.mode == ArrivedMode ==> t.position == t.target)
            && (ended ==> g.None?)
  {
    if f.slowdown > 0.0 {
      ProductPositive(s.speed, f.slowdown);
    }
  }

  lemma MotionKeepsSpeed(s: SimState, dist: real)
    requires s.speed > 0.0 && s.mode != ReturningMode && (s.mode == ArrivedMode ==> s.position == s.target)
    ensures var t := MotionStep(s, dist);
            t.speed > 0.0 && t.mode != ReturningMode && (t.mode == ArrivedMode ==> t.position == t.target)
  {
    hide Stride, MoveToward;
  }

  /** In every run the speed stays positive, a moving robot reports its true distance, and no
      injection other than a delay fires twice. */
  lemma {:induction false} RunIsSafe(events: seq<Event>)
    requires LegalRun(BOOT, events)
    ensures Safe(Play(BOOT, events))
  {
    var w := BOOT;
    if events != [] {
      var n := |events| - 1;
      LegalPrefix(w, events, n);
      RunIsSafe(events[..n]);
      assert Legal(Play(w, events[..n]), events[n]);
      StepKeepsSafe(Play(w, events[..n]), events[n]);
    }
  }

  /** After a safe_stop the position is constant until the next accepted navigate_to. */
  lemma {:induction false} StoppedStaysPut(w: World, stop: Order, events: seq<Event>)
    requires stop.mine && stop.name == "safe_stop"
    requires forall e | e in events :: e.Receive? ==> !AcceptedNavigate(e.order)
    ensures var halted := Step(w, Receive(stop));
            Play(halted, events).state.position == w.state.position && !Moving(Play(halted, events).state)
  {
    if events != [] {
      var n := |events| - 1;
      assert events[n] in events;
      StoppedStaysPut(w, stop, events[..n]);
      ParkedStep(Play(Step(w, Receive(stop)), events[..n]), events[n]);
    }
  }

  lemma ParkedStep(w: World, e: Event)
    requires !Moving(w.state) && (e.Receive? ==> !AcceptedNavigate(e.order))
    ensures Step(w, e).state.position == w.state.position && !Moving(Step(w, e).state)
  {
    hide Stride, MoveToward;
    if e.Tick? {
      ParkedTick(w.state, w.failure, e.dist);
      hide TickStep;
    }
  }

  lemma ParkedTick(s: SimState, f: Option<Failure>, dist: real)
    requires !Moving(s)
    ensures var t := TickStep(s, f, dist).0; t.position == s.position && !Moving(t)
  {
    hide Stride, MoveToward, Triggered;
  }

  // ---- What commands and injections leave, field by field ------------------------------------

  /** A command for another robot changes nothing. One for this robot never moves or charges it and
      is remembered by name; what else it leaves is said field by field. */
  lemma CommandLeaves(s: SimState, o: Order)
    ensures var t := CommandStep(s, o);
            if !o.mine then t == s
            else
              && t.online == s.online && t.position == s.position && t.speed == s.speed && t.battery == s.battery
              && t.ticks == s.ticks && t.lastCommand == o.name
              && t.spoken == (if o.name == "speak" then o.text else s.spoken)
              && t.target == (if o.name == "navigate_to" && o.target.Some? then o.target.value
                              else if o.name == "safe_stop" || o.name == "release_control" then Position(0.0, 0.0)
                              else s.target)
              && t.distance == (if o.name == "navigate_to" && o.target.Some? then o.dist
                                else if o.name == "safe_stop" || o.name == "release_control" then 0.0 else s.distance)
              && t.route == (if o.name == "navigate_to" && o.target.Some? then o.route
                             else if o.name == "safe_stop" then [] else s.route)
  {
  }

  /** A moving robot does not walk or stand on command, but walks on a velocity. */
  lemma CommandMode(s: SimState, o: Order)
    requires o.mine
    ensures var t, moving := CommandStep(s, o), s.mode == Navigating || s.mode == ReturningMode;
            t.mode == if o.name == "navigate_to" && o.target.Some? then Navigating
                      else if o.name == "safe_stop" then SafeStopped
                      else if o.name == "release_control" then IdleMode
                      else if o.name == "cmd_vel" || (o.name == "walk_mode" && !moving) then Walk
                      else if (o.name == "stand_mode" || o.name == "zero_mode") && !moving then Stand
                      else s.mode
  {
  }

  /** An injection fires at a tick exactly if it is due: enough ticks have passed, the reported distance
      is positive and below its bound, or its command was the last one. Firing leaves the position; what
      else is left is said field by field. */
  lemma InjectionLeaves(s: SimState, f: Failure)
    requires s.ticks > 0
    ensures var (t, rest, ended) := FailureStep(s, f);
            var due := || (f.afterTicks > 0 && s.ticks >= f.afterTicks)
                       || (f.whenDistanceLt > 0.0 && 0.0 < s.distance && s.distance < f.whenDistanceLt)
                       || (f.afterCommand != "" && s.lastCommand == f.afterCommand);
            && (ended <==> due && f.kind != DelayedArrival)
            && (!due ==> t == s && rest == Some(f))
            && (ended ==> rest == None)
            && (due ==>
                  && t.position == s.position && t.ticks == s.ticks && t.lastCommand == s.lastCommand
                  && t.spoken == s.spoken && t.online == (s.online && f.kind != Offline)
                  && t.mode == (match f.kind
                                case NavigationTimeout => ErrorMode
                                case Offline => ErrorMode
                                case CommandRejected => ErrorMode
                                case SafeStopMidRoute => SafeStopped
                                case _ => s.mode)
                  && t.distance == (if f.kind == NavigationTimeout then 999.0
                                    else if f.kind == SafeStopMidRoute then 0.0 else s.distance)
                  && t.target == (if f.kind == SafeStopMidRoute then Position(0.0, 0.0) else s.target)
                  && t.route == (if f.kind == SafeStopMidRoute then [] else s.route)
                  && t.battery == (if f.kind != BatteryLow then s.battery
                                   else if f.batteryLevel > 0.0 then f.batteryLevel else 5.0)
                  && t.speed == (if f.kind == DelayedArrival && !f.applied && f.slowdown > 0.0
                                 then s.speed * f.slowdown else s.speed))
  {
  }

  // ---- When an injection fires ----------------------------------------------------------------

  function TickEvents(dists: seq<real>): (events: seq<Event>)
    ensures |events| == |dists| && forall i | 0 <= i < |dists| :: events[i] == Tick(dists[i])
  {
    seq(|dists|, i requires 0 <= i < |dists| => Tick(dists[i]))
  }

  ghost predicate OnlyByTicks(f: Failure) {
    f.afterTicks > 0 && f.whenDistanceLt <= 0.0 && f.afterCommand == ""
  }

  /** An injection set to a tick count, other than a delay, is still pending after n ticks if the count
      has not been reached, and otherwise has fired once. */
  lemma {:induction false} FiresOnTime(w: World, f: Failure, dists: seq<real>)
    requires w.failure == Some(f) && f.kind != DelayedArrival && OnlyByTicks(f)
    ensures var after := Play(w, TickEvents(dists));
            && after.state.ticks == w.state.ticks + |dists| && after.injections == w.injections
            && if dists == [] || w.state.ticks + |dists| < f.afterTicks
               then after.failure == Some(f) && after.fired == w.fired
               else after.failure == None && after.fired == w.fired + [w.injections]
  {
    if dists != [] {
      var n := |dists| - 1;
      FiresOnTime(w, f, dists[..n]);
      var before := Play(w, TickEvents(dists[..n]));
      assert TickEvents(dists)[..n] == TickEvents(dists[..n]);
      OneTick(before, dists[n]);
    }
  }

  lemma OneTick(w: World, dist: real)
    ensures var t := Step(w, Tick(dist));
            && t.state.ticks == w.state.ticks + 1 && t.injections == w.injections
            && (w.failure.None? ==> t.failure.None? && t.fired == w.fired)
            && (w.failure.Some? && w.failure.value.kind != DelayedArrival ==>
                  if Triggered(w.state.(ticks := w.state.ticks + 1), w.failure.value)
                  then t.failure.None? && t.fired == w.fired + [w.injections]
                  else t.failure == w.failure && t.fired == w.fired)
  {
    hide Stride, MoveToward, Triggered;
  }

  /** The world after n ticks with a delay f pending in w; `slow` is the slowed speed. */
  ghost predicate Delayed(w: World, f: Failure, slow: real, n: nat, after: World) {
    var due := if w.state.ticks < f.afterTicks then f.afterTicks - w.state.ticks else 1;
    && after.state.ticks == w.state.ticks + n && after.fired == w.fired
    && after.state.speed == (if n < due then w.state.speed else slow)
    && after.failure == (if n < due then Some(f)
                         else if n - due + 1 < f.durationTicks
                         then Some(f.(applied := true, durationTicks := f.durationTicks - (n - due + 1)))
                         else None)
  }

  /** A delay slows the robot down once, at the tick it is set to, and lasts for its number of ticks, at
      least one, without ending any of them. */
  lemma {:induction false} DelaysOnce(w: World, f: Failure, dists: seq<real>)
    requires w.failure == Some(f) && f.kind == DelayedArrival && OnlyByTicks(f) && !f.applied && f.slowdown > 0.0
    ensures Delayed(w, f, w.state.speed * f.slowdown, |dists|, Play(w, TickEvents(dists)))
  {
    hide Step;
    if dists != [] {
      hide Delayed;
      var n := |dists| - 1;
      DelaysOnce(w, f, dists[..n]);
      var before := Play(w, TickEvents(dists[..n]));
      assert TickEvents(dists)[..n] == TickEvents(dists[..n]);
      DelayGoesOn(w, f, w.state.speed * f.slowdown, n, before, dists[n]);
    } else {
      DelayStarts(w, f, w.state.speed * f.slowdown);
    }
  }

  lemma DelayStarts(w: World, f: Failure, slow: real)
    requires w.failure == Some(f)
    ensures Delayed(w, f, slow, 0, w)
  {
  }

  lemma DelayGoesOn(w: World, f: Failure, slow: real, n: nat, before: World, dist: real)
    requires w.failure == Some(f) && f.kind == DelayedArrival && OnlyByTicks(f) && !f.applied && f.slowdown > 0.0
    requires slow == w.state.speed * f.slowdown && Delayed(w, f, slow, n, before)
    ensures Delayed(w, f, slow, n + 1, Step(before, Tick(dist)))
  {
    hide Step;
    OneDelayedTick(before, dist);
  }

  lemma OneDelayedTick(w: World, dist: real)
    requires w.failure.Some? ==> w.failure.value.kind == DelayedArrival && OnlyByTicks(w.failure.value)
    ensures var t := Step(w, Tick(dist));
            && t.state.ticks == w.state.ticks + 1 && t.fired == w.fired
            && if w.failure.None? then t.failure.None? && t.state.speed == w.state.speed
               else
                 var f := w.failure.value;
                 if w.state.ticks + 1 < f.afterTicks then t.failure == w.failure && t.state.speed == w.state.speed
                 else
                   var slow := !f.applied && f.slowdown > 0.0;
                   && t.state.speed == (if slow then w.state.speed * f.slowdown else w.state.speed)
                   && t.failure == (if f.durationTicks > 1
                                    then Some(f.(applied := f.applied || slow, durationTicks := f.durationTicks - 1))
                                    else None)
  {
    hide Stride, MoveToward;
  }
}
