/** Webhook delivery: the circuit breaker and sending with retries. */
module Webhooks {
  type Time = nat  // seconds

  const OPEN_DURATION: Time := 60
  const FAILURE_THRESHOLD := 5

  datatype BreakerState = Closed | Open | HalfOpen

  datatype Breaker = Breaker(failures: nat, lastFail: Time, state: BreakerState)

  const NEW_BREAKER := Breaker(0, 0, Closed)

  /** A call of any sender on the shared breaker. */
  datatype Call = Allow(now: Time) | Success(now: Time) | Failure(now: Time)

  predicate Allows(b: Breaker, now: Time) {
    b.state != Open || now - b.lastFail >= OPEN_DURATION
  }

  function After(b: Breaker, c: Call): Breaker {
    match c
    case Allow(now) => if b.state == Open && Allows(b, now) then b.(state := HalfOpen) else b
    case Success(_) => b.(failures := 0, state := Closed)
    case Failure(now) =>
      Breaker(b.failures + 1, now, if b.state == HalfOpen || b.failures + 1 >= FAILURE_THRESHOLD then Open else b.state)
  }

  function Replay(h: seq<Call>): Breaker {
    if h == [] then NEW_BREAKER else After(Replay(h[..|h| - 1]), h[|h| - 1])
  }

  // ---- What the history says ----------------------------------------------------

  function FailuresSinceSuccess(h: seq<Call>): nat {
    if h == [] then 0
    else
      var before := FailuresSinceSuccess(h[..|h| - 1]);
      match h[|h| - 1]
      case Allow(_) => before
      case Success(_) => 0
      case Failure(_) => before + 1
  }

  function LatestFailure(h: seq<Call>): Time {
    if h == [] then 0 else match h[|h| - 1]
      case Failure(now) => now
      case _ => LatestFailure(h[..|h| - 1])
  }

  /** Calls are ordered by a clock that has not passed `now`. */
  ghost predicate Timed(h: seq<Call>, now: Time) {
    h != [] ==> h[|h| - 1].now <= now && Timed(h[..|h| - 1], h[|h| - 1].now)
  }

  /** In every interleaving of senders the breaker is closed exactly while fewer than the
      threshold of failures have been recorded since the last success. */
  lemma {:induction false} ClosedIffFewFailures(h: seq<Call>, now: Time)
    requires Timed(h, now)
    ensures var b := Replay(h);
            && b.failures == FailuresSinceSuccess(h) && (b.failures > 0 ==> b.lastFail == LatestFailure(h))
            && (b.state == Closed <==> b.failures < FAILURE_THRESHOLD)
            && (b.state == HalfOpen ==> now - b.lastFail >= OPEN_DURATION)
  {
    if h != [] {
      ClosedIffFewFailures(h[..|h| - 1], h[|h| - 1].now);
    }
  }

  /** The history permits a send: fewer than the threshold of failures since the last success, or
      the latest failure is old enough. */
  predicate Permits(h: seq<Call>, now: Time) {
    FailuresSinceSuccess(h) < FAILURE_THRESHOLD || now - LatestFailure(h) >= OPEN_DURATION
  }

  /** Allow answers a question about the history alone: it refuses exactly when the threshold has
      been reached since the last success and the latest failure is too recent. */
  lemma AllowIffHistory(h: seq<Call>, now: Time)
    requires Timed(h, now)
    ensures Allows(Replay(h), now) <==> Permits(h, now)
  {
    ClosedIffFewFailures(h, now);
  }

  /** The positions of failures with no success after them. */
  ghost function Failing(h: seq<Call>): set<nat> {
    set j: nat | j < |h| && h[j].Failure? && forall k | j < k < |h| :: !h[k].Success?
  }

  lemma {:induction false} FailingCount(h: seq<Call>)
    ensures |Failing(h)| == FailuresSinceSuccess(h)
  {
    if h == [] {
      assert Failing(h) == {};
    } else {
      var n := |h| - 1;
      var front := h[..n];
      FailingCount(front);
      FailingNext(front, h[n]);
      assert front + [h[n]] == h;
    }
  }

  lemma FailingNext(h: seq<Call>, c: Call)
    ensures Failing(h + [c]) ==
            match c
            case Allow(_) => Failing(h)
            case Success(_) => {}
            case Failure(_) => Failing(h) + {|h|}
  {
    var all := h + [c];
    forall j: nat | j < |h| ensures j in Failing(all) <==> !c.Success? && j in Failing(h) {
      assert all[|h|] == c && forall k | j <= k < |h| :: all[k] == h[k];
    }
  }

  lemma {:induction false} LatestIsLast(h: seq<Call>, j: nat)
    requires j < |h| && h[j].Failure? && forall k | j < k < |h| :: !h[k].Failure?
    ensures LatestFailure(h) == h[j].now
  {
    if j < |h| - 1 {
      LatestIsLast(h[..|h| - 1], j);
    }
  }

  /** The breaker refuses exactly if five or more failures were recorded since the last success and
      the last of them is less than 60 seconds old. */
  lemma RefusesExactly(h: seq<Call>, now: Time)
    requires Timed(h, now)
    ensures !Allows(Replay(h), now) <==>
            && |Failing(h)| >= 5
            && exists j: nat :: && j < |h| && h[j].Failure? && (forall k | j < k < |h| :: !h[k].Failure?)
                                && now - h[j].now < 60
  {
    hide Replay, Timed, Allows;
    AllowIffHistory(h, now);
    FailingCount(h);
    if |Failing(h)| > 0 {
      var j := LastFailure(h);
      LatestIsLast(h, j);
      forall i: nat | i < |h| && h[i].Failure? && forall k | i < k < |h| :: !h[k].Failure? ensures i == j {
      }
    }
  }

  lemma {:induction false} LastFailure(h: seq<Call>) returns (j: nat)
    requires Failing(h) != {}
    ensures j < |h| && h[j].Failure? && forall k | j < k < |h| :: !h[k].Failure?
  {
    var i :| i in Failing(h);
    j := |h| - 1;
    while !h[j].Failure?
      invariant i <= j < |h| && forall k | j < k < |h| :: !h[k].Failure?
      decreases j
    {
      j := j - 1;
    }
  }

  /** One more call on the breaker. */
  lemma OneMore(h: seq<Call>, c: Call)
    requires Timed(h, c.now)
    ensures Replay(h + [c]) == After(Replay(h), c) && Timed(h + [c], c.now)
  {
    assert (h + [c])[..|h|] == h;
  }

  lemma {:induction false} LaterTimed(h: seq<Call>, now: Time, later: Time)
    requires Timed(h, now) && now <= later
    ensures Timed(h, later)
  {
  }

  /** The breaker as it is held by the dispatcher; history is every call made on it. */
  class CircuitBreaker {
    var failures: nat
    var lastFail: Time
    var state: BreakerState
    ghost var history: seq<Call>

    ghost predicate Valid()
      reads this
    {
      Breaker(failures, lastFail, state) == Replay(history)
    }

    constructor ()
      ensures Valid() && history == []
    {
      failures, lastFail, state, history := 0, 0, Closed, [];
    }

    method Allow(now: Time) returns (ok: bool)
      requires Valid() && Timed(history, now)
      modifies this
      ensures Valid() && history == old(history) + [Call.Allow(now)] && Timed(history, now)
      ensures ok <==> Permits(old(history), now)
    {
      hide Replay, Timed, Permits;
      AllowIffHistory(history, now);
      OneMore(history, Call.Allow(now));
      ok := true;
      if state == Open {
        if now - lastFail >= OPEN_DURATION {
          state := HalfOpen;
        } else {
          ok := false;
        }
      }
      history := history + [Call.Allow(now)];
    }

    method RecordSuccess(now: Time)
      requires Valid() && Timed(history, now)
      modifies this
      ensures Valid() && history == old(history) + [Success(now)] && Timed(history, now)
    {
      hide Replay, Timed;
      OneMore(history, Success(now));
      failures, state := 0, Closed;
      history := history + [Success(now)];
    }

    method RecordFailure(now: Time)
      requires Valid() && Timed(history, now)
      modifies this
      ensures Valid() && history == old(history) + [Failure(now)] && Timed(history, now)
    {
      hide Replay, Timed;
      OneMore(history, Failure(now));
      failures, lastFail := failures + 1, now;
      if state == HalfOpen {
        state := Open;
      } else if failures >= FAILURE_THRESHOLD {
        state := Open;
      }
      history := history + [Failure(now)];
    }
  }

  // ---- Sending with retries --------------------------------------------------------

  datatype Kind = Ask | Good | Bad

  function Make(kind: Kind, now: Time): Call {
    match kind
    case Ask => Call.Allow(now)
    case Good => Success(now)
    case Bad => Failure(now)
  }

  /** Calls of other senders between `from` and `to`: each comes the given time after the one before
      it, and none later than `to`. */
  function Spread(calls: seq<(Kind, nat)>, from: Time, to: Time): seq<Call> {
    if calls == [] then []
    else
      var n := |calls| - 1;
      Spread(calls[..n], from, to) + [Make(calls[n].0, Moment(calls, from, to))]
  }

  function Moment(calls: seq<(Kind, nat)>, from: Time, to: Time): Time {
    if calls == [] then from
    else
      var t := Moment(calls[..|calls| - 1], from, to) + calls[|calls| - 1].1;
      if t <= to then t else to
  }

  function Pow2(n: nat): (r: nat)
    ensures r >= 1
  {
    if n == 0 then 1 else 2 * Pow2(n - 1)
  }

  /** Seconds slept before attempt j. */
  function Backoff(j: nat): nat {
    if j == 0 then 0 else Pow2(j - 1)
  }

  /** What the outside contributes: the fate of send j, the calls other senders make on the breaker
      around this sender's calls, the time request j takes and the pause before attempt j. */
  datatype Environment = Environment(
    sendOk: nat -> bool, others: nat -> seq<(Kind, nat)>, elapsed: nat -> nat, pause: nat -> nat)

  /** A sender that starts when the breaker's history is `past`. */
  datatype Sender = Sender(past: seq<Call>, start: Time, env: Environment)

  function AskTime(s: Sender, j: nat): Time
    decreases j, 0
  {
    (if j == 0 then s.start else DoneTime(s, j - 1)) + s.env.pause(j)
  }

  function DoneTime(s: Sender, j: nat): Time
    decreases j, 1
  {
    AskTime(s, j) + Backoff(j) + s.env.elapsed(j)
  }

  /** The breaker's history when the sender asks for attempt j. */
  function Asking(s: Sender, j: nat): seq<Call>
    decreases j, 0
  {
    if j == 0 then s.past + Spread(s.env.others(0), s.start, AskTime(s, 0))
    else Recorded(s, j - 1) + Spread(s.env.others(2 * j), DoneTime(s, j - 1), AskTime(s, j))
  }

  /** The history when it has recorded the outcome of send j. */
  function Recorded(s: Sender, j: nat): seq<Call>
    decreases j, 1
  {
    Asking(s, j) + [Call.Allow(AskTime(s, j))] + Spread(s.env.others(2 * j + 1), AskTime(s, j), DoneTime(s, j)) +
    [if s.env.sendOk(j) then Success(DoneTime(s, j)) else Failure(DoneTime(s, j))]
  }

  /** The history permits attempt j when it is asked for. */
  predicate Permitted(s: Sender, j: nat) {
    Permits(Asking(s, j), AskTime(s, j))
  }

  /** Time spent on other things than sleeping before send j. */
  function Busy(s: Sender, j: nat): nat {
    s.env.pause(j) + (if j == 0 then 0 else Busy(s, j - 1) + s.env.elapsed(j - 1))
  }

  /** Send j leaves 2^j - 1 seconds of sleep, and the time of pauses and earlier requests, after
      the start. */
  lemma {:induction false} SendTime(s: Sender, j: nat)
    ensures AskTime(s, j) + Backoff(j) == s.start + (Pow2(j) - 1) + Busy(s, j)
  {
    if j > 0 {
      SendTime(s, j - 1);
    }
  }

  /** Other senders use the breaker. */
  method Interfere(cb: CircuitBreaker, calls: seq<(Kind, nat)>, from: Time, to: Time)
    requires cb.Valid() && Timed(cb.history, from) && from <= to
    modifies cb
    ensures cb.Valid() && Timed(cb.history, to) && cb.history == old(cb.history) + Spread(calls, from, to)
  {
    hide Timed;
    ghost var h := cb.history;
    var t := from;
    for i := 0 to |calls|
      invariant cb.Valid() && from <= t <= to && Timed(cb.history, t)
      invariant t == Moment(calls[..i], from, to) && cb.history == h + Spread(calls[..i], from, to)
    {
      var next := if t + calls[i].1 <= to then t + calls[i].1 else to;
      assert calls[..i + 1][..i] == calls[..i];
      LaterTimed(cb.history, t, next);
      t := next;
      match calls[i].0 {
        case Ask => var _ := cb.Allow(t);
        case Good => cb.RecordSuccess(t);
        case Bad => cb.RecordFailure(t);
      }
    }
    assert calls[..|calls|] == calls;
    LaterTimed(cb.history, t, to);
  }

  datatype Ending = Delivered | CircuitOpen | AttemptsFailed

  /** Seconds slept before each send, how the delivery ended, and the dead letters recorded. */
  datatype Delivery = Delivery(sends: seq<nat>, ending: Ending, deadLetters: seq<Ending>)

  datatype Verdict = Refused | Undelivered | Sent

  /** One turn of the retry loop, from asking the breaker to recording the outcome. */
  method Attempt(cb: CircuitBreaker, attempt: nat, start: Time, env: Environment, ghost s: Sender)
    returns (verdict: Verdict, waited: nat, end: Time)
    requires cb.Valid() && Timed(cb.history, start) && s.env == env
    requires if attempt == 0 then start == s.start && cb.history == s.past
             else start == DoneTime(s, attempt - 1) && cb.history == Recorded(s, attempt - 1)
    modifies cb
    ensures cb.Valid() && Timed(cb.history, end)
    ensures verdict != Refused <==> Permitted(s, attempt)
    ensures verdict == Refused ==> && end == AskTime(s, attempt) && waited == 0
                                   && cb.history == Asking(s, attempt) + [Call.Allow(end)]
    ensures verdict != Refused ==> && (verdict == Sent <==> env.sendOk(attempt))
                                   && waited == Backoff(attempt)
                                   && end == AskTime(s, attempt) + waited + env.elapsed(attempt)
                                   && end == DoneTime(s, attempt)
                                   && cb.history == Recorded(s, attempt)
  {
    hide Timed, Permits, Spread, Pow2, Replay;
    waited, end := 0, start + env.pause(attempt);
    Interfere(cb, env.others(2 * attempt), start, end);
    var ok := cb.Allow(end);
    if !ok {
      return Refused, waited, end;
    }
    var asked := end;
    if attempt > 0 {
      waited := Pow2(attempt - 1);
      end := end + waited;
    }
    end := end + env.elapsed(attempt);
    Interfere(cb, env.others(2 * attempt + 1), asked, end);
    if !env.sendOk(attempt) {
      cb.RecordFailure(end);
      return Undelivered, waited, end;
    }
    cb.RecordSuccess(end);
    return Sent, waited, end;
  }

  /** Every send was permitted by the history at that moment and came after 2^j - 1 seconds of sleep;
      all but the last failed. */
  ghost predicate Spaced(s: Sender, sends: seq<nat>) {
    forall j: nat | j < |sends| :: SpacedAt(s, sends, j)
  }

  ghost predicate SpacedAt(s: Sender, sends: seq<nat>, j: nat)
    requires j < |sends|
  {
    sends[j] == Pow2(j) - 1 && Permitted(s, j) && (j < |sends| - 1 ==> !s.env.sendOk(j))
  }

  /** The whole course of a delivery: it stops at the first attempt that the breaker refuses or that
      succeeds, or after the last one, and the breaker holds exactly this sender's calls, one outcome
      per send, among those of the others. */
  ghost predicate Course(s: Sender, retries: nat, d: Delivery, history: seq<Call>, end: Time) {
    var n := |d.sends|;
    && n <= retries + 1 && Spaced(s, d.sends)
    && match d.ending
       case Delivered => n > 0 && s.env.sendOk(n - 1) && history == Recorded(s, n - 1) && end == DoneTime(s, n - 1)
       case AttemptsFailed =>
         n == retries + 1 && !s.env.sendOk(n - 1) && history == Recorded(s, n - 1) && end == DoneTime(s, n - 1)
       case CircuitOpen =>
         && n <= retries && (n > 0 ==> !s.env.sendOk(n - 1)) && !Permitted(s, n)
         && history == Asking(s, n) + [Call.Allow(end)] && end == AskTime(s, n)
  }

  method SendWithRetry(cb: CircuitBreaker, retries: nat, hasDeadLetter: bool, start: Time, env: Environment)
    returns (d: Delivery, end: Time)
    requires cb.Valid() && Timed(cb.history, start)
    modifies cb
    ensures cb.Valid() && Timed(cb.history, end)
    ensures Course(Sender(old(cb.history), start, env), retries, d, cb.history, end)
    // Exactly one delivery or one dead letter.
    ensures d.deadLetters == if d.ending == Delivered || !hasDeadLetter then [] else [d.ending]
    // The sleep is real: it lies between start and end.
    ensures d.sends != [] ==> end >= start + Pow2(|d.sends| - 1) - 1
  {
    hide Timed, Permitted, AskTime, DoneTime, Asking, Recorded, Pow2, Going, Spaced;
    ghost var s := Sender(cb.history, start, env);
    d, end := Delivery([], AttemptsFailed, []), start;
    var slept := 0;
    GoingStart(s);
    for attempt := 0 to retries + 1
      invariant cb.Valid() && Timed(cb.history, end)
      invariant |d.sends| == attempt && d.deadLetters == [] && d.ending == AttemptsFailed
      invariant Going(s, d.sends, slept)
      invariant if attempt == 0 then end == start && cb.history == s.past
                else end == DoneTime(s, attempt - 1) && cb.history == Recorded(s, attempt - 1)
    {
      var verdict, waited;
      verdict, waited, end := Attempt(cb, attempt, end, env, s);
      slept := slept + waited;
      if verdict == Refused {
        Stopping(s, d.sends, slept);
        return Delivery(d.sends, CircuitOpen, if hasDeadLetter then [CircuitOpen] else []), end;
      }
      GoesOn(s, d.sends, slept - waited, waited);
      d := d.(sends := d.sends + [slept]);
      if verdict == Sent {
        return d.(ending := Delivered), end;
      }
    }
    Stopping(s, d.sends, slept);
    if hasDeadLetter {
      d := d.(deadLetters := [AttemptsFailed]);
    }
  }

  /** The loop goes on: all sends so far have failed. */
  ghost predicate Going(s: Sender, sends: seq<nat>, slept: nat) {
    && Spaced(s, sends)
    && (sends == [] ==> slept == 0)
    && (sends != [] ==> slept == sends[|sends| - 1] && !s.env.sendOk(|sends| - 1))
  }

  lemma GoingStart(s: Sender)
    ensures Going(s, [], 0)
  {
  }

  lemma DoneLate(s: Sender, j: nat)
    ensures DoneTime(s, j) >= s.start + Pow2(j) - 1
  {
    hide Pow2, AskTime, Busy;
    SendTime(s, j);
  }

  lemma SleptSoFar(n: nat)
    ensures (if n == 0 then 0 else Pow2(n - 1) - 1) + Backoff(n) == Pow2(n) - 1
  {
  }

  lemma GoesOn(s: Sender, sends: seq<nat>, slept: nat, waited: nat)
    requires Going(s, sends, slept) && waited == Backoff(|sends|) && Permitted(s, |sends|)
    ensures Spaced(s, sends + [slept + waited])
    ensures !s.env.sendOk(|sends|) ==> Going(s, sends + [slept + waited], slept + waited)
    ensures DoneTime(s, |sends|) >= s.start + Pow2(|sends|) - 1
  {
    hide Permitted, DoneTime, Pow2, Backoff;
    DoneLate(s, |sends|);
    SleptSoFar(|sends|);
    var more := sends + [slept + waited];
    if sends != [] {
      assert SpacedAt(s, sends, |sends| - 1);
    }
    forall j: nat | j < |more| ensures SpacedAt(s, more, j) {
      assert j < |sends| ==> SpacedAt(s, sends, j);
    }
  }

  lemma Stopping(s: Sender, sends: seq<nat>, slept: nat)
    requires Going(s, sends, slept)
    ensures Spaced(s, sends) && (sends != [] ==> !s.env.sendOk(|sends| - 1))
    ensures sends != [] ==> DoneTime(s, |sends| - 1) >= s.start + Pow2(|sends| - 1) - 1
    ensures sends != [] ==> AskTime(s, |sends|) >= s.start + Pow2(|sends| - 1) - 1
  {
    hide Permitted, DoneTime;
    if sends != [] {
      DoneLate(s, |sends| - 1);
    }
  }
}
