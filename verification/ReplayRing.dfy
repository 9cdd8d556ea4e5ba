/** The ring of recent telemetry events from which a reconnecting stream catches up. */
module ReplayRing {
  import opened Common
  import opened Tasks
  import opened EventIds

  datatype Event = Event(id: string, second: string, nanos: Nanos, robot: RobotId)

  /** The last min(|log|, capacity) events, oldest first. */
  function Recent(log: seq<Event>, capacity: nat): seq<Event> {
    if |log| <= capacity then log else log[|log| - capacity..]
  }

  /** Events with an identifier above lastId. */
  function Newer(events: seq<Event>, lastId: string): seq<Event> {
    if events == [] then []
    else Newer(events[..|events| - 1], lastId) +
         (if Less(lastId, events[|events| - 1].id) then [events[|events| - 1]] else [])
  }

  ghost predicate SortedById(s: seq<Event>) {
    forall i, j | 0 <= i < j < |s| :: !Less(s[j].id, s[i].id)
  }

  lemma {:induction false} NotLessTransitive(a: string, b: string, c: string)
    requires !Less(b, a) && !Less(c, b)
    ensures !Less(c, a)
  {
    if c != [] && a != [] && b != [] {
      if a[0] == b[0] == c[0] {
        NotLessTransitive(a[1..], b[1..], c[1..]);
      }
    }
  }

  lemma {:induction false} LessAsymmetric(a: string, b: string)
    requires Less(a, b)
    ensures !Less(b, a)
  {
    if a != [] && a[0] == b[0] {
      LessAsymmetric(a[1..], b[1..]);
    }
  }

  /** One insertion of a sort that leaves the order of equal identifiers open. */
  method Insert(x: Event, s: seq<Event>) returns (r: seq<Event>)
    requires SortedById(s)
    ensures SortedById(r) && multiset(r) == multiset(s) + multiset{x}
  {
    var i := 0;
    while i < |s| && !Less(x.id, s[i].id)
      invariant i <= |s| && forall k | 0 <= k < i :: !Less(x.id, s[k].id)
    {
      i := i + 1;
    }
    forall j | i <= j < |s| ensures !Less(s[j].id, x.id) {
      LessAsymmetric(x.id, s[i].id);
      if j > i {
        NotLessTransitive(x.id, s[i].id, s[j].id);
      }
    }
    assert s == s[..i] + s[i..];
    r := s[..i] + [x] + s[i..];
  }

  method SortById(s: seq<Event>) returns (r: seq<Event>)
    ensures SortedById(r) && multiset(r) == multiset(s)
  {
    r := [];
    for i := 0 to |s|
      invariant SortedById(r) && multiset(r) == multiset(s[..i])
    {
      assert s[..i + 1] == s[..i] + [s[i]];
      r := Insert(s[i], r);
    }
    assert s[..|s|] == s;
  }

  class RingBuffer {
    const slots: array<Option<Event>>
    var cursor: nat
    ghost var log: seq<Event>  // everything ever added

    /** The slots in ring order from the cursor. */
    ghost function Walk(): seq<Option<Event>>
      reads this, slots
      requires cursor <= slots.Length
    {
      slots[cursor..] + slots[..cursor]
    }

    /** Walking the ring meets empty slots and then the most recent events, oldest first, each named
        after its own instant. */
    ghost predicate Valid()
      reads this, slots
    {
      && cursor < slots.Length
      && Walk() == Expected(log, slots.Length)
      && forall e | e in log :: e.id == EventId(e.second, e.nanos)
    }

    constructor (capacity: int)
      ensures Valid() && log == [] && fresh(slots)
      ensures slots.Length == if capacity <= 0 then 1000 else capacity
    {
      var n := if capacity <= 0 then 1000 else capacity;
      slots := new Option<Event>[n](_ => None);
      cursor, log := 0, [];
    }

    method Add(second: string, nanos: Nanos, robot: RobotId)
      requires Valid()
      modifies this, slots
      ensures Valid() && |log| == |old(log)| + 1 && log[..|old(log)|] == old(log)
      ensures var e := log[|old(log)|];
              e.id == EventId(second, nanos) && e.second == second && e.nanos == nanos && e.robot == robot
    {
      hide EventId;
      var e := Event(EventId(second, nanos), second, nanos, robot);
      ghost var walk := Walk();
      slots[cursor] := Some(e);
      cursor := if cursor + 1 == slots.Length then 0 else cursor + 1;
      log := log + [e];
      assert Walk() == walk[1..] + [Some(e)];
      ExpectedShifts(old(log), slots.Length, e);
    }

    method GetSince(lastId: string) returns (out: seq<Event>)
      requires Valid()
      ensures SortedById(out)
      ensures multiset(out) == multiset(Newer(Recent(log, slots.Length), lastId))
      ensures Delivers(log, slots.Length, lastId, out)
    {
      hide Newer, Less, EventId, Delivers;
      out := [];
      var n := slots.Length;
      ghost var recent := Recent(log, n);
      NewerNone(recent[..Seen(0, n, |log|)], lastId);
      for k := 0 to n
        invariant Seen(k, n, |log|) <= |recent| && out == Newer(recent[..Seen(k, n, |log|)], lastId)
      {
        var v := slots[if cursor + k < n then cursor + k else cursor + k - n];
        assert v == Walk()[k] == Expected(log, n)[k];
        SeenStep(log, n, k, lastId);
        if v.Some? {
          var e := v.value;
          if Less(lastId, e.id) {
            out := out + [e];
          }
        }
      }
      assert recent[..Seen(n, n, |log|)] == recent;
      out := SortById(out);
      DeliveryLaw(log, n, lastId, out);
    }
  }

  /** A stream that last saw instant (s, x) gets, of the events still in the ring, the later ones but
      those of the same second whose digits extend its own, and again those whose digits its own extend. */
  ghost predicate Delivers(log: seq<Event>, capacity: nat, lastId: string, out: seq<Event>) {
    forall s: string, x: Nanos, i | lastId == EventId(s, x) && 0 <= i < |log| && |log[i].second| == |s| ::
      |log| - capacity <= i ==>
        (log[i] in out <==>
           if Less(s, log[i].second) || (s == log[i].second && x < log[i].nanos)
           then !(log[i].second == s && Fraction(x) < Fraction(log[i].nanos))
           else log[i].second == s && Fraction(log[i].nanos) < Fraction(x))
  }

  lemma DeliveryLaw(log: seq<Event>, capacity: nat, lastId: string, out: seq<Event>)
    requires multiset(out) == multiset(Newer(Recent(log, capacity), lastId))
    requires forall e | e in log :: e.id == EventId(e.second, e.nanos)
    ensures Delivers(log, capacity, lastId, out)
  {
    hide Newer, EventId, Fraction;
    forall s: string, x: Nanos, i
      | lastId == EventId(s, x) && 0 <= i < |log| && |log[i].second| == |s| && |log| - capacity <= i
      ensures log[i] in out <==>
              if Less(s, log[i].second) || (s == log[i].second && x < log[i].nanos)
              then !(log[i].second == s && Fraction(x) < Fraction(log[i].nanos))
              else log[i].second == s && Fraction(log[i].nanos) < Fraction(x)
    {
      var recent := Recent(log, capacity);
      assert recent[if |log| <= capacity then i else i - (|log| - capacity)] == log[i];
      ReconnectDelivers(log, capacity, s, x, log[i]);
      SameMembers(out, Newer(recent, lastId), log[i]);
    }
  }

  lemma SameMembers(a: seq<Event>, b: seq<Event>, e: Event)
    requires multiset(a) == multiset(b)
    ensures e in a <==> e in b
  {
    assert e in a <==> multiset(a)[e] > 0;
    assert e in b <==> multiset(b)[e] > 0;
  }

  /** What walking a ring of the given capacity must show after the log. */
  ghost function Expected(log: seq<Event>, capacity: nat): seq<Option<Event>> {
    seq(capacity, k requires 0 <= k < capacity =>
      if |log| - capacity + k < 0 then None else Some(log[|log| - capacity + k]))
  }

  lemma ExpectedShifts(log: seq<Event>, capacity: nat, e: Event)
    requires capacity > 0
    ensures Expected(log + [e], capacity) == Expected(log, capacity)[1..] + [Some(e)]
  {
  }

  /** How many recent events the first k slots of the walk hold. */
  function Seen(k: nat, n: nat, logged: nat): nat
    requires k <= n
  {
    if logged >= n then k else if k < n - logged then 0 else k - (n - logged)
  }

  lemma SeenStep(log: seq<Event>, n: nat, k: nat, lastId: string)
    requires k < n
    ensures Seen(k, n, |log|) <= Seen(k + 1, n, |log|) <= |Recent(log, n)|
    ensures var recent := Recent(log, n);
            var before, after := recent[..Seen(k, n, |log|)], recent[..Seen(k + 1, n, |log|)];
            match Expected(log, n)[k]
            case None => after == before
            case Some(e) =>
              && after == before + [e]
              && Newer(after, lastId) == Newer(before, lastId) + (if Less(lastId, e.id) then [e] else [])
  {
    var recent := Recent(log, n);
    var before, after := recent[..Seen(k, n, |log|)], recent[..Seen(k + 1, n, |log|)];
    match Expected(log, n)[k]
    case None =>
    case Some(e) =>
      assert after == before + [e];
      assert after[..|after| - 1] == before;
  }

  lemma NewerNone(events: seq<Event>, lastId: string)
    requires events == []
    ensures Newer(events, lastId) == []
  {
  }

  lemma {:induction false} NewerMembers(events: seq<Event>, lastId: string, e: Event)
    ensures e in Newer(events, lastId) <==> e in events && Less(lastId, e.id)
  {
    if events != [] {
      var n := |events| - 1;
      NewerMembers(events[..n], lastId, e);
      assert e in events <==> e in events[..n] || e == events[n];
    }
  }

  /** The instant (t, y) is after (s, x); whole seconds of one width compare as strings. */
  predicate Later(s: string, x: nat, t: string, y: nat) {
    Less(s, t) || (s == t && x < y)
  }

  /** A stream that last saw instant (s, x) is sent a later buffered event unless both fall into
      the same second and the digits of x are a proper prefix of the event's digits; it is sent
      an event again exactly in the mirror case. */
  lemma ReconnectDelivers(log: seq<Event>, capacity: nat, s: string, x: Nanos, e: Event)
    requires e in Recent(log, capacity) && e.id == EventId(e.second, e.nanos) && |e.second| == |s|
    ensures e in Newer(Recent(log, capacity), EventId(s, x)) <==>
            if Later(s, x, e.second, e.nanos) then !(e.second == s && Fraction(x) < Fraction(e.nanos))
            else e.second == s && Fraction(e.nanos) < Fraction(x)
  {
    hide Fraction, EventId, Less, Newer;
    NewerMembers(Recent(log, capacity), EventId(s, x), e);
    NanosFit(x);
    NanosFit(e.nanos);
    if e.second == s {
      SameSecond(s, x, e.nanos);
    } else {
      SecondsDecide(s, e.second, x, e.nanos);
    }
  }

  lemma SameSecond(s: string, x: nat, y: nat)
    requires x < Pow10(NANO_DIGITS) && y < Pow10(NANO_DIGITS)
    ensures !Less(s, s)
    ensures Less(EventId(s, x), EventId(s, y)) <==>
            if x < y then !(Fraction(x) < Fraction(y)) else Fraction(y) < Fraction(x)
  {
    hide Fraction, EventId, Less;
    Irreflexive(s);
    IdOrderIsTimeOrder(s, x, y);
    if Fraction(x) < Fraction(y) {
      ExtensionIsLater(x, y);
      ExtensionSortsBefore(s, x, y);
    } else if Fraction(y) < Fraction(x) {
      ExtensionIsLater(y, x);
      ExtensionSortsBefore(s, y, x);
    }
  }
}
