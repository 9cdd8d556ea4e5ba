/** Commands queued for edge nodes: enqueue, fetch with acknowledgement, and relay at the edge. */
module EdgeQueue {
  import opened Tasks
  import opened Safety

  type EdgeId = string

  datatype Entry = Entry(edge: EdgeId, robot: RobotId, cmd: Command, acked: bool)

  /** Unacknowledged commands of an edge, oldest first. */
  function PendingOf(entries: seq<Entry>, edge: EdgeId): seq<Command> {
    if entries == [] then []
    else
      var e := entries[|entries| - 1];
      PendingOf(entries[..|entries| - 1], edge) + (if e.edge == edge && !e.acked then [e.cmd] else [])
  }

  /** The queue after everything pending for an edge has been acknowledged. */
  function Acknowledged(entries: seq<Entry>, edge: EdgeId): (r: seq<Entry>)
    ensures |r| == |entries|
  {
    seq(|entries|, i requires 0 <= i < |entries| =>
      if entries[i].edge == edge then entries[i].(acked := true) else entries[i])
  }

  class EdgeStore {
    var entries: seq<Entry>

    constructor ()
      ensures entries == []
    {
      entries := [];
    }

    method EnqueueCommand(edge: EdgeId, robot: RobotId, cmd: Command)
      modifies this
      ensures entries == old(entries) + [Entry(edge, robot, cmd, false)]
    {
      entries := entries + [Entry(edge, robot, cmd, false)];
    }

    method FetchAndAckPendingCommands(edge: EdgeId) returns (out: seq<Command>)
      modifies this
      ensures out == PendingOf(old(entries), edge)
      ensures entries == Acknowledged(old(entries), edge)
    {
      out := [];
      var n := |entries|;
      for i := 0 to n
        invariant |entries| == n
        invariant entries[..i] == Acknowledged(old(entries)[..i], edge) && entries[i..] == old(entries)[i..]
        invariant out == PendingOf(old(entries)[..i], edge)
      {
        assert old(entries)[..i + 1][..i] == old(entries)[..i];
        assert entries[i] == entries[i..][0] == old(entries)[i];
        if entries[i].edge == edge && !entries[i].acked {
          out := out + [entries[i].cmd];
          entries := entries[i := entries[i].(acked := true)];
        }
      }
      assert old(entries)[..n] == old(entries) && entries[..n] == entries;
    }
  }

  function Filtered(batch: seq<Command>, keep: Command -> bool): seq<Command> {
    if batch == [] then []
    else Filtered(batch[..|batch| - 1], keep) + (if keep(batch[|batch| - 1]) then [batch[|batch| - 1]] else [])
  }

  /** a is what b has at the increasing positions at. */
  ghost predicate Embeds(a: seq<Command>, b: seq<Command>, at: seq<nat>) {
    && |at| == |a|
    && (forall i | 0 <= i < |at| :: at[i] < |b| && a[i] == b[at[i]])
    && (forall i, j | 0 <= i < j < |at| :: at[i] < at[j])
  }

  /** Those positions are the ones whose command is kept. */
  ghost predicate Selects(a: seq<Command>, b: seq<Command>, at: seq<nat>, keep: Command -> bool) {
    Embeds(a, b, at) && forall i: nat | i < |b| :: i in at <==> keep(b[i])
  }

  lemma SelectsMore(a: seq<Command>, b: seq<Command>, at: seq<nat>, x: Command, keep: Command -> bool)
    requires Selects(a, b, at, keep)
    ensures if keep(x) then Selects(a + [x], b + [x], at + [|b|], keep) else Selects(a, b + [x], at, keep)
  {
    EmbedsExtend(a, b, at, x);
    forall i: nat | i < |b| + 1 ensures (i in at || (keep(x) && i == |b|)) <==> keep((b + [x])[i]) {
      assert i < |b| ==> (b + [x])[i] == b[i];
    }
  }

  lemma EmbedsExtend(a: seq<Command>, b: seq<Command>, at: seq<nat>, x: Command)
    requires Embeds(a, b, at)
    ensures Embeds(a, b + [x], at) && Embeds(a + [x], b + [x], at + [|b|])
  {
  }

  lemma {:induction false} FilterSelects(batch: seq<Command>, keep: Command -> bool) returns (at: seq<nat>)
    ensures Selects(Filtered(batch, keep), batch, at, keep)
  {
    hide Selects;
    if batch == [] {
      at := [];
      NothingSelected(keep);
    } else {
      var n := |batch| - 1;
      at := FilterSelects(batch[..n], keep);
      SelectsMore(Filtered(batch[..n], keep), batch[..n], at, batch[n], keep);
      assert batch[..n] + [batch[n]] == batch;
      if keep(batch[n]) {
        at := at + [n];
      } else {
        assert Filtered(batch, keep) == Filtered(batch[..n], keep);
      }
    }
  }

  lemma NothingSelected(keep: Command -> bool)
    ensures Selects([], [], [], keep)
  {
  }

  /** The relay loop of Sync: exactly the allowed commands are offered, in order, whatever becomes
      of each of them. */
  method Relay(batch: seq<Command>) returns (offered: seq<Command>, ghost at: seq<nat>)
    ensures Embeds(offered, batch, at)
    ensures forall i: nat | i < |batch| :: i in at <==> EdgeAllow(batch[i])
    ensures offered == Filtered(batch, EdgeAllow)
  {
    offered := [];
    for i := 0 to |batch|
      invariant offered == Filtered(batch[..i], EdgeAllow)
    {
      assert batch[..i + 1][..i] == batch[..i];
      if !EdgeAllow(batch[i]) {
        continue;
      }
      offered := offered + [batch[i]];
    }
    assert batch[..|batch|] == batch;
    at := FilterSelects(batch, EdgeAllow);
  }

  // ---- Runs ---------------------------------------------------------------------------

  /** A queue operation; a fetched response may be lost on its way to the edge. */
  datatype Op = Enqueue(edge: EdgeId, robot: RobotId, cmd: Command) | Fetch(edge: EdgeId, arrives: bool)

  function Entries(ops: seq<Op>): seq<Entry> {
    if ops == [] then []
    else
      var before := Entries(ops[..|ops| - 1]);
      match ops[|ops| - 1]
      case Enqueue(edge, robot, cmd) => before + [Entry(edge, robot, cmd, false)]
      case Fetch(edge, _) => Acknowledged(before, edge)
  }

  function Enqueued(ops: seq<Op>, edge: EdgeId): seq<Command> {
    if ops == [] then []
    else
      var op := ops[|ops| - 1];
      Enqueued(ops[..|ops| - 1], edge) + (if op.Enqueue? && op.edge == edge then [op.cmd] else [])
  }

  /** Everything handed out to an edge, in order. */
  function Fetched(ops: seq<Op>, edge: EdgeId): seq<Command> {
    if ops == [] then []
    else
      var front, op := ops[..|ops| - 1], ops[|ops| - 1];
      Fetched(front, edge) + (if op.Fetch? && op.edge == edge then PendingOf(Entries(front), edge) else [])
  }

  /** Everything offered for publishing at the edge, in order. */
  function Relayed(ops: seq<Op>, edge: EdgeId, keep: Command -> bool): seq<Command> {
    if ops == [] then []
    else
      var front, op := ops[..|ops| - 1], ops[|ops| - 1];
      Relayed(front, edge, keep) +
      (if op.Fetch? && op.edge == edge && op.arrives then Filtered(PendingOf(Entries(front), edge), keep) else [])
  }

  /** What reaches an edge: the commands of the batches whose response arrives, in order. */
  function Arrived(ops: seq<Op>, edge: EdgeId): seq<Command> {
    if ops == [] then []
    else
      var front, op := ops[..|ops| - 1], ops[|ops| - 1];
      Arrived(front, edge) +
      (if op.Fetch? && op.edge == edge && op.arrives then PendingOf(Entries(front), edge) else [])
  }

  lemma {:induction false} AcknowledgedPending(entries: seq<Entry>, edge: EdgeId, other: EdgeId)
    ensures PendingOf(Acknowledged(entries, edge), other) == if other == edge then [] else PendingOf(entries, other)
  {
    if entries != [] {
      var n := |entries| - 1;
      AcknowledgedPending(entries[..n], edge, other);
      assert Acknowledged(entries, edge)[..n] == Acknowledged(entries[..n], edge);
    }
  }

  /** Over any run, what an edge has fetched followed by what is pending is what was enqueued for it. */
  lemma {:induction false} Conservation(ops: seq<Op>, edge: EdgeId)
    ensures Fetched(ops, edge) + PendingOf(Entries(ops), edge) == Enqueued(ops, edge)
  {
    if ops != [] {
      var front, op := ops[..|ops| - 1], ops[|ops| - 1];
      var before, after := Entries(front), Entries(ops);
      Conservation(front, edge);
      match op {
        case Enqueue(_, _, _) =>
          assert after[..|before|] == before;
          assert Fetched(ops, edge) == Fetched(front, edge);
        case Fetch(e, _) =>
          AcknowledgedPending(before, e, edge);
      }
    }
  }

  lemma EmbedsConcat(a: seq<Command>, b: seq<Command>, f: seq<nat>, c: seq<Command>, d: seq<Command>, g: seq<nat>)
    returns (at: seq<nat>)
    requires Embeds(a, b, f) && Embeds(c, d, g)
    ensures Embeds(a + c, b + d, at)
  {
    at := f + seq(|g|, i requires 0 <= i < |g| => |b| + g[i]);
  }

  lemma {:induction false} RelayedFiltersArrived(ops: seq<Op>, edge: EdgeId, keep: Command -> bool)
    ensures Relayed(ops, edge, keep) == Filtered(Arrived(ops, edge), keep)
  {
    hide PendingOf, Entries;
    if ops != [] {
      var front, op := ops[..|ops| - 1], ops[|ops| - 1];
      RelayedFiltersArrived(front, edge, keep);
      if op.Fetch? && op.edge == edge && op.arrives {
        FilteredConcat(Arrived(front, edge), PendingOf(Entries(front), edge), keep);
      } else {
        assert Arrived(ops, edge) == Arrived(front, edge) && Relayed(ops, edge, keep) == Relayed(front, edge, keep);
      }
    }
  }

  /** An edge none of whose responses arrives gets nothing. */
  lemma {:induction false} NothingArrives(ops: seq<Op>, edge: EdgeId)
    requires forall op | op in ops && op.Fetch? && op.edge == edge :: !op.arrives
    ensures Arrived(ops, edge) == []
  {
    if ops != [] {
      assert ops[|ops| - 1] in ops && forall o | o in ops[..|ops| - 1] :: o in ops;
      NothingArrives(ops[..|ops| - 1], edge);
    }
  }

  lemma AllOf(a: seq<Command>) returns (at: seq<nat>)
    ensures Embeds(a, a, at)
  {
    at := seq(|a|, i requires 0 <= i < |a| => i);
  }

  lemma {:induction false} ArrivedEmbedsFetched(ops: seq<Op>, edge: EdgeId) returns (at: seq<nat>)
    ensures Embeds(Arrived(ops, edge), Fetched(ops, edge), at)
  {
    at := [];
    if ops != [] {
      var front, op := ops[..|ops| - 1], ops[|ops| - 1];
      at := ArrivedEmbedsFetched(front, edge);
      if op.Fetch? && op.edge == edge {
        var batch := PendingOf(Entries(front), edge);
        var g := [];
        if op.arrives {
          g := AllOf(batch);
        }
        at := EmbedsConcat(Arrived(front, edge), Fetched(front, edge), at, if op.arrives then batch else [], batch, g);
      }
    }
  }

  lemma {:induction false} ArrivedAccepted(ops: seq<Op>, edge: EdgeId)
    requires forall op | op in ops && op.Enqueue? :: ArbiterAllow(op.cmd)
    ensures forall c | c in Enqueued(ops, edge) :: ArbiterAllow(c)
    ensures forall c | c in Arrived(ops, edge) :: ArbiterAllow(c)
  {
    if ops != [] {
      var front, op := ops[..|ops| - 1], ops[|ops| - 1];
      assert op in ops && forall o | o in front :: o in ops;
      ArrivedAccepted(front, edge);
      Conservation(front, edge);
      var batch := PendingOf(Entries(front), edge);
      assert forall c | c in batch :: c in Fetched(front, edge) + batch;
    }
  }

  /** If the arbiter accepted every command before it was enqueued, then even when responses are lost:
      the edge offers exactly those of the commands that reach it that are not navigate_to, in order,
      and what reaches it is an order-preserving selection of the enqueued commands, each at most once. */
  lemma RelayIsSelection(ops: seq<Op>, edge: EdgeId) returns (at: seq<nat>, from: seq<nat>)
    requires forall op | op in ops && op.Enqueue? :: ArbiterAllow(op.cmd)
    ensures Embeds(Relayed(ops, edge, EdgeAllow), Arrived(ops, edge), at)
    ensures forall i: nat | i < |Arrived(ops, edge)| :: i in at <==> Arrived(ops, edge)[i].name != "navigate_to"
    ensures Embeds(Arrived(ops, edge), Enqueued(ops, edge), from)
  {
    at := OffersTheAllowed(ops, edge, EdgeAllow);
    ArrivedAccepted(ops, edge);
    forall i: nat | i < |Arrived(ops, edge)|
      ensures EdgeAllow(Arrived(ops, edge)[i]) <==> Arrived(ops, edge)[i].name != "navigate_to"
    {
      assert Arrived(ops, edge)[i] in Arrived(ops, edge);
      EdgeIsArbiterButNavigate(Arrived(ops, edge)[i]);
    }
    from := ArrivedEmbedsFetched(ops, edge);
    Conservation(ops, edge);
    from := EmbedsConcat(Arrived(ops, edge), Fetched(ops, edge), from, [], PendingOf(Entries(ops), edge), []);
    assert Arrived(ops, edge) + [] == Arrived(ops, edge);
  }

  /** Of the commands that reach an edge exactly the allowed ones are offered, in order. */
  lemma OffersTheAllowed(ops: seq<Op>, edge: EdgeId, keep: Command -> bool) returns (at: seq<nat>)
    ensures Embeds(Relayed(ops, edge, keep), Arrived(ops, edge), at)
    ensures forall i: nat | i < |Arrived(ops, edge)| :: i in at <==> keep(Arrived(ops, edge)[i])
  {
    RelayedFiltersArrived(ops, edge, keep);
    at := FilterSelects(Arrived(ops, edge), keep);
  }

  lemma {:induction false} FilteredConcat(a: seq<Command>, b: seq<Command>, keep: Command -> bool)
    ensures Filtered(a + b, keep) == Filtered(a, keep) + Filtered(b, keep)
  {
    if b == [] {
      assert a + b == a;
    } else {
      FilteredConcat(a, b[..|b| - 1], keep);
      assert (a + b)[..|a + b| - 1] == a + b[..|b| - 1];
    }
  }

  lemma {:induction false} LosslessFetch(ops: seq<Op>, edge: EdgeId)
    requires forall op | op in ops && op.Fetch? :: op.arrives
    ensures Arrived(ops, edge) == Fetched(ops, edge)
  {
    if ops != [] {
      var front, op := ops[..|ops| - 1], ops[|ops| - 1];
      assert op in ops && forall o | o in front :: o in ops;
      LosslessFetch(front, edge);
    }
  }

  /** If no response is lost, nothing is: what reached the edge and what is still pending are
      together the enqueued commands, and of these exactly the allowed ones were offered or would be. */
  lemma LosslessRelay(ops: seq<Op>, edge: EdgeId, keep: Command -> bool) returns (at: seq<nat>)
    requires forall op | op in ops && op.Fetch? :: op.arrives
    ensures Arrived(ops, edge) + PendingOf(Entries(ops), edge) == Enqueued(ops, edge)
    ensures Embeds(Relayed(ops, edge, keep) + Filtered(PendingOf(Entries(ops), edge), keep), Enqueued(ops, edge), at)
    ensures forall i: nat | i < |Enqueued(ops, edge)| :: i in at <==> keep(Enqueued(ops, edge)[i])
  {
    LosslessFetch(ops, edge);
    Conservation(ops, edge);
    RelayedFiltersArrived(ops, edge, keep);
    FilteredConcat(Fetched(ops, edge), PendingOf(Entries(ops), edge), keep);
    at := FilterSelects(Enqueued(ops, edge), keep);
  }
}
