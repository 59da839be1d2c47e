/** The Lamport clocks of the nodes: what every handler does to them, and what the stamps of messages
    say about the order of events. */
module LockClocks {
  import opened LockQueue
  import opened LockProtocol
  import opened LockLiveness

  // ---------------------------------------------------------------- one handler

  /** A node answers a request unless its own open one is older, and a reply if it has deferred the
      sender; nothing else. */
  predicate Answers(x: Node, peer: nat, m: Message)
    requires peer < |x.requested| && peer < |x.lastReq| && peer < |x.pending|
  {
    match m.mtype
    case REQUEST_LOCK => !(x.requested[peer] && x.lastReq[peer] < m.ts)
    case REPLY_LOCK => x.pending[peer]
    case RELEASE_LOCK => false
    case SERVER_WRITE => false
  }

  /** Whatever the message, the clock moves to at least its stamp, and one further exactly for an
      answer, which carries it. */
  lemma DeliveryClock(x: Node, peer: nat, m: Message)
    requires peer < |x.requested| && peer < |x.lastReq| && peer < |x.pending|
    ensures var (y, out) := Handle(x, peer, m);
      && y.clock == Max(x.clock, m.ts) + (if Answers(x, peer, m) then 1 else 0)
      && y.id == x.id
      && out == if Answers(x, peer, m) then ToPeer(Message(REPLY_LOCK, y.clock, x.id)) else Nothing
  {}

  /** A node acts on a write of the owner of its head. */
  function Acted(x: Node, m: Message): seq<nat> {
    if x.queue != [] && x.queue[0].id == m.node then x.applied + [m.node] else x.applied
  }

  /** What each kind of message may change. */
  lemma DeliveryFrame(x: Node, peer: nat, m: Message)
    requires peer < |x.requested| && peer < |x.lastReq| && peer < |x.pending|
    ensures var y := Handle(x, peer, m).0;
      match m.mtype
      case REQUEST_LOCK => y == x.(clock := y.clock, queue := Enqueued(x.queue, Entry(m.ts, m.node)), pending := x.pending[peer := x.pending[peer] || !Answers(x, peer, m)])
      case REPLY_LOCK => y == x.(clock := y.clock, requested := x.requested[peer := false], pending := x.pending[peer := false], replies := x.replies + 1)
      case RELEASE_LOCK => y == x.(clock := y.clock, queue := Dequeued(x.queue))
      case SERVER_WRITE => y == x.(clock := y.clock, applied := Acted(x, m), crashed := x.crashed || x.queue == [])
  {
    if m.mtype == REPLY_LOCK && !x.pending[peer] {
      assert x.pending[peer := false] == x.pending;
    }
    if m.mtype == REQUEST_LOCK && Answers(x, peer, m) {
      assert x.pending[peer := x.pending[peer]] == x.pending;
    }
  }

  /** Every event of its own moves the clock by one, and a broadcast carries the new clock. */
  lemma OwnEventClock(x: Node)
    ensures var (y, out) := Lock(x);
      y.clock == x.clock + 1 && (out == if |x.queue| < MAX then Broadcast(Message(REQUEST_LOCK, y.clock, x.id)) else Nothing)
    ensures var (y, out) := Write(x); y == x.(clock := x.clock + 1) && out == Broadcast(Message(SERVER_WRITE, y.clock, x.id))
    ensures var (y, out) := Unlock(x); y.clock == x.clock + 1 && out == Broadcast(Message(RELEASE_LOCK, y.clock, x.id))
  {}

  // ---------------------------------------------------------------- the stamps of a run

  /** Node `i` sends the packet in this step. */
  ghost predicate Sends(s: System, step: Step, i: nat, p: Packet)
    requires Shape(s)
  {
    && Enabled(s, step) && i < |s.nodes| && Actor(step) == i
    && exists b: nat :: b < |s.nodes| && Apply(s, step).chan[i][b] == s.chan[i][b] + [p]
  }

  /** Node `i` takes the packet in this step. */
  ghost predicate Takes(s: System, step: Step, i: nat, p: Packet)
    requires Shape(s)
  {
    step.DeliverStep? && step.dst == i && Enabled(s, step) && s.chan[step.src][i][0] == p
  }

  function Actor(step: Step): nat {
    match step
    case LockStep(i) => i
    case CollectStep(i) => i
    case EnterStep(i) => i
    case WriteStep(i) => i
    case UnlockStep(i) => i
    case DeliverStep(_, dst) => dst
  }

  lemma AppendsOne<T>(s: seq<T>, p: T, q: T)
    requires s + [p] == s + [q]
    ensures p == q
  {
    assert (s + [p])[|s|] == (s + [q])[|s|];
  }

  lemma AppendsNone<T>(s: seq<T>, p: T)
    ensures s != s + [p]
  {
    assert |s + [p]| == |s| + 1;
  }

  /** A message carries the clock of its sender, which has just moved, and its name. */
  lemma SentStamp(s: System, step: Step, i: nat, p: Packet)
    requires Shape(s) && Sends(s, step, i, p)
    ensures s.nodes[i].clock < p.msg.ts == Apply(s, step).nodes[i].clock && p.msg.node == i
  {
    var t := Apply(s, step);
    var b: nat :| b < |s.nodes| && t.chan[i][b] == s.chan[i][b] + [p];
    AppendsNone(s.chan[i][b], p);
    match step
    case LockStep(_) => LockSends(s, i, b, p);
    case CollectStep(_) =>
    case EnterStep(_) =>
    case WriteStep(_) => WriteSends(s, i, b, p);
    case UnlockStep(_) => UnlockSends(s, i, b, p);
    case DeliverStep(a, _) => DeliverSends(s, a, i, b, p);
  }

  lemma LockSends(s: System, i: nat, b: nat, p: Packet)
    requires Shape(s) && Enabled(s, LockStep(i)) && b < |s.nodes| && Apply(s, LockStep(i)).chan[i][b] == s.chan[i][b] + [p]
    ensures s.nodes[i].clock < p.msg.ts == Apply(s, LockStep(i)).nodes[i].clock && p.msg.node == i
  {
    AppendsNone(s.chan[i][b], p);
    var (x, out) := Lock(s.nodes[i]);
    OwnEventClock(s.nodes[i]);
    if b != i && out.Broadcast? {
      AppendsOne(s.chan[i][b], p, Packet(out.msg, x.phase.ticket));
    }
  }

  lemma WriteSends(s: System, i: nat, b: nat, p: Packet)
    requires Shape(s) && Enabled(s, WriteStep(i)) && b < |s.nodes| && Apply(s, WriteStep(i)).chan[i][b] == s.chan[i][b] + [p]
    ensures s.nodes[i].clock < p.msg.ts == Apply(s, WriteStep(i)).nodes[i].clock && p.msg.node == i
  {
    AppendsNone(s.chan[i][b], p);
    OwnEventClock(s.nodes[i]);
    if b != i {
      AppendsOne(s.chan[i][b], p, Packet(Write(s.nodes[i]).1.msg, s.nodes[i].phase.ticket));
    }
  }

  lemma UnlockSends(s: System, i: nat, b: nat, p: Packet)
    requires Shape(s) && Enabled(s, UnlockStep(i)) && b < |s.nodes| && Apply(s, UnlockStep(i)).chan[i][b] == s.chan[i][b] + [p]
    ensures s.nodes[i].clock < p.msg.ts == Apply(s, UnlockStep(i)).nodes[i].clock && p.msg.node == i
  {
    AppendsNone(s.chan[i][b], p);
    OwnEventClock(s.nodes[i]);
    if b != i {
      AppendsOne(s.chan[i][b], p, Packet(Unlock(s.nodes[i]).1.msg, s.nodes[i].phase.ticket));
    }
  }

  lemma DeliverSends(s: System, a: nat, i: nat, b: nat, p: Packet)
    requires Shape(s) && Enabled(s, DeliverStep(a, i)) && b < |s.nodes|
    requires Apply(s, DeliverStep(a, i)).chan[i][b] == s.chan[i][b] + [p]
    ensures s.nodes[i].clock < p.msg.ts == Apply(s, DeliverStep(a, i)).nodes[i].clock && p.msg.node == i
  {
    var m := s.chan[a][i][0].msg;
    AppendsNone(s.chan[i][b], p);
    DeliveryClock(s.nodes[i], a, m);
    var out := Handle(s.nodes[i], a, m).1;
    if b == a && out.ToPeer? {
      AppendsOne(s.chan[i][b], p, Packet(out.msg, Stamp(out)));
    }
  }

  lemma TakenStamp(s: System, step: Step, i: nat, p: Packet)
    requires Shape(s) && Takes(s, step, i, p)
    ensures p.msg.ts <= Apply(s, step).nodes[i].clock
  {
    DeliveryClock(s.nodes[i], step.src, p.msg);
  }

  lemma ClockNeverFalls(s: System, step: Step, i: nat)
    requires Shape(s) && Enabled(s, step) && i < |s.nodes|
    ensures s.nodes[i].clock <= Apply(s, step).nodes[i].clock
  {
    if step.DeliverStep? {
      DeliveryClock(s.nodes[step.dst], step.src, s.chan[step.src][step.dst][0].msg);
    }
  }

  lemma {:induction false} ClockNeverFallsAlong(s: System, run: seq<Step>, t: System, i: nat)
    requires Shape(s) && Leads(s, run, t) && i < |s.nodes|
    ensures Shape(t) && |t.nodes| == |s.nodes| && s.nodes[i].clock <= t.nodes[i].clock
    decreases |run|
  {
    if run != [] {
      ClockNeverFalls(s, run[0], i);
      ClockNeverFallsAlong(Apply(s, run[0]), run[1..], t, i);
    }
  }

  /** Whatever a node sends carries a greater stamp than every message it has sent or received before,
      in every run, from any state. */
  lemma StampsIncrease(s: System, step: Step, run: seq<Step>, t: System, later: Step, i: nat, p: Packet, q: Packet)
    requires Shape(s) && (Sends(s, step, i, p) || Takes(s, step, i, p))
    requires Leads(Apply(s, step), run, t) && Shape(t) && Sends(t, later, i, q)
    ensures p.msg.ts < q.msg.ts
  {
    if Sends(s, step, i, p) {
      SentStamp(s, step, i, p);
    } else {
      TakenStamp(s, step, i, p);
    }
    ClockNeverFallsAlong(Apply(s, step), run, t, i);
    SentStamp(t, later, i, q);
  }
}
