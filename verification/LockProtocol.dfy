/** The distributed lock of blocking_node.c as a transition system.

    Any number of nodes, one FIFO channel per ordered pair of nodes (a TCP connection), and one
    outstanding lock request per node.  The functions on `Node` are the handlers of the source;
    they see a node's own fields and the message, nothing else.  `System` adds the channels and a
    history that no handler reads. */
module LockProtocol {
  import opened LockQueue

  datatype MessageType = REQUEST_LOCK | RELEASE_LOCK | REPLY_LOCK | SERVER_WRITE

  /** A peer message without its key and value. */
  datatype Message = Message(mtype: MessageType, ts: nat, node: nat)

  /** Where a node is in `distributed_lock` ... `distributed_unlock`; the ticket is its own request. */
  datatype Phase =
    | Idle
    | Collecting(ticket: Entry)  // waiting for the replies
    | Ordering(ticket: Entry)    // waiting to be at the head of its own queue
    | Critical(ticket: Entry)

  datatype Node = Node(
    id: nat,
    clock: nat,
    queue: seq<Entry>,
    requested: seq<bool>,  // requests[k].requested_lock
    lastReq: seq<nat>,     // requests[k].timestamp_last_req
    pending: seq<bool>,    // peers[k].peer_request_lock_pending
    replies: nat,
    phase: Phase,
    applied: seq<nat>,     // senders of the SERVER_WRITEs this node acted on
    crashed: bool)         // dereferenced the NULL that `peek` returns on an empty queue

  datatype Send = Nothing | ToPeer(msg: Message) | Broadcast(msg: Message)

  function Max(a: nat, b: nat): nat { if a > b then a else b }

  /** `enqueue` as in LockQueue: a full queue drops the entry. */
  function Enqueued(q: seq<Entry>, e: Entry): seq<Entry> {
    if |q| < MAX then SortedInsert(q, e) else q
  }

  function Dequeued(q: seq<Entry>): seq<Entry> {
    if q == [] then [] else q[1..]
  }

  /** The marks the broadcast loop leaves in `requests[]`. */
  function AllAsked(requested: seq<bool>, id: nat): seq<bool> {
    seq(|requested|, k requires 0 <= k < |requested| => k != id || requested[k])
  }

  function AllStamped(lastReq: seq<nat>, id: nat, now: nat): seq<nat> {
    seq(|lastReq|, k requires 0 <= k < |lastReq| => if k == id then lastReq[k] else now)
  }

  /** `distributed_lock` up to and including the broadcast. */
  function Lock(x: Node): (Node, Send) {
    var now := x.clock + 1;
    var e := Entry(now, x.id);
    if |x.queue| >= MAX then (x.(clock := now), Nothing)
    else
      (x.(clock := now,
          queue := SortedInsert(x.queue, e),
          requested := AllAsked(x.requested, x.id),
          lastReq := AllStamped(x.lastReq, x.id, now),
          phase := Collecting(e)),
       Broadcast(Message(REQUEST_LOCK, now, x.id)))
  }

  /** The reply loop ends: the counter is reset for the next request. */
  function Collected(x: Node): Node
    requires x.phase.Collecting?
  {
    x.(replies := 0, phase := Ordering(x.phase.ticket))
  }

  function Enter(x: Node): Node
    requires x.phase.Ordering?
  {
    x.(phase := Critical(x.phase.ticket))
  }

  /** `broadcast_write`, called while the lock is held. */
  function Write(x: Node): (Node, Send) {
    (x.(clock := x.clock + 1), Broadcast(Message(SERVER_WRITE, x.clock + 1, x.id)))
  }

  function Unlock(x: Node): (Node, Send) {
    (x.(queue := Dequeued(x.queue), clock := x.clock + 1, phase := Idle),
     Broadcast(Message(RELEASE_LOCK, x.clock + 1, x.id)))
  }

  function Answer(x: Node): (Node, Send) {
    (x.(clock := x.clock + 1), ToPeer(Message(REPLY_LOCK, x.clock + 1, x.id)))
  }

  function HandleRequest(x: Node, peer: nat, m: Message): (Node, Send)
    requires peer < |x.requested| && peer < |x.lastReq| && peer < |x.pending|
  {
    var y := x.(clock := Max(x.clock, m.ts), queue := Enqueued(x.queue, Entry(m.ts, m.node)));
    if x.requested[peer] && x.lastReq[peer] < m.ts then (y.(pending := y.pending[peer := true]), Nothing)
    else Answer(y)
  }

  /** Pops the head, whoever it belongs to. */
  function HandleRelease(x: Node, m: Message): (Node, Send) {
    (x.(clock := Max(x.clock, m.ts), queue := Dequeued(x.queue)), Nothing)
  }

  function HandleReply(x: Node, peer: nat, m: Message): (Node, Send)
    requires peer < |x.requested| && peer < |x.pending|
  {
    var y := x.(clock := Max(x.clock, m.ts));
    var (z, out) := if x.pending[peer] then Answer(y.(pending := y.pending[peer := false])) else (y, Nothing);
    (z.(requested := z.requested[peer := false], replies := z.replies + 1), out)
  }

  /** Acts on a write only when the sender owns the head of the local queue. */
  function HandleWrite(x: Node, m: Message): (Node, Send) {
    var y := x.(clock := Max(x.clock, m.ts));
    (if x.queue == [] then y.(crashed := true)
     else if m.node == x.queue[0].id then y.(applied := y.applied + [m.node])
     else y,
     Nothing)
  }

  function Handle(x: Node, peer: nat, m: Message): (Node, Send)
    requires peer < |x.requested| && peer < |x.lastReq| && peer < |x.pending|
  {
    match m.mtype
    case REQUEST_LOCK => HandleRequest(x, peer, m)
    case RELEASE_LOCK => HandleRelease(x, m)
    case REPLY_LOCK => HandleReply(x, peer, m)
    case SERVER_WRITE => HandleWrite(x, m)
  }

  // ---------------------------------------------------------------- the system

  /** A message in flight.  `about` is history: the request a REQUEST, RELEASE or SERVER_WRITE
      belongs to.  A REPLY carries its own stamp there. */
  datatype Packet = Packet(msg: Message, about: Entry)

  type Channels = seq<seq<seq<Packet>>>

  /** What happened so far; never read by a handler. */
  datatype History = History(
    issued: set<Entry>,          // every request made
    completed: seq<Entry>,       // critical sections left, in that order
    known: seq<set<Entry>>,      // per node: requests it enqueued
    popped: seq<seq<Entry>>,     // per node: entries its dequeues removed, in order
    released: seq<set<Entry>>)   // per node: critical sections whose end it has seen

  datatype System = System(nodes: seq<Node>, chan: Channels, hist: History)

  datatype Step =
    | LockStep(i: nat)
    | CollectStep(i: nat)
    | EnterStep(i: nat)
    | WriteStep(i: nat)
    | UnlockStep(i: nat)
    | DeliverStep(src: nat, dst: nat)

  predicate Square(ch: Channels, n: nat) {
    |ch| == n && forall a :: 0 <= a < n ==> |ch[a]| == n
  }

  predicate NodeShape(x: Node, i: nat, n: nat) {
    x.id == i && |x.requested| == n && |x.lastReq| == n && |x.pending| == n
  }

  predicate Shape(s: System) {
    var n := |s.nodes|;
    && Square(s.chan, n)
    && (forall i :: 0 <= i < n ==> NodeShape(s.nodes[i], i, n))
    && |s.hist.known| == n && |s.hist.popped| == n && |s.hist.released| == n
  }

  function PostAll(ch: Channels, i: nat, p: Packet): (r: Channels)
    requires Square(ch, |ch|)
    ensures Square(r, |ch|)
    ensures forall a, b :: 0 <= a < |ch| && 0 <= b < |ch| ==>
      r[a][b] == if a == i && b != i then ch[a][b] + [p] else ch[a][b]
  {
    seq(|ch|, a requires 0 <= a < |ch| =>
      seq(|ch|, b requires 0 <= b < |ch| => if a == i && b != i then ch[a][b] + [p] else ch[a][b]))
  }

  function Post(ch: Channels, i: nat, j: nat, p: Packet): (r: Channels)
    requires Square(ch, |ch|) && i < |ch| && j < |ch|
    ensures Square(r, |ch|)
    ensures forall a, b :: 0 <= a < |ch| && 0 <= b < |ch| ==>
      r[a][b] == if a == i && b == j then ch[a][b] + [p] else ch[a][b]
  {
    ch[i := ch[i][j := ch[i][j] + [p]]]
  }

  function Take(ch: Channels, i: nat, j: nat): (r: Channels)
    requires Square(ch, |ch|) && i < |ch| && j < |ch| && ch[i][j] != []
    ensures Square(r, |ch|)
    ensures forall a, b :: 0 <= a < |ch| && 0 <= b < |ch| ==>
      r[a][b] == if a == i && b == j then ch[a][b][1..] else ch[a][b]
  {
    ch[i := ch[i][j := ch[i][j][1..]]]
  }

  function Sent(ch: Channels, i: nat, peer: nat, out: Send, about: Entry): (r: Channels)
    requires Square(ch, |ch|) && i < |ch| && peer < |ch|
    ensures Square(r, |ch|)
  {
    match out
    case Nothing => ch
    case ToPeer(m) => Post(ch, i, peer, Packet(m, about))
    case Broadcast(m) => PostAll(ch, i, Packet(m, about))
  }

  predicate Enabled(s: System, step: Step)
    requires Shape(s)
  {
    var n := |s.nodes|;
    match step
    case LockStep(i) => i < n && s.nodes[i].phase.Idle?
    case CollectStep(i) => i < n && s.nodes[i].phase.Collecting? && s.nodes[i].replies >= n - 1
    case EnterStep(i) =>
      && i < n && s.nodes[i].phase.Ordering?
      && s.nodes[i].queue != [] && s.nodes[i].queue[0] == s.nodes[i].phase.ticket
    case WriteStep(i) => i < n && s.nodes[i].phase.Critical?
    case UnlockStep(i) => i < n && s.nodes[i].phase.Critical?
    case DeliverStep(src, dst) => src < n && dst < n && src != dst && s.chan[src][dst] != []
  }

  function HeadOf(q: seq<Entry>): seq<Entry> {
    if q == [] then [] else [q[0]]
  }

  function ApplyLock(s: System, i: nat): (r: System)
    requires Shape(s) && Enabled(s, LockStep(i))
    ensures Shape(r) && |r.nodes| == |s.nodes|
  {
    var (x, out) := Lock(s.nodes[i]);
    if out.Nothing? then s.(nodes := s.nodes[i := x])
    else
      var e := x.phase.ticket;
      System(s.nodes[i := x],
             Sent(s.chan, i, i, out, e),
             s.hist.(issued := s.hist.issued + {e},
                     known := s.hist.known[i := s.hist.known[i] + {e}]))
  }

  function ApplyWrite(s: System, i: nat): (r: System)
    requires Shape(s) && Enabled(s, WriteStep(i))
    ensures Shape(r) && |r.nodes| == |s.nodes|
  {
    var (x, out) := Write(s.nodes[i]);
    s.(nodes := s.nodes[i := x], chan := Sent(s.chan, i, i, out, s.nodes[i].phase.ticket))
  }

  function ApplyUnlock(s: System, i: nat): (r: System)
    requires Shape(s) && Enabled(s, UnlockStep(i))
    ensures Shape(r) && |r.nodes| == |s.nodes|
  {
    var e := s.nodes[i].phase.ticket;
    var (x, out) := Unlock(s.nodes[i]);
    System(s.nodes[i := x],
           Sent(s.chan, i, i, out, e),
           s.hist.(completed := s.hist.completed + [e],
                   popped := s.hist.popped[i := s.hist.popped[i] + HeadOf(s.nodes[i].queue)],
                   released := s.hist.released[i := s.hist.released[i] + {e}]))
  }

  /** What a delivery adds to the history of the receiver. */
  function Recorded(h: History, j: nat, queue: seq<Entry>, p: Packet): History
    requires j < |h.known| && j < |h.popped| && j < |h.released|
  {
    match p.msg.mtype
    case REQUEST_LOCK => h.(known := h.known[j := h.known[j] + {p.about}])
    case RELEASE_LOCK => h.(popped := h.popped[j := h.popped[j] + HeadOf(queue)],
                            released := h.released[j := h.released[j] + {p.about}])
    case REPLY_LOCK => h
    case SERVER_WRITE => h
  }

  function Stamp(out: Send): Entry {
    if out.Nothing? then Entry(0, 0) else Entry(out.msg.ts, out.msg.node)
  }

  function ApplyDeliver(s: System, i: nat, j: nat): (r: System)
    requires Shape(s) && Enabled(s, DeliverStep(i, j))
    ensures Shape(r) && |r.nodes| == |s.nodes|
  {
    var p := s.chan[i][j][0];
    var (x, out) := Handle(s.nodes[j], i, p.msg);
    System(s.nodes[j := x],
           Sent(Take(s.chan, i, j), j, i, out, Stamp(out)),
           Recorded(s.hist, j, s.nodes[j].queue, p))
  }

  function Apply(s: System, step: Step): (r: System)
    requires Shape(s) && Enabled(s, step)
    ensures Shape(r) && |r.nodes| == |s.nodes|
  {
    match step
    case LockStep(i) => ApplyLock(s, i)
    case CollectStep(i) => s.(nodes := s.nodes[i := Collected(s.nodes[i])])
    case EnterStep(i) => s.(nodes := s.nodes[i := Enter(s.nodes[i])])
    case WriteStep(i) => ApplyWrite(s, i)
    case UnlockStep(i) => ApplyUnlock(s, i)
    case DeliverStep(src, dst) => ApplyDeliver(s, src, dst)
  }

  function InitNode(i: nat, n: nat): Node {
    Node(i, 0, [], seq(n, _ => false), seq(n, _ => 0), seq(n, _ => false), 0, Idle, [], false)
  }

  function Init(n: nat): (s: System)
    ensures Shape(s) && |s.nodes| == n
  {
    System(seq(n, i requires 0 <= i < n => InitNode(i, n)),
           seq(n, _ => seq(n, _ => [])),
           History({}, [], seq(n, _ => {}), seq(n, _ => []), seq(n, _ => {})))
  }

  /** A run from the initial state of `n` nodes that ends in `s`. */
  ghost predicate Reaches(n: nat, run: seq<Step>, s: System)
    ensures Reaches(n, run, s) ==> Shape(s) && |s.nodes| == n
    decreases |run|
  {
    if run == [] then s == Init(n)
    else exists t :: Reaches(n, run[..|run| - 1], t) && Shape(t) && Enabled(t, run[|run| - 1])
                     && s == Apply(t, run[|run| - 1])
  }

  ghost predicate Reachable(n: nat, s: System)
    ensures Reachable(n, s) ==> Shape(s) && |s.nodes| == n
  {
    exists run :: Reaches(n, run, s)
  }
}
