/** One node of the lock on the heap: the globals of blocking_node.c, updated in place by its
    functions.  Each method is proved against the handler of the same name in LockProtocol. */
module BlockingNode {
  import opened LockQueue
  import opened LockProtocol

  /** The peers a broadcast writes to, in the order of the loop over `peers[]`. */
  function Peers(id: nat, n: nat): seq<nat> {
    if n == 0 then [] else Peers(id, n - 1) + (if n - 1 == id then [] else [n - 1])
  }

  lemma {:induction false} PeersAreTheOthers(id: nat, n: nat)
    ensures forall k: nat :: k in Peers(id, n) <==> k < n && k != id
    ensures |Peers(id, n)| == if id < n then n - 1 else n
  {
    if n > 0 {
      PeersAreTheOthers(id, n - 1);
    }
  }

  class Server {
    const id: nat
    const n: nat
    var timestamp: nat
    const lockQueue: Ring
    const requestedLock: array<bool>
    const timestampLastReq: array<nat>
    const requestLockPending: array<bool>
    var repliesReceived: nat
    var phase: Phase
    var applied: seq<nat>
    var crashed: bool

    ghost predicate Valid()
      reads this, lockQueue, lockQueue.data, requestedLock, timestampLastReq, requestLockPending
    {
      && id < n
      && requestedLock.Length == n && timestampLastReq.Length == n && requestLockPending.Length == n
      && requestedLock != requestLockPending
      && lockQueue.Valid()
    }

    ghost function State(): Node
      requires Valid()
      reads this, lockQueue, lockQueue.data, requestedLock, timestampLastReq, requestLockPending
    {
      Node(id, timestamp, lockQueue.Contents(), requestedLock[..], timestampLastReq[..], requestLockPending[..],
           repliesReceived, phase, applied, crashed)
    }

    constructor (id: nat, n: nat)
      requires id < n
      ensures Valid() && State() == InitNode(id, n)
      ensures fresh(lockQueue) && fresh(lockQueue.data)
      ensures fresh(requestedLock) && fresh(timestampLastReq) && fresh(requestLockPending)
    {
      this.id, this.n, timestamp := id, n, 0;
      lockQueue := new Ring();
      requestedLock := new bool[n](_ => false);
      timestampLastReq := new nat[n](_ => 0);
      requestLockPending := new bool[n](_ => false);
      repliesReceived, phase, applied, crashed := 0, Idle, [], false;
    }

    method UpdateTimestamp(t: nat)
      requires Valid()
      modifies this`timestamp
      ensures Valid() && State() == old(State()).(clock := Max(old(timestamp), t))
    {
      timestamp := if timestamp > t then timestamp else t;
    }

    /** The broadcast loop of `distributed_lock`; `sent` lists the peers written to. */
    method SendRequests() returns (sent: seq<nat>)
      requires Valid()
      modifies requestedLock, timestampLastReq
      ensures Valid()
      ensures State() == old(State()).(requested := AllAsked(old(requestedLock[..]), id),
                                       lastReq := AllStamped(old(timestampLastReq[..]), id, timestamp))
      ensures sent == Peers(id, n)
    {
      sent := [];
      for i := 0 to n
        invariant forall k :: i <= k < n ==> requestedLock[k] == old(requestedLock[k]) && timestampLastReq[k] == old(timestampLastReq[k])
        invariant forall k :: 0 <= k < i ==> requestedLock[k] == (k != id || old(requestedLock[k]))
        invariant forall k :: 0 <= k < i ==> timestampLastReq[k] == if k == id then old(timestampLastReq[k]) else timestamp
        invariant requestLockPending[..] == old(requestLockPending[..])
        invariant sent == Peers(id, i)
      {
        if i != id {
          sent := sent + [i];
          requestedLock[i] := true;
          timestampLastReq[i] := timestamp;
        }
      }
    }

    method AddToQueue(e: Entry) returns (ok: bool)
      requires Valid()
      modifies lockQueue, lockQueue.data
      ensures Valid() && ok == (|old(State()).queue| < MAX)
      ensures State() == old(State()).(queue := Enqueued(old(State()).queue, e))
    {
      ok := lockQueue.Enqueue(e);
    }

    /** Up to the end of the broadcast. */
    method DistributedLock() returns (ok: bool, sent: seq<nat>, msg: Message)
      requires Valid()
      modifies this, lockQueue, lockQueue.data, requestedLock, timestampLastReq
      ensures Valid() && State() == Lock(old(State())).0
      ensures ok <==> Lock(old(State())).1.Broadcast?
      ensures ok ==> Lock(old(State())).1 == Broadcast(msg) && sent == Peers(id, n)
      ensures !ok ==> sent == []
    {
      ghost var before := State();
      UpdateTimestamp(timestamp + 1);
      msg := Message(REQUEST_LOCK, timestamp, id);
      sent := [];
      ok := AddToQueue(Entry(timestamp, id));
      ghost var queued := State();
      assert queued == before.(clock := before.clock + 1, queue := Enqueued(before.queue, Entry(timestamp, id)));
      if ok {
        sent := StartCollecting();
      }
    }

    /** The broadcast, and the start of the wait for replies. */
    method StartCollecting() returns (sent: seq<nat>)
      requires Valid()
      modifies this`phase, requestedLock, timestampLastReq
      ensures Valid() && sent == Peers(id, n)
      ensures var x := old(State());
        State() == x.(requested := AllAsked(x.requested, id), lastReq := AllStamped(x.lastReq, id, timestamp),
                      phase := Collecting(Entry(timestamp, id)))
    {
      sent := SendRequests();
      phase := Collecting(Entry(timestamp, id));
    }

    /** One turn of the loop that waits for the replies. */
    method PollReplies() returns (done: bool)
      requires Valid() && phase.Collecting?
      modifies this`repliesReceived, this`phase
      ensures Valid() && done == (old(repliesReceived) >= n - 1)
      ensures State() == if done then Collected(old(State())) else old(State())
    {
      done := repliesReceived >= n - 1;
      if done {
        repliesReceived := 0;
        phase := Ordering(phase.ticket);
      }
    }

    /** One turn of the loop that waits for the head of the queue. */
    method PollHead() returns (done: bool)
      requires Valid() && phase.Ordering?
      modifies this`phase
      ensures Valid() && done == (old(State()).queue != [] && old(State()).queue[0] == old(phase).ticket)
      ensures State() == if done then Enter(old(State())) else old(State())
    {
      var found, head := lockQueue.Peek();
      done := found && head == phase.ticket;
      if done {
        phase := Critical(phase.ticket);
      }
    }

    method DistributedUnlock() returns (msg: Message, sent: seq<nat>)
      requires Valid()
      modifies this, lockQueue
      ensures Valid() && State() == Unlock(old(State())).0
      ensures Unlock(old(State())).1 == Broadcast(msg) && sent == Peers(id, n)
    {
      PopHead();
      EndSection();
      msg := Message(RELEASE_LOCK, timestamp, id);
      sent := SendAll();
    }

    method PopHead()
      requires Valid()
      modifies lockQueue
      ensures Valid() && State() == old(State()).(queue := Dequeued(old(State()).queue))
    {
      var found, head := lockQueue.Dequeue();
    }

    method EndSection()
      requires Valid()
      modifies this`timestamp, this`phase
      ensures Valid() && State() == old(State()).(clock := old(timestamp) + 1, phase := Idle)
    {
      UpdateTimestamp(timestamp + 1);
      phase := Idle;
    }

    method SendAll() returns (sent: seq<nat>)
      requires Valid()
      ensures sent == Peers(id, n)
    {
      sent := [];
      for i := 0 to n
        invariant sent == Peers(id, i)
      {
        if i != id {
          sent := sent + [i];
        }
      }
    }

    /** `handle_request_lock`: the REPLY itself. */
    method HandleRequestLock() returns (out: Send)
      requires Valid()
      modifies this`timestamp
      ensures Valid() && (State(), out) == Answer(old(State()))
    {
      UpdateTimestamp(timestamp + 1);
      out := ToPeer(Message(REPLY_LOCK, timestamp, id));
    }

    method OnRequest(m: Message, peer: nat) returns (out: Send)
      requires Valid() && peer < n
      modifies this`timestamp, lockQueue, lockQueue.data, requestLockPending
      ensures Valid() && (State(), out) == HandleRequest(old(State()), peer, m)
    {
      UpdateTimestamp(m.ts);
      var ok := AddToQueue(Entry(m.ts, m.node));
      if requestedLock[peer] && timestampLastReq[peer] < m.ts {
        requestLockPending[peer] := true;
        out := Nothing;
      } else {
        out := HandleRequestLock();
      }
    }

    method OnReply(m: Message, peer: nat) returns (out: Send)
      requires Valid() && peer < n
      modifies this`timestamp, this`repliesReceived, requestedLock, requestLockPending
      ensures Valid() && (State(), out) == HandleReply(old(State()), peer, m)
    {
      UpdateTimestamp(m.ts);
      out := AnswerDeferred(peer);
      CountReply(peer);
    }

    /** A deferred request is answered now. */
    method AnswerDeferred(peer: nat) returns (out: Send)
      requires Valid() && peer < n
      modifies this`timestamp, requestLockPending
      ensures Valid()
      ensures var y := old(State());
        (State(), out) == if y.pending[peer] then Answer(y.(pending := y.pending[peer := false])) else (y, Nothing)
    {
      out := Nothing;
      if requestLockPending[peer] {
        out := HandleRequestLock();
        requestLockPending[peer] := false;
      }
    }

    method CountReply(peer: nat)
      requires Valid() && peer < n
      modifies this`repliesReceived, requestedLock
      ensures Valid()
      ensures var z := old(State()); State() == z.(requested := z.requested[peer := false], replies := z.replies + 1)
    {
      requestedLock[peer] := false;
      repliesReceived := repliesReceived + 1;
    }

    /** `handle_peer_message`. */
    method HandlePeerMessage(m: Message, peer: nat) returns (out: Send)
      requires Valid() && peer < n
      modifies this, lockQueue, lockQueue.data, requestedLock, requestLockPending
      ensures Valid() && (State(), out) == Handle(old(State()), peer, m)
    {
      match m.mtype
      case REQUEST_LOCK =>
        out := OnRequest(m, peer);
      case RELEASE_LOCK =>
        UpdateTimestamp(m.ts);
        var found, head := lockQueue.Dequeue();
        out := Nothing;
      case REPLY_LOCK =>
        out := OnReply(m, peer);
      case SERVER_WRITE =>
        UpdateTimestamp(m.ts);
        var found, head := lockQueue.Peek();
        if !found {
          crashed := true;
        } else if m.node == head.id {
          applied := applied + [m.node];
        }
        out := Nothing;
    }
  }
}
