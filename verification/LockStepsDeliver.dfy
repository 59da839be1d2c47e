/** The delivery of one message from the head of a channel. */
module LockStepsDeliver {
  import opened LockQueue
  import opened LockProtocol
  import opened LockChannels
  import opened LockInvariant
  import opened LockStepsOrder

  /** Node `j` takes the head of the channel from `i` and answers with `out`: one REPLY or nothing. */
  ghost predicate Delivered(s: System, s': System, i: nat, j: nat, out: seq<Packet>)
    requires Shape(s)
  {
    && Shape(s') && i < |s.nodes| && j < |s.nodes| && i != j && OnlyNode(s, s', j)
    && s.chan[i][j] != []
    && |out| <= 1 && (forall p :: p in out ==> p.msg.mtype == REPLY_LOCK)
    && (forall a, b :: 0 <= a < |s.nodes| && 0 <= b < |s.nodes| ==>
          s'.chan[a][b] ==
            if a == i && b == j then s.chan[a][b][1..]
            else if a == j && b == i then s.chan[a][b] + out
            else s.chan[a][b])
    && s'.hist.issued == s.hist.issued && s'.hist.completed == s.hist.completed
    && (forall k :: 0 <= k < |s.nodes| && k != j ==>
          s'.hist.known[k] == s.hist.known[k] && s'.hist.popped[k] == s.hist.popped[k] && s'.hist.released[k] == s.hist.released[k])
    && s'.nodes[j].phase == s.nodes[j].phase && s'.nodes[j].lastReq == s.nodes[j].lastReq
    && s'.nodes[j].clock >= s.nodes[j].clock
    && s.hist.known[j] <= s'.hist.known[j]
  }

  ghost function AnswerPackets(send: Send): seq<Packet> {
    if send.Nothing? then [] else [Packet(send.msg, Stamp(send))]
  }

  /** The transition in terms of the handler of the receiver. */
  ghost predicate Outcome(s: System, s': System, i: nat, j: nat)
    requires Shape(s)
  {
    && Shape(s') && i < |s.nodes| && j < |s.nodes| && i != j && OnlyNode(s, s', j)
    && s.chan[i][j] != []
    && (var p := s.chan[i][j][0];
        var (y, send) := Handle(s.nodes[j], i, p.msg);
        && (forall a, b :: 0 <= a < |s.nodes| && 0 <= b < |s.nodes| ==>
              s'.chan[a][b] ==
                if a == i && b == j then s.chan[a][b][1..]
                else if a == j && b == i then s.chan[a][b] + AnswerPackets(send)
                else s.chan[a][b])
        && s'.nodes[j] == y
        && s'.hist == Recorded(s.hist, j, s.nodes[j].queue, p))
  }

  lemma DeliverOutcome(s: System, i: nat, j: nat)
    requires Shape(s) && Enabled(s, DeliverStep(i, j))
    ensures Outcome(s, Apply(s, DeliverStep(i, j)), i, j)
  {
    assert forall ch: seq<Packet> :: ch + [] == ch;
  }

  lemma DeliveredKeepsOrder(s: System, s': System, i: nat, j: nat, out: seq<Packet>)
    requires Shape(s) && OrderOk(s) && Delivered(s, s', i, j, out)
    ensures OrderOk(s')
  {
    forall e | e in s'.hist.issued ensures IssuedOk(s', e) {
      assert IssuedOk(s, e);
    }
    forall c | c in s'.hist.completed ensures KnownToAll(s', c) {
      assert KnownToAll(s, c);
    }
  }

  lemma DeliveredKeepsOtherNode(s: System, s': System, i: nat, j: nat, out: seq<Packet>, k: nat)
    requires Shape(s) && Delivered(s, s', i, j, out) && k < |s.nodes| && k != j
    requires NodeOk(s.nodes[k]) && HistOk(s, k) && TicketOk(s, k)
    ensures NodeOk(s'.nodes[k]) && HistOk(s', k) && TicketOk(s', k)
  {}

  /** The answer goes to a channel whose link it does not disturb. */
  lemma LinkAppendAnswer(s: System, i: nat, j: nat, out: seq<Packet>)
    requires Shape(s) && i < |s.nodes| && j < |s.nodes| && LinkOk(s, j, i)
    requires |out| <= 1 && (forall p :: p in out ==> p.msg.mtype == REPLY_LOCK)
    ensures Link(s.chan[j][i] + out, j, s.hist.issued, s.hist.known[i], SetOf(s.hist.completed), s.hist.released[i], Entered(s, j))
  {
    if out == [] {
      assert s.chan[j][i] + out == s.chan[j][i];
    } else {
      assert out == [out[0]];
      LinkAppendReply(s.chan[j][i], out[0], j, s.hist.issued, s.hist.known[i], SetOf(s.hist.completed), s.hist.released[i], Entered(s, j));
    }
  }

  /** Links other than the one delivered from: the receiver hears nothing about their senders. */
  lemma DeliveredKeepsOtherLink(s: System, s': System, i: nat, j: nat, out: seq<Packet>, a: nat, b: nat)
    requires Shape(s) && Delivered(s, s', i, j, out)
    requires a < |s.nodes| && b < |s.nodes| && a != b && !(a == i && b == j)
    requires LinkOk(s, a, b)
    requires forall e: Entry :: e.id != i ==> (e in s.hist.known[j] <==> e in s'.hist.known[j])
    requires forall e: Entry :: e.id != i ==> (e in s.hist.released[j] <==> e in s'.hist.released[j])
    ensures LinkOk(s', a, b)
  {
    var h, done := s.hist, SetOf(s.hist.completed);
    assert Entered(s', a) == Entered(s, a);
    if a == j && b == i {
      LinkAppendAnswer(s, i, j, out);
    } else {
      LinkFrame(s.chan[a][b], a, h.issued, h.known[b], done, h.released[b], Entered(s, a),
                h.issued, s'.hist.known[b], done, s'.hist.released[b], Entered(s', a));
    }
  }

  /** Asks that do not involve the pair of the delivery. */
  lemma DeliveredKeepsOtherAsk(s: System, s': System, i: nat, j: nat, out: seq<Packet>, a: nat, k: nat)
    requires Shape(s) && Delivered(s, s', i, j, out)
    requires a < |s.nodes| && k < |s.nodes| && a != k && !(a == i && k == j) && !(a == j && k == i)
    requires NodeOk(s.nodes[a]) && NodeOk(s'.nodes[a]) && TicketOk(s, a) && AskOk(s, a, k)
    requires forall e: Entry :: e.id != i ==> (e in s.hist.known[j] <==> e in s'.hist.known[j])
    requires forall m :: 0 <= m < |s.nodes| && m != i ==>
      s'.nodes[j].requested[m] == s.nodes[j].requested[m] && s'.nodes[j].pending[m] == s.nodes[j].pending[m]
    ensures AskOk(s', a, k)
  {
    assert s'.chan[k][a] == s.chan[k][a];
    if Active(s.nodes[a]) && !s.nodes[a].requested[k] {
      assert Cleared(s', a, k);
    }
  }

  /** The receiver's own ask to the sender, when the message is not its REPLY. */
  lemma DeliveredKeepsBackAsk(s: System, s': System, i: nat, j: nat, out: seq<Packet>)
    requires Shape(s) && Delivered(s, s', i, j, out)
    requires NodeOk(s.nodes[j]) && NodeOk(s'.nodes[j]) && TicketOk(s, j) && AskOk(s, j, i)
    requires s.chan[i][j][0].msg.mtype != REPLY_LOCK
    requires s.chan[i][j][0].msg.mtype == REQUEST_LOCK ==> s.chan[i][j][0].about in s'.hist.known[j]
    requires s'.nodes[j].requested == s.nodes[j].requested
    ensures AskOk(s', j, i)
  {
    var ch := s.chan[i][j];
    if Active(s.nodes[j]) && !s.nodes[j].requested[i] {
      assert Cleared(s', j, i);
    }
    if HasReply(ch) {
      ReplyOkTail(ch, i, s.nodes[j].phase.ticket, s.hist.issued, s.hist.known[j], s'.hist.known[j]);
    } else {
      NoReplyTail(ch);
    }
  }

  /** The sender's ask to the receiver, when the message leaves it alone. */
  lemma DeliveredKeepsForwardAsk(s: System, s': System, i: nat, j: nat, out: seq<Packet>)
    requires Shape(s) && Delivered(s, s', i, j, out) && out == []
    requires NodeOk(s.nodes[i]) && TicketOk(s, i) && AskOk(s, i, j)
    requires s'.hist.known[j] == s.hist.known[j]
    requires s'.nodes[j].pending == s.nodes[j].pending
    requires s.nodes[j].pending[i] ==> s'.nodes[j].requested[i] == s.nodes[j].requested[i]
    ensures AskOk(s', i, j)
  {
    assert s'.chan[j][i] == s.chan[j][i];
    if Active(s.nodes[i]) && !s.nodes[i].requested[j] {
      assert Cleared(s', i, j);
    }
  }

  // ---------------------------------------------------------------- REQUEST_LOCK

  ghost predicate RequestDelivered(s: System, s': System, i: nat, j: nat, out: seq<Packet>, e: Entry)
    requires Shape(s)
  {
    && Delivered(s, s', i, j, out)
    && s.chan[i][j][0].msg.mtype == REQUEST_LOCK && s.chan[i][j][0].about == e && e.id == i
    && e in s.hist.issued && e !in s.hist.known[j]
    && s'.hist.known[j] == s.hist.known[j] + {e}
    && s'.hist.popped[j] == s.hist.popped[j] && s'.hist.released[j] == s.hist.released[j]
    && (var x, y := s.nodes[j], s'.nodes[j];
        && y.clock >= e.ts && y.queue == SortedInsert(x.queue, e)
        && y.requested == x.requested && y.replies == x.replies && y.crashed == x.crashed
        && (if x.requested[i] && x.lastReq[i] < e.ts
            then out == [] && y.pending == x.pending[i := true]
            else |out| == 1 && y.pending == x.pending))
    && s.nodes[i].phase == Collecting(e) && s.nodes[i].requested[j]
    && !s.nodes[j].pending[i] && !HasReply(s.chan[j][i])
  }

  /** A request that arrives is the current one of its sender, and finds room in the queue. */
  lemma RequestIsCurrent(s: System, i: nat, j: nat)
    requires Inv(s) && Enabled(s, DeliverStep(i, j)) && s.chan[i][j][0].msg.mtype == REQUEST_LOCK
    ensures var e, m := s.chan[i][j][0].about, s.chan[i][j][0].msg;
      && e == Entry(m.ts, m.node) && e.id == i && e in s.hist.issued && e !in s.hist.known[j]
      && s.nodes[i].phase == Collecting(e) && s.nodes[i].requested[j]
      && !s.nodes[j].pending[i] && !HasReply(s.chan[j][i])
    ensures |s.nodes[j].queue| < MAX
  {
    var h, e := s.hist, s.chan[i][j][0].about;
    assert LinkOk(s, i, j) && AskOk(s, i, j) && NodeOk(s.nodes[i]) && HistOk(s, j);
    assert e in h.issued && e !in h.known[j] && e.id == i;
    assert IssuedOk(s, e);
    assert e !in h.completed by {
      assert e in h.completed ==> KnownToAll(s, e);
    }
    LinkTailRequest(s.chan[i][j], i, h.issued, h.known[j], SetOf(h.completed), h.released[j], Entered(s, i));
    forall f | f in h.known[j] && f.id == i ensures f in h.released[j] {
      assert IssuedOk(s, f);
    }
    RoomFor(s, j, e);
  }

  lemma RequestFacts(s: System, s': System, i: nat, j: nat, out: seq<Packet>)
    requires Shape(s) && Outcome(s, s', i, j) && s.chan[i][j][0].msg.mtype == REQUEST_LOCK
    requires out == AnswerPackets(HandleRequest(s.nodes[j], i, s.chan[i][j][0].msg).1)
    requires var e, m := s.chan[i][j][0].about, s.chan[i][j][0].msg;
      && e == Entry(m.ts, m.node) && e.id == i && e in s.hist.issued && e !in s.hist.known[j]
      && s.nodes[i].phase == Collecting(e) && s.nodes[i].requested[j]
      && !s.nodes[j].pending[i] && !HasReply(s.chan[j][i])
    requires |s.nodes[j].queue| < MAX
    ensures RequestDelivered(s, s', i, j, out, s.chan[i][j][0].about)
  {}

  lemma RequestKeepsNode(s: System, s': System, i: nat, j: nat, out: seq<Packet>, e: Entry)
    requires Shape(s) && RequestDelivered(s, s', i, j, out, e)
    requires NodeOk(s.nodes[j]) && HistOk(s, j) && TicketOk(s, j)
    requires forall c :: c in s.hist.completed ==> c in s.hist.known[j]
    ensures NodeOk(s'.nodes[j]) && HistOk(s', j) && TicketOk(s', j)
  {
    SortedInsertStrict(s.nodes[j].queue, e);
    assert Answered(s'.nodes[j]) == Answered(s.nodes[j]);
    assert forall c :: c in s.hist.popped[j] ==> c in s.hist.completed;
    if s.nodes[j].phase.Critical? {
      RequestBehindHolder(s, s', i, j, out, e);
    }
  }

  /** A request that arrives at the holder sorts behind the holder's own. */
  lemma RequestBehindHolder(s: System, s': System, i: nat, j: nat, out: seq<Packet>, e: Entry)
    requires Shape(s) && RequestDelivered(s, s', i, j, out, e)
    requires TicketOk(s, j) && s.nodes[j].phase.Critical? && e !in s.hist.completed
    requires StrictlySorted(s'.nodes[j].queue)
    requires forall f :: f in s'.nodes[j].queue <==> f == e || f in s.nodes[j].queue
    requires StrictlySorted(s.nodes[j].queue)
    ensures s'.nodes[j].queue[0] == s.nodes[j].phase.ticket
  {
    var q, t := s'.nodes[j].queue, s.nodes[j].phase.ticket;
    assert t in s.nodes[j].queue;
    assert forall a :: 0 < a < |s.nodes[j].queue| ==> Less(s.nodes[j].queue[0], s.nodes[j].queue[a]);
    assert q[0] in q;
    assert forall a :: 0 < a < |q| ==> Less(q[0], q[a]);
    assert t in q;
  }

  lemma RequestKeepsForwardAsk(s: System, s': System, i: nat, j: nat, out: seq<Packet>, e: Entry)
    requires Shape(s) && RequestDelivered(s, s', i, j, out, e)
    requires NodeOk(s.nodes[i]) && NodeOk(s.nodes[j]) && AskOk(s, i, j) && LinkOk(s, j, i)
    ensures AskOk(s', i, j)
  {
    var ch := s.chan[j][i];
    if out == [] {
      assert s'.chan[j][i] == ch;
    } else {
      assert out == [out[0]];
      ReplyOkAppend(ch, out[0], j, e, s.hist.issued, s.hist.known[i]);
    }
  }

  lemma RequestKeepsLink(s: System, s': System, i: nat, j: nat, out: seq<Packet>, e: Entry, a: nat, b: nat)
    requires Shape(s) && RequestDelivered(s, s', i, j, out, e)
    requires a < |s.nodes| && b < |s.nodes| && a != b && LinkOk(s, a, b)
    ensures LinkOk(s', a, b)
  {
    if a == i && b == j {
      LinkTailRequest(s.chan[i][j], i, s.hist.issued, s.hist.known[j], SetOf(s.hist.completed), s.hist.released[j], Entered(s, i));
    } else {
      DeliveredKeepsOtherLink(s, s', i, j, out, a, b);
    }
  }

  lemma RequestKeepsAsk(s: System, s': System, i: nat, j: nat, out: seq<Packet>, e: Entry, a: nat, b: nat)
    requires Shape(s) && RequestDelivered(s, s', i, j, out, e)
    requires a < |s.nodes| && b < |s.nodes| && a != b
    requires NodeOk(s.nodes[a]) && NodeOk(s'.nodes[a]) && TicketOk(s, a) && NodeOk(s.nodes[b])
    requires AskOk(s, a, b) && LinkOk(s, b, a)
    ensures AskOk(s', a, b)
  {
    if a == i && b == j {
      RequestKeepsForwardAsk(s, s', i, j, out, e);
    } else if a == j && b == i {
      DeliveredKeepsBackAsk(s, s', i, j, out);
    } else {
      DeliveredKeepsOtherAsk(s, s', i, j, out, a, b);
    }
  }

  lemma RequestKeepsInv(s: System, i: nat, j: nat)
    requires Inv(s) && Enabled(s, DeliverStep(i, j)) && s.chan[i][j][0].msg.mtype == REQUEST_LOCK
    ensures Inv(Apply(s, DeliverStep(i, j)))
  {
    var s', e := Apply(s, DeliverStep(i, j)), s.chan[i][j][0].about;
    var out := AnswerPackets(HandleRequest(s.nodes[j], i, s.chan[i][j][0].msg).1);
    DeliverOutcome(s, i, j);
    RequestIsCurrent(s, i, j);
    RequestFacts(s, s', i, j, out);
    DeliveredKeepsOrder(s, s', i, j, out);
    RequestKeepsNodes(s, s', i, j, out, e);
    RequestKeepsPairs(s, s', i, j, out, e);
  }

  lemma RequestKeepsNodes(s: System, s': System, i: nat, j: nat, out: seq<Packet>, e: Entry)
    requires Inv(s) && RequestDelivered(s, s', i, j, out, e)
    ensures NodesOk(s')
  {
    forall k | 0 <= k < |s.nodes| ensures NodeOk(s'.nodes[k]) && HistOk(s', k) && TicketOk(s', k) {
      assert NodeOk(s.nodes[k]) && HistOk(s, k) && TicketOk(s, k);
      if k == j {
        forall c | c in s.hist.completed ensures c in s.hist.known[j] { assert KnownToAll(s, c); }
        RequestKeepsNode(s, s', i, j, out, e);
      } else {
        DeliveredKeepsOtherNode(s, s', i, j, out, k);
      }
    }
  }

  lemma RequestKeepsPairs(s: System, s': System, i: nat, j: nat, out: seq<Packet>, e: Entry)
    requires Inv(s) && RequestDelivered(s, s', i, j, out, e) && NodesOk(s')
    ensures LinksOk(s') && AsksOk(s')
  {
    forall a, b | 0 <= a < |s.nodes| && 0 <= b < |s.nodes| && a != b ensures LinkOk(s', a, b) && AskOk(s', a, b) {
      RequestKeepsLink(s, s', i, j, out, e, a, b);
      RequestKeepsAsk(s, s', i, j, out, e, a, b);
    }
  }

  // ---------------------------------------------------------------- REPLY_LOCK

  ghost predicate ReplyDelivered(s: System, s': System, i: nat, j: nat, out: seq<Packet>)
    requires Shape(s)
  {
    && Delivered(s, s', i, j, out)
    && s.chan[i][j][0].msg.mtype == REPLY_LOCK
    && s'.hist == s.hist
    && (var x, y := s.nodes[j], s'.nodes[j];
        && y.queue == x.queue && y.crashed == x.crashed
        && y.requested == x.requested[i := false] && y.replies == x.replies + 1
        && y.pending == x.pending[i := false]
        && (if x.pending[i] then |out| == 1 else out == []))
  }

  lemma ReplyFacts(s: System, s': System, i: nat, j: nat, out: seq<Packet>)
    requires Shape(s) && Outcome(s, s', i, j) && s.chan[i][j][0].msg.mtype == REPLY_LOCK
    requires out == AnswerPackets(HandleReply(s.nodes[j], i, s.chan[i][j][0].msg).1)
    requires NodeOk(s.nodes[j]) && AskOk(s, j, i)
    ensures ReplyDelivered(s, s', i, j, out)
    ensures s.nodes[j].requested[i]
  {
    assert HasReply(s.chan[i][j]);
  }

  lemma ReplyKeepsNode(s: System, s': System, i: nat, j: nat, out: seq<Packet>)
    requires Shape(s) && ReplyDelivered(s, s', i, j, out)
    requires NodeOk(s.nodes[j]) && HistOk(s, j) && TicketOk(s, j) && s.nodes[j].requested[i]
    ensures NodeOk(s'.nodes[j]) && HistOk(s', j) && TicketOk(s', j)
  {
    assert Answered(s'.nodes[j]) == Answered(s.nodes[j]) + {i};
    assert i !in Answered(s.nodes[j]);
  }

  lemma ReplyKeepsLink(s: System, s': System, i: nat, j: nat, out: seq<Packet>, a: nat, b: nat)
    requires Shape(s) && ReplyDelivered(s, s', i, j, out)
    requires a < |s.nodes| && b < |s.nodes| && a != b && LinkOk(s, a, b)
    ensures LinkOk(s', a, b)
  {
    if a == i && b == j {
      LinkTailOther(s.chan[i][j], i, s.hist.issued, s.hist.known[j], SetOf(s.hist.completed), s.hist.released[j], Entered(s, i));
    } else {
      DeliveredKeepsOtherLink(s, s', i, j, out, a, b);
    }
  }

  /** The reply is the only one, and every earlier request of its sender is already known. */
  lemma ReplyClears(s: System, s': System, i: nat, j: nat, out: seq<Packet>)
    requires Shape(s) && ReplyDelivered(s, s', i, j, out)
    requires NodeOk(s.nodes[j]) && NodeOk(s'.nodes[j]) && AskOk(s, j, i) && s.nodes[j].requested[i]
    ensures AskOk(s', j, i)
  {
    var ch, e := s.chan[i][j], s.nodes[j].phase.ticket;
    assert HasReply(ch);
    forall f | f in s.hist.issued && f.id == i && Less(f, e) ensures f in s.hist.known[j] {
      HeadIsFirst(ch, REQUEST_LOCK, f);
    }
    assert Cleared(s', j, i);
    assert !HasReply(ch[1..]) by {
      assert forall a :: 0 <= a < |ch[1..]| ==> ch[1..][a] == ch[a + 1];
    }
  }

  /** A deferred request of the reply's sender is answered now. */
  lemma ReplyKeepsForwardAsk(s: System, s': System, i: nat, j: nat, out: seq<Packet>)
    requires Shape(s) && ReplyDelivered(s, s', i, j, out)
    requires NodeOk(s.nodes[i]) && TicketOk(s, i) && AskOk(s, i, j) && LinkOk(s, j, i)
    ensures AskOk(s', i, j)
  {
    if s.nodes[j].pending[i] {
      assert out == [out[0]];
      ReplyOkAppend(s.chan[j][i], out[0], j, s.nodes[i].phase.ticket, s.hist.issued, s.hist.known[i]);
    } else {
      DeliveredKeepsForwardAsk(s, s', i, j, out);
    }
  }

  lemma ReplyKeepsAsk(s: System, s': System, i: nat, j: nat, out: seq<Packet>, a: nat, b: nat)
    requires Shape(s) && ReplyDelivered(s, s', i, j, out) && s.nodes[j].requested[i]
    requires a < |s.nodes| && b < |s.nodes| && a != b
    requires NodeOk(s.nodes[a]) && NodeOk(s'.nodes[a]) && TicketOk(s, a)
    requires AskOk(s, a, b) && LinkOk(s, b, a)
    ensures AskOk(s', a, b)
  {
    if a == i && b == j {
      ReplyKeepsForwardAsk(s, s', i, j, out);
    } else if a == j && b == i {
      ReplyClears(s, s', i, j, out);
    } else {
      DeliveredKeepsOtherAsk(s, s', i, j, out, a, b);
    }
  }

  lemma ReplyKeepsNodes(s: System, s': System, i: nat, j: nat, out: seq<Packet>)
    requires Inv(s) && ReplyDelivered(s, s', i, j, out) && s.nodes[j].requested[i]
    ensures NodesOk(s')
  {
    forall k | 0 <= k < |s.nodes| ensures NodeOk(s'.nodes[k]) && HistOk(s', k) && TicketOk(s', k) {
      assert NodeOk(s.nodes[k]) && HistOk(s, k) && TicketOk(s, k);
      if k == j {
        ReplyKeepsNode(s, s', i, j, out);
      } else {
        DeliveredKeepsOtherNode(s, s', i, j, out, k);
      }
    }
  }

  lemma ReplyKeepsPairs(s: System, s': System, i: nat, j: nat, out: seq<Packet>)
    requires Inv(s) && ReplyDelivered(s, s', i, j, out) && s.nodes[j].requested[i] && NodesOk(s')
    ensures LinksOk(s') && AsksOk(s')
  {
    forall a, b | 0 <= a < |s.nodes| && 0 <= b < |s.nodes| && a != b ensures LinkOk(s', a, b) && AskOk(s', a, b) {
      ReplyKeepsLink(s, s', i, j, out, a, b);
      ReplyKeepsAsk(s, s', i, j, out, a, b);
    }
  }

  lemma ReplyKeepsInv(s: System, i: nat, j: nat)
    requires Inv(s) && Enabled(s, DeliverStep(i, j)) && s.chan[i][j][0].msg.mtype == REPLY_LOCK
    ensures Inv(Apply(s, DeliverStep(i, j)))
  {
    var s' := Apply(s, DeliverStep(i, j));
    var out := AnswerPackets(HandleReply(s.nodes[j], i, s.chan[i][j][0].msg).1);
    DeliverOutcome(s, i, j);
    assert NodeOk(s.nodes[j]) && AskOk(s, j, i);
    ReplyFacts(s, s', i, j, out);
    DeliveredKeepsOrder(s, s', i, j, out);
    ReplyKeepsNodes(s, s', i, j, out);
    ReplyKeepsPairs(s, s', i, j, out);
  }

  // ---------------------------------------------------------------- RELEASE_LOCK and SERVER_WRITE

  /** Neither is answered, and neither touches the asks. */
  ghost predicate QuietDelivered(s: System, s': System, i: nat, j: nat)
    requires Shape(s)
  {
    && Delivered(s, s', i, j, [])
    && s.chan[i][j][0].msg.mtype != REQUEST_LOCK && s.chan[i][j][0].msg.mtype != REPLY_LOCK
    && s'.hist.known == s.hist.known
    && s'.nodes[j].requested == s.nodes[j].requested && s'.nodes[j].pending == s.nodes[j].pending
    && s'.nodes[j].replies == s.nodes[j].replies
  }

  ghost predicate ReleaseDelivered(s: System, s': System, i: nat, j: nat, e: Entry)
    requires Shape(s)
  {
    && QuietDelivered(s, s', i, j)
    && s.chan[i][j][0].msg.mtype == RELEASE_LOCK && s.chan[i][j][0].about == e && e.id == i
    && e in s.hist.completed && e !in s.hist.released[j]
    && s.nodes[j].queue != []
    && |s.hist.popped[j]| < |s.hist.completed|
    && s.nodes[j].queue[0] == s.hist.completed[|s.hist.popped[j]|]
    && s'.nodes[j].queue == s.nodes[j].queue[1..] && s'.nodes[j].crashed == s.nodes[j].crashed
    && s'.hist.popped[j] == s.hist.popped[j] + [s.nodes[j].queue[0]]
    && s'.hist.released[j] == s.hist.released[j] + {e}
  }

  /** A RELEASE always finds a head to pop: the oldest completed entry still queued. */
  lemma ReleaseFacts(s: System, s': System, i: nat, j: nat)
    requires Shape(s) && Outcome(s, s', i, j) && s.chan[i][j][0].msg.mtype == RELEASE_LOCK
    requires OrderOk(s) && LinkOk(s, i, j) && NodeOk(s.nodes[j]) && HistOk(s, j)
    ensures ReleaseDelivered(s, s', i, j, s.chan[i][j][0].about)
  {
    HeadIsOldestCompleted(s, j, s.chan[i][j][0].about);
  }

  lemma ReleaseKeepsHist(s: System, s': System, i: nat, j: nat, e: Entry)
    requires Shape(s) && ReleaseDelivered(s, s', i, j, e)
    requires NodeOk(s.nodes[j]) && HistOk(s, j)
    ensures NodeOk(s'.nodes[j]) && HistOk(s', j)
  {
    PoppedQueue(s.nodes[j].queue, s.hist.known[j], s.hist.popped[j]);
    assert s.nodes[j].queue[0] in s.hist.completed;
    assert Answered(s'.nodes[j]) == Answered(s.nodes[j]);
    var p := |s.hist.popped[j]|;
    assert s.hist.completed[..p + 1] == s.hist.completed[..p] + [s.hist.completed[p]];
  }

  /** No RELEASE reaches a node in its critical section, so none pops the holder's entry. */
  lemma ReleaseMissesHolder(s: System, s': System, i: nat, j: nat, e: Entry)
    requires Shape(s) && OrderOk(s) && ReleaseDelivered(s, s', i, j, e)
    requires NodeOk(s.nodes[j]) && HistOk(s, j) && TicketOk(s, j)
    ensures !s.nodes[j].phase.Critical?
    ensures TicketOk(s', j)
  {
    assert s.hist.completed[|s.hist.popped[j]|] in s.hist.completed;
  }

  /** A SERVER_WRITE always finds a head to compare with. */
  lemma WriteFindsHead(s: System, i: nat, j: nat)
    requires Inv(s) && Enabled(s, DeliverStep(i, j)) && s.chan[i][j][0].msg.mtype == SERVER_WRITE
    ensures s.nodes[j].queue != []
  {
    var e := s.chan[i][j][0].about;
    assert LinkOk(s, i, j) && HistOk(s, j);
    assert e in s.hist.known[j] by {
      if e in s.hist.completed {
        assert KnownToAll(s, e);
      } else {
        assert NodeOk(s.nodes[i]) && AskOk(s, i, j);
        assert Cleared(s, i, j);
      }
    }
    QueueCount(s, j);
    assert e in s.hist.known[j] - s.hist.released[j];
  }

  lemma WriteFacts(s: System, s': System, i: nat, j: nat)
    requires Shape(s) && Outcome(s, s', i, j) && s.chan[i][j][0].msg.mtype == SERVER_WRITE
    requires s.nodes[j].queue != []
    ensures QuietDelivered(s, s', i, j)
    ensures s'.hist == s.hist && s'.nodes[j].queue == s.nodes[j].queue && s'.nodes[j].crashed == s.nodes[j].crashed
  {}

  lemma QuietKeepsLink(s: System, s': System, i: nat, j: nat, a: nat, b: nat)
    requires Shape(s) && QuietDelivered(s, s', i, j)
    requires a < |s.nodes| && b < |s.nodes| && a != b && LinkOk(s, a, b)
    requires var p := s.chan[i][j][0];
      s'.hist.released[j] == if p.msg.mtype == RELEASE_LOCK then s.hist.released[j] + {p.about} else s.hist.released[j]
    requires s.chan[i][j][0].msg.mtype == RELEASE_LOCK ==> s.chan[i][j][0].about.id == i
    ensures LinkOk(s', a, b)
  {
    if a == i && b == j {
      var h := s.hist;
      if s.chan[i][j][0].msg.mtype == RELEASE_LOCK {
        LinkTailRelease(s.chan[i][j], i, h.issued, h.known[j], SetOf(h.completed), h.released[j], Entered(s, i));
      } else {
        LinkTailOther(s.chan[i][j], i, h.issued, h.known[j], SetOf(h.completed), h.released[j], Entered(s, i));
      }
    } else {
      DeliveredKeepsOtherLink(s, s', i, j, [], a, b);
    }
  }

  lemma QuietKeepsAsk(s: System, s': System, i: nat, j: nat, a: nat, b: nat)
    requires Shape(s) && QuietDelivered(s, s', i, j)
    requires a < |s.nodes| && b < |s.nodes| && a != b
    requires NodeOk(s.nodes[a]) && NodeOk(s'.nodes[a]) && TicketOk(s, a) && AskOk(s, a, b)
    ensures AskOk(s', a, b)
  {
    if a == i && b == j {
      DeliveredKeepsForwardAsk(s, s', i, j, []);
    } else if a == j && b == i {
      DeliveredKeepsBackAsk(s, s', i, j, []);
    } else {
      DeliveredKeepsOtherAsk(s, s', i, j, [], a, b);
    }
  }

  lemma QuietKeepsPairs(s: System, s': System, i: nat, j: nat)
    requires Inv(s) && QuietDelivered(s, s', i, j) && NodesOk(s')
    requires var p := s.chan[i][j][0];
      s'.hist.released[j] == if p.msg.mtype == RELEASE_LOCK then s.hist.released[j] + {p.about} else s.hist.released[j]
    requires s.chan[i][j][0].msg.mtype == RELEASE_LOCK ==> s.chan[i][j][0].about.id == i
    ensures LinksOk(s') && AsksOk(s')
  {
    forall a, b | 0 <= a < |s.nodes| && 0 <= b < |s.nodes| && a != b ensures LinkOk(s', a, b) && AskOk(s', a, b) {
      QuietKeepsLink(s, s', i, j, a, b);
      QuietKeepsAsk(s, s', i, j, a, b);
    }
  }

  lemma ReleaseKeepsInv(s: System, i: nat, j: nat)
    requires Inv(s) && Enabled(s, DeliverStep(i, j)) && s.chan[i][j][0].msg.mtype == RELEASE_LOCK
    ensures Inv(Apply(s, DeliverStep(i, j)))
  {
    var s', e := Apply(s, DeliverStep(i, j)), s.chan[i][j][0].about;
    DeliverOutcome(s, i, j);
    assert LinkOk(s, i, j) && NodeOk(s.nodes[j]) && HistOk(s, j);
    ReleaseFacts(s, s', i, j);
    DeliveredKeepsOrder(s, s', i, j, []);
    forall k | 0 <= k < |s.nodes| ensures NodeOk(s'.nodes[k]) && HistOk(s', k) && TicketOk(s', k) {
      assert NodeOk(s.nodes[k]) && HistOk(s, k) && TicketOk(s, k);
      if k == j {
        ReleaseKeepsHist(s, s', i, j, e);
        ReleaseMissesHolder(s, s', i, j, e);
      } else {
        DeliveredKeepsOtherNode(s, s', i, j, [], k);
      }
    }
    QuietKeepsPairs(s, s', i, j);
  }

  lemma WriteDeliveryKeepsInv(s: System, i: nat, j: nat)
    requires Inv(s) && Enabled(s, DeliverStep(i, j)) && s.chan[i][j][0].msg.mtype == SERVER_WRITE
    ensures Inv(Apply(s, DeliverStep(i, j)))
  {
    var s' := Apply(s, DeliverStep(i, j));
    DeliverOutcome(s, i, j);
    WriteFindsHead(s, i, j);
    WriteFacts(s, s', i, j);
    DeliveredKeepsOrder(s, s', i, j, []);
    forall k | 0 <= k < |s.nodes| ensures NodeOk(s'.nodes[k]) && HistOk(s', k) && TicketOk(s', k) {
      assert NodeOk(s.nodes[k]) && HistOk(s, k) && TicketOk(s, k);
      if k == j {
        assert Answered(s'.nodes[j]) == Answered(s.nodes[j]);
      } else {
        DeliveredKeepsOtherNode(s, s', i, j, [], k);
      }
    }
    QuietKeepsPairs(s, s', i, j);
  }
}
