/** The steps that make and end requests: locking and unlocking. */
module LockStepsOrder {
  import opened LockQueue
  import opened LockProtocol
  import opened LockChannels
  import opened LockInvariant

  /** The channels of `s'` are those of `s` with `p` sent by `i` to every other node. */
  ghost predicate SentToAll(s: System, s': System, i: nat, p: Packet)
    requires Shape(s) && Shape(s') && |s'.nodes| == |s.nodes|
  {
    forall a, b :: 0 <= a < |s.nodes| && 0 <= b < |s.nodes| ==>
      s'.chan[a][b] == if a == i && b != i then s.chan[a][b] + [p] else s.chan[a][b]
  }

  ghost predicate OnlyNode(s: System, s': System, i: nat) {
    && |s'.nodes| == |s.nodes|
    && (forall k :: 0 <= k < |s.nodes| && k != i ==> s'.nodes[k] == s.nodes[k])
  }

  // ---------------------------------------------------------------- locking

  ghost function RequestPacket(e: Entry): Packet {
    Packet(Message(REQUEST_LOCK, e.ts, e.id), e)
  }

  /** A lock step by `i` with the new ticket `e`, seen from outside. */
  ghost predicate Locked(s: System, s': System, i: nat, e: Entry)
    requires Shape(s)
  {
    && Shape(s') && i < |s.nodes| && OnlyNode(s, s', i)
    && s.nodes[i].phase.Idle?
    && e == Entry(s.nodes[i].clock + 1, i) && e !in s.hist.issued
    && (var x := s'.nodes[i];
        && x.clock == e.ts && x.phase == Collecting(e)
        && x.queue == SortedInsert(s.nodes[i].queue, e)
        && x.pending == s.nodes[i].pending && x.replies == s.nodes[i].replies && x.crashed == s.nodes[i].crashed
        && (forall k :: 0 <= k < |s.nodes| ==> x.requested[k] == (k != i) && (k != i ==> x.lastReq[k] == e.ts)))
    && s'.hist == s.hist.(issued := s.hist.issued + {e}, known := s.hist.known[i := s.hist.known[i] + {e}])
    && SentToAll(s, s', i, RequestPacket(e))
    && (forall j :: 0 <= j < |s.nodes| && j != i && Active(s.nodes[j]) && !s.nodes[j].requested[i] ==>
          Less(s.nodes[j].phase.ticket, e))
  }

  /** The queue has room and the timestamp is new: the node is past every request it answered. */
  lemma TicketIsNew(s: System, i: nat)
    requires Inv(s) && i < |s.nodes| && s.nodes[i].phase.Idle?
    ensures |s.nodes[i].queue| < MAX
    ensures var e := Entry(s.nodes[i].clock + 1, i);
      && e !in s.hist.issued
      && forall j :: 0 <= j < |s.nodes| && j != i && Active(s.nodes[j]) && !s.nodes[j].requested[i] ==>
           Less(s.nodes[j].phase.ticket, e)
  {
    var e := Entry(s.nodes[i].clock + 1, i);
    assert NodeOk(s.nodes[i]) && HistOk(s, i);
    assert e !in s.hist.issued by {
      assert e in s.hist.issued ==> IssuedOk(s, e);
    }
    forall f | f in s.hist.known[i] && f.id == i
      ensures f in s.hist.released[i]
    {
      assert IssuedOk(s, f);
    }
    RoomFor(s, i, e);
    forall j | 0 <= j < |s.nodes| && j != i && Active(s.nodes[j]) && !s.nodes[j].requested[i]
      ensures Less(s.nodes[j].phase.ticket, e)
    {
      assert AskOk(s, j, i);
      assert Cleared(s, j, i);
    }
  }

  lemma LockFacts(s: System, i: nat)
    requires Inv(s) && Enabled(s, LockStep(i))
    ensures Locked(s, Apply(s, LockStep(i)), i, Entry(s.nodes[i].clock + 1, i))
  {
    TicketIsNew(s, i);
    assert NodeOk(s.nodes[i]);
  }

  lemma LockKeepsOrder(s: System, s': System, i: nat, e: Entry)
    requires Shape(s) && OrderOk(s) && Locked(s, s', i, e)
    ensures OrderOk(s')
  {
    forall f | f in s'.hist.issued ensures IssuedOk(s', f) {
      assert f != e ==> IssuedOk(s, f);
    }
    forall c | c in s'.hist.completed ensures KnownToAll(s', c) && Less(c, e) {
      assert KnownToAll(s, c);
    }
  }

  lemma LockKeepsNodes(s: System, s': System, i: nat, e: Entry)
    requires Shape(s) && OrderOk(s) && NodesOk(s) && Locked(s, s', i, e)
    ensures NodesOk(s')
  {
    forall j | 0 <= j < |s.nodes| ensures NodeOk(s'.nodes[j]) && HistOk(s', j) && TicketOk(s', j) {
      assert NodeOk(s.nodes[j]) && HistOk(s, j) && TicketOk(s, j);
      if j == i {
        assert e !in s.nodes[i].queue;
        SortedInsertStrict(s.nodes[i].queue, e);
        assert Answered(s'.nodes[i]) == {};
        assert forall c :: c in s.hist.popped[i] ==> c in s.hist.completed;
      }
    }
  }

  lemma LockKeepsLink(s: System, s': System, i: nat, e: Entry, a: nat, b: nat)
    requires Shape(s) && Locked(s, s', i, e)
    requires a < |s.nodes| && b < |s.nodes| && a != b && LinkOk(s, a, b) && HistOk(s, b)
    ensures LinkOk(s', a, b)
  {
    assert Entered(s', a) == Entered(s, a);
    var h, ch, done := s.hist, s.chan[a][b], SetOf(s.hist.completed);
    if a == i {
      LinkAppendRequest(ch, RequestPacket(e), i, h.issued, h.known[b], done, h.released[b], Entered(s, i));
    } else {
      LinkFrame(ch, a, h.issued, h.known[b], done, h.released[b], Entered(s, a),
                s'.hist.issued, s'.hist.known[b], done, h.released[b], Entered(s', a));
    }
  }

  lemma LockKeepsAsk(s: System, s': System, i: nat, e: Entry, a: nat, k: nat)
    requires Shape(s) && Locked(s, s', i, e)
    requires a < |s.nodes| && k < |s.nodes| && a != k
    requires NodeOk(s.nodes[a]) && NodeOk(s.nodes[k]) && TicketOk(s, a) && HistOk(s, k) && AskOk(s, a, k)
    requires NodeOk(s'.nodes[a])
    ensures AskOk(s', a, k)
  {
    var ch := s.chan[k][a];
    if a != i && Active(s.nodes[a]) && !s.nodes[a].requested[k] {
      assert Cleared(s', a, k);
    }
    if k == i {
      if HasReply(ch) {
        ReplyOkAppendOther(ch, RequestPacket(e), k, s.nodes[a].phase.ticket, s.hist.issued, s.hist.known[a]);
      } else {
        NoReplyAppend(ch, RequestPacket(e));
      }
    }
  }

  lemma LockKeepsPairs(s: System, s': System, i: nat, e: Entry)
    requires Inv(s) && Locked(s, s', i, e) && NodesOk(s')
    ensures LinksOk(s') && AsksOk(s')
  {
    forall a, b | 0 <= a < |s.nodes| && 0 <= b < |s.nodes| && a != b ensures LinkOk(s', a, b) && AskOk(s', a, b) {
      LockKeepsLink(s, s', i, e, a, b);
      LockKeepsAsk(s, s', i, e, a, b);
    }
  }

  lemma LockKeepsInv(s: System, i: nat)
    requires Inv(s) && Enabled(s, LockStep(i))
    ensures Inv(Apply(s, LockStep(i)))
  {
    var s', e := Apply(s, LockStep(i)), Entry(s.nodes[i].clock + 1, i);
    LockFacts(s, i);
    LockKeepsOrder(s, s', i, e);
    LockKeepsNodes(s, s', i, e);
    LockKeepsPairs(s, s', i, e);
  }

  // ---------------------------------------------------------------- unlocking

  /** An unlock step by `i` that ends the critical section `e`, seen from outside. */
  ghost predicate Unlocked(s: System, s': System, i: nat, e: Entry, p: Packet)
    requires Shape(s)
  {
    && Shape(s') && i < |s.nodes| && OnlyNode(s, s', i)
    && s.nodes[i].phase == Critical(e) && e.id == i && e in s.hist.issued && e !in s.hist.completed
    && s.nodes[i].queue != [] && s.nodes[i].queue[0] == e
    && s.hist.popped[i] == s.hist.completed && s.hist.released[i] == SetOf(s.hist.completed)
    && (forall j :: 0 <= j < |s.nodes| ==> e in s.hist.known[j] && s.nodes[j].clock >= e.ts)
    && Least(s, e)
    && s'.nodes[i] == s.nodes[i].(queue := s.nodes[i].queue[1..], clock := s.nodes[i].clock + 1, phase := Idle)
    && s'.hist == s.hist.(completed := s.hist.completed + [e],
                          popped := s.hist.popped[i := s.hist.popped[i] + [e]],
                          released := s.hist.released[i := s.hist.released[i] + {e}])
    && p.msg.mtype == RELEASE_LOCK && p.about == e
    && SentToAll(s, s', i, p)
    && (forall f :: f in s.hist.issued && f.id == i ==> f == e || f in s.hist.completed)
  }

  /** Everyone has queued the request of a node in its critical section. */
  lemma HolderIsKnown(s: System, i: nat, j: nat)
    requires Inv(s) && i < |s.nodes| && s.nodes[i].phase.Critical? && j < |s.nodes|
    ensures s.nodes[i].phase.ticket in s.hist.known[j] && s.nodes[j].clock >= s.nodes[i].phase.ticket.ts
  {
    assert NodeOk(s.nodes[i]) && TicketOk(s, i);
    if j == i {
      assert IssuedOk(s, s.nodes[i].phase.ticket) && HistOk(s, i);
    } else {
      assert AskOk(s, i, j);
      assert Cleared(s, i, j);
    }
  }

  /** Its other requests are completed. */
  lemma HolderHasOneRequest(s: System, i: nat, f: Entry)
    requires Inv(s) && i < |s.nodes| && s.nodes[i].phase.Critical? && f in s.hist.issued && f.id == i
    ensures f == s.nodes[i].phase.ticket || f in s.hist.completed
  {
    assert IssuedOk(s, f);
  }

  /** Unlocking pops the node's own request, and by then the node has popped every other critical
      section completed so far. */
  lemma UnlockFacts(s: System, i: nat)
    requires Inv(s) && Enabled(s, UnlockStep(i))
    ensures var e := s.nodes[i].phase.ticket;
      Unlocked(s, Apply(s, UnlockStep(i)), i, e, Packet(Message(RELEASE_LOCK, s.nodes[i].clock + 1, i), e))
  {
    var e := s.nodes[i].phase.ticket;
    assert NodeOk(s.nodes[i]) && TicketOk(s, i) && HistOk(s, i);
    CriticalIsUpToDate(s, i);
    forall j | 0 <= j < |s.nodes| ensures e in s.hist.known[j] && s.nodes[j].clock >= e.ts {
      HolderIsKnown(s, i, j);
    }
    forall f | f in s.hist.issued && f.id == i ensures f == e || f in s.hist.completed {
      HolderHasOneRequest(s, i, f);
    }
  }

  lemma UnlockKeepsOrder(s: System, s': System, i: nat, e: Entry, p: Packet)
    requires Shape(s) && OrderOk(s) && Unlocked(s, s', i, e, p)
    ensures OrderOk(s')
  {
    var h := s.hist;
    forall f | f in s'.hist.issued ensures IssuedOk(s', f) {
      assert IssuedOk(s, f);
    }
    forall c | c in s'.hist.completed ensures c in s'.hist.issued && KnownToAll(s', c) {
      assert c in h.completed ==> KnownToAll(s, c);
    }
    forall a | 0 <= a < |h.completed| ensures Less(h.completed[a], e) {
      assert h.completed[a] in h.completed;
    }
    forall c, f | c in s'.hist.completed && f in s'.hist.issued && f !in s'.hist.completed ensures Less(c, f) {
      assert f !in h.completed && f != e;
      assert c in h.completed || c == e;
    }
  }

  lemma UnlockKeepsNode(s: System, s': System, i: nat, e: Entry, p: Packet, j: nat)
    requires Shape(s) && Unlocked(s, s', i, e, p) && j < |s.nodes|
    requires NodeOk(s.nodes[j]) && HistOk(s, j) && TicketOk(s, j)
    ensures NodeOk(s'.nodes[j]) && HistOk(s', j) && TicketOk(s', j)
  {
    if j == i {
      PoppedQueue(s.nodes[i].queue, s.hist.known[i], s.hist.popped[i]);
      assert s'.hist.completed[..|s'.hist.completed|] == s'.hist.completed;
    } else {
      assert s'.hist.completed[..|s.hist.popped[j]|] == s.hist.completed[..|s.hist.popped[j]|];
    }
  }

  /** Removing the head of a sorted queue moves exactly that entry to the popped ones. */
  lemma PoppedQueue(q: seq<Entry>, known: set<Entry>, popped: seq<Entry>)
    requires q != [] && StrictlySorted(q)
    requires forall e :: e in q <==> e in known && e !in popped
    ensures StrictlySorted(q[1..])
    ensures forall e :: e in q[1..] <==> e in known && e !in popped + [q[0]]
  {
    assert q == [q[0]] + q[1..];
    forall a | 0 < a < |q| ensures q[a] != q[0] {
      assert Less(q[0], q[a]);
    }
    assert q[0] !in q[1..];
    forall e ensures e in q[1..] <==> e in known && e !in popped + [q[0]] {
      assert e in q <==> e == q[0] || e in q[1..];
    }
  }

  lemma UnlockKeepsLink(s: System, s': System, i: nat, e: Entry, p: Packet, a: nat, b: nat)
    requires Shape(s) && OrderOk(s) && Unlocked(s, s', i, e, p)
    requires a < |s.nodes| && b < |s.nodes| && a != b && LinkOk(s, a, b) && HistOk(s, b)
    ensures LinkOk(s', a, b)
  {
    var h, ch, done := s.hist, s.chan[a][b], SetOf(s.hist.completed);
    assert SetOf(s'.hist.completed) == done + {e};
    assert Entered(s, a) <= Entered(s', a);
    if a == i {
      forall f | f in h.issued && f.id == i ensures f in h.known[b] && !Less(e, f) {
        assert f != e ==> Less(f, e);
        assert f != e ==> KnownToAll(s, f);
      }
      LinkAppendRelease(ch, p, i, h.issued, h.known[b], done, h.released[b], Entered(s, i));
      LinkFrame(ch + [p], i, h.issued, h.known[b], done + {e}, h.released[b], Entered(s, i),
                h.issued, h.known[b], done + {e}, h.released[b], Entered(s', i));
    } else {
      LinkFrame(ch, a, h.issued, h.known[b], done, h.released[b], Entered(s, a),
                h.issued, h.known[b], done + {e}, s'.hist.released[b], Entered(s', a));
    }
  }

  lemma UnlockKeepsAsk(s: System, s': System, i: nat, e: Entry, p: Packet, a: nat, k: nat)
    requires Shape(s) && Unlocked(s, s', i, e, p)
    requires a < |s.nodes| && k < |s.nodes| && a != k
    requires NodeOk(s.nodes[a]) && NodeOk(s.nodes[k]) && AskOk(s, a, k)
    requires NodeOk(s'.nodes[a])
    ensures AskOk(s', a, k)
  {
    var ch := s.chan[k][a];
    if a != i && Active(s.nodes[a]) && !s.nodes[a].requested[k] {
      assert Cleared(s', a, k);
    }
    if k == i {
      if HasReply(ch) {
        ReplyOkAppendOther(ch, p, k, s.nodes[a].phase.ticket, s.hist.issued, s.hist.known[a]);
      } else {
        NoReplyAppend(ch, p);
      }
    }
  }

  lemma UnlockKeepsPairs(s: System, s': System, i: nat, e: Entry, p: Packet)
    requires Inv(s) && Unlocked(s, s', i, e, p) && NodesOk(s')
    ensures LinksOk(s') && AsksOk(s')
  {
    forall a, b | 0 <= a < |s.nodes| && 0 <= b < |s.nodes| && a != b ensures LinkOk(s', a, b) && AskOk(s', a, b) {
      UnlockKeepsLink(s, s', i, e, p, a, b);
      UnlockKeepsAsk(s, s', i, e, p, a, b);
    }
  }

  lemma UnlockKeepsInv(s: System, i: nat)
    requires Inv(s) && Enabled(s, UnlockStep(i))
    ensures Inv(Apply(s, UnlockStep(i)))
  {
    var s', e := Apply(s, UnlockStep(i)), s.nodes[i].phase.ticket;
    var p := Packet(Message(RELEASE_LOCK, s.nodes[i].clock + 1, i), e);
    UnlockFacts(s, i);
    UnlockKeepsOrder(s, s', i, e, p);
    forall j | 0 <= j < |s.nodes| ensures NodeOk(s'.nodes[j]) && HistOk(s', j) && TicketOk(s', j) {
      UnlockKeepsNode(s, s', i, e, p, j);
    }
    UnlockKeepsPairs(s, s', i, e, p);
  }
}
