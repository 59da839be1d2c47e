/** The steps that send nothing about the lock order: collecting the replies, entering, writing. */
module LockStepsLocal {
  import opened Counting
  import opened LockQueue
  import opened LockProtocol
  import opened LockChannels
  import opened LockInvariant

  /** With replies from all N-1 peers counted, every peer has answered. */
  lemma AllAnswered(x: Node, n: nat)
    requires NodeOk(x) && x.phase.Collecting? && |x.requested| == n && x.id < n
    requires x.replies >= n - 1
    ensures forall k :: 0 <= k < n ==> !x.requested[k]
  {
    var all := Ids(n) - {x.id};
    assert Answered(x) <= all;
    SubsetCount(Answered(x), all);
    assert forall k: nat :: k in all ==> k in Answered(x);
    forall k: nat | k < n ensures !x.requested[k] {
      assert k == x.id || k in all;
    }
  }

  /** Only the phase and the reply counter of node `i` change. */
  ghost predicate PhaseChange(s: System, s': System, i: nat)
    requires Shape(s) && i < |s.nodes|
  {
    && Shape(s') && |s'.nodes| == |s.nodes|
    && s'.chan == s.chan && s'.hist == s.hist
    && (forall k :: 0 <= k < |s.nodes| && k != i ==> s'.nodes[k] == s.nodes[k])
    && Active(s.nodes[i]) && Active(s'.nodes[i])
    && s'.nodes[i] == s.nodes[i].(phase := s'.nodes[i].phase, replies := s'.nodes[i].replies)
    && s'.nodes[i].phase.ticket == s.nodes[i].phase.ticket
    && (forall k :: 0 <= k < |s.nodes| ==> !s.nodes[i].requested[k])
    && Entered(s, i) <= Entered(s', i)
  }

  lemma PhaseChangeOrder(s: System, s': System, i: nat)
    requires Inv(s) && i < |s.nodes| && PhaseChange(s, s', i)
    ensures OrderOk(s')
  {
    forall e | e in s'.hist.issued ensures IssuedOk(s', e) {
      assert IssuedOk(s, e);
    }
    forall c | c in s'.hist.completed ensures KnownToAll(s', c) {
      assert KnownToAll(s, c);
    }
  }

  lemma PhaseChangeLinks(s: System, s': System, i: nat)
    requires Inv(s) && i < |s.nodes| && PhaseChange(s, s', i)
    ensures LinksOk(s')
  {
    forall a, b | 0 <= a < |s.nodes| && 0 <= b < |s.nodes| && a != b
      ensures LinkOk(s', a, b)
    {
      assert LinkOk(s, a, b);
      LinkFrame(s.chan[a][b], a,
                s.hist.issued, s.hist.known[b], SetOf(s.hist.completed), s.hist.released[b], Entered(s, a),
                s.hist.issued, s.hist.known[b], SetOf(s.hist.completed), s.hist.released[b], Entered(s', a));
    }
  }

  lemma PhaseChangeAsks(s: System, s': System, i: nat)
    requires Inv(s) && i < |s.nodes| && PhaseChange(s, s', i)
    requires NodesOk(s')
    ensures AsksOk(s')
  {
    forall a, k | 0 <= a < |s.nodes| && 0 <= k < |s.nodes| && a != k
      ensures AskOk(s', a, k)
    {
      assert AskOk(s, a, k);
      assert NodeOk(s.nodes[a]);
    }
  }

  lemma CollectKeepsInv(s: System, i: nat)
    requires Inv(s) && Enabled(s, CollectStep(i))
    ensures Inv(Apply(s, CollectStep(i)))
  {
    var s' := Apply(s, CollectStep(i));
    assert NodeOk(s.nodes[i]) && TicketOk(s, i) && HistOk(s, i);
    AllAnswered(s.nodes[i], |s.nodes|);
    assert PhaseChange(s, s', i);
    PhaseChangeOrder(s, s', i);
    PhaseChangeLinks(s, s', i);
    forall j | 0 <= j < |s.nodes| ensures NodeOk(s'.nodes[j]) && HistOk(s', j) && TicketOk(s', j) {
      assert NodeOk(s.nodes[j]) && HistOk(s, j) && TicketOk(s, j);
    }
    PhaseChangeAsks(s, s', i);
  }

  /** A node with all replies and its own request at the head has the least request of all. */
  lemma HeadIsLeastOfAll(s: System, i: nat)
    requires Inv(s) && Enabled(s, EnterStep(i))
    ensures Least(s, s.nodes[i].phase.ticket)
  {
    var e, q := s.nodes[i].phase.ticket, s.nodes[i].queue;
    assert NodeOk(s.nodes[i]) && HistOk(s, i) && TicketOk(s, i);
    assert forall a :: 0 < a < |q| ==> Less(q[0], q[a]);
    forall f | f in s.hist.issued && f !in s.hist.completed && f != e
      ensures Less(e, f)
    {
      assert IssuedOk(s, f) && IssuedOk(s, e);
      assert f.id != i;
      assert AskOk(s, i, f.id);
      assert Cleared(s, i, f.id);
      assert f in s.hist.known[i] ==> f in q;
    }
  }

  lemma EnterKeepsInv(s: System, i: nat)
    requires Inv(s) && Enabled(s, EnterStep(i))
    ensures Inv(Apply(s, EnterStep(i)))
  {
    var s' := Apply(s, EnterStep(i));
    HeadIsLeastOfAll(s, i);
    assert NodeOk(s.nodes[i]) && TicketOk(s, i) && HistOk(s, i);
    assert PhaseChange(s, s', i);
    PhaseChangeOrder(s, s', i);
    PhaseChangeLinks(s, s', i);
    forall j | 0 <= j < |s.nodes| ensures NodeOk(s'.nodes[j]) && HistOk(s', j) && TicketOk(s', j) {
      assert NodeOk(s.nodes[j]) && HistOk(s, j) && TicketOk(s, j);
    }
    PhaseChangeAsks(s, s', i);
  }

  lemma WriteKeepsLinks(s: System, i: nat)
    requires Inv(s) && Enabled(s, WriteStep(i))
    ensures LinksOk(Apply(s, WriteStep(i)))
  {
    var s' := Apply(s, WriteStep(i));
    var e := s.nodes[i].phase.ticket;
    var p := Packet(Message(SERVER_WRITE, s.nodes[i].clock + 1, i), e);
    assert TicketOk(s, i);
    forall a, b | 0 <= a < |s.nodes| && 0 <= b < |s.nodes| && a != b
      ensures LinkOk(s', a, b)
    {
      assert LinkOk(s, a, b) && HistOk(s, b);
      var ch := s.chan[a][b];
      assert Entered(s', a) == Entered(s, a);
      if a == i {
        assert s'.chan[a][b] == ch + [p];
        LinkAppendWrite(ch, p, i, s.hist.issued, s.hist.known[b], SetOf(s.hist.completed), s.hist.released[b], Entered(s, i));
      } else {
        assert s'.chan[a][b] == ch;
      }
    }
  }

  lemma WriteKeepsAsks(s: System, i: nat)
    requires Inv(s) && Enabled(s, WriteStep(i))
    requires NodesOk(Apply(s, WriteStep(i)))
    ensures AsksOk(Apply(s, WriteStep(i)))
  {
    var s' := Apply(s, WriteStep(i));
    var p := Packet(Message(SERVER_WRITE, s.nodes[i].clock + 1, i), s.nodes[i].phase.ticket);
    forall a, k | 0 <= a < |s.nodes| && 0 <= k < |s.nodes| && a != k
      ensures AskOk(s', a, k)
    {
      assert AskOk(s, a, k) && NodeOk(s.nodes[a]);
      if Active(s.nodes[a]) && !s.nodes[a].requested[k] {
        assert Cleared(s', a, k);
      }
      if k == i {
        assert s'.chan[k][a] == s.chan[k][a] + [p];
        if HasReply(s.chan[k][a]) {
          ReplyOkAppendOther(s.chan[k][a], p, k, s.nodes[a].phase.ticket, s.hist.issued, s.hist.known[a]);
        } else {
          NoReplyAppend(s.chan[k][a], p);
        }
      } else {
        assert s'.chan[k][a] == s.chan[k][a];
      }
    }
  }

  lemma WriteKeepsInv(s: System, i: nat)
    requires Inv(s) && Enabled(s, WriteStep(i))
    ensures Inv(Apply(s, WriteStep(i)))
  {
    var s' := Apply(s, WriteStep(i));
    forall j | 0 <= j < |s.nodes| ensures NodeOk(s'.nodes[j]) && HistOk(s', j) && TicketOk(s', j) {
      assert NodeOk(s.nodes[j]) && HistOk(s, j) && TicketOk(s, j);
    }
    forall e | e in s'.hist.issued ensures IssuedOk(s', e) {
      assert IssuedOk(s, e);
    }
    forall c | c in s'.hist.completed ensures KnownToAll(s', c) {
      assert KnownToAll(s, c);
    }
    WriteKeepsLinks(s, i);
    WriteKeepsAsks(s, i);
  }
}
