/** What the lock guarantees in every run of any number of nodes up to the queue's capacity. */
module LockTheorems {
  import opened Counting
  import opened LockQueue
  import opened LockProtocol
  import opened LockChannels
  import opened LockInvariant
  import opened LockStepsLocal
  import opened LockStepsOrder
  import opened LockStepsDeliver

  lemma InitInv(n: nat)
    requires n <= MAX
    ensures Inv(Init(n))
  {
    var s := Init(n);
    forall i | 0 <= i < n ensures NodeOk(s.nodes[i]) && HistOk(s, i) && TicketOk(s, i) {
      assert s.nodes[i] == InitNode(i, n);
    }
    forall i, j | 0 <= i < n && 0 <= j < n && i != j ensures LinkOk(s, i, j) && AskOk(s, i, j) {
      assert s.chan[i][j] == [] && s.chan[j][i] == [];
    }
  }

  lemma StepKeepsInv(s: System, step: Step)
    requires Inv(s) && Enabled(s, step)
    ensures Inv(Apply(s, step))
  {
    match step
    case LockStep(i) => LockKeepsInv(s, i);
    case CollectStep(i) => CollectKeepsInv(s, i);
    case EnterStep(i) => EnterKeepsInv(s, i);
    case WriteStep(i) => WriteKeepsInv(s, i);
    case UnlockStep(i) => UnlockKeepsInv(s, i);
    case DeliverStep(i, j) =>
      match s.chan[i][j][0].msg.mtype
      case REQUEST_LOCK => RequestKeepsInv(s, i, j);
      case RELEASE_LOCK => ReleaseKeepsInv(s, i, j);
      case REPLY_LOCK => ReplyKeepsInv(s, i, j);
      case SERVER_WRITE => WriteDeliveryKeepsInv(s, i, j);
  }

  lemma {:induction false} RunKeepsInv(n: nat, run: seq<Step>, s: System)
    requires n <= MAX && Reaches(n, run, s)
    ensures Inv(s) && |s.nodes| == n
    decreases |run|
  {
    if run == [] {
      InitInv(n);
    } else {
      var last := run[|run| - 1];
      var t :| Reaches(n, run[..|run| - 1], t) && Shape(t) && Enabled(t, last) && s == Apply(t, last);
      RunKeepsInv(n, run[..|run| - 1], t);
      StepKeepsInv(t, last);
    }
  }

  lemma ReachableInv(n: nat, s: System)
    requires n <= MAX && Reachable(n, s)
    ensures Inv(s) && |s.nodes| == n
  {
    var run :| Reaches(n, run, s);
    RunKeepsInv(n, run, s);
  }

  /** At most one node is between a completed `distributed_lock` and its `distributed_unlock`. */
  lemma MutualExclusion(n: nat, s: System, i: nat, j: nat)
    requires n <= MAX && Reachable(n, s)
    requires i < |s.nodes| && j < |s.nodes| && s.nodes[i].phase.Critical? && s.nodes[j].phase.Critical?
    ensures i == j
  {
    ReachableInv(n, s);
    assert TicketOk(s, i) && TicketOk(s, j);
  }

  /** Critical sections are left in (timestamp, node id) order, every node has popped a prefix of
      them, as many as it has seen end, and never an entry whose critical section is not over. */
  lemma BlindDequeueIsSafe(n: nat, s: System)
    requires n <= MAX && Reachable(n, s)
    ensures forall a, b :: 0 <= a < b < |s.hist.completed| ==> Less(s.hist.completed[a], s.hist.completed[b])
    ensures forall j :: 0 <= j < n ==>
      && |s.hist.popped[j]| <= |s.hist.completed|
      && s.hist.popped[j] == s.hist.completed[..|s.hist.popped[j]|]
      && |s.hist.popped[j]| == |s.hist.released[j]|
    ensures forall j, e :: 0 <= j < n && e in s.hist.popped[j] ==> e in s.hist.completed
  {
    ReachableInv(n, s);
    forall j | 0 <= j < n
      ensures |s.hist.popped[j]| <= |s.hist.completed| && |s.hist.popped[j]| == |s.hist.released[j]|
      ensures s.hist.popped[j] == s.hist.completed[..|s.hist.popped[j]|]
    {
      assert HistOk(s, j);
    }
    forall j, e | 0 <= j < n && e in s.hist.popped[j] ensures e in s.hist.completed {
      assert HistOk(s, j);
      var a :| 0 <= a < |s.hist.popped[j]| && s.hist.popped[j][a] == e;
      assert s.hist.completed[a] == e;
    }
  }

  /** The holder's request is the head of its own queue until it unlocks, and comes before every
      other request that is still open. */
  lemma HolderIsAtItsHead(n: nat, s: System, i: nat)
    requires n <= MAX && Reachable(n, s)
    requires i < |s.nodes| && s.nodes[i].phase.Critical?
    ensures s.nodes[i].queue != [] && s.nodes[i].queue[0] == s.nodes[i].phase.ticket
    ensures forall j :: 0 <= j < n && j != i && Active(s.nodes[j]) ==> Less(s.nodes[i].phase.ticket, s.nodes[j].phase.ticket)
  {
    ReachableInv(n, s);
    assert TicketOk(s, i);
    forall j | 0 <= j < n && j != i && Active(s.nodes[j])
      ensures Less(s.nodes[i].phase.ticket, s.nodes[j].phase.ticket)
    {
      assert TicketOk(s, j);
    }
  }

  /** No request overtakes an earlier one: whatever has completed precedes whatever is still open,
      and every open request is the current one of its node. */
  lemma NoOvertaking(n: nat, s: System, c: Entry, e: Entry)
    requires n <= MAX && Reachable(n, s)
    requires c in s.hist.completed && e in s.hist.issued && e !in s.hist.completed
    ensures Less(c, e)
    ensures e.id < n && Active(s.nodes[e.id]) && s.nodes[e.id].phase.ticket == e
  {
    ReachableInv(n, s);
    assert IssuedOk(s, e);
  }

  /** A request made by a node that has queued `e` sorts after `e`. */
  lemma LaterRequestSortsLater(n: nat, s: System, i: nat, e: Entry)
    requires n <= MAX && Reachable(n, s) && Enabled(s, LockStep(i))
    requires e in s.nodes[i].queue
    requires e.id < n && (e.id != i ==> Active(s.nodes[e.id]) && s.nodes[e.id].phase.ticket == e && !s.nodes[e.id].requested[i])
    ensures Less(e, Entry(s.nodes[i].clock + 1, i))
  {
    ReachableInv(n, s);
    TicketIsNew(s, i);
    assert HistOk(s, i);
    assert IssuedOk(s, e);
  }

  /** `peek` never returns NULL to the SERVER_WRITE check, every RELEASE finds a head to pop, and no
      queue overflows, so no request is ever dropped. */
  lemma QueuesNeverUnderflowOrOverflow(n: nat, s: System, i: nat, j: nat)
    requires n <= MAX && Reachable(n, s)
    requires Enabled(s, DeliverStep(i, j))
    ensures !s.nodes[j].crashed && |s.nodes[j].queue| <= n
    ensures s.chan[i][j][0].msg.mtype == REQUEST_LOCK ==> |s.nodes[j].queue| < MAX
    ensures s.chan[i][j][0].msg.mtype == RELEASE_LOCK ==> s.nodes[j].queue != [] && s.nodes[j].queue[0] in s.hist.completed
    ensures s.chan[i][j][0].msg.mtype == SERVER_WRITE ==> s.nodes[j].queue != []
  {
    ReachableInv(n, s);
    assert NodeOk(s.nodes[j]) && HistOk(s, j) && LinkOk(s, i, j);
    QueueBound(s, j);
    match s.chan[i][j][0].msg.mtype {
      case REQUEST_LOCK => RequestIsCurrent(s, i, j);
      case RELEASE_LOCK => HeadIsOldestCompleted(s, j, s.chan[i][j][0].about);
      case REPLY_LOCK =>
      case SERVER_WRITE => WriteFindsHead(s, i, j);
    }
  }

  /** `distributed_lock` never fails on a full queue. */
  lemma LockAlwaysEnqueues(n: nat, s: System, i: nat)
    requires n <= MAX && Reachable(n, s) && Enabled(s, LockStep(i))
    ensures |s.nodes[i].queue| < MAX
    ensures Lock(s.nodes[i]).1.Broadcast?
  {
    ReachableInv(n, s);
    TicketIsNew(s, i);
  }

  /** A write that arrives at `j` finds the entry of its own critical section at the head if `j` has
      popped everything completed. */
  lemma UpToDateSeesWriter(s: System, i: nat, j: nat)
    requires Inv(s) && Enabled(s, DeliverStep(i, j)) && s.chan[i][j][0].msg.mtype == SERVER_WRITE
    requires |s.hist.popped[j]| == |s.hist.completed|
    ensures s.nodes[j].queue != [] && s.nodes[j].queue[0].id == i
  {
    var h, e := s.hist, s.chan[i][j][0].about;
    WriterIsOpen(s, i, j);
    assert HistOk(s, j) && TicketOk(s, i) && NodeOk(s.nodes[j]);
    assert h.popped[j] == h.completed;
    assert NodeOk(s.nodes[i]) && AskOk(s, i, j) && Cleared(s, i, j);
    LeastHeads(s.nodes[j].queue, e);
  }

  /** A write on its way to a node that has popped everything belongs to the present holder. */
  lemma WriterIsOpen(s: System, i: nat, j: nat)
    requires Inv(s) && Enabled(s, DeliverStep(i, j)) && s.chan[i][j][0].msg.mtype == SERVER_WRITE
    requires |s.hist.popped[j]| == |s.hist.completed|
    ensures s.nodes[i].phase == Critical(s.chan[i][j][0].about)
  {
    var h := s.hist;
    assert LinkOk(s, i, j) && HistOk(s, j) && TicketOk(s, i);
    DistinctCount(h.completed);
    SubsetCount(h.released[j], SetOf(h.completed));
    assert s.chan[i][j][0].about !in h.completed;
  }

  lemma LeastHeads(q: seq<Entry>, e: Entry)
    requires StrictlySorted(q) && e in q && forall x :: x in q && x != e ==> Less(e, x)
    ensures q != [] && q[0] == e
  {
    assert q[0] in q;
    assert forall a :: 0 < a < |q| ==> Less(q[0], q[a]);
  }

  /** A SERVER_WRITE is accepted exactly when its receiver has popped every completed critical
      section, or the oldest one it has not popped is one of the sender's; otherwise the RELEASE of
      another node is still on its way and the write is dropped. */
  lemma WriteAcceptedIff(n: nat, s: System, i: nat, j: nat)
    requires n <= MAX && Reachable(n, s) && Enabled(s, DeliverStep(i, j))
    requires s.chan[i][j][0].msg.mtype == SERVER_WRITE
    ensures var p := |s.hist.popped[j]|;
      var applied := Apply(s, DeliverStep(i, j)).nodes[j].applied;
      if p >= |s.hist.completed| || s.hist.completed[p].id == i
      then applied == s.nodes[j].applied + [i] else applied == s.nodes[j].applied
  {
    ReachableInv(n, s);
    assert HistOk(s, j) && LinkOk(s, i, j) && NodeOk(s.nodes[j]);
    WriteFindsHead(s, i, j);
    var p := |s.hist.popped[j]|;
    if p >= |s.hist.completed| {
      UpToDateSeesWriter(s, i, j);
    } else {
      NotAllReleased(s, j);
    }
  }

  /** While some completed section is not popped, the head is the oldest such. */
  lemma NotAllReleased(s: System, j: nat)
    requires Inv(s) && j < |s.nodes| && |s.hist.popped[j]| < |s.hist.completed|
    ensures s.nodes[j].queue != [] && s.nodes[j].queue[0] == s.hist.completed[|s.hist.popped[j]|]
  {
    var h := s.hist;
    assert HistOk(s, j) && NodeOk(s.nodes[j]);
    DistinctCount(h.completed);
    if forall e :: e in h.completed ==> e in h.released[j] {
      assert SetOf(h.completed) <= h.released[j];
      SubsetCount(SetOf(h.completed), h.released[j]);
      assert false;
    }
    var e :| e in h.completed && e !in h.released[j];
    HeadIsOldestCompleted(s, j, e);
  }

  // ---------------------------------------------------------------- reply accounting

  /** While a peer has not answered, the request is in exactly one place: on its way, deferred, or
      being answered.  Once it has answered, or outside the reply loop, it is in none. */
  lemma OneReplyPerRequest(n: nat, s: System, i: nat, k: nat)
    requires n <= MAX && Reachable(n, s) && i < n && k < n && i != k
    ensures s.nodes[i].requested[k] ==>
      && s.nodes[i].phase.Collecting?
      && var travelling := Has(s.chan[i][k], REQUEST_LOCK, s.nodes[i].phase.ticket);
         var deferred := s.nodes[k].pending[i];
         var answering := HasReply(s.chan[k][i]);
         && (travelling || deferred || answering)
         && !(travelling && deferred) && !(travelling && answering) && !(deferred && answering)
    ensures !s.nodes[i].requested[k] ==> !s.nodes[k].pending[i] && !HasReply(s.chan[k][i])
    ensures forall a, b :: 0 <= a < b < |s.chan[k][i]| ==>
      s.chan[k][i][a].msg.mtype != REPLY_LOCK || s.chan[k][i][b].msg.mtype != REPLY_LOCK
  {
    ReachableInv(n, s);
    assert NodeOk(s.nodes[i]) && TicketOk(s, i) && AskOk(s, i, k) && LinkOk(s, i, k);
    if s.nodes[i].requested[k] {
      var e, ch := s.nodes[i].phase.ticket, s.chan[i][k];
      if Has(ch, REQUEST_LOCK, e) {
        var a :| 0 <= a < |ch| && ch[a].msg.mtype == REQUEST_LOCK && ch[a].about == e;
        assert e !in s.hist.known[k];
      }
    }
    assert forall a :: 0 <= a < |s.chan[k][i]| && s.chan[k][i][a].msg.mtype == REPLY_LOCK ==> HasReply(s.chan[k][i]);
  }

  /** `replies_received` counts the distinct peers that answered the current request; nothing is
      carried into the next one. */
  lemma RepliesCountPeers(n: nat, s: System, i: nat)
    requires n <= MAX && Reachable(n, s) && i < |s.nodes|
    ensures s.nodes[i].phase.Collecting? ==> s.nodes[i].replies == |Answered(s.nodes[i])|
    ensures !s.nodes[i].phase.Collecting? ==> s.nodes[i].replies == 0
  {
    ReachableInv(n, s);
    assert NodeOk(s.nodes[i]);
  }

  // ---------------------------------------------------------------- deferral cannot deadlock

  ghost predicate Quiet(s: System)
    requires Shape(s)
  {
    forall a, b :: 0 <= a < |s.nodes| && 0 <= b < |s.nodes| && a != b ==> s.chan[a][b] == []
  }

  /** With nothing in flight, the waiting node with the least request has all N-1 replies. */
  lemma LeastHasAllReplies(s: System, i: nat)
    requires Inv(s) && Quiet(s) && i < |s.nodes| && s.nodes[i].phase.Collecting?
    requires forall j :: 0 <= j < |s.nodes| && Active(s.nodes[j]) ==> !Less(s.nodes[j].phase.ticket, s.nodes[i].phase.ticket)
    ensures s.nodes[i].replies == |s.nodes| - 1
  {
    var n, x := |s.nodes|, s.nodes[i];
    assert NodeOk(x) && TicketOk(s, i);
    forall k | 0 <= k < n && k != i ensures !x.requested[k] {
      assert AskOk(s, i, k) && LinkOk(s, i, k);
      assert s.chan[i][k] == [] && s.chan[k][i] == [];
      assert x.phase.ticket in s.hist.issued;
      assert !Has(s.chan[i][k], REQUEST_LOCK, x.phase.ticket) && !HasReply(s.chan[k][i]);
      assert x.phase.ticket in s.hist.known[k];
    }
    assert Answered(x) == Ids(n) - {i};
  }

  /** With nothing in flight, the node with the least open request is at the head of its own queue. */
  lemma LeastIsAtItsHead(s: System, i: nat)
    requires Inv(s) && Quiet(s) && i < |s.nodes| && Active(s.nodes[i])
    requires forall j :: 0 <= j < |s.nodes| && Active(s.nodes[j]) ==> !Less(s.nodes[j].phase.ticket, s.nodes[i].phase.ticket)
    ensures s.nodes[i].queue != [] && s.nodes[i].queue[0] == s.nodes[i].phase.ticket
  {
    var h, q, e := s.hist, s.nodes[i].queue, s.nodes[i].phase.ticket;
    assert NodeOk(s.nodes[i]) && TicketOk(s, i) && HistOk(s, i);
    forall c | c in h.completed ensures c in h.released[i] {
      assert IssuedOk(s, c);
      if c.id != i {
        assert LinkOk(s, c.id, i);
        assert s.chan[c.id][i] == [];
        assert !Has(s.chan[c.id][i], RELEASE_LOCK, c);
      }
    }
    DistinctCount(h.completed);
    assert h.released[i] == SetOf(h.completed);
    assert h.popped[i] == h.completed;
    assert IssuedOk(s, e);
    assert e in q;
    assert q[0] in q;
    assert IssuedOk(s, q[0]);
    assert forall a :: 0 < a < |q| ==> Less(q[0], q[a]);
  }

  /** In every reachable state with empty channels, an open request implies that the node with the
      least one can take its next step. */
  lemma LeastCanProceed(n: nat, s: System, i: nat)
    requires n <= MAX && Reachable(n, s) && Quiet(s) && i < n && Active(s.nodes[i])
    requires forall j :: 0 <= j < n && Active(s.nodes[j]) ==> !Less(s.nodes[j].phase.ticket, s.nodes[i].phase.ticket)
    ensures s.nodes[i].phase.Collecting? ==> s.nodes[i].replies == n - 1
    ensures s.nodes[i].queue != [] && s.nodes[i].queue[0] == s.nodes[i].phase.ticket
    ensures Enabled(s, CollectStep(i)) || Enabled(s, EnterStep(i)) || Enabled(s, UnlockStep(i))
  {
    ReachableInv(n, s);
    LeastIsAtItsHead(s, i);
    if s.nodes[i].phase.Collecting? {
      LeastHasAllReplies(s, i);
    }
    HeadProceeds(s, i);
  }

  lemma HeadProceeds(s: System, i: nat)
    requires Shape(s) && i < |s.nodes| && Active(s.nodes[i])
    requires s.nodes[i].phase.Collecting? ==> s.nodes[i].replies == |s.nodes| - 1
    requires s.nodes[i].queue != [] && s.nodes[i].queue[0] == s.nodes[i].phase.ticket
    ensures Enabled(s, CollectStep(i)) || Enabled(s, EnterStep(i)) || Enabled(s, UnlockStep(i))
  {}

  /** Among active nodes one has the least ticket. */
  lemma {:induction false} LeastActive(s: System, i: nat) returns (m: nat)
    requires Shape(s) && i < |s.nodes| && Active(s.nodes[i])
    ensures m < |s.nodes| && Active(s.nodes[m])
    ensures forall j :: 0 <= j < |s.nodes| && Active(s.nodes[j]) ==> !Less(s.nodes[j].phase.ticket, s.nodes[m].phase.ticket)
  {
    m := i;
    for k := 0 to |s.nodes|
      invariant m < |s.nodes| && Active(s.nodes[m])
      invariant forall j :: 0 <= j < k && Active(s.nodes[j]) ==> !Less(s.nodes[j].phase.ticket, s.nodes[m].phase.ticket)
    {
      if Active(s.nodes[k]) && Less(s.nodes[k].phase.ticket, s.nodes[m].phase.ticket) {
        m := k;
      }
    }
  }

  /** Steps that finish what has been started: everything but a new lock or a write. */
  predicate Finishing(step: Step) {
    !step.LockStep? && !step.WriteStep?
  }

  /** As long as some request is open, some step that finishes existing work is possible. */
  lemma NoDeadlock(n: nat, s: System, i: nat) returns (step: Step)
    requires n <= MAX && Reachable(n, s) && i < n && Active(s.nodes[i])
    ensures Enabled(s, step) && Finishing(step)
  {
    if Quiet(s) {
      var m := LeastActive(s, i);
      LeastCanProceed(n, s, m);
      step := if Enabled(s, CollectStep(m)) then CollectStep(m)
              else if Enabled(s, EnterStep(m)) then EnterStep(m)
              else UnlockStep(m);
    } else {
      var a, b :| 0 <= a < n && 0 <= b < n && a != b && s.chan[a][b] != [];
      step := DeliverStep(a, b);
    }
  }
}
