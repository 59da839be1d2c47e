/** Nobody is overtaken for long: while a request is open, every other node completes at most two
    critical sections, and so nobody starves while new requests keep coming. */
module LockFairness {
  import opened Counting
  import opened LockQueue
  import opened LockProtocol
  import opened LockChannels
  import opened LockInvariant
  import opened LockStepsOrder
  import opened LockStepsDeliver
  import opened LockTheorems
  import opened LockLiveness

  /** Critical sections of node `j` in a list of completed ones. */
  function CountOf(completed: seq<Entry>, j: nat): nat {
    if completed == [] then 0
    else
      var last := |completed| - 1;
      CountOf(completed[..last], j) + (if completed[last].id == j then 1 else 0)
  }

  /** A REPLY is in front of the REQUEST of `e`. */
  ghost predicate AnswerAhead(ch: seq<Packet>, e: Entry) {
    exists a, b :: 0 <= a < b < |ch| && ch[a].msg.mtype == REPLY_LOCK && ch[b].msg.mtype == REQUEST_LOCK && ch[b].about == e
  }

  lemma AnswerAheadTail(ch: seq<Packet>, e: Entry)
    requires ch != [] && AnswerAhead(ch[1..], e)
    ensures AnswerAhead(ch, e)
  {
    var a, b :| 0 <= a < b < |ch[1..]| && ch[1..][a].msg.mtype == REPLY_LOCK && ch[1..][b].msg.mtype == REQUEST_LOCK && ch[1..][b].about == e;
    assert ch[a + 1] == ch[1..][a] && ch[b + 1] == ch[1..][b];
  }

  lemma AnswerAheadAppend(ch: seq<Packet>, p: Packet, e: Entry)
    requires AnswerAhead(ch + [p], e) && !(p.msg.mtype == REQUEST_LOCK && p.about == e)
    ensures AnswerAhead(ch, e)
  {
    var r := ch + [p];
    var a, b :| 0 <= a < b < |r| && r[a].msg.mtype == REPLY_LOCK && r[b].msg.mtype == REQUEST_LOCK && r[b].about == e;
    assert b < |ch|;
  }

  /** `e` is the open request of another node than `j`. */
  ghost predicate Open(s: System, e: Entry, j: nat) {
    && Inv(s) && j < |s.nodes| && j != e.id
    && e in s.hist.issued && e !in s.hist.completed
  }

  lemma OpenFacts(s: System, e: Entry, j: nat)
    requires Open(s, e, j)
    ensures e.id < |s.nodes| && Active(s.nodes[e.id]) && s.nodes[e.id].phase.ticket == e
  {
    assert IssuedOk(s, e);
  }

  /** How many critical sections node `j` can still complete in front of `e`.  Once it knows `e`, only
      an earlier request of its own; before that, the one that is answered already, and one more. */
  ghost function Ahead(s: System, e: Entry, j: nat): nat
    requires Shape(s) && j < |s.nodes| && e.id < |s.nodes|
  {
    var x := s.nodes[j];
    if e in s.hist.known[j] then (if Active(x) && Less(x.phase.ticket, e) then 1 else 0)
    else if Active(x) && (!x.requested[e.id] || AnswerAhead(s.chan[e.id][j], e)) then 2
    else 1
  }

  ghost predicate Shapes(s: System, t: System, e: Entry, j: nat) {
    Shape(s) && Shape(t) && |t.nodes| == |s.nodes| && j < |s.nodes| && e.id < |s.nodes| && j != e.id
  }

  /** Sections completed and sections still ahead do not grow together. */
  ghost predicate NoMore(s: System, t: System, e: Entry, j: nat)
    requires Shapes(s, t, e, j)
  {
    CountOf(t.hist.completed, j) + Ahead(t, e, j) <= CountOf(s.hist.completed, j) + Ahead(s, e, j)
  }

  /** What most steps do: nothing to node `j`, to its knowledge of `e`, and to the order of the channel
      from `e`'s node. */
  ghost predicate Apart(s: System, t: System, e: Entry, j: nat) {
    && Shapes(s, t, e, j)
    && t.hist.completed == s.hist.completed
    && (e in s.hist.known[j] <==> e in t.hist.known[j])
    && Active(t.nodes[j]) == Active(s.nodes[j]) && (Active(s.nodes[j]) ==> t.nodes[j].phase.ticket == s.nodes[j].phase.ticket)
    && (!t.nodes[j].requested[e.id] ==> !s.nodes[j].requested[e.id])
    && (AnswerAhead(t.chan[e.id][j], e) ==> AnswerAhead(s.chan[e.id][j], e))
  }

  lemma ApartKeeps(s: System, t: System, e: Entry, j: nat)
    requires Apart(s, t, e, j)
    ensures NoMore(s, t, e, j)
  {}

  // ---------------------------------------------------------------- steps

  /** A request made by a node that knows `e` sorts behind it. */
  lemma NewTicketIsBehind(s: System, e: Entry, j: nat)
    requires Open(s, e, j) && s.nodes[j].phase.Idle? && e in s.hist.known[j]
    ensures Less(e, Entry(s.nodes[j].clock + 1, j))
  {
    OpenFacts(s, e, j);
    assert NodeOk(s.nodes[e.id]) && AskOk(s, e.id, j);
  }

  /** Node `j` makes a request `f`. */
  lemma OwnLock(s: System, t: System, e: Entry, j: nat, f: Entry)
    requires Shapes(s, t, e, j) && Locked(s, t, j, f)
    requires e in s.hist.known[j] ==> Less(e, f)
    requires e !in s.hist.known[j] ==> !AnswerAhead(s.chan[e.id][j], e)
    ensures NoMore(s, t, e, j)
  {
    assert t.chan[e.id][j] == s.chan[e.id][j];
    assert e in t.hist.known[j] <==> e in s.hist.known[j];
  }

  /** A third node makes a request. */
  lemma ThirdLock(s: System, t: System, i: nat, e: Entry, j: nat, f: Entry)
    requires Shapes(s, t, e, j) && Locked(s, t, i, f) && i != j && i != e.id
    ensures NoMore(s, t, e, j)
  {
    assert t.chan[e.id][j] == s.chan[e.id][j];
    ApartKeeps(s, t, e, j);
  }

  /** A node that has no request has no answers under way. */
  lemma IdleIsUnanswered(s: System, e: Entry, j: nat)
    requires Open(s, e, j) && s.nodes[j].phase.Idle?
    ensures !AnswerAhead(s.chan[e.id][j], e)
  {
    OpenFacts(s, e, j);
    assert NodeOk(s.nodes[j]) && AskOk(s, j, e.id);
    assert !HasReply(s.chan[e.id][j]);
  }

  lemma LockAhead(s: System, i: nat, e: Entry, j: nat)
    requires Open(s, e, j) && Enabled(s, LockStep(i))
    ensures Shapes(s, Apply(s, LockStep(i)), e, j) && NoMore(s, Apply(s, LockStep(i)), e, j)
  {
    var t := Apply(s, LockStep(i));
    var f := Entry(s.nodes[i].clock + 1, i);
    OpenFacts(s, e, j);
    LockFacts(s, i);
    if i == j {
      IdleIsUnanswered(s, e, j);
      if e in s.hist.known[j] {
        NewTicketIsBehind(s, e, j);
      }
      OwnLock(s, t, e, j, f);
    } else {
      ThirdLock(s, t, i, e, j, f);
    }
  }

  lemma PhaseAhead(s: System, step: Step, e: Entry, j: nat)
    requires Open(s, e, j) && Enabled(s, step) && (step.CollectStep? || step.EnterStep?)
    ensures Shapes(s, Apply(s, step), e, j) && NoMore(s, Apply(s, step), e, j)
  {
    OpenFacts(s, e, j);
    ApartKeeps(s, Apply(s, step), e, j);
  }

  lemma WriteAhead(s: System, i: nat, e: Entry, j: nat)
    requires Open(s, e, j) && Enabled(s, WriteStep(i))
    ensures Shapes(s, Apply(s, WriteStep(i)), e, j) && NoMore(s, Apply(s, WriteStep(i)), e, j)
  {
    var t := Apply(s, WriteStep(i));
    OpenFacts(s, e, j);
    if i == e.id && AnswerAhead(t.chan[i][j], e) {
      var p := t.chan[i][j][|s.chan[i][j]|];
      assert t.chan[i][j] == s.chan[i][j] + [p];
      AnswerAheadAppend(s.chan[i][j], p, e);
    }
    ApartKeeps(s, t, e, j);
  }

  lemma OwnUnlock(s: System, t: System, e: Entry, j: nat, f: Entry)
    requires Shapes(s, t, e, j)
    requires t.hist.completed == s.hist.completed + [f] && f.id == j && t.hist.known == s.hist.known
    requires s.nodes[j].phase == Critical(f) && !s.nodes[j].requested[e.id] && Less(f, e) && t.nodes[j].phase.Idle?
    ensures NoMore(s, t, e, j)
  {
    assert t.hist.completed[..|s.hist.completed|] == s.hist.completed;
  }

  lemma OtherUnlock(s: System, t: System, e: Entry, j: nat, f: Entry)
    requires Shapes(s, t, e, j) && f.id != j
    requires t.hist.completed == s.hist.completed + [f] && t.hist.known == s.hist.known
    requires t.nodes[j] == s.nodes[j] && t.chan[e.id][j] == s.chan[e.id][j]
    ensures NoMore(s, t, e, j)
  {
    assert t.hist.completed[..|s.hist.completed|] == s.hist.completed;
  }

  lemma UnlockAhead(s: System, i: nat, e: Entry, j: nat)
    requires Open(s, e, j) && Enabled(s, UnlockStep(i)) && e !in Apply(s, UnlockStep(i)).hist.completed
    ensures Shapes(s, Apply(s, UnlockStep(i)), e, j) && NoMore(s, Apply(s, UnlockStep(i)), e, j)
  {
    var t := Apply(s, UnlockStep(i));
    var f := s.nodes[i].phase.ticket;
    OpenFacts(s, e, j);
    assert NodeOk(s.nodes[i]) && TicketOk(s, i);
    assert t.hist.completed == s.hist.completed + [f];
    assert t.hist.completed[|s.hist.completed|] == f;
    if i == j {
      OwnUnlock(s, t, e, j, f);
    } else {
      OtherUnlock(s, t, e, j, f);
    }
  }

  lemma DeliverAhead(s: System, a: nat, b: nat, e: Entry, j: nat)
    requires Open(s, e, j) && Enabled(s, DeliverStep(a, b))
    ensures Shapes(s, Apply(s, DeliverStep(a, b)), e, j) && NoMore(s, Apply(s, DeliverStep(a, b)), e, j)
  {
    OpenFacts(s, e, j);
    DeliverOutcome(s, a, b);
    if a == e.id && b == j {
      OwnerFacts(s, e, j);
      FromOwner(s, Apply(s, DeliverStep(a, b)), e, j);
    } else if b == j {
      ThirdFacts(s, a, j);
      FromThird(s, Apply(s, DeliverStep(a, b)), a, e, j);
    } else {
      ToOther(s, Apply(s, DeliverStep(a, b)), a, b, e, j);
    }
  }

  /** What a message of `e`'s node to `j` can be. */
  ghost predicate OwnersMessage(s: System, e: Entry, j: nat)
    requires Shape(s) && j < |s.nodes| && e.id < |s.nodes| && s.chan[e.id][j] != []
  {
    var p := s.chan[e.id][j][0];
    && (p.msg.mtype == REQUEST_LOCK ==> p.about == e && e !in s.hist.known[j])
    && (p.msg.mtype == REPLY_LOCK ==> Active(s.nodes[j]) && (e in s.hist.known[j] || AnswerAhead(s.chan[e.id][j], e)))
  }

  lemma OwnerFacts(s: System, e: Entry, j: nat)
    requires Open(s, e, j) && Enabled(s, DeliverStep(e.id, j))
    ensures OwnersMessage(s, e, j)
  {
    var i, ch := e.id, s.chan[e.id][j];
    OpenFacts(s, e, j);
    assert LinkOk(s, i, j);
    if ch[0].msg.mtype == REQUEST_LOCK {
      RequestIsCurrent(s, i, j);
    } else if ch[0].msg.mtype == REPLY_LOCK {
      assert NodeOk(s.nodes[j]) && AskOk(s, j, i) && HasReply(ch);
      if e !in s.hist.known[j] {
        var b :| 0 <= b < |ch| && ch[b].msg.mtype == REQUEST_LOCK && ch[b].about == e;
        assert ch[0].msg.mtype == REPLY_LOCK && 0 < b;
      }
    }
  }

  /** A message of `e`'s node reaches `j`. */
  lemma FromOwner(s: System, t: System, e: Entry, j: nat)
    requires Shapes(s, t, e, j) && Outcome(s, t, e.id, j) && OwnersMessage(s, e, j)
    ensures NoMore(s, t, e, j)
  {
    var ch := s.chan[e.id][j];
    if ch[0].msg.mtype != REQUEST_LOCK && ch[0].msg.mtype != REPLY_LOCK {
      if AnswerAhead(t.chan[e.id][j], e) {
        AnswerAheadTail(ch, e);
      }
      ApartKeeps(s, t, e, j);
    }
  }

  lemma ThirdFacts(s: System, a: nat, j: nat)
    requires Inv(s) && Enabled(s, DeliverStep(a, j))
    ensures s.chan[a][j][0].msg.mtype == REQUEST_LOCK ==> s.chan[a][j][0].about.id == a
  {
    assert LinkOk(s, a, j);
  }

  /** A message of a third node reaches `j`. */
  lemma FromThird(s: System, t: System, a: nat, e: Entry, j: nat)
    requires Shapes(s, t, e, j) && Outcome(s, t, a, j) && a != e.id
    requires s.chan[a][j][0].msg.mtype == REQUEST_LOCK ==> s.chan[a][j][0].about.id == a
    ensures NoMore(s, t, e, j)
  {
    ApartKeeps(s, t, e, j);
  }

  /** A message reaches another node. */
  lemma ToOther(s: System, t: System, a: nat, b: nat, e: Entry, j: nat)
    requires Shapes(s, t, e, j) && Outcome(s, t, a, b) && b != j
    ensures NoMore(s, t, e, j)
  {
    if b == e.id && a == j {
      var out := AnswerPackets(Handle(s.nodes[b], a, s.chan[a][b][0].msg).1);
      assert t.chan[b][j] == s.chan[b][j] + out;
      if out == [] {
        assert t.chan[b][j] == s.chan[b][j];
      } else if AnswerAhead(t.chan[b][j], e) {
        AnswerAheadAppend(s.chan[b][j], out[0], e);
      }
    }
    ApartKeeps(s, t, e, j);
  }

  lemma StepAhead(s: System, step: Step, e: Entry, j: nat)
    requires Open(s, e, j) && Enabled(s, step) && e !in Apply(s, step).hist.completed
    ensures Shapes(s, Apply(s, step), e, j) && NoMore(s, Apply(s, step), e, j)
  {
    match step
    case LockStep(i) => LockAhead(s, i, e, j);
    case CollectStep(i) => PhaseAhead(s, step, e, j);
    case EnterStep(i) => PhaseAhead(s, step, e, j);
    case WriteStep(i) => WriteAhead(s, i, e, j);
    case UnlockStep(i) => UnlockAhead(s, i, e, j);
    case DeliverStep(a, b) => DeliverAhead(s, a, b, e, j);
  }

  // ---------------------------------------------------------------- runs

  /** Requests are never forgotten, completed sections never undone. */
  lemma StepRecords(s: System, step: Step)
    requires Shape(s) && Enabled(s, step)
    ensures s.hist.issued <= Apply(s, step).hist.issued && s.hist.completed <= Apply(s, step).hist.completed
  {}

  lemma {:induction false} RunRecords(s: System, run: seq<Step>, t: System)
    requires Shape(s) && Leads(s, run, t)
    ensures s.hist.completed <= t.hist.completed
    decreases |run|
  {
    if run != [] {
      StepRecords(s, run[0]);
      RunRecords(Apply(s, run[0]), run[1..], t);
    }
  }

  lemma {:induction false} RunAhead(s: System, run: seq<Step>, t: System, e: Entry, j: nat)
    requires Open(s, e, j) && Leads(s, run, t) && e !in t.hist.completed
    ensures CountOf(t.hist.completed, j) <= CountOf(s.hist.completed, j) + 2
    ensures e.id < |s.nodes| && CountOf(t.hist.completed, j) <= CountOf(s.hist.completed, j) + Ahead(s, e, j)
    decreases |run|
  {
    OpenFacts(s, e, j);
    if run != [] {
      var u := Apply(s, run[0]);
      StepKeepsInv(s, run[0]);
      StepRecords(s, run[0]);
      RunRecords(u, run[1..], t);
      assert e !in u.hist.completed;
      StepAhead(s, run[0], e, j);
      RunAhead(u, run[1..], t, e, j);
    }
  }

  /** From any moment on, as long as a request is open, every other node completes at most two critical
      sections, whatever new requests it makes. */
  lemma BoundedOvertaking(n: nat, s: System, run: seq<Step>, t: System, e: Entry, j: nat)
    requires n <= MAX && Reachable(n, s) && Leads(s, run, t)
    requires e in s.hist.issued && e !in s.hist.completed && e !in t.hist.completed
    requires j < n && j != e.id
    ensures CountOf(t.hist.completed, j) <= CountOf(s.hist.completed, j) + 2
  {
    ReachableInv(n, s);
    RunAhead(s, run, t, e, j);
  }

  // ---------------------------------------------------------------- all nodes together

  /** Critical sections of the first `n` nodes. */
  function Total(completed: seq<Entry>, n: nat): nat {
    if n == 0 then 0 else Total(completed, n - 1) + CountOf(completed, n - 1)
  }

  lemma {:induction false} TotalOfOneMore(completed: seq<Entry>, e: Entry, n: nat)
    ensures Total(completed + [e], n) == Total(completed, n) + (if e.id < n then 1 else 0)
  {
    if n > 0 {
      TotalOfOneMore(completed, e, n - 1);
      assert (completed + [e])[..|completed|] == completed;
    }
  }

  lemma {:induction false} TotalOfNone(n: nat)
    ensures Total([], n) == 0
  {
    if n > 0 {
      TotalOfNone(n - 1);
    }
  }

  lemma {:induction false} TotalIsLength(completed: seq<Entry>, n: nat)
    requires forall i :: 0 <= i < |completed| ==> completed[i].id < n
    ensures Total(completed, n) == |completed|
  {
    if completed == [] {
      TotalOfNone(n);
    } else {
      var last := |completed| - 1;
      TotalIsLength(completed[..last], n);
      TotalOfOneMore(completed[..last], completed[last], n);
      assert completed[..last] + [completed[last]] == completed;
    }
  }

  lemma {:induction false} TotalBound(earlier: seq<Entry>, later: seq<Entry>, own: nat, n: nat)
    requires forall j: nat :: j < n && j != own ==> CountOf(later, j) <= CountOf(earlier, j) + 2
    requires CountOf(later, own) == CountOf(earlier, own)
    ensures Total(later, n) <= Total(earlier, n) + 2 * n - (if own < n then 2 else 0)
  {
    if n > 0 {
      TotalBound(earlier, later, own, n - 1);
    }
  }

  lemma CountOther(completed: seq<Entry>, f: Entry, j: nat)
    requires f.id != j
    ensures CountOf(completed + [f], j) == CountOf(completed, j)
  {
    assert (completed + [f])[..|completed|] == completed;
  }

  lemma OwnerDoesNotUnlock(s: System, i: nat, e: Entry)
    requires Inv(s) && Enabled(s, UnlockStep(i)) && e in s.hist.issued && e !in Apply(s, UnlockStep(i)).hist.completed
    ensures s.nodes[i].phase.ticket.id != e.id
    ensures Apply(s, UnlockStep(i)).hist.completed == s.hist.completed + [s.nodes[i].phase.ticket]
  {
    var t := Apply(s, UnlockStep(i));
    assert TicketOk(s, i) && IssuedOk(s, e);
    assert t.hist.completed == s.hist.completed + [s.nodes[i].phase.ticket];
    assert t.hist.completed[|s.hist.completed|] == s.nodes[i].phase.ticket;
  }

  /** The node of an open request completes nothing else before it. */
  lemma OwnerWaits(s: System, step: Step, e: Entry)
    requires Inv(s) && Enabled(s, step) && e in s.hist.issued && e !in Apply(s, step).hist.completed
    ensures CountOf(Apply(s, step).hist.completed, e.id) == CountOf(s.hist.completed, e.id)
  {
    if step.UnlockStep? {
      OwnerDoesNotUnlock(s, step.i, e);
      CountOther(s.hist.completed, s.nodes[step.i].phase.ticket, e.id);
    } else {
      OnlyUnlockCompletes(s, step);
    }
  }

  lemma OnlyUnlockCompletes(s: System, step: Step)
    requires Shape(s) && Enabled(s, step) && !step.UnlockStep?
    ensures Apply(s, step).hist.completed == s.hist.completed
  {}

  lemma {:induction false} OwnerWaitsAlong(s: System, run: seq<Step>, t: System, e: Entry)
    requires Inv(s) && Leads(s, run, t) && e in s.hist.issued && e !in t.hist.completed
    ensures CountOf(t.hist.completed, e.id) == CountOf(s.hist.completed, e.id)
    decreases |run|
  {
    if run != [] {
      var u := Apply(s, run[0]);
      StepKeepsInv(s, run[0]);
      StepRecords(s, run[0]);
      RunRecords(u, run[1..], t);
      OwnerWaits(s, run[0], e);
      OwnerWaitsAlong(u, run[1..], t, e);
    }
  }

  lemma {:induction false} LeadsKeepsInv(s: System, run: seq<Step>, t: System)
    requires Inv(s) && Leads(s, run, t)
    ensures Inv(t) && |t.nodes| == |s.nodes|
    decreases |run|
  {
    if run != [] {
      StepKeepsInv(s, run[0]);
      LeadsKeepsInv(Apply(s, run[0]), run[1..], t);
    }
  }

  lemma CompletedIds(s: System)
    requires Inv(s)
    ensures forall i :: 0 <= i < |s.hist.completed| ==> s.hist.completed[i].id < |s.nodes|
  {
    forall i | 0 <= i < |s.hist.completed| ensures s.hist.completed[i].id < |s.nodes| {
      assert s.hist.completed[i] in s.hist.completed;
      assert IssuedOk(s, s.hist.completed[i]);
    }
  }

  /** While a request is open, all nodes together complete at most `2 * (n - 1)` critical sections. */
  lemma NoStarvation(n: nat, s: System, run: seq<Step>, t: System, e: Entry)
    requires n <= MAX && Reachable(n, s) && Leads(s, run, t)
    requires e in s.hist.issued && e !in t.hist.completed
    ensures |t.hist.completed| <= |s.hist.completed| + 2 * (n - 1)
  {
    ReachableInv(n, s);
    LeadsKeepsInv(s, run, t);
    RunRecords(s, run, t);
    assert IssuedOk(s, e);
    OwnerWaitsAlong(s, run, t, e);
    forall j: nat | j < n && j != e.id ensures CountOf(t.hist.completed, j) <= CountOf(s.hist.completed, j) + 2 {
      BoundedOvertaking(n, s, run, t, e, j);
    }
    TotalBound(s.hist.completed, t.hist.completed, e.id, n);
    CompletedIds(s);
    CompletedIds(t);
    TotalIsLength(s.hist.completed, n);
    TotalIsLength(t.hist.completed, n);
  }
}
