/** Every request is served: without new requests every run comes to an end, and it can only end
    when all requests made so far have been granted and released. */
module LockLiveness {
  import opened LockQueue
  import opened LockProtocol
  import opened LockInvariant
  import opened LockTheorems

  // ---------------------------------------------------------------- sums

  ghost function Sum(s: seq<nat>): nat {
    if s == [] then 0 else s[0] + Sum(s[1..])
  }

  /** Sequences that differ in one place differ in sum by that place. */
  lemma {:induction false} SumOneChange(s: seq<nat>, t: seq<nat>, i: nat)
    requires |s| == |t| && i < |s|
    requires forall k :: 0 <= k < |s| && k != i ==> s[k] == t[k]
    ensures Sum(s) + t[i] == Sum(t) + s[i]
  {
    if i == 0 {
      assert s[1..] == t[1..];
    } else {
      SumOneChange(s[1..], t[1..], i - 1);
    }
  }

  lemma {:induction false} SumAllPlusOne(s: seq<nat>, t: seq<nat>)
    requires |s| == |t| && forall k :: 0 <= k < |s| ==> t[k] == s[k] + 1
    ensures Sum(t) == Sum(s) + |s|
  {
    if s != [] {
      SumAllPlusOne(s[1..], t[1..]);
    }
  }

  /** One more everywhere but at `i`. */
  lemma SumOthersPlusOne(s: seq<nat>, t: seq<nat>, i: nat)
    requires |s| == |t| && i < |s|
    requires forall k :: 0 <= k < |s| ==> t[k] == if k == i then s[k] else s[k] + 1
    ensures Sum(t) == Sum(s) + |s| - 1
  {
    var u := t[i := t[i] + 1];
    SumAllPlusOne(s, u);
    SumOneChange(t, u, i);
  }

  // ---------------------------------------------------------------- the work left

  ghost function PacketWork(p: Packet): nat {
    if p.msg.mtype == REQUEST_LOCK then 2 else 1
  }

  ghost function ChannelWork(ch: seq<Packet>): nat {
    if ch == [] then 0 else PacketWork(ch[0]) + ChannelWork(ch[1..])
  }

  lemma {:induction false} ChannelWorkAppend(ch: seq<Packet>, p: Packet)
    ensures ChannelWork(ch + [p]) == ChannelWork(ch) + PacketWork(p)
  {
    if ch == [] {
      assert ch + [p] == [p];
    } else {
      assert (ch + [p])[1..] == ch[1..] + [p];
      ChannelWorkAppend(ch[1..], p);
    }
  }

  ghost function Deferred(pending: seq<bool>): seq<nat> {
    seq(|pending|, k requires 0 <= k < |pending| => if pending[k] then 1 else 0)
  }

  /** Unlocking still has N-1 releases to send. */
  ghost function PhaseWork(p: Phase, n: nat): nat {
    match p
    case Idle => 0
    case Critical(_) => n
    case Ordering(_) => n + 1
    case Collecting(_) => n + 2
  }

  ghost function NodeWork(x: Node, n: nat): nat {
    PhaseWork(x.phase, n) + Sum(Deferred(x.pending))
  }

  ghost function NodeWorks(s: System): seq<nat> {
    seq(|s.nodes|, i requires 0 <= i < |s.nodes| => NodeWork(s.nodes[i], |s.nodes|))
  }

  ghost function RowWorks(row: seq<seq<Packet>>): seq<nat> {
    seq(|row|, b requires 0 <= b < |row| => ChannelWork(row[b]))
  }

  ghost function ChannelWorks(ch: Channels): seq<nat> {
    seq(|ch|, a requires 0 <= a < |ch| => Sum(RowWorks(ch[a])))
  }

  ghost function Work(s: System): nat {
    Sum(NodeWorks(s)) + Sum(ChannelWorks(s.chan))
  }

  /** Channels that differ in one entry. */
  lemma OneChannelChange(c: Channels, d: Channels, i: nat, j: nat)
    requires Square(c, |c|) && Square(d, |c|) && i < |c| && j < |c|
    requires forall a, b :: 0 <= a < |c| && 0 <= b < |c| && !(a == i && b == j) ==> c[a][b] == d[a][b]
    ensures Sum(ChannelWorks(c)) + ChannelWork(d[i][j]) == Sum(ChannelWorks(d)) + ChannelWork(c[i][j])
  {
    forall a | 0 <= a < |c| && a != i ensures ChannelWorks(c)[a] == ChannelWorks(d)[a] {
      assert c[a] == d[a];
    }
    SumOneChange(RowWorks(c[i]), RowWorks(d[i]), j);
    SumOneChange(ChannelWorks(c), ChannelWorks(d), i);
  }

  lemma OneNodeChange(s: System, s': System, i: nat)
    requires |s'.nodes| == |s.nodes| && i < |s.nodes|
    requires forall k :: 0 <= k < |s.nodes| && k != i ==> s'.nodes[k] == s.nodes[k]
    ensures Sum(NodeWorks(s)) + NodeWork(s'.nodes[i], |s.nodes|) == Sum(NodeWorks(s')) + NodeWork(s.nodes[i], |s.nodes|)
  {
    SumOneChange(NodeWorks(s), NodeWorks(s'), i);
  }

  lemma PendingWork(p: seq<bool>, i: nat, v: bool)
    requires i < |p|
    ensures Sum(Deferred(p[i := v])) + (if p[i] then 1 else 0) == Sum(Deferred(p)) + (if v then 1 else 0)
  {
    SumOneChange(Deferred(p), Deferred(p[i := v]), i);
  }

  lemma BroadcastWork(c: Channels, i: nat, p: Packet)
    requires Square(c, |c|) && i < |c| && PacketWork(p) == 1
    ensures Sum(ChannelWorks(PostAll(c, i, p))) == Sum(ChannelWorks(c)) + |c| - 1
  {
    var d := PostAll(c, i, p);
    forall a | 0 <= a < |c| && a != i ensures ChannelWorks(c)[a] == ChannelWorks(d)[a] {
      assert c[a] == d[a];
    }
    forall b | 0 <= b < |c| ensures RowWorks(d[i])[b] == if b == i then RowWorks(c[i])[b] else RowWorks(c[i])[b] + 1 {
      ChannelWorkAppend(c[i][b], p);
    }
    SumOthersPlusOne(RowWorks(c[i]), RowWorks(d[i]), i);
    SumOneChange(ChannelWorks(c), ChannelWorks(d), i);
  }

  // ---------------------------------------------------------------- every finishing step is progress

  lemma UnlockIsProgress(s: System, i: nat)
    requires Shape(s) && Enabled(s, UnlockStep(i))
    ensures Work(Apply(s, UnlockStep(i))) < Work(s)
  {
    var s' := Apply(s, UnlockStep(i));
    OneNodeChange(s, s', i);
    BroadcastWork(s.chan, i, Packet(Message(RELEASE_LOCK, s.nodes[i].clock + 1, s.nodes[i].id), s.nodes[i].phase.ticket));
  }

  lemma PhaseIsProgress(s: System, step: Step)
    requires Shape(s) && Enabled(s, step) && (step.CollectStep? || step.EnterStep?)
    ensures Work(Apply(s, step)) < Work(s)
  {
    OneNodeChange(s, Apply(s, step), step.i);
  }

  /** Taking a message and possibly sending one back. */
  lemma TakeAndAnswerWork(c: Channels, i: nat, j: nat, out: Send)
    requires Square(c, |c|) && i < |c| && j < |c| && i != j && c[i][j] != [] && !out.Broadcast?
    requires out.ToPeer? ==> out.msg.mtype == REPLY_LOCK
    ensures Sum(ChannelWorks(Sent(Take(c, i, j), j, i, out, Stamp(out)))) + PacketWork(c[i][j][0])
         == Sum(ChannelWorks(c)) + (if out.ToPeer? then 1 else 0)
  {
    var d := Take(c, i, j);
    OneChannelChange(c, d, i, j);
    if out.ToPeer? {
      OneChannelChange(d, Post(d, j, i, Packet(out.msg, Stamp(out))), j, i);
      ChannelWorkAppend(d[j][i], Packet(out.msg, Stamp(out)));
    }
  }

  lemma HandlerWork(x: Node, peer: nat, m: Message, n: nat)
    requires peer < |x.requested| && peer < |x.lastReq| && peer < |x.pending|
    ensures var (y, out) := Handle(x, peer, m);
      && !out.Broadcast? && (out.ToPeer? ==> out.msg.mtype == REPLY_LOCK)
      && NodeWork(y, n) + (if out.ToPeer? then 1 else 0) < NodeWork(x, n) + (if m.mtype == REQUEST_LOCK then 2 else 1)
  {
    PendingWork(x.pending, peer, true);
    PendingWork(x.pending, peer, false);
  }

  lemma DeliveryIsProgress(s: System, i: nat, j: nat)
    requires Shape(s) && Enabled(s, DeliverStep(i, j))
    ensures Work(Apply(s, DeliverStep(i, j))) < Work(s)
  {
    var s', m := Apply(s, DeliverStep(i, j)), s.chan[i][j][0].msg;
    OneNodeChange(s, s', j);
    HandlerWork(s.nodes[j], i, m, |s.nodes|);
    TakeAndAnswerWork(s.chan, i, j, Handle(s.nodes[j], i, m).1);
  }

  lemma FinishingIsProgress(s: System, step: Step)
    requires Shape(s) && Enabled(s, step) && Finishing(step)
    ensures Work(Apply(s, step)) < Work(s)
  {
    match step
    case CollectStep(i) => PhaseIsProgress(s, step);
    case EnterStep(i) => PhaseIsProgress(s, step);
    case UnlockStep(i) => UnlockIsProgress(s, i);
    case DeliverStep(i, j) => DeliveryIsProgress(s, i, j);
  }

  // ---------------------------------------------------------------- runs

  /** A run from `s` to `t`. */
  ghost predicate Leads(s: System, run: seq<Step>, t: System)
    requires Shape(s)
    decreases |run|
  {
    if run == [] then s == t
    else Enabled(s, run[0]) && Leads(Apply(s, run[0]), run[1..], t)
  }

  /** Runs without new requests and writes are finite, whatever the schedule. */
  lemma {:induction false} FinishingRunsAreBounded(s: System, run: seq<Step>, t: System)
    requires Shape(s) && Leads(s, run, t)
    requires forall k :: 0 <= k < |run| ==> Finishing(run[k])
    ensures |run| <= Work(s)
    decreases |run|
  {
    if run != [] {
      FinishingIsProgress(s, run[0]);
      FinishingRunsAreBounded(Apply(s, run[0]), run[1..], t);
    }
  }

  /** When nothing more can be finished, every request made so far has been granted and released. */
  lemma StuckMeansServed(n: nat, s: System)
    requires n <= MAX && Reachable(n, s)
    requires forall step :: Finishing(step) ==> !Enabled(s, step)
    ensures forall e :: e in s.hist.issued ==> e in s.hist.completed
    ensures forall i :: 0 <= i < n ==> s.nodes[i].phase.Idle?
  {
    ReachableInv(n, s);
    forall i | 0 <= i < n ensures s.nodes[i].phase.Idle? {
      if Active(s.nodes[i]) {
        var step := NoDeadlock(n, s, i);
        assert false;
      }
    }
    forall e | e in s.hist.issued ensures e in s.hist.completed {
      assert IssuedOk(s, e);
    }
  }

  lemma ReachesOneMore(n: nat, s: System, step: Step)
    requires Reachable(n, s) && Enabled(s, step)
    ensures Reachable(n, Apply(s, step))
  {
    var run :| Reaches(n, run, s);
    var longer := run + [step];
    assert longer[..|longer| - 1] == run;
    assert Reaches(n, longer, Apply(s, step));
  }

  /** From every reachable state some schedule serves all requests made so far. */
  lemma {:induction false} EveryRequestCanBeServed(n: nat, s: System) returns (run: seq<Step>, t: System)
    requires n <= MAX && Reachable(n, s)
    ensures Leads(s, run, t) && (forall k :: 0 <= k < |run| ==> Finishing(run[k]))
    ensures Reachable(n, t) && t.hist.issued == s.hist.issued
    ensures forall e :: e in s.hist.issued ==> e in t.hist.completed
    decreases Work(s)
  {
    if step :| Finishing(step) && Enabled(s, step) {
      FinishingIsProgress(s, step);
      ReachesOneMore(n, s, step);
      var rest;
      rest, t := EveryRequestCanBeServed(n, Apply(s, step));
      run := [step] + rest;
      assert run[1..] == rest;
    } else {
      StuckMeansServed(n, s);
      run, t := [], s;
    }
  }
}
