/** The invariant of the lock protocol, and the facts every step's proof rests on. */
module LockInvariant {
  import opened Counting
  import opened LockQueue
  import opened LockProtocol
  import opened LockChannels

  ghost predicate StrictlySorted(q: seq<Entry>) {
    forall i, j :: 0 <= i < j < |q| ==> Less(q[i], q[j])
  }

  ghost function SetOf(q: seq<Entry>): set<Entry> {
    set e | e in q
  }

  ghost predicate Active(x: Node) {
    !x.phase.Idle?
  }

  /** Peers that have answered the current request. */
  ghost function Answered(x: Node): set<nat> {
    set k: nat | k < |x.requested| && k != x.id && !x.requested[k]
  }

  /** A node's own bookkeeping. */
  ghost predicate NodeOk(x: Node) {
    && !x.crashed
    && x.id < |x.pending| && !x.pending[x.id]
    && |x.lastReq| == |x.requested|
    && (forall k :: 0 <= k < |x.requested| && x.requested[k] ==>
          x.phase.Collecting? && k != x.id && x.lastReq[k] == x.phase.ticket.ts)
    && x.replies == (if x.phase.Collecting? then |Answered(x)| else 0)
    && StrictlySorted(x.queue)
  }

  /** What node `j` queued and popped, against what was issued and completed. */
  ghost predicate HistOk(s: System, j: nat)
    requires Shape(s) && j < |s.nodes|
  {
    var h := s.hist;
    && h.known[j] <= h.issued
    && h.released[j] <= SetOf(h.completed)
    && |h.popped[j]| <= |h.completed|
    && h.popped[j] == h.completed[..|h.popped[j]|]
    && |h.released[j]| == |h.popped[j]|
    && (forall e :: e in s.nodes[j].queue <==> e in h.known[j] && e !in h.popped[j])
    && (forall e :: e in h.completed && e.id == j ==> e in h.released[j])
  }

  /** `e` comes before every other request that is not completed. */
  ghost predicate Least(s: System, e: Entry) {
    forall f :: f in s.hist.issued && f !in s.hist.completed && f != e ==> Less(e, f)
  }

  ghost predicate TicketOk(s: System, i: nat)
    requires Shape(s) && i < |s.nodes|
  {
    var x := s.nodes[i];
    && (Active(x) ==> x.phase.ticket.id == i && x.phase.ticket in s.hist.issued && x.phase.ticket !in s.hist.completed)
    && (x.phase.Critical? ==> x.queue != [] && x.queue[0] == x.phase.ticket && Least(s, x.phase.ticket))
  }

  /** Node `k` can no longer come before node `i`'s request without `i` knowing it. */
  ghost predicate Cleared(s: System, i: nat, k: nat)
    requires Shape(s) && i < |s.nodes| && k < |s.nodes| && Active(s.nodes[i])
  {
    var e := s.nodes[i].phase.ticket;
    && e in s.hist.known[k]
    && s.nodes[k].clock >= e.ts
    && (forall f :: f in s.hist.issued && f.id == k && Less(f, e) ==> f in s.hist.known[i])
  }

  /** Where node `i`'s request to node `k` stands: on its way, deferred by `k`, being answered, or
      answered; exactly one of them. */
  ghost predicate AskOk(s: System, i: nat, k: nat)
    requires Shape(s) && i < |s.nodes| && k < |s.nodes|
    requires NodeOk(s.nodes[i])
  {
    var x, y, ch := s.nodes[i], s.nodes[k], s.chan[k][i];
    && (x.requested[k] ==>
          if x.phase.ticket in s.hist.known[k] then y.pending[i] <==> !HasReply(ch)
          else !y.pending[i] && !HasReply(ch))
    && (!x.requested[k] ==> !y.pending[i] && !HasReply(ch))
    && (Active(x) && !x.requested[k] ==> Cleared(s, i, k))
    && (y.pending[i] ==>
          && y.clock >= x.phase.ticket.ts
          && y.requested[i] && y.phase.Collecting? && y.phase.ticket.ts < x.phase.ticket.ts)
    && (HasReply(ch) ==>
          && y.clock >= x.phase.ticket.ts
          && ReplyOk(ch, k, x.phase.ticket, s.hist.issued, s.hist.known[i]))
  }

  /** Critical sections `i` has entered so far, among all completed ones. */
  ghost function Entered(s: System, i: nat): set<Entry>
    requires i < |s.nodes|
  {
    SetOf(s.hist.completed) + (if s.nodes[i].phase.Critical? then {s.nodes[i].phase.ticket} else {})
  }

  ghost predicate LinkOk(s: System, i: nat, j: nat)
    requires Shape(s) && i < |s.nodes| && j < |s.nodes|
  {
    Link(s.chan[i][j], i, s.hist.issued, s.hist.known[j], SetOf(s.hist.completed), s.hist.released[j], Entered(s, i))
  }

  ghost predicate IssuedOk(s: System, e: Entry)
    requires Shape(s)
  {
    && e.id < |s.nodes|
    && e.ts <= s.nodes[e.id].clock
    && e in s.hist.known[e.id]
    && (e in s.hist.completed || (Active(s.nodes[e.id]) && s.nodes[e.id].phase.ticket == e))
  }

  /** Every node has queued `c` and is past its timestamp. */
  ghost predicate KnownToAll(s: System, c: Entry)
    requires Shape(s)
  {
    forall j :: 0 <= j < |s.nodes| ==> c in s.hist.known[j] && s.nodes[j].clock >= c.ts
  }

  ghost predicate OrderOk(s: System)
    requires Shape(s)
  {
    && StrictlySorted(s.hist.completed)
    && (forall c :: c in s.hist.completed ==> c in s.hist.issued && KnownToAll(s, c))
    && (forall e :: e in s.hist.issued ==> IssuedOk(s, e))
    && (forall c, e :: c in s.hist.completed && e in s.hist.issued && e !in s.hist.completed ==> Less(c, e))
  }

  ghost predicate NodesOk(s: System)
    requires Shape(s)
  {
    forall i :: 0 <= i < |s.nodes| ==> NodeOk(s.nodes[i]) && HistOk(s, i) && TicketOk(s, i)
  }

  ghost predicate LinksOk(s: System)
    requires Shape(s)
  {
    forall i, j :: 0 <= i < |s.nodes| && 0 <= j < |s.nodes| && i != j ==> LinkOk(s, i, j)
  }

  ghost predicate AsksOk(s: System)
    requires Shape(s) && NodesOk(s)
  {
    forall i, k :: 0 <= i < |s.nodes| && 0 <= k < |s.nodes| && i != k ==> AskOk(s, i, k)
  }

  ghost predicate Inv(s: System) {
    Shape(s) && |s.nodes| <= MAX && OrderOk(s) && NodesOk(s) && LinksOk(s) && AsksOk(s)
  }

  // ---------------------------------------------------------------- counting

  lemma {:induction false} DistinctCount(q: seq<Entry>)
    requires StrictlySorted(q)
    ensures |SetOf(q)| == |q|
  {
    if q != [] {
      var last := |q| - 1;
      DistinctCount(q[..last]);
      assert SetOf(q) == SetOf(q[..last]) + {q[last]};
      assert forall a :: 0 <= a < last ==> Less(q[a], q[last]);
      assert q[last] !in q[..last];
    } else {
      assert SetOf(q) == {};
    }
  }

  /** Entries of distinct nodes: at most one per node. */
  lemma {:induction false} OnePerNode(live: set<Entry>, n: nat)
    requires forall e :: e in live ==> e.id < n
    requires forall e, f :: e in live && f in live && e.id == f.id ==> e == f
    ensures |live| <= n
  {
    if n == 0 {
      assert forall e :: e !in live;
    } else if e :| e in live && e.id == n - 1 {
      OnePerNode(live - {e}, n - 1);
      assert |live| == |live - {e}| + 1;
    } else {
      OnePerNode(live, n - 1);
    }
  }

  lemma SortedInsertStrict(q: seq<Entry>, x: Entry)
    requires StrictlySorted(q) && x !in q
    ensures StrictlySorted(SortedInsert(q, x))
    ensures forall e :: e in SortedInsert(q, x) <==> e == x || e in q
  {
    SortedInsertMembers(q, x);
    var k := InsertionIndex(q, x);
    SortedInsertAt(q, x, k);
    StrictAround(q, x, k);
  }

  lemma StrictAround(q: seq<Entry>, x: Entry, k: nat)
    requires StrictlySorted(q) && x !in q && InsertionPoint(q, x, k)
    ensures StrictlySorted(q[..k] + [x] + q[k..])
  {
    var r := q[..k] + [x] + q[k..];
    assert forall a :: 0 <= a < k ==> Less(q[a], x) by {
      assert forall a :: 0 <= a < k - 1 ==> Less(q[a], q[k - 1]);
      assert k > 0 ==> q[k - 1] != x;
    }
    forall i, j | 0 <= i < j < |r|
      ensures Less(r[i], r[j])
    {
      assert i < k ==> r[i] == q[i];
      assert i > k ==> r[i] == q[i - 1];
      assert j < k ==> r[j] == q[j];
      assert j > k ==> r[j] == q[j - 1];
    }
  }

  // ---------------------------------------------------------------- the blind pop

  /** On values: a sorted queue of the known entries that are not among the first `p` completed ones
      starts with completed entry `p`, when completed entries precede all others. */
  lemma OldestIsHead(q: seq<Entry>, completed: seq<Entry>, issued: set<Entry>, known: set<Entry>, p: nat)
    requires StrictlySorted(q) && StrictlySorted(completed) && p < |completed| && known <= issued
    requires forall e :: e in q <==> e in known && e !in completed[..p]
    requires completed[p] in known
    requires forall e :: e in issued && e !in completed ==> Less(completed[p], e)
    ensures q != [] && q[0] == completed[p]
  {
    var c := completed[p];
    assert forall b :: 0 <= b < p ==> completed[..p][b] == completed[b] && Less(completed[b], c);
    assert c in q;
    forall x | x in q && x != c
      ensures Less(c, x)
    {
      if x in completed {
        var b :| 0 <= b < |completed| && completed[b] == x;
        assert b >= p;
      }
    }
    assert q[0] in q;
    assert forall a :: 0 < a < |q| ==> Less(q[0], q[a]);
  }

  /** As long as some completed critical section has not been seen to end at `j`, the head of `j`'s
      queue is the oldest completed entry it has not popped. */
  lemma HeadIsOldestCompleted(s: System, j: nat, e: Entry)
    requires Shape(s) && j < |s.nodes| && OrderOk(s)
    requires NodeOk(s.nodes[j]) && HistOk(s, j)
    requires e in s.hist.completed && e !in s.hist.released[j]
    ensures |s.hist.popped[j]| < |s.hist.completed|
    ensures s.nodes[j].queue != []
    ensures s.nodes[j].queue[0] == s.hist.completed[|s.hist.popped[j]|]
  {
    var h := s.hist;
    var p := |h.popped[j]|;
    DistinctCount(h.completed);
    if p == |h.completed| {
      SubsetCount(h.released[j], SetOf(h.completed));
      assert false;
    }
    assert h.completed[p] in h.completed;
    assert KnownToAll(s, h.completed[p]);
    OldestIsHead(s.nodes[j].queue, h.completed, h.issued, h.known[j], p);
  }

  /** A node in its critical section has popped everything completed. */
  lemma CriticalIsUpToDate(s: System, i: nat)
    requires Shape(s) && i < |s.nodes| && OrderOk(s)
    requires NodeOk(s.nodes[i]) && HistOk(s, i) && TicketOk(s, i)
    requires s.nodes[i].phase.Critical?
    ensures s.hist.released[i] == SetOf(s.hist.completed)
    ensures s.hist.popped[i] == s.hist.completed
  {
    var h := s.hist;
    forall e | e in h.completed
      ensures e in h.released[i]
    {
      if e !in h.released[i] {
        HeadIsOldestCompleted(s, i, e);
        assert false;
      }
    }
    assert h.released[i] == SetOf(h.completed);
    DistinctCount(h.completed);
    assert h.completed[..|h.completed|] == h.completed;
  }

  // ---------------------------------------------------------------- the queue never fills

  /** Of two requests of one node that `j` knows, `j` has seen the first one end. */
  lemma EarlierIsReleased(s: System, j: nat, e: Entry, f: Entry)
    requires Inv(s) && j < |s.nodes|
    requires e in s.hist.known[j] && f in s.hist.known[j] && e.id == f.id && Less(e, f)
    ensures e in s.hist.released[j]
  {
    assert HistOk(s, j);
    assert IssuedOk(s, e) && IssuedOk(s, f);
    assert f in s.hist.completed && e !in s.hist.completed ==> Less(f, e);
    assert e in s.hist.completed;
    if e.id != j {
      assert LinkOk(s, e.id, j);
    }
  }

  /** Requests `j` has queued and not yet seen completed come from distinct nodes. */
  lemma LiveIsOnePerNode(s: System, j: nat)
    requires Inv(s) && j < |s.nodes|
    ensures forall e, f :: e in s.hist.known[j] - s.hist.released[j] && f in s.hist.known[j] - s.hist.released[j] && e.id == f.id ==> e == f
  {
    forall e, f | e in s.hist.known[j] - s.hist.released[j] && f in s.hist.known[j] - s.hist.released[j] && e.id == f.id
      ensures e == f
    {
      if Less(e, f) {
        EarlierIsReleased(s, j, e, f);
      } else if Less(f, e) {
        EarlierIsReleased(s, j, f, e);
      }
    }
  }

  /** The queue of `j` has one entry for every known request it has not seen released. */
  lemma QueueCount(s: System, j: nat)
    requires Shape(s) && j < |s.nodes| && OrderOk(s) && NodesOk(s)
    ensures |s.nodes[j].queue| == |s.hist.known[j] - s.hist.released[j]|
  {
    var h := s.hist;
    assert HistOk(s, j) && NodeOk(s.nodes[j]);
    CompletedIsKnown(s, j);
    assert forall e :: e in h.popped[j] ==> e in h.completed;
    assert StrictlySorted(h.popped[j]);
    CountByRelease(s.nodes[j].queue, h.popped[j], h.known[j], h.released[j]);
  }

  lemma CompletedIsKnown(s: System, j: nat)
    requires Shape(s) && j < |s.nodes| && OrderOk(s)
    ensures forall e :: e in s.hist.completed ==> e in s.hist.known[j]
  {
    forall e | e in s.hist.completed ensures e in s.hist.known[j] {
      assert KnownToAll(s, e);
    }
  }

  /** On values: as many entries are gone as have been released, though not the same ones. */
  lemma CountByRelease(q: seq<Entry>, popped: seq<Entry>, known: set<Entry>, released: set<Entry>)
    requires StrictlySorted(q) && StrictlySorted(popped) && |released| == |popped|
    requires (forall e :: e in popped ==> e in known) && released <= known
    requires forall e :: e in q <==> e in known && e !in popped
    ensures |q| == |known - released|
  {
    DistinctCount(q);
    DistinctCount(popped);
    assert SetOf(q) == known - SetOf(popped);
    DifferenceCount(known, SetOf(popped));
    DifferenceCount(known, released);
  }

  lemma DifferenceCount<T>(a: set<T>, b: set<T>)
    requires b <= a
    ensures |a - b| == |a| - |b|
  {
    assert a == b + (a - b);
  }

  /** No queue ever holds more entries than there are nodes. */
  lemma QueueBound(s: System, j: nat)
    requires Inv(s) && j < |s.nodes|
    ensures |s.nodes[j].queue| <= |s.nodes|
  {
    LiveIsOnePerNode(s, j);
    QueueCount(s, j);
    assert HistOk(s, j);
    forall e | e in s.hist.known[j] - s.hist.released[j] ensures e.id < |s.nodes| {
      assert IssuedOk(s, e);
    }
    OnePerNode(s.hist.known[j] - s.hist.released[j], |s.nodes|);
  }

  /** There is room for one more entry of a node that has none live. */
  lemma RoomFor(s: System, j: nat, e: Entry)
    requires Inv(s) && j < |s.nodes|
    requires e.id < |s.nodes| && e !in s.hist.known[j]
    requires forall f :: f in s.hist.known[j] && f.id == e.id ==> f in s.hist.released[j]
    ensures |s.nodes[j].queue| < |s.nodes| <= MAX
  {
    LiveIsOnePerNode(s, j);
    QueueCount(s, j);
    assert HistOk(s, j);
    var live := s.hist.known[j] - s.hist.released[j];
    forall f | f in live ensures f.id < |s.nodes| {
      assert IssuedOk(s, f);
    }
    OnePerNode(live + {e}, |s.nodes|);
    assert e !in live;
  }
}
