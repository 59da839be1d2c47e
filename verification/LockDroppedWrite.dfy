/** A run in which a SERVER_WRITE is dropped: three nodes, 17 steps. */
module LockDroppedWrite {
  import opened LockQueue
  import opened LockProtocol
  import opened LockTheorems
  import opened LockLiveness

  const E0 := Entry(1, 0)
  const E1 := Entry(3, 1)
  const NONE := [false, false, false]

  /** What can be seen of a system of three nodes. */
  datatype Scene = Scene(nodes: seq<Node>, chan: Channels)

  ghost predicate Shown(s: System, c: Scene) {
    Reachable(3, s) && s.nodes == c.nodes && s.chan == c.chan
  }

  function At(id: nat, clock: nat, queue: seq<Entry>, requested: seq<bool>, lastReq: seq<nat>, replies: nat, phase: Phase): Node {
    Node(id, clock, queue, requested, lastReq, NONE, replies, phase, [], false)
  }

  function Said(mtype: MessageType, ts: nat, node: nat, about: Entry): Packet {
    Packet(Message(mtype, ts, node), about)
  }

  function Reply(ts: nat, node: nat): Packet {
    Packet(Message(REPLY_LOCK, ts, node), Entry(ts, node))
  }

  /** The channels 0-1, 0-2, 1-0, 1-2, 2-0 and 2-1. */
  function Net(c01: seq<Packet>, c02: seq<Packet>, c10: seq<Packet>, c12: seq<Packet>, c20: seq<Packet>, c21: seq<Packet>): Channels {
    [[[], c01, c02], [c10, [], c12], [c20, c21, []]]
  }

  lemma Steps(p: Packet)
    ensures [p][1..] == [] && [] + [p] == [p]
    ensures SortedInsert([], E0) == [E0] && SortedInsert([E0], E1) == [E0, E1] && [E0, E1][1..] == [E1]
    ensures AllAsked(NONE, 0) == [false, true, true] && AllAsked(NONE, 1) == [true, false, true]
    ensures AllStamped([0, 0, 0], 0, 1) == [0, 1, 1] && AllStamped([0, 0, 0], 1, 3) == [3, 0, 3]
    ensures [false, true, true][1 := false] == [false, false, true] && [false, false, true][2 := false] == NONE
    ensures [true, false, true][0 := false] == [false, false, true]
    ensures NONE[0 := false] == NONE && NONE[1 := false] == NONE && NONE[2 := false] == NONE
  {
    assert [E0][..0] == [] && [E0, E1][..1] == [E0];
  }

  lemma Moved(s: System, step: Step, c: Scene)
    requires Reachable(3, s) && Enabled(s, step)
    requires |s.nodes| == |c.nodes| && Square(c.chan, |s.nodes|)
    requires var t := Apply(s, step);
      && (forall a :: 0 <= a < |s.nodes| ==> t.nodes[a] == c.nodes[a])
      && (forall a, b :: 0 <= a < |s.nodes| && 0 <= b < |s.nodes| ==> t.chan[a][b] == c.chan[a][b])
    ensures Shown(Apply(s, step), c)
  {
    var t := Apply(s, step);
    assert forall a :: 0 <= a < |s.nodes| ==> t.chan[a] == c.chan[a];
    ReachesOneMore(3, s, step);
  }

  function Scene0(): Scene {
    Scene([At(0, 0, [], NONE, [0, 0, 0], 0, Idle),
           At(1, 0, [], NONE, [0, 0, 0], 0, Idle),
           At(2, 0, [], NONE, [0, 0, 0], 0, Idle)],
          Net([], [], [], [], [], []))
  }

  function Scene1(): Scene {
    Scene([At(0, 1, [E0], [false, true, true], [0, 1, 1], 0, Collecting(E0)),
           At(1, 0, [], NONE, [0, 0, 0], 0, Idle),
           At(2, 0, [], NONE, [0, 0, 0], 0, Idle)],
          Net([Said(REQUEST_LOCK, 1, 0, E0)], [Said(REQUEST_LOCK, 1, 0, E0)], [], [], [], []))
  }

  function Scene2(): Scene {
    Scene([At(0, 1, [E0], [false, true, true], [0, 1, 1], 0, Collecting(E0)),
           At(1, 2, [E0], NONE, [0, 0, 0], 0, Idle),
           At(2, 0, [], NONE, [0, 0, 0], 0, Idle)],
          Net([], [Said(REQUEST_LOCK, 1, 0, E0)], [Reply(2, 1)], [], [], []))
  }

  function Scene3(): Scene {
    Scene([At(0, 1, [E0], [false, true, true], [0, 1, 1], 0, Collecting(E0)),
           At(1, 2, [E0], NONE, [0, 0, 0], 0, Idle),
           At(2, 2, [E0], NONE, [0, 0, 0], 0, Idle)],
          Net([], [], [Reply(2, 1)], [], [Reply(2, 2)], []))
  }

  function Scene4(): Scene {
    Scene([At(0, 2, [E0], [false, false, true], [0, 1, 1], 1, Collecting(E0)),
           At(1, 2, [E0], NONE, [0, 0, 0], 0, Idle),
           At(2, 2, [E0], NONE, [0, 0, 0], 0, Idle)],
          Net([], [], [], [], [Reply(2, 2)], []))
  }

  function Scene5(): Scene {
    Scene([At(0, 2, [E0], NONE, [0, 1, 1], 2, Collecting(E0)),
           At(1, 2, [E0], NONE, [0, 0, 0], 0, Idle),
           At(2, 2, [E0], NONE, [0, 0, 0], 0, Idle)],
          Net([], [], [], [], [], []))
  }

  function Scene6(): Scene {
    Scene([At(0, 2, [E0], NONE, [0, 1, 1], 0, Ordering(E0)),
           At(1, 2, [E0], NONE, [0, 0, 0], 0, Idle),
           At(2, 2, [E0], NONE, [0, 0, 0], 0, Idle)],
          Net([], [], [], [], [], []))
  }

  function Scene7(): Scene {
    Scene([At(0, 2, [E0], NONE, [0, 1, 1], 0, Critical(E0)),
           At(1, 2, [E0], NONE, [0, 0, 0], 0, Idle),
           At(2, 2, [E0], NONE, [0, 0, 0], 0, Idle)],
          Net([], [], [], [], [], []))
  }

  function Scene8(): Scene {
    Scene([At(0, 2, [E0], NONE, [0, 1, 1], 0, Critical(E0)),
           At(1, 3, [E0, E1], [true, false, true], [3, 0, 3], 0, Collecting(E1)),
           At(2, 2, [E0], NONE, [0, 0, 0], 0, Idle)],
          Net([], [], [Said(REQUEST_LOCK, 3, 1, E1)], [Said(REQUEST_LOCK, 3, 1, E1)], [], []))
  }

  function Scene9(): Scene {
    Scene([At(0, 4, [E0, E1], NONE, [0, 1, 1], 0, Critical(E0)),
           At(1, 3, [E0, E1], [true, false, true], [3, 0, 3], 0, Collecting(E1)),
           At(2, 2, [E0], NONE, [0, 0, 0], 0, Idle)],
          Net([Reply(4, 0)], [], [], [Said(REQUEST_LOCK, 3, 1, E1)], [], []))
  }

  function Scene10(): Scene {
    Scene([At(0, 4, [E0, E1], NONE, [0, 1, 1], 0, Critical(E0)),
           At(1, 3, [E0, E1], [true, false, true], [3, 0, 3], 0, Collecting(E1)),
           At(2, 4, [E0, E1], NONE, [0, 0, 0], 0, Idle)],
          Net([Reply(4, 0)], [], [], [], [], [Reply(4, 2)]))
  }

  function Scene11(): Scene {
    Scene([At(0, 4, [E0, E1], NONE, [0, 1, 1], 0, Critical(E0)),
           At(1, 4, [E0, E1], [false, false, true], [3, 0, 3], 1, Collecting(E1)),
           At(2, 4, [E0, E1], NONE, [0, 0, 0], 0, Idle)],
          Net([], [], [], [], [], [Reply(4, 2)]))
  }

  function Scene12(): Scene {
    Scene([At(0, 4, [E0, E1], NONE, [0, 1, 1], 0, Critical(E0)),
           At(1, 4, [E0, E1], NONE, [3, 0, 3], 2, Collecting(E1)),
           At(2, 4, [E0, E1], NONE, [0, 0, 0], 0, Idle)],
          Net([], [], [], [], [], []))
  }

  function Scene13(): Scene {
    Scene([At(0, 4, [E0, E1], NONE, [0, 1, 1], 0, Critical(E0)),
           At(1, 4, [E0, E1], NONE, [3, 0, 3], 0, Ordering(E1)),
           At(2, 4, [E0, E1], NONE, [0, 0, 0], 0, Idle)],
          Net([], [], [], [], [], []))
  }

  function Scene14(): Scene {
    Scene([At(0, 5, [E1], NONE, [0, 1, 1], 0, Idle),
           At(1, 4, [E0, E1], NONE, [3, 0, 3], 0, Ordering(E1)),
           At(2, 4, [E0, E1], NONE, [0, 0, 0], 0, Idle)],
          Net([Said(RELEASE_LOCK, 5, 0, E0)], [Said(RELEASE_LOCK, 5, 0, E0)], [], [], [], []))
  }

  function Scene15(): Scene {
    Scene([At(0, 5, [E1], NONE, [0, 1, 1], 0, Idle),
           At(1, 5, [E1], NONE, [3, 0, 3], 0, Ordering(E1)),
           At(2, 4, [E0, E1], NONE, [0, 0, 0], 0, Idle)],
          Net([], [Said(RELEASE_LOCK, 5, 0, E0)], [], [], [], []))
  }

  function Scene16(): Scene {
    Scene([At(0, 5, [E1], NONE, [0, 1, 1], 0, Idle),
           At(1, 5, [E1], NONE, [3, 0, 3], 0, Critical(E1)),
           At(2, 4, [E0, E1], NONE, [0, 0, 0], 0, Idle)],
          Net([], [Said(RELEASE_LOCK, 5, 0, E0)], [], [], [], []))
  }

  function Scene17(): Scene {
    Scene([At(0, 5, [E1], NONE, [0, 1, 1], 0, Idle),
           At(1, 6, [E1], NONE, [3, 0, 3], 0, Critical(E1)),
           At(2, 4, [E0, E1], NONE, [0, 0, 0], 0, Idle)],
          Net([], [Said(RELEASE_LOCK, 5, 0, E0)], [Said(SERVER_WRITE, 6, 1, E1)], [Said(SERVER_WRITE, 6, 1, E1)], [], []))
  }

  lemma Move0(s: System)
    requires Shown(s, Scene0())
    ensures Enabled(s, LockStep(0)) && Shown(Apply(s, LockStep(0)), Scene1())
  {
    Steps(Reply(0, 0));
    Moved(s, LockStep(0), Scene1());
  }

  lemma Move1(s: System)
    requires Shown(s, Scene1())
    ensures Enabled(s, DeliverStep(0, 1)) && Shown(Apply(s, DeliverStep(0, 1)), Scene2())
  {
    Steps(s.chan[0][1][0]);
    Moved(s, DeliverStep(0, 1), Scene2());
  }

  lemma Move2(s: System)
    requires Shown(s, Scene2())
    ensures Enabled(s, DeliverStep(0, 2)) && Shown(Apply(s, DeliverStep(0, 2)), Scene3())
  {
    Steps(s.chan[0][2][0]);
    Moved(s, DeliverStep(0, 2), Scene3());
  }

  lemma Move3(s: System)
    requires Shown(s, Scene3())
    ensures Enabled(s, DeliverStep(1, 0)) && Shown(Apply(s, DeliverStep(1, 0)), Scene4())
  {
    Steps(s.chan[1][0][0]);
    Moved(s, DeliverStep(1, 0), Scene4());
  }

  lemma Move4(s: System)
    requires Shown(s, Scene4())
    ensures Enabled(s, DeliverStep(2, 0)) && Shown(Apply(s, DeliverStep(2, 0)), Scene5())
  {
    Steps(s.chan[2][0][0]);
    Moved(s, DeliverStep(2, 0), Scene5());
  }

  lemma Move5(s: System)
    requires Shown(s, Scene5())
    ensures Enabled(s, CollectStep(0)) && Shown(Apply(s, CollectStep(0)), Scene6())
  {
    Steps(Reply(0, 0));
    Moved(s, CollectStep(0), Scene6());
  }

  lemma Move6(s: System)
    requires Shown(s, Scene6())
    ensures Enabled(s, EnterStep(0)) && Shown(Apply(s, EnterStep(0)), Scene7())
  {
    Steps(Reply(0, 0));
    Moved(s, EnterStep(0), Scene7());
  }

  lemma Move7(s: System)
    requires Shown(s, Scene7())
    ensures Enabled(s, LockStep(1)) && Shown(Apply(s, LockStep(1)), Scene8())
  {
    Steps(Reply(0, 0));
    Moved(s, LockStep(1), Scene8());
  }

  lemma Move8(s: System)
    requires Shown(s, Scene8())
    ensures Enabled(s, DeliverStep(1, 0)) && Shown(Apply(s, DeliverStep(1, 0)), Scene9())
  {
    Steps(s.chan[1][0][0]);
    Moved(s, DeliverStep(1, 0), Scene9());
  }

  lemma Move9(s: System)
    requires Shown(s, Scene9())
    ensures Enabled(s, DeliverStep(1, 2)) && Shown(Apply(s, DeliverStep(1, 2)), Scene10())
  {
    Steps(s.chan[1][2][0]);
    Moved(s, DeliverStep(1, 2), Scene10());
  }

  lemma Move10(s: System)
    requires Shown(s, Scene10())
    ensures Enabled(s, DeliverStep(0, 1)) && Shown(Apply(s, DeliverStep(0, 1)), Scene11())
  {
    Steps(s.chan[0][1][0]);
    Moved(s, DeliverStep(0, 1), Scene11());
  }

  lemma Move11(s: System)
    requires Shown(s, Scene11())
    ensures Enabled(s, DeliverStep(2, 1)) && Shown(Apply(s, DeliverStep(2, 1)), Scene12())
  {
    Steps(s.chan[2][1][0]);
    Moved(s, DeliverStep(2, 1), Scene12());
  }

  lemma Move12(s: System)
    requires Shown(s, Scene12())
    ensures Enabled(s, CollectStep(1)) && Shown(Apply(s, CollectStep(1)), Scene13())
  {
    Steps(Reply(0, 0));
    Moved(s, CollectStep(1), Scene13());
  }

  lemma Move13(s: System)
    requires Shown(s, Scene13())
    ensures Enabled(s, UnlockStep(0)) && Shown(Apply(s, UnlockStep(0)), Scene14())
  {
    Steps(Reply(0, 0));
    Moved(s, UnlockStep(0), Scene14());
  }

  lemma Move14(s: System)
    requires Shown(s, Scene14())
    ensures Enabled(s, DeliverStep(0, 1)) && Shown(Apply(s, DeliverStep(0, 1)), Scene15())
  {
    Steps(s.chan[0][1][0]);
    Moved(s, DeliverStep(0, 1), Scene15());
  }

  lemma Move15(s: System)
    requires Shown(s, Scene15())
    ensures Enabled(s, EnterStep(1)) && Shown(Apply(s, EnterStep(1)), Scene16())
  {
    Steps(Reply(0, 0));
    Moved(s, EnterStep(1), Scene16());
  }

  lemma Move16(s: System)
    requires Shown(s, Scene16())
    ensures Enabled(s, WriteStep(1)) && Shown(Apply(s, WriteStep(1)), Scene17())
  {
    Steps(Reply(0, 0));
    Moved(s, WriteStep(1), Scene17());
  }

  lemma Opening()
    ensures Shown(Init(3), Scene0())
  {
    var s := Init(3);
    assert Reaches(3, [], s);
    assert forall a :: 0 <= a < 3 ==> s.nodes[a] == Scene0().nodes[a] && s.chan[a] == Scene0().chan[a];
  }

  /** Node 0 has left its critical section, node 1 has heard of it and is in its own, but to node 2 the
      RELEASE of node 0 is still on its way when the write of node 1 arrives: node 2 drops it. */
  lemma AWriteIsDropped() returns (s: System)
    ensures Reachable(3, s) && s.nodes[1].phase.Critical? && Enabled(s, DeliverStep(1, 2))
    ensures s.chan[1][2][0].msg == Message(SERVER_WRITE, 6, 1)
    ensures Apply(s, DeliverStep(1, 2)).nodes[2].applied == s.nodes[2].applied
  {
    Opening();
    s := Init(3);
    s := Act1(s);
    s := Act2(s);
    s := Act3(s);
  }

  /** Node 0 acquires the lock. */
  lemma Act1(s: System) returns (t: System)
    requires Shown(s, Scene0())
    ensures Shown(t, Scene7())
  {
    t := s;
    Move0(t);
    t := Apply(t, LockStep(0));
    Move1(t);
    t := Apply(t, DeliverStep(0, 1));
    Move2(t);
    t := Apply(t, DeliverStep(0, 2));
    Move3(t);
    t := Apply(t, DeliverStep(1, 0));
    Move4(t);
    t := Apply(t, DeliverStep(2, 0));
    Move5(t);
    t := Apply(t, CollectStep(0));
    Move6(t);
    t := Apply(t, EnterStep(0));
  }

  /** Node 1 asks for it and gets all replies. */
  lemma Act2(s: System) returns (t: System)
    requires Shown(s, Scene7())
    ensures Shown(t, Scene13())
  {
    t := s;
    Move7(t);
    t := Apply(t, LockStep(1));
    Move8(t);
    t := Apply(t, DeliverStep(1, 0));
    Move9(t);
    t := Apply(t, DeliverStep(1, 2));
    Move10(t);
    t := Apply(t, DeliverStep(0, 1));
    Move11(t);
    t := Apply(t, DeliverStep(2, 1));
    Move12(t);
    t := Apply(t, CollectStep(1));
  }

  /** Node 0 releases it, node 1 enters and writes. */
  lemma Act3(s: System) returns (t: System)
    requires Shown(s, Scene13())
    ensures Shown(t, Scene17())
  {
    t := s;
    Move13(t);
    t := Apply(t, UnlockStep(0));
    Move14(t);
    t := Apply(t, DeliverStep(0, 1));
    Move15(t);
    t := Apply(t, EnterStep(1));
    Move16(t);
    t := Apply(t, WriteStep(1));
  }
}
