/** The ABD register: majority query, majority write-back and conditional server update (client.c,
    abd.c, server-part1.c), as a transition system with arbitrary delays. */
module Abd {
  import opened Wrappers
  import opened Counting

  datatype Tag = Tag(timestamp: nat, clientId: nat)

  /** `abd_tag_cmp`: whether `one` is the later tag. */
  predicate Later(one: Tag, two: Tag) {
    one.timestamp > two.timestamp || (one.timestamp == two.timestamp && one.clientId > two.clientId)
  }

  predicate Le(one: Tag, two: Tag) {
    !Later(one, two)
  }

  /** Tags are totally ordered, by their timestamps, and equal timestamps by client ids. */
  lemma TagOrder(a: Tag, b: Tag, c: Tag)
    ensures a.timestamp > b.timestamp ==> Later(a, b)
    ensures a.timestamp == b.timestamp ==> (Later(a, b) <==> a.clientId > b.clientId)
    ensures Later(a, b) && Later(b, c) ==> Later(a, c)
    ensures !(Later(a, b) && Later(b, a))
    ensures a == b <==> !Later(a, b) && !Later(b, a)
  {}

  /** What a server stores for the key. */
  datatype Cell = Cell(value: string, tag: Tag)

  /** How many answers of its own an operation waits for: in the source, as many as the semaphores,
      which keep all earlier posts, still lack of a majority (`Shared`).  `Own` says the number
      outright, for queries and for updates. */
  datatype Waits = Own(queries: nat, updates: nat) | Shared

  /** Deviations of the client and whether they are repaired: it copies the value of every reply, not
      only of the latest; and it reads timestamp and client id from the start of the reply again, where
      the value is. */
  datatype Client = Client(valueFollowsTag: bool, tagFromReply: bool)

  const CODED_CLIENT := Client(false, false)
  const REPAIRED_CLIENT := Client(true, true)

  /** The same of the whole system: the server parses its stored value over the incoming one; the
      semaphores are shared. */
  datatype Variant = Variant(client: Client, serverKeepsIncoming: bool, waits: Waits)

  const CLIENT_ID := 10

  /** What a client starts a query with. */
  function Unset(): Cell {
    Cell("", Tag(0, CLIENT_ID))
  }

  predicate IsSpace(c: char) {
    c in {' ', '\t', '\n', '\r', 0x0B as char, 0x0C as char}
  }

  /** The digits at the start of a string, behind those that make up `high`. */
  function Digits(s: string, high: nat): nat {
    if s == [] || !('0' <= s[0] <= '9') then high else Digits(s[1..], 10 * high + (s[0] as int - '0' as int))
  }

  /** `atoi`, converted to 32 bits without a sign. */
  function Atoi(s: string): nat {
    if s != [] && IsSpace(s[0]) then Atoi(s[1..])
    else if s != [] && s[0] == '-' then (0 - Digits(s[1..], 0)) % 0x1_0000_0000
    else if s != [] && s[0] == '+' then Digits(s[1..], 0) % 0x1_0000_0000
    else Digits(s, 0) % 0x1_0000_0000
  }

  /** The tag the client of the source makes of a value. */
  function NumberTag(value: string): Tag {
    Tag(Atoi(value), Atoi(value))
  }

  /** The tag a client sees in a reply. */
  function Seen(reply: Cell, c: Client): Tag {
    if c.tagFromReply then reply.tag else NumberTag(reply.value)
  }

  /** A client takes in one reply. */
  function Collect(mine: Cell, reply: Cell, c: Client): Cell {
    var seen := Seen(reply, c);
    var tag := if Later(seen, mine.tag) then seen else mine.tag;
    var value := if c.valueFollowsTag && Later(mine.tag, seen) then mine.value else reply.value;
    Cell(value, tag)
  }

  /** A server takes in an update. */
  function Updated(stored: Cell, incoming: Cell, serverKeepsIncoming: bool): Cell {
    if Later(incoming.tag, stored.tag)
    then Cell(if serverKeepsIncoming then incoming.value else stored.value, incoming.tag)
    else stored
  }

  // ---------------------------------------------------------------- the transition system

  datatype Phase = Querying | Writing | Finished

  /** One operation.  `replies` are the answers of the servers, `received` those that have arrived;
      `applied` are the servers that have processed the update, `acked` those whose answer has
      arrived.  `before` and `floor` record, for the statements below, the operations finished and the
      servers' cells when this one started. */
  datatype Op = Op(isRead: bool, phase: Phase, replies: map<nat, Cell>, received: set<nat>, cell: Cell,
                   applied: set<nat>, acked: set<nat>, before: set<nat>, floor: seq<Cell>)

  datatype State = State(servers: seq<Cell>, ops: seq<Op>, readPosts: nat, writePosts: nat)

  datatype Event =
    | StartRead
    | StartWrite(cell: Cell)
    | ServerQuery(op: nat, server: nat)
    | ClientReply(op: nat, server: nat)
    | WriteBack(op: nat)
    | ServerUpdate(op: nat, server: nat)
    | ClientAck(op: nat, server: nat)
    | Finish(op: nat)

  function Majority(n: nat): nat {
    n / 2 + 1
  }

  /** The indices of the finished operations. */
  function FinishedOps(ops: seq<Op>): (f: set<nat>)
    ensures forall a: nat :: a in f <==> a < |ops| && ops[a].phase.Finished?
  {
    if ops == [] then {}
    else
      var n := |ops| - 1;
      FinishedOps(ops[..n]) + (if ops[n].phase.Finished? then {n} else {})
  }

  predicate Enabled(s: State, e: Event, v: Variant) {
    match e
    case StartRead => true
    case StartWrite(_) => true
    case ServerQuery(op, i) => op < |s.ops| && s.ops[op].isRead && i < |s.servers| && i !in s.ops[op].replies
    case ClientReply(op, i) => op < |s.ops| && i in s.ops[op].replies && i !in s.ops[op].received
    case WriteBack(op) =>
      && op < |s.ops| && s.ops[op].phase.Querying?
      && (match v.waits case Own(r, _) => |s.ops[op].received| >= r case Shared => s.readPosts >= Majority(|s.servers|))
    case ServerUpdate(op, i) => op < |s.ops| && !s.ops[op].phase.Querying? && i < |s.servers| && i !in s.ops[op].applied
    case ClientAck(op, i) => op < |s.ops| && i in s.ops[op].applied && i !in s.ops[op].acked
    case Finish(op) =>
      && op < |s.ops| && s.ops[op].phase.Writing?
      && (match v.waits case Own(_, w) => |s.ops[op].acked| >= w case Shared => s.writePosts >= Majority(|s.servers|))
  }

  function Apply(s: State, e: Event, v: Variant): State
    requires Enabled(s, e, v)
  {
    match e
    case StartRead =>
      s.(ops := s.ops + [Op(true, Querying, map[], {}, Unset(), {}, {}, FinishedOps(s.ops), s.servers)])
    case StartWrite(cell) =>
      s.(ops := s.ops + [Op(false, Writing, map[], {}, cell, {}, {}, FinishedOps(s.ops), s.servers)])
    case ServerQuery(op, i) =>
      var o := s.ops[op];
      s.(ops := s.ops[op := o.(replies := o.replies[i := s.servers[i]])])
    case ClientReply(op, i) =>
      // A reply that arrives after the query phase no longer changes what is written back.
      var o := s.ops[op];
      var cell := if o.phase.Querying? then Collect(o.cell, o.replies[i], v.client) else o.cell;
      s.(ops := s.ops[op := o.(received := o.received + {i}, cell := cell)], readPosts := s.readPosts + 1)
    case WriteBack(op) =>
      s.(ops := s.ops[op := s.ops[op].(phase := Writing)])
    case ServerUpdate(op, i) =>
      var o := s.ops[op];
      s.(servers := s.servers[i := Updated(s.servers[i], o.cell, v.serverKeepsIncoming)],
         ops := s.ops[op := o.(applied := o.applied + {i})])
    case ClientAck(op, i) =>
      var o := s.ops[op];
      s.(ops := s.ops[op := o.(acked := o.acked + {i})], writePosts := s.writePosts + 1)
    case Finish(op) =>
      s.(ops := s.ops[op := s.ops[op].(phase := Finished)])
  }

  function Start(servers: seq<Cell>): State {
    State(servers, [], 0, 0)
  }

  /** The state after a run, if every event was possible when it happened. */
  function Run(servers: seq<Cell>, events: seq<Event>, v: Variant): Option<State> {
    if events == [] then Some(Start(servers))
    else
      var n := |events| - 1;
      var before := Run(servers, events[..n], v);
      if before.Some? && Enabled(before.value, events[n], v) then Some(Apply(before.value, events[n], v)) else None
  }

  // ---------------------------------------------------------------- what every step keeps

  /** Every reply comes from a server that is at least where it was when the operation started. */
  ghost predicate SoundReplies(s: State, o: Op, c: Client) {
    && |o.floor| == |s.servers|
    && (forall i: nat :: i < |s.servers| ==> Le(o.floor[i].tag, s.servers[i].tag))
    && (forall i: nat :: i in o.replies ==> i < |s.servers| && Le(o.floor[i].tag, o.replies[i].tag))
    && o.received <= o.replies.Keys
    && (o.isRead && o.phase.Querying? ==> AtLeastSeen(o, c))
  }

  ghost predicate AtLeastSeen(o: Op, c: Client)
    requires o.received <= o.replies.Keys
  {
    Le(Unset().tag, o.cell.tag) && forall i :: i in o.received ==> Le(Seen(o.replies[i], c), o.cell.tag)
  }

  /** An update that has been processed is not undone. */
  ghost predicate SoundUpdates(s: State, o: Op, w: nat) {
    && o.acked <= o.applied <= Ids(|s.servers|)
    && (o.phase.Querying? ==> o.isRead && o.applied == {})
    && (forall i: nat :: i in o.applied && i < |s.servers| ==> Le(o.cell.tag, s.servers[i].tag))
    && (o.phase.Finished? ==> |o.acked| >= w)
  }

  /** At least `w` servers of `floor` had reached `tag`. */
  ghost predicate Reached(tag: Tag, floor: seq<Cell>, w: nat) {
    exists q: set<nat> :: q <= Ids(|floor|) && |q| >= w && ReachedBy(q, tag, floor)
  }

  ghost predicate ReachedBy(q: set<nat>, tag: Tag, floor: seq<Cell>) {
    forall i: nat :: i in q && i < |floor| ==> Le(tag, floor[i].tag)
  }

  /** What was finished before an operation is below what it started from, and below what it writes. */
  ghost predicate SoundOrder(s: State, o: Op, w: nat) {
    forall a :: a in o.before ==>
      && a < |s.ops| && s.ops[a].phase.Finished?
      && Reached(s.ops[a].cell.tag, o.floor, w)
      && (o.isRead && !o.phase.Querying? ==> Le(s.ops[a].cell.tag, o.cell.tag))
  }

  ghost predicate Sound(s: State, o: Op, c: Client, w: nat) {
    SoundReplies(s, o, c) && SoundUpdates(s, o, w)
  }

  /** `w` is the number of answers an operation waits for before it is finished. */
  ghost predicate Inv(s: State, c: Client, w: nat) {
    forall j :: 0 <= j < |s.ops| ==> Sound(s, s.ops[j], c, w) && SoundOrder(s, s.ops[j], w)
  }

  /** The servers only move forward; operations keep what they have recorded. */
  ghost predicate Forward(s: State, t: State) {
    && |t.servers| == |s.servers| && |t.ops| >= |s.ops|
    && (forall i :: 0 <= i < |s.servers| ==> Le(s.servers[i].tag, t.servers[i].tag))
    && (forall j :: 0 <= j < |s.ops| ==> Continued(s.ops[j], t.ops[j]))
  }

  ghost predicate Continued(o: Op, p: Op) {
    && p.before == o.before && p.floor == o.floor && p.isRead == o.isRead
    && (o.phase.Finished? ==> p.phase.Finished?)
    && (!o.phase.Querying? ==> p.cell == o.cell && !p.phase.Querying?)
  }

  lemma StepForward(s: State, e: Event, v: Variant)
    requires Enabled(s, e, v)
    ensures Forward(s, Apply(s, e, v))
  {}

  /** What the step did not touch stays sound. */
  lemma ForwardKeeps(s: State, t: State, o: Op, c: Client, w: nat)
    requires Forward(s, t)
    ensures SoundReplies(s, o, c) ==> SoundReplies(t, o, c)
    ensures SoundUpdates(s, o, w) ==> SoundUpdates(t, o, w)
    ensures SoundOrder(s, o, w) ==> SoundOrder(t, o, w)
  {
    assert forall a, b, c :: Le(a, b) && Le(b, c) ==> Le(a, c);
  }

  lemma CollectRises(mine: Cell, reply: Cell, c: Client)
    ensures Le(mine.tag, Collect(mine, reply, c).tag) && Le(Seen(reply, c), Collect(mine, reply, c).tag)
    ensures Collect(mine, reply, c).tag in {mine.tag, Seen(reply, c)}
  {}

  lemma QuerySound(s: State, op: nat, i: nat, v: Variant, w: nat)
    requires Enabled(s, ServerQuery(op, i), v) && Sound(s, s.ops[op], v.client, w)
    ensures var t := Apply(s, ServerQuery(op, i), v); Sound(t, t.ops[op], v.client, w)
  {}

  lemma ReplySound(s: State, op: nat, i: nat, v: Variant, w: nat)
    requires Enabled(s, ClientReply(op, i), v) && Sound(s, s.ops[op], v.client, w)
    ensures var t := Apply(s, ClientReply(op, i), v); Sound(t, t.ops[op], v.client, w)
  {
    var o, p := s.ops[op], Apply(s, ClientReply(op, i), v).ops[op];
    if o.phase.Querying? {
      CollectRises(o.cell, o.replies[i], v.client);
      TagOrder(Unset().tag, o.cell.tag, p.cell.tag);
      forall k | k in p.received ensures Le(Seen(p.replies[k], v.client), p.cell.tag) {
        if k != i {
          TagOrder(Seen(o.replies[k], v.client), o.cell.tag, p.cell.tag);
        }
      }
    }
  }

  lemma UpdateSound(s: State, op: nat, i: nat, v: Variant, w: nat)
    requires Enabled(s, ServerUpdate(op, i), v) && Sound(s, s.ops[op], v.client, w)
    ensures var t := Apply(s, ServerUpdate(op, i), v); Sound(t, t.ops[op], v.client, w)
  {
    StepForward(s, ServerUpdate(op, i), v);
    ForwardKeeps(s, Apply(s, ServerUpdate(op, i), v), s.ops[op], v.client, w);
  }

  lemma AckSound(s: State, op: nat, i: nat, v: Variant, w: nat)
    requires Enabled(s, ClientAck(op, i), v) && Sound(s, s.ops[op], v.client, w)
    ensures var t := Apply(s, ClientAck(op, i), v); Sound(t, t.ops[op], v.client, w)
  {
    SubsetCount(s.ops[op].acked, s.ops[op].acked + {i});
  }

  /** What a new operation starts from. */
  ghost predicate New(s: State, o: Op) {
    && o.before == FinishedOps(s.ops) && o.floor == s.servers
    && o.replies == map[] && o.received == {} && o.applied == {} && o.acked == {}
    && !o.phase.Finished? && (o.phase.Querying? <==> o.isRead) && (o.isRead ==> o.cell == Unset())
  }

  predicate Touches(e: Event, j: nat, n: nat) {
    if e.StartRead? || e.StartWrite? then j == n else j == e.op
  }

  lemma UntouchedSame(s: State, e: Event, v: Variant, j: nat)
    requires Enabled(s, e, v) && !Touches(e, j, |s.ops|) && j < |Apply(s, e, v).ops|
    ensures j < |s.ops| && Apply(s, e, v).ops[j] == s.ops[j]
  {}

  /** A finished operation has as many answers as are asked for. */
  predicate FinishesWith(v: Variant, w: nat) {
    w == 0 || (v.waits.Own? && v.waits.updates == w)
  }

  lemma TouchedSound(s: State, e: Event, v: Variant, j: nat, w: nat)
    requires Enabled(s, e, v) && Touches(e, j, |s.ops|) && FinishesWith(v, w)
    requires j < |s.ops| ==> Sound(s, s.ops[j], v.client, w)
    ensures j < |Apply(s, e, v).ops| && Sound(Apply(s, e, v), Apply(s, e, v).ops[j], v.client, w)
  {
    match e
    case StartRead =>
    case StartWrite(_) =>
    case ServerQuery(op, i) => QuerySound(s, op, i, v, w);
    case ClientReply(op, i) => ReplySound(s, op, i, v, w);
    case WriteBack(op) =>
    case ServerUpdate(op, i) => UpdateSound(s, op, i, v, w);
    case ClientAck(op, i) => AckSound(s, op, i, v, w);
    case Finish(op) =>
  }

  /** Every step keeps what single operations know of the servers, whatever is waited for. */
  lemma StepKeepsSound(s: State, e: Event, v: Variant, w: nat)
    requires Enabled(s, e, v) && FinishesWith(v, w)
    requires forall j :: 0 <= j < |s.ops| ==> Sound(s, s.ops[j], v.client, w)
    ensures var t := Apply(s, e, v); forall j :: 0 <= j < |t.ops| ==> Sound(t, t.ops[j], v.client, w)
  {
    var t := Apply(s, e, v);
    StepForward(s, e, v);
    forall j | 0 <= j < |t.ops| ensures Sound(t, t.ops[j], v.client, w) {
      if Touches(e, j, |s.ops|) {
        TouchedSound(s, e, v, j, w);
      } else {
        UntouchedSame(s, e, v, j);
        ForwardKeeps(s, t, t.ops[j], v.client, w);
      }
    }
  }

  // ---------------------------------------------------------------- the order of operations

  /** What a client sees in a reply is not behind the reply, unless that is behind every query. */
  ghost predicate Trusted(reply: Cell, c: Client) {
    Le(reply.tag, Unset().tag) || Le(reply.tag, Seen(reply, c))
  }

  ghost predicate TrustedReplies(o: Op, c: Client) {
    forall i :: i in o.replies ==> Trusted(o.replies[i], c)
  }

  /** The answers waited for overlap: any servers heard by a read include one that a finished operation
      has reached. */
  predicate Overlap(v: Variant, n: nat, w: nat) {
    v.waits.Own? && v.waits.updates == w && v.waits.queries + w > n
  }

  /** A query that has heard from enough servers is at or above everything finished before it started. */
  lemma HeardEnough(s: State, o: Op, c: Client, tag: Tag, w: nat)
    requires SoundReplies(s, o, c) && TrustedReplies(o, c) && o.isRead && o.phase.Querying?
    requires |o.received| + w > |s.servers| && Reached(tag, o.floor, w)
    ensures Le(tag, o.cell.tag)
  {
    var q: set<nat> :| q <= Ids(|o.floor|) && |q| >= w && ReachedBy(q, tag, o.floor);
    assert o.received <= Ids(|o.floor|);
    var i := SetsMeet(q, o.received, |o.floor|);
    var reply := o.replies[i];
    assert Trusted(reply, c) && Le(Seen(reply, c), o.cell.tag);
    TagOrder(tag, o.floor[i].tag, reply.tag);
    TagOrder(reply.tag, Unset().tag, o.cell.tag);
    TagOrder(reply.tag, Seen(reply, c), o.cell.tag);
    TagOrder(tag, reply.tag, o.cell.tag);
  }

  lemma WriteBackOrder(s: State, op: nat, v: Variant, w: nat)
    requires Enabled(s, WriteBack(op), v) && Sound(s, s.ops[op], v.client, w) && SoundOrder(s, s.ops[op], w)
    requires s.ops[op].isRead && TrustedReplies(s.ops[op], v.client) && |s.ops[op].received| + w > |s.servers|
    ensures SoundOrder(s, Apply(s, WriteBack(op), v).ops[op], w)
  {
    var o := s.ops[op];
    forall a | a in o.before ensures Le(s.ops[a].cell.tag, o.cell.tag) {
      HeardEnough(s, o, v.client, s.ops[a].cell.tag, w);
    }
  }

  lemma NewOrder(s: State, o: Op, c: Client, w: nat)
    requires New(s, o) && forall a :: a in o.before ==> Sound(s, s.ops[a], c, w)
    ensures SoundOrder(s, o, w)
  {
    forall a | a in o.before ensures Reached(s.ops[a].cell.tag, o.floor, w) {
      var d := s.ops[a];
      assert SoundUpdates(s, d, w);
      assert d.acked <= Ids(|o.floor|) && |d.acked| >= w && ReachedBy(d.acked, d.cell.tag, o.floor);
    }
  }

  lemma ContinuedOrder(s: State, o: Op, p: Op, w: nat)
    requires SoundOrder(s, o, w) && Continued(o, p) && (o.phase.Querying? ==> p.phase.Querying?)
    ensures SoundOrder(s, p, w)
  {}

  /** An operation keeps its order in every step that does not end its query. */
  lemma OrderStays(s: State, e: Event, v: Variant, j: nat, w: nat)
    requires Enabled(s, e, v) && j < |s.ops| && e != WriteBack(j) && SoundOrder(s, s.ops[j], w)
    ensures SoundOrder(s, Apply(s, e, v).ops[j], w)
  {
    StepForward(s, e, v);
    ContinuedOrder(s, s.ops[j], Apply(s, e, v).ops[j], w);
  }

  lemma TouchedOrder(s: State, e: Event, v: Variant, j: nat, w: nat)
    requires Inv(s, v.client, w) && Enabled(s, e, v) && Overlap(v, |s.servers|, w) && Touches(e, j, |s.ops|)
    requires e.WriteBack? ==> TrustedReplies(s.ops[e.op], v.client)
    ensures j < |Apply(s, e, v).ops| && SoundOrder(s, Apply(s, e, v).ops[j], w)
  {
    var t := Apply(s, e, v);
    if e.StartRead? || e.StartWrite? {
      NewOrder(s, t.ops[j], v.client, w);
    } else {
      assert Sound(s, s.ops[j], v.client, w) && SoundOrder(s, s.ops[j], w);
      if e.WriteBack? {
        WriteBackOrder(s, j, v, w);
      } else {
        OrderStays(s, e, v, j, w);
      }
    }
  }

  /** Every step keeps the invariant, if the answers waited for overlap and the replies to a query that
      ends can be trusted. */
  lemma StepKeepsInv(s: State, e: Event, v: Variant, w: nat)
    requires Inv(s, v.client, w) && Enabled(s, e, v) && Overlap(v, |s.servers|, w)
    requires e.WriteBack? ==> TrustedReplies(s.ops[e.op], v.client)
    ensures Inv(Apply(s, e, v), v.client, w)
  {
    var t := Apply(s, e, v);
    StepForward(s, e, v);
    StepKeepsSound(s, e, v, w);
    forall j | 0 <= j < |t.ops| ensures SoundOrder(t, t.ops[j], w) {
      if Touches(e, j, |s.ops|) {
        TouchedOrder(s, e, v, j, w);
      } else {
        UntouchedSame(s, e, v, j);
      }
      ForwardKeeps(s, t, t.ops[j], v.client, w);
    }
  }

  lemma {:induction false} RunKeepsInv(servers: seq<Cell>, events: seq<Event>, v: Variant)
    requires v.waits.Own? && Overlap(v, |servers|, v.waits.updates) && v.client.tagFromReply && Run(servers, events, v).Some?
    ensures var s := Run(servers, events, v).value; |s.servers| == |servers| && Inv(s, v.client, v.waits.updates)
  {
    if events != [] {
      var n := |events| - 1;
      RunKeepsInv(servers, events[..n], v);
      StepKeepsInv(Run(servers, events[..n], v).value, events[n], v, v.waits.updates);
    }
  }

  /** Nothing that was finished before the operation has a later tag. */
  ghost predicate InOrder(s: State, o: Op) {
    forall a :: a in o.before ==> a < |s.ops| && Le(s.ops[a].cell.tag, o.cell.tag)
  }

  /** No read that started after another operation had finished has a smaller tag. */
  ghost predicate NeverBack(s: State) {
    forall b :: 0 <= b < |s.ops| && s.ops[b].isRead && !s.ops[b].phase.Querying? ==> InOrder(s, s.ops[b])
  }

  lemma InvMeansNeverBack(s: State, c: Client, w: nat)
    requires Inv(s, c, w)
    ensures NeverBack(s)
  {
    forall b | 0 <= b < |s.ops| && s.ops[b].isRead && !s.ops[b].phase.Querying? ensures InOrder(s, s.ops[b]) {
      assert SoundOrder(s, s.ops[b], w);
    }
  }

  /** If the client reads the tags of replies, and the answers a read and a write wait for are together
      more than there are servers, reads never go back, under any delays, whether or not the values are
      handled right. */
  lemma ReadsNeverGoBack(servers: seq<Cell>, events: seq<Event>, v: Variant)
    requires v.client.tagFromReply && v.waits.Own? && v.waits.queries + v.waits.updates > |servers|
    requires Run(servers, events, v).Some?
    ensures NeverBack(Run(servers, events, v).value)
  {
    RunKeepsInv(servers, events, v);
    InvMeansNeverBack(Run(servers, events, v).value, v.client, v.waits.updates);
  }

  // ---------------------------------------------------------------- the client and the server

  /** How many answers of its own a phase waits for when its semaphore starts with `left` posts. */
  function OwnAnswers(n: nat, left: nat): nat {
    if left >= Majority(n) then 0 else Majority(n) - left
  }

  /** What a client has after the replies of a query, in the order they arrive. */
  function Gather(replies: seq<Cell>, c: Client): Cell {
    if replies == [] then Unset()
    else Collect(Gather(replies[..|replies| - 1], c), replies[|replies| - 1], c)
  }

  /** The argument the query threads of one client share, and the semaphore, which is never reset. */
  class AbdArg {
    const client: Client
    var value: string
    var tag: Tag
    var rqSem: nat

    constructor (client: Client, posts: nat)
      ensures Cell(value, tag) == Unset() && rqSem == posts && this.client == client
    {
      this.client := client;
      value, tag := "", Tag(0, CLIENT_ID);
      rqSem := posts;
    }

    /** The end of `send_abd_read_query`: one reply is taken in and posted.  In the source the second
        and third `strtok_r` start at the value again, so that both numbers are that of the value. */
    method OnReply(reply: Cell)
      modifies this
      ensures Cell(value, tag) == Collect(old(Cell(value, tag)), reply, client) && rqSem == old(rqSem) + 1
    {
      var seen := if client.tagFromReply then reply.tag else Tag(Atoi(reply.value), Atoi(reply.value));
      if !(client.valueFollowsTag && Later(tag, seen)) {
        value := reply.value;
      }
      if Later(seen, tag) {
        tag := seen;
      }
      rqSem := rqSem + 1;
    }

  /** `abd_read_query`: waits until the semaphore shows a majority of the `n` servers, while replies
        arrive in some order.  With posts left over it waits for that many replies less. */
    method ReadQuery(n: nat, replies: seq<Cell>) returns (used: nat)
      requires |replies| >= OwnAnswers(n, rqSem) && Cell(value, tag) == Unset()
      modifies this
      ensures used == OwnAnswers(n, old(rqSem)) && Cell(value, tag) == Gather(replies[..used], client)
    {
      used := 0;
      while rqSem < Majority(n)
        invariant used <= |replies| && rqSem == old(rqSem) + used
        invariant Cell(value, tag) == Gather(replies[..used], client)
        invariant used > 0 ==> rqSem <= Majority(n)
        decreases Majority(n) - rqSem
      {
        OnReply(replies[used]);
        used := used + 1;
        assert replies[..used][..used - 1] == replies[..used - 1];
      }
    }
  }

  /** The entry of one key at a server, if it has one. */
  class Replica {
    const serverKeepsIncoming: bool
    var stored: Option<Cell>

    constructor (serverKeepsIncoming: bool, stored: Option<Cell>)
      ensures this.stored == stored && this.serverKeepsIncoming == serverKeepsIncoming
    {
      this.serverKeepsIncoming := serverKeepsIncoming;
      this.stored := stored;
    }

    /** `server_1_put_request_abd`.  It looks the key up first, and without an entry goes down. */
    method PutRequestAbd(incoming: Cell) returns (up: bool)
      modifies this
      ensures up <==> old(stored).Some?
      ensures !up ==> stored == old(stored)
      ensures up ==> stored == Some(Updated(old(stored).value, incoming, serverKeepsIncoming))
      ensures up ==> Le(old(stored).value.tag, stored.value.tag) && Le(incoming.tag, stored.value.tag)
    {
      if stored.None? {
        return false;
      }
      var value := if serverKeepsIncoming then incoming.value else stored.value.value;
      if Later(incoming.tag, stored.value.tag) {
        stored := Some(Cell(value, incoming.tag));
      }
      up := true;
    }
  }
}
