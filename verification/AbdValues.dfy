/** The values of the register, with clients that read the tags of replies. */
module AbdValues {
  import opened Wrappers
  import opened Counting
  import opened Abd
  import opened AbdRuns

  /** Every tag names one value. */
  ghost predicate Named(c: Cell, name: Tag -> string) {
    c.value == name(c.tag)
  }

  ghost predicate AllNamed(cells: seq<Cell>, name: Tag -> string) {
    forall i :: 0 <= i < |cells| ==> Named(cells[i], name)
  }

  ghost predicate WritesNamed(events: seq<Event>, name: Tag -> string) {
    forall e :: e in events && e.StartWrite? ==> Named(e.cell, name)
  }

  /** The servers that start below the tag a query starts with. */
  function Low(servers: seq<Cell>): (low: set<nat>)
    ensures forall i: nat :: i in low <==> i < |servers| && Later(Unset().tag, servers[i].tag)
  {
    if servers == [] then {}
    else
      var n := |servers| - 1;
      Low(servers[..n]) + (if Later(Unset().tag, servers[n].tag) then {n} else {})
  }

  /** A cell of server `i`: named, and not below the tag of a query unless the server started there. */
  ghost predicate Genuine(c: Cell, i: nat, low: set<nat>, name: Tag -> string) {
    Named(c, name) && (i !in low ==> Le(Unset().tag, c.tag))
  }

  ghost predicate OpValues(o: Op, low: set<nat>, name: Tag -> string) {
    && (forall i :: i in o.replies ==> Genuine(o.replies[i], i, low, name))
    && o.received <= o.replies.Keys
    && (Named(o.cell, name) || (o.phase.Querying? && o.received <= low && o.cell == Unset()))
  }

  ghost predicate ValuesSound(s: State, low: set<nat>, name: Tag -> string) {
    && (forall i :: 0 <= i < |s.servers| ==> Genuine(s.servers[i], i, low, name))
    && (forall j :: 0 <= j < |s.ops| ==> OpValues(s.ops[j], low, name))
  }

  lemma CollectKeepsNames(mine: Cell, reply: Cell, i: nat, low: set<nat>, name: Tag -> string)
    requires Genuine(reply, i, low, name) && (mine == Unset() || Named(mine, name))
    ensures Named(mine, name) || i !in low ==> Named(Collect(mine, reply, REPAIRED_CLIENT), name)
    ensures Named(Collect(mine, reply, REPAIRED_CLIENT), name) || Collect(mine, reply, REPAIRED_CLIENT) == mine
  {
    TagOrder(mine.tag, reply.tag, mine.tag);
  }

  /** A majority that no set of low servers can make up, or a named start. */
  ghost predicate NeverUnset(low: set<nat>, r: nat, name: Tag -> string) {
    Named(Unset(), name) || |low| < r
  }

  lemma StepKeepsOp(s: State, e: Event, v: Variant, low: set<nat>, name: Tag -> string, j: nat)
    requires ValuesSound(s, low, name) && Enabled(s, e, v) && v.client == REPAIRED_CLIENT && v.waits.Own?
    requires NeverUnset(low, v.waits.queries, name) && (e.StartWrite? ==> Named(e.cell, name))
    requires j < |s.ops|
    ensures OpValues(Apply(s, e, v).ops[j], low, name)
  {
    var o := s.ops[j];
    assert OpValues(o, low, name);
    if e.ClientReply? && e.op == j {
      CollectKeepsNames(o.cell, o.replies[e.server], e.server, low, name);
    } else if e.WriteBack? && e.op == j && o.received <= low {
      SubsetCount(o.received, low);
    }
  }

  lemma StepKeepsValues(s: State, e: Event, v: Variant, low: set<nat>, name: Tag -> string)
    requires ValuesSound(s, low, name) && Enabled(s, e, v) && v.client == REPAIRED_CLIENT && v.serverKeepsIncoming && v.waits.Own?
    requires NeverUnset(low, v.waits.queries, name) && (e.StartWrite? ==> Named(e.cell, name))
    ensures ValuesSound(Apply(s, e, v), low, name)
  {
    var t := Apply(s, e, v);
    if e.ServerUpdate? {
      UpdateKeepsGenuine(s, e.op, e.server, low, name);
    }
    forall j | 0 <= j < |t.ops| ensures OpValues(t.ops[j], low, name) {
      if j < |s.ops| {
        StepKeepsOp(s, e, v, low, name, j);
      }
    }
  }

  lemma UpdateKeepsGenuine(s: State, op: nat, i: nat, low: set<nat>, name: Tag -> string)
    requires ValuesSound(s, low, name) && op < |s.ops| && i < |s.servers| && !s.ops[op].phase.Querying?
    ensures Genuine(Updated(s.servers[i], s.ops[op].cell, true), i, low, name)
  {
    assert OpValues(s.ops[op], low, name) && Genuine(s.servers[i], i, low, name);
    TagOrder(s.ops[op].cell.tag, s.servers[i].tag, Unset().tag);
  }

  lemma {:induction false} RunKeepsValues(servers: seq<Cell>, events: seq<Event>, v: Variant, name: Tag -> string)
    requires AllNamed(servers, name) && WritesNamed(events, name) && Run(servers, events, v).Some?
    requires v.client == REPAIRED_CLIENT && v.serverKeepsIncoming && v.waits.Own? && NeverUnset(Low(servers), v.waits.queries, name)
    ensures ValuesSound(Run(servers, events, v).value, Low(servers), name)
  {
    if events != [] {
      var n := |events| - 1;
      RunKeepsValues(servers, events[..n], v, name);
      StepKeepsValues(Run(servers, events[..n], v).value, events[n], v, Low(servers), name);
    }
  }

  /** Operations that write, or have written, the same tag have the same value. */
  ghost predicate TagsName(s: State) {
    forall a: nat, b: nat :: a < |s.ops| && b < |s.ops| && !s.ops[a].phase.Querying? && !s.ops[b].phase.Querying? && s.ops[a].cell.tag == s.ops[b].cell.tag ==>
      s.ops[a].cell == s.ops[b].cell
  }

  lemma EqualTagsEqualValues(servers: seq<Cell>, events: seq<Event>, v: Variant, name: Tag -> string)
    requires AllNamed(servers, name) && WritesNamed(events, name) && Run(servers, events, v).Some?
    requires v.client == REPAIRED_CLIENT && v.serverKeepsIncoming && v.waits.Own? && NeverUnset(Low(servers), v.waits.queries, name)
    ensures TagsName(Run(servers, events, v).value)
  {
    RunKeepsValues(servers, events, v, name);
    var s := Run(servers, events, v).value;
    assert forall j :: 0 <= j < |s.ops| ==> OpValues(s.ops[j], Low(servers), name);
  }

  /** A write with the tag a query starts with, and a read. */
  lemma WriteAndRead(servers: seq<Cell>, c: Cell, v: Variant) returns (events: seq<Event>, s: State)
    ensures events == [StartWrite(c), StartRead] && Run(servers, events, v) == Some(s)
    ensures s.servers == servers && |s.ops| == 2 && s.ops[0].cell == c && s.ops[0].phase.Writing?
    ensures s.ops[1].isRead && s.ops[1].phase.Querying? && s.ops[1].cell == Unset() && s.ops[1].replies == map[] && s.ops[1].received == {}
  {
    WriteStarts(servers, v, c);
    var s1 := Apply(Start(servers), StartWrite(c), v);
    RunOneMore(servers, [StartWrite(c)], StartRead, v, s1);
    s := Apply(s1, StartRead, v);
    events := [StartWrite(c)] + [StartRead];
  }

  lemma HearLow(servers: seq<Cell>, c: Cell, v: Variant) returns (events: seq<Event>, s: State)
    requires v.client == REPAIRED_CLIENT && v.waits.Own? && v.waits.queries <= |Low(servers)|
    ensures Run(servers, events, v) == Some(s) && NoNewWrites([StartWrite(c), StartRead], events)
    ensures |s.ops| == 2 && s.ops[0].cell == c && s.ops[0].phase.Writing?
    ensures s.ops[1].phase.Querying? && s.ops[1].cell == Unset() && |s.ops[1].received| == v.waits.queries
  {
    var e2, s2 := WriteAndRead(servers, c, v);
    var heard := Pick(Low(servers), v.waits.queries);
    assert CanAsk(s2, 1, heard);
    events, s := Ask(servers, e2, v, s2, 1, heard, (m: Cell) => m == Unset());
    assert s.ops[1].received == heard && s.ops[0] == s2.ops[0];
  }

  /** A read that hears only servers below the tag it starts with returns that tag without a value. */
  lemma UnsetTagWithoutValue(servers: seq<Cell>, v: Variant, name: Tag -> string) returns (events: seq<Event>)
    requires v.client == REPAIRED_CLIENT && v.waits.Own? && !NeverUnset(Low(servers), v.waits.queries, name)
    ensures WritesNamed(events, name) && Run(servers, events, v).Some? && !TagsName(Run(servers, events, v).value)
  {
    var c := Cell(name(Unset().tag), Unset().tag);
    var e3, s3 := HearLow(servers, c, v);
    RunOneMore(servers, e3, WriteBack(1), v, s3);
    events := e3 + [WriteBack(1)];
    assert forall e :: e in events && e.StartWrite? ==> e == StartWrite(c);
    TwoValues(Apply(s3, WriteBack(1), v), c);
  }

  lemma TwoValues(s: State, c: Cell)
    requires |s.ops| == 2 && s.ops[0].cell == c && s.ops[1].cell == Unset() && c.tag == Unset().tag && c != Unset()
    requires !s.ops[0].phase.Querying? && !s.ops[1].phase.Querying?
    ensures !TagsName(s)
  {}

  /** With the client repaired: if each tag names one value, operations with equal tags have equal
      values in every run exactly when the value of the tag a query starts with is the one it starts
      with, or fewer servers start below that tag than a query waits for. */
  lemma EqualTagsEqualValuesIff(servers: seq<Cell>, v: Variant, name: Tag -> string)
    requires AllNamed(servers, name) && v.client == REPAIRED_CLIENT && v.serverKeepsIncoming && v.waits.Own?
    ensures (forall events :: WritesNamed(events, name) && Run(servers, events, v).Some? ==> TagsName(Run(servers, events, v).value))
      <==> NeverUnset(Low(servers), v.waits.queries, name)
  {
    if NeverUnset(Low(servers), v.waits.queries, name) {
      forall events | WritesNamed(events, name) && Run(servers, events, v).Some?
        ensures TagsName(Run(servers, events, v).value)
      {
        EqualTagsEqualValues(servers, events, v, name);
      }
    } else {
      var events := UnsetTagWithoutValue(servers, v, name);
    }
  }

  // ---------------------------------------------------------------- the value of the last reply

  lemma {:induction false} GatherMeaning(replies: seq<Cell>, c: Client)
    ensures var g := Gather(replies, c);
      && Le(Unset().tag, g.tag) && (forall i :: 0 <= i < |replies| ==> Le(Seen(replies[i], c), g.tag))
      && (g.tag == Unset().tag || exists i :: 0 <= i < |replies| && Seen(replies[i], c) == g.tag)
      && (replies != [] && !c.valueFollowsTag ==> g.value == replies[|replies| - 1].value)
  {
    if replies != [] {
      var n := |replies| - 1;
      GatherMeaning(replies[..n], c);
      var before, g := Gather(replies[..n], c), Gather(replies, c);
      CollectRises(before, replies[n], c);
      forall i | 0 <= i < |replies| ensures Le(Seen(replies[i], c), g.tag) {
        if i < n {
          TagOrder(Seen(replies[i], c), before.tag, g.tag);
          assert Le(Seen(replies[..n][i], c), before.tag);
        }
      }
      TagOrder(Unset().tag, before.tag, g.tag);
      if g.tag == before.tag && before.tag != Unset().tag {
        var i :| 0 <= i < n && Seen(replies[..n][i], c) == before.tag;
        assert Seen(replies[i], c) == before.tag;
      }
    }
  }

  /** No reply is later than the `i`-th. */
  ghost predicate Latest(replies: seq<Cell>, i: int) {
    0 <= i < |replies| && forall k :: 0 <= k < |replies| ==> Le(replies[k].tag, replies[i].tag)
  }

  /** A client that reads the tag of a reply, but copies every value: a query returns the value that its
      tag names exactly when some reply that no other exceeds has the value of the reply that arrived
      last. */
  lemma LastValueIsRightIff(replies: seq<Cell>, name: Tag -> string)
    requires replies != [] && AllNamed(replies, name)
    requires forall i :: 0 <= i < |replies| ==> Le(Unset().tag, replies[i].tag)
    ensures Named(Gather(replies, Client(false, true)), name) <==>
      exists i :: Latest(replies, i) && replies[i].value == replies[|replies| - 1].value
  {
    var c := Client(false, true);
    var tag, last := Gather(replies, c).tag, replies[|replies| - 1];
    GatherMeaning(replies, c);
    assert tag != Unset().tag ==> exists i :: 0 <= i < |replies| && replies[i].tag == tag by {
      if tag != Unset().tag {
        var i :| 0 <= i < |replies| && Seen(replies[i], c) == tag;
        assert replies[i].tag == tag;
      }
    }
    assert forall i :: 0 <= i < |replies| ==> Seen(replies[i], c) == replies[i].tag;
    LatestHasTag(replies, tag);
    LatestIsNamed(replies, name, tag, last.value);
  }

  lemma LatestIsNamed(replies: seq<Cell>, name: Tag -> string, tag: Tag, value: string)
    requires AllNamed(replies, name) && (exists i :: Latest(replies, i)) && (forall i :: Latest(replies, i) ==> replies[i].tag == tag)
    ensures value == name(tag) <==> exists i :: Latest(replies, i) && replies[i].value == value
  {
    var i :| Latest(replies, i);
    assert Named(replies[i], name);
    forall k | Latest(replies, k) ensures replies[k].value == name(tag) {
      assert Named(replies[k], name);
    }
  }

  lemma LatestHasTag(replies: seq<Cell>, tag: Tag)
    requires replies != [] && (forall i :: 0 <= i < |replies| ==> Le(Unset().tag, replies[i].tag) && Le(replies[i].tag, tag))
    requires tag == Unset().tag || exists i :: 0 <= i < |replies| && replies[i].tag == tag
    ensures exists i :: Latest(replies, i) && replies[i].tag == tag
    ensures forall i :: Latest(replies, i) ==> replies[i].tag == tag
  {
    var k: nat := 0;
    if tag == Unset().tag {
      TagOrder(replies[0].tag, tag, tag);
    } else {
      k :| k < |replies| && replies[k].tag == tag;
    }
    assert Latest(replies, k) && replies[k].tag == tag;
    forall i | Latest(replies, i) ensures replies[i].tag == tag {
      TagOrder(replies[i].tag, replies[k].tag, tag);
    }
  }

  // ---------------------------------------------------------------- the server as coded

  /** As coded, a server parses its own value over the incoming one, so that no run ever changes the
      value of any server: only tags move. */
  lemma {:induction false} CodedServersNeverChangeTheirValue(servers: seq<Cell>, events: seq<Event>, v: Variant)
    requires !v.serverKeepsIncoming && Run(servers, events, v).Some?
    ensures var t := Run(servers, events, v).value;
      |t.servers| == |servers| && forall i :: 0 <= i < |servers| ==> t.servers[i].value == servers[i].value
  {
    if events != [] {
      CodedServersNeverChangeTheirValue(servers, events[..|events| - 1], v);
    }
  }

  // ---------------------------------------------------------------- writes as coded

  /** `abd_write` skips the query and writes with this tag. */
  ghost predicate ZeroWrites(events: seq<Event>) {
    forall e :: e in events && e.StartWrite? ==> e.cell.tag == Tag(0, CLIENT_ID)
  }

  /** Every stored and every collected cell was on some server at the start; the rest of the
      operations carry the tag a query starts with. */
  ghost predicate FromStart(s: State, servers: seq<Cell>) {
    && (forall i :: 0 <= i < |s.servers| ==> s.servers[i] in servers)
    && (forall j :: 0 <= j < |s.ops| ==> OpFromStart(s.ops[j], servers))
  }

  ghost predicate OpFromStart(o: Op, servers: seq<Cell>) {
    && (forall i :: i in o.replies ==> o.replies[i] in servers)
    && (o.cell in servers || o.cell.tag == Unset().tag)
  }

  lemma StepKeepsFromStart(s: State, e: Event, v: Variant, servers: seq<Cell>)
    requires FromStart(s, servers) && Enabled(s, e, v) && v.client == REPAIRED_CLIENT && v.serverKeepsIncoming
    requires forall c :: c in servers ==> Le(Unset().tag, c.tag)
    requires e.StartWrite? ==> e.cell.tag == Unset().tag
    ensures FromStart(Apply(s, e, v), servers)
  {
    var t := Apply(s, e, v);
    if e.ClientReply? {
      var o := s.ops[e.op];
      assert OpFromStart(o, servers);
      TagOrder(o.cell.tag, o.replies[e.server].tag, o.cell.tag);
      assert Collect(o.cell, o.replies[e.server], REPAIRED_CLIENT) in {o.cell, o.replies[e.server]};
    } else if e.ServerUpdate? {
      assert OpFromStart(s.ops[e.op], servers) && s.servers[e.server] in servers;
    }
    forall j | 0 <= j < |t.ops| ensures OpFromStart(t.ops[j], servers) {
      if j < |s.ops| {
        assert OpFromStart(s.ops[j], servers);
      }
    }
  }

  lemma {:induction false} ZeroWritesAreLost(servers: seq<Cell>, events: seq<Event>, v: Variant)
    requires forall c :: c in servers ==> Le(Unset().tag, c.tag)
    requires ZeroWrites(events) && v.client == REPAIRED_CLIENT && v.serverKeepsIncoming && Run(servers, events, v).Some?
    ensures FromStart(Run(servers, events, v).value, servers)
  {
    if events != [] {
      var n := |events| - 1;
      ZeroWritesAreLost(servers, events[..n], v);
      StepKeepsFromStart(Run(servers, events[..n], v).value, events[n], v, servers);
    }
  }

  /** A value no server starts with. */
  function NewValue(servers: seq<Cell>): (value: string)
    ensures forall c :: c in servers ==> |c.value| < |value|
  {
    if servers == [] then "x"
    else
      var rest := NewValue(servers[1..]);
      if |servers[0].value| < |rest| then rest else servers[0].value + "x"
  }

  /** Some run of such writes leaves on a server what none had at the start. */
  ghost predicate TakesEffect(servers: seq<Cell>, events: seq<Event>, v: Variant) {
    && ZeroWrites(events) && Run(servers, events, v).Some?
    && var t := Run(servers, events, v).value;
       exists i :: 0 <= i < |t.servers| && t.servers[i] !in servers
  }

  lemma ZeroWriteTakesEffect(servers: seq<Cell>, i: nat, v: Variant) returns (events: seq<Event>)
    requires v.serverKeepsIncoming && i < |servers| && Later(Tag(0, CLIENT_ID), servers[i].tag)
    ensures TakesEffect(servers, events, v)
  {
    var w := Cell(NewValue(servers), Tag(0, CLIENT_ID));
    var s0 := Start(servers);
    RunOneMore(servers, [], StartWrite(w), v, s0);
    var s1 := Apply(s0, StartWrite(w), v);
    RunOneMore(servers, [] + [StartWrite(w)], ServerUpdate(0, i), v, s1);
    events := [] + [StartWrite(w)] + [ServerUpdate(0, i)];
    assert Apply(s1, ServerUpdate(0, i), v).servers[i] == w;
    assert w !in servers;
  }

  /** Writes with that tag ever take effect exactly when some server starts below it. */
  lemma ZeroWritesTakeEffectIff(servers: seq<Cell>, v: Variant)
    requires v.client == REPAIRED_CLIENT && v.serverKeepsIncoming
    ensures (exists events :: TakesEffect(servers, events, v)) <==> (exists c :: c in servers && Later(Tag(0, CLIENT_ID), c.tag))
  {
    if c :| c in servers && Later(Tag(0, CLIENT_ID), c.tag) {
      var i :| 0 <= i < |servers| && servers[i] == c;
      var events := ZeroWriteTakesEffect(servers, i, v);
    } else if events :| TakesEffect(servers, events, v) {
      ZeroWritesAreLost(servers, events, v);
      assert false;
    }
  }
}
