/** The client as coded, which reads timestamp and client id where the value is: it takes the number of
    a value for the tag of the reply. */
module AbdCoded {
  import opened Wrappers
  import opened Counting
  import opened Abd
  import opened AbdRuns
  import opened AbdValues

  // ---------------------------------------------------------------- one query

  /** The greatest number of a value. */
  function Greatest(cells: seq<Cell>): (k: nat)
    ensures forall i :: 0 <= i < |cells| ==> Atoi(cells[i].value) <= k
    ensures k == 0 || exists i :: 0 <= i < |cells| && Atoi(cells[i].value) == k
  {
    if cells == [] then 0
    else
      var n := |cells| - 1;
      var before, last := Greatest(cells[..n]), Atoi(cells[n].value);
      assert forall i :: 0 <= i < n ==> cells[i] == cells[..n][i];
      if before < last then last else before
  }

  /** The tag a client ends with when it has seen numbers up to this one. */
  function TopTag(number: nat): Tag {
    if number == 0 then Unset().tag else Tag(number, number)
  }

  function Top(cells: seq<Cell>): Tag {
    TopTag(Greatest(cells))
  }

  lemma NumberTags(value: string, number: nat)
    ensures Le(NumberTag(value), TopTag(number)) <==> Atoi(value) <= number
    ensures Le(Unset().tag, TopTag(number))
    ensures number > 0 ==> Later(TopTag(number), Unset().tag)
  {}

  /** As coded, a query ends with the value of the last reply and the greatest number of any. */
  lemma {:induction false} CodedGather(replies: seq<Cell>)
    ensures var g := Gather(replies, CODED_CLIENT);
      g.tag == Top(replies) && (replies != [] ==> g.value == replies[|replies| - 1].value)
  {
    if replies != [] {
      var n := |replies| - 1;
      CodedGather(replies[..n]);
      NumberTags(replies[n].value, Greatest(replies[..n]));
    }
  }

  /** As coded, a query returns one of the latest replies exactly when one of them has the value of the
      last reply and the greatest number of any value as its tag; and, if each tag names one value, it
      returns what its tag names exactly when the last reply has the value of that number's tag. */
  lemma CodedQueryIsRightIff(replies: seq<Cell>, name: Tag -> string)
    requires replies != []
    ensures var g, last := Gather(replies, CODED_CLIENT), replies[|replies| - 1];
      && ((exists i :: Latest(replies, i) && g == replies[i]) <==>
          (exists i :: Latest(replies, i) && replies[i].value == last.value && replies[i].tag == TopTag(Greatest(replies))))
      && (Named(g, name) <==> name(TopTag(Greatest(replies))) == last.value)
  {
    var g, last := Gather(replies, CODED_CLIENT), replies[|replies| - 1];
    CodedGather(replies);
    if i :| Latest(replies, i) && g == replies[i] {
      assert Latest(replies, i) && replies[i].value == last.value && replies[i].tag == g.tag;
    }
    if i :| Latest(replies, i) && replies[i].value == last.value && replies[i].tag == g.tag {
      assert Latest(replies, i) && g == replies[i];
    }
  }

  /** If all servers hold the same cell, a query as coded returns it exactly when both halves of its
      tag are the number of its value, or the tag is that of a query and the value has no number. */
  lemma QuietQueryIsRightIff(replies: seq<Cell>, c: Cell)
    requires replies != [] && forall i :: 0 <= i < |replies| ==> replies[i] == c
    ensures Gather(replies, CODED_CLIENT) == c <==> c.tag == TopTag(Atoi(c.value))
  {
    CodedGather(replies);
    assert replies[0] == c;
  }

  /** A single reply whose tag is lost. */
  lemma OneReplyIsMisread()
    ensures Gather([Cell("new", Tag(2, 1))], CODED_CLIENT) == Cell("new", Tag(0, CLIENT_ID))
  {
    assert Atoi("new") == 0;
    assert [Cell("new", Tag(2, 1))][..0] == [];
  }

  /** Two replies after which the old value carries the new tag, if tags are read, and that of an empty
      register as coded. */
  lemma StaleReplyLast()
    ensures var replies := [Cell("new", Tag(2, 1)), Cell("old", Tag(1, 1))];
      Gather(replies, CODED_CLIENT) == Cell("old", Tag(0, CLIENT_ID)) && Gather(replies, Client(false, true)) == Cell("old", Tag(2, 1))
  {
    var replies := [Cell("new", Tag(2, 1)), Cell("old", Tag(1, 1))];
    assert replies[..1] == [replies[0]] && replies[..1][..0] == [];
    assert Atoi("new") == 0 && Atoi("old") == 0;
  }

  // ---------------------------------------------------------------- phases that cannot end

  /** Whoever waits for more answers than there are `n` servers waits for ever. */
  ghost predicate WaitingOp(o: Op, waits: Waits, n: nat)
    requires waits.Own?
  {
    && (waits.queries > n && o.isRead ==> o.phase.Querying?)
    && (waits.updates > n ==> !o.phase.Finished? && o.before == {})
  }

  ghost predicate Waiting(s: State, v: Variant)
    requires v.waits.Own?
  {
    forall j :: 0 <= j < |s.ops| ==> Sound(s, s.ops[j], v.client, 0) && WaitingOp(s.ops[j], v.waits, |s.servers|)
  }

  lemma AnswersAreFromServers(s: State, o: Op, c: Client)
    requires Sound(s, o, c, 0)
    ensures |o.received| <= |s.servers| && |o.acked| <= |s.servers|
  {
    assert o.received <= Ids(|s.servers|) && o.acked <= Ids(|s.servers|);
    SubsetCount(o.received, Ids(|s.servers|));
    SubsetCount(o.acked, Ids(|s.servers|));
  }

  lemma NoneFinished(ops: seq<Op>)
    requires forall j :: 0 <= j < |ops| ==> !ops[j].phase.Finished?
    ensures FinishedOps(ops) == {}
  {}

  lemma StepKeepsWaitingOp(s: State, e: Event, v: Variant, j: nat)
    requires v.waits.Own? && Enabled(s, e, v) && j < |Apply(s, e, v).ops|
    requires j < |s.ops| ==> Sound(s, s.ops[j], v.client, 0) && WaitingOp(s.ops[j], v.waits, |s.servers|)
    requires v.waits.updates > |s.servers| ==> FinishedOps(s.ops) == {}
    ensures WaitingOp(Apply(s, e, v).ops[j], v.waits, |s.servers|)
  {
    if j < |s.ops| {
      AnswersAreFromServers(s, s.ops[j], v.client);
    }
  }

  lemma StepKeepsWaiting(s: State, e: Event, v: Variant)
    requires v.waits.Own? && Waiting(s, v) && Enabled(s, e, v)
    ensures Waiting(Apply(s, e, v), v)
  {
    var t := Apply(s, e, v);
    StepKeepsSound(s, e, v, 0);
    if v.waits.updates > |s.servers| {
      NoneFinished(s.ops);
    }
    forall j | 0 <= j < |t.ops| ensures WaitingOp(t.ops[j], v.waits, |s.servers|) {
      StepKeepsWaitingOp(s, e, v, j);
    }
    StepForward(s, e, v);
  }

  lemma {:induction false} RunKeepsWaiting(servers: seq<Cell>, events: seq<Event>, v: Variant)
    requires v.waits.Own? && Run(servers, events, v).Some?
    ensures |Run(servers, events, v).value.servers| == |servers| && Waiting(Run(servers, events, v).value, v)
  {
    if events != [] {
      var n := |events| - 1;
      RunKeepsWaiting(servers, events[..n], v);
      StepKeepsWaiting(Run(servers, events[..n], v).value, events[n], v);
    }
  }

  lemma WaitingNeverGoesBack(servers: seq<Cell>, events: seq<Event>, v: Variant)
    requires v.waits.Own? && Run(servers, events, v).Some?
    requires v.waits.queries > |servers| || v.waits.updates > |servers|
    ensures NeverBack(Run(servers, events, v).value)
  {
    RunKeepsWaiting(servers, events, v);
  }

  // ---------------------------------------------------------------- values that follow tags

  /** The servers start with, and the writes bring, nothing but these cells. */
  ghost predicate FromCells(servers: seq<Cell>, events: seq<Event>, cells: iset<Cell>) {
    && (forall i :: 0 <= i < |servers| ==> servers[i] in cells)
    && (forall e :: e in events && e.StartWrite? ==> e.cell in cells)
  }

  ghost predicate TrustedOp(o: Op, c: Client) {
    Trusted(o.cell, c) && TrustedReplies(o, c)
  }

  ghost predicate AllTrusted(s: State, c: Client) {
    && (forall i :: 0 <= i < |s.servers| ==> Trusted(s.servers[i], c))
    && (forall j :: 0 <= j < |s.ops| ==> TrustedOp(s.ops[j], c))
  }

  lemma CollectIsTrusted(mine: Cell, reply: Cell, c: Client)
    requires c.valueFollowsTag && Trusted(mine, c)
    ensures Trusted(Collect(mine, reply, c), c)
  {
    TagOrder(mine.tag, Seen(reply, c), mine.tag);
  }

  lemma StepKeepsTrust(s: State, e: Event, v: Variant)
    requires AllTrusted(s, v.client) && Enabled(s, e, v) && v.client.valueFollowsTag && v.serverKeepsIncoming
    requires e.StartWrite? ==> Trusted(e.cell, v.client)
    ensures AllTrusted(Apply(s, e, v), v.client)
  {
    var t := Apply(s, e, v);
    if e.ClientReply? {
      CollectIsTrusted(s.ops[e.op].cell, s.ops[e.op].replies[e.server], v.client);
    }
    forall j | 0 <= j < |t.ops| ensures TrustedOp(t.ops[j], v.client) {
      assert j < |s.ops| ==> TrustedOp(s.ops[j], v.client);
    }
  }

  lemma {:induction false} RunKeepsTrust(servers: seq<Cell>, events: seq<Event>, v: Variant, cells: iset<Cell>)
    requires FromCells(servers, events, cells) && (forall c :: c in cells ==> Trusted(c, v.client))
    requires v.client.valueFollowsTag && v.serverKeepsIncoming && Run(servers, events, v).Some?
    requires v.waits.Own? && v.waits.queries + v.waits.updates > |servers|
    ensures var s := Run(servers, events, v).value;
      |s.servers| == |servers| && AllTrusted(s, v.client) && Inv(s, v.client, v.waits.updates)
  {
    if events != [] {
      var n := |events| - 1;
      RunKeepsTrust(servers, events[..n], v, cells);
      var s := Run(servers, events[..n], v).value;
      StepKeepsTrust(s, events[n], v);
      assert events[n].WriteBack? ==> TrustedOp(s.ops[events[n].op], v.client);
      StepKeepsInv(s, events[n], v, v.waits.updates);
    }
  }

  /** Every server holds a cell that clients see behind itself; a write of it finishes, and a read sees
      less. */
  lemma MisreadCellGoesBack(n: nat, c: Cell, v: Variant) returns (servers: seq<Cell>, events: seq<Event>)
    requires v.waits.Own? && v.waits.queries <= n && v.waits.updates <= n && !Trusted(c, v.client)
    ensures |servers| == n && FromCells(servers, events, iset{c})
    ensures Run(servers, events, v).Some? && !NeverBack(Run(servers, events, v).value)
  {
    servers := seq(n, _ => c);
    var seen := Seen(c, v.client);
    var bound := if Later(seen, Unset().tag) then seen else Unset().tag;
    TagOrder(seen, bound, seen);
    TagOrder(Unset().tag, bound, seen);
    events := ReadMisses(servers, v, c, Ids(n), Ids(n), bound);
  }

  /** If values follow tags at the client and are kept by the servers, and the answers waited for
      overlap: with cells from a given set, reads never go back in all runs over n servers exactly when
      no cell of the set has a tag beyond the number of its value and the tag of a query, or some phase
      can never end. */
  lemma ParsedReadsNeverGoBackIff(n: nat, cells: iset<Cell>, v: Variant)
    requires v.client == Client(true, false) && v.serverKeepsIncoming
    requires v.waits.Own? && v.waits.queries + v.waits.updates > n
    ensures (forall servers, events :: |servers| == n && FromCells(servers, events, cells) && Run(servers, events, v).Some? ==> NeverBack(Run(servers, events, v).value))
      <==> v.waits.queries > n || v.waits.updates > n || forall c :: c in cells ==> Le(c.tag, TopTag(Atoi(c.value)))
  {
    forall c | c in cells ensures Le(c.tag, TopTag(Atoi(c.value))) <==> Trusted(c, v.client) {
      TrustIsNumber(c);
    }
    if v.waits.queries > n || v.waits.updates > n || forall c :: c in cells ==> Trusted(c, v.client) {
      forall servers, events | |servers| == n && FromCells(servers, events, cells) && Run(servers, events, v).Some?
        ensures NeverBack(Run(servers, events, v).value)
      {
        if v.waits.queries > n || v.waits.updates > n {
          WaitingNeverGoesBack(servers, events, v);
        } else {
          RunKeepsTrust(servers, events, v, cells);
          InvMeansNeverBack(Run(servers, events, v).value, v.client, v.waits.updates);
        }
      }
    } else {
      var c :| c in cells && !Trusted(c, v.client);
      var servers, events := MisreadCellGoesBack(n, c, v);
      assert FromCells(servers, events, cells);
    }
  }

  lemma TrustIsNumber(c: Cell)
    ensures Le(c.tag, TopTag(Atoi(c.value))) <==> Trusted(c, Client(true, false))
  {}

  // ---------------------------------------------------------------- values that never change

  /** Every answer has the value the server started with, and no operation is beyond the greatest
      number of these. */
  ghost predicate BelowTop(o: Op, servers: seq<Cell>) {
    && (forall i :: i in o.replies ==> i < |servers| && o.replies[i].value == servers[i].value)
    && o.received <= o.replies.Keys && Le(o.cell.tag, Top(servers))
  }

  ghost predicate ValuesOf(s: State, servers: seq<Cell>) {
    |s.servers| == |servers| && forall i :: 0 <= i < |servers| ==> s.servers[i].value == servers[i].value
  }

  lemma StepKeepsBelowTop(s: State, e: Event, v: Variant, servers: seq<Cell>, j: nat)
    requires Enabled(s, e, v) && !v.client.tagFromReply && ValuesOf(s, servers)
    requires j < |s.ops| ==> BelowTop(s.ops[j], servers)
    requires e.StartWrite? ==> Le(e.cell.tag, Top(servers))
    requires j < |Apply(s, e, v).ops|
    ensures BelowTop(Apply(s, e, v).ops[j], servers)
  {
    if e.ClientReply? && e.op == j {
      var o := s.ops[j];
      NumberTags(o.replies[e.server].value, Greatest(servers));
      CollectRises(o.cell, o.replies[e.server], v.client);
    }
    NumberTags("", Greatest(servers));
  }

  /** The servers whose values have a smaller number than the greatest. */
  ghost function Behind(servers: seq<Cell>): (b: set<nat>)
    ensures forall i: nat :: i in b <==> i < |servers| && Atoi(servers[i].value) < Greatest(servers)
  {
    set i: nat | i < |servers| && Atoi(servers[i].value) < Greatest(servers)
  }

  ghost predicate SeenOp(o: Op, c: Client)
    requires o.received <= o.replies.Keys
  {
    o.phase.Querying? ==> o.isRead && AtLeastSeen(o, c)
  }

  /** A read that has heard enough is at the top. */
  ghost predicate AtTop(o: Op, servers: seq<Cell>, c: Client) {
    && BelowTop(o, servers)
    && SeenOp(o, c)
    && (o.isRead && !o.phase.Querying? ==> o.cell.tag == Top(servers))
  }

  /** Any `r` servers include one with the greatest number, or no value has one. */
  ghost predicate TopIsHeard(servers: seq<Cell>, r: nat) {
    Greatest(servers) == 0 || |Behind(servers)| < r
  }

  lemma HeardTop(o: Op, servers: seq<Cell>, c: Client, r: nat)
    requires AtTop(o, servers, c) && !c.tagFromReply && o.isRead && o.phase.Querying? && |o.received| >= r && TopIsHeard(servers, r)
    ensures o.cell.tag == Top(servers)
  {
    if Greatest(servers) > 0 {
      if o.received <= Behind(servers) {
        SubsetCount(o.received, Behind(servers));
        assert false;
      }
      var i :| i in o.received && i !in Behind(servers);
      assert Seen(o.replies[i], c) == Top(servers);
    }
    TagOrder(o.cell.tag, Top(servers), o.cell.tag);
  }

  ghost predicate CodedInv(s: State, servers: seq<Cell>, c: Client) {
    && ValuesOf(s, servers)
    && (forall j :: 0 <= j < |s.ops| ==> AtTop(s.ops[j], servers, c) && forall a :: a in s.ops[j].before ==> a < |s.ops|)
  }

  lemma ReplyKeepsSeen(s: State, op: nat, i: nat, v: Variant)
    requires Enabled(s, ClientReply(op, i), v) && s.ops[op].received <= s.ops[op].replies.Keys && SeenOp(s.ops[op], v.client)
    ensures SeenOp(Apply(s, ClientReply(op, i), v).ops[op], v.client)
  {
    var o, p := s.ops[op], Apply(s, ClientReply(op, i), v).ops[op];
    if o.isRead && o.phase.Querying? {
      CollectRises(o.cell, o.replies[i], v.client);
      TagOrder(Unset().tag, o.cell.tag, p.cell.tag);
      forall k | k in p.received ensures Le(Seen(p.replies[k], v.client), p.cell.tag) {
        if k != i {
          TagOrder(Seen(o.replies[k], v.client), o.cell.tag, p.cell.tag);
        }
      }
    }
  }

  lemma StepKeepsSeen(s: State, e: Event, v: Variant, j: nat)
    requires Enabled(s, e, v) && j < |Apply(s, e, v).ops|
    requires j < |s.ops| ==> s.ops[j].received <= s.ops[j].replies.Keys && SeenOp(s.ops[j], v.client)
    requires Apply(s, e, v).ops[j].received <= Apply(s, e, v).ops[j].replies.Keys
    ensures SeenOp(Apply(s, e, v).ops[j], v.client)
  {
    if e.ClientReply? && e.op == j {
      ReplyKeepsSeen(s, j, e.server, v);
    }
  }

  lemma StepKeepsAtTop(s: State, e: Event, v: Variant, servers: seq<Cell>, j: nat)
    requires Enabled(s, e, v) && !v.client.tagFromReply && v.waits.Own? && ValuesOf(s, servers)
    requires TopIsHeard(servers, v.waits.queries)
    requires j < |s.ops| ==> AtTop(s.ops[j], servers, v.client)
    requires e.StartWrite? ==> Le(e.cell.tag, Top(servers))
    requires j < |Apply(s, e, v).ops|
    ensures AtTop(Apply(s, e, v).ops[j], servers, v.client)
  {
    StepKeepsBelowTop(s, e, v, servers, j);
    StepKeepsSeen(s, e, v, j);
    if e == WriteBack(j) {
      HeardTop(s.ops[j], servers, v.client, v.waits.queries);
    }
    EndedStays(s, e, v, j);
  }

  /** A read past its query does not change its cell. */
  lemma EndedStays(s: State, e: Event, v: Variant, j: nat)
    requires Enabled(s, e, v) && j < |Apply(s, e, v).ops|
    ensures var p := Apply(s, e, v).ops[j];
      p.isRead && !p.phase.Querying? ==> j < |s.ops| && s.ops[j].isRead && p.cell == s.ops[j].cell && (e != WriteBack(j) ==> !s.ops[j].phase.Querying?)
  {}

  lemma StepKeepsCodedInv(s: State, e: Event, v: Variant, servers: seq<Cell>)
    requires CodedInv(s, servers, v.client) && Enabled(s, e, v)
    requires !v.client.tagFromReply && !v.serverKeepsIncoming && v.waits.Own? && TopIsHeard(servers, v.waits.queries)
    requires e.StartWrite? ==> Le(e.cell.tag, Top(servers))
    ensures CodedInv(Apply(s, e, v), servers, v.client)
  {
    var t := Apply(s, e, v);
    StepForward(s, e, v);
    forall j | 0 <= j < |t.ops| ensures AtTop(t.ops[j], servers, v.client) && forall a :: a in t.ops[j].before ==> a < |t.ops| {
      StepKeepsAtTop(s, e, v, servers, j);
    }
  }

  ghost predicate WritesTagged(events: seq<Event>, tags: iset<Tag>) {
    forall e :: e in events && e.StartWrite? ==> e.cell.tag in tags
  }

  lemma {:induction false} RunKeepsCodedInv(servers: seq<Cell>, events: seq<Event>, v: Variant, tags: iset<Tag>)
    requires !v.client.tagFromReply && !v.serverKeepsIncoming && v.waits.Own? && TopIsHeard(servers, v.waits.queries)
    requires WritesTagged(events, tags) && (forall t :: t in tags ==> Le(t, Top(servers))) && Run(servers, events, v).Some?
    ensures CodedInv(Run(servers, events, v).value, servers, v.client)
  {
    if events != [] {
      var n := |events| - 1;
      RunKeepsCodedInv(servers, events[..n], v, tags);
      StepKeepsCodedInv(Run(servers, events[..n], v).value, events[n], v, servers);
    }
  }

  lemma CodedInvNeverBack(s: State, servers: seq<Cell>, c: Client)
    requires CodedInv(s, servers, c)
    ensures NeverBack(s)
  {
    forall b | 0 <= b < |s.ops| && s.ops[b].isRead && !s.ops[b].phase.Querying? ensures InOrder(s, s.ops[b]) {
      assert AtTop(s.ops[b], servers, c);
      forall a | a in s.ops[b].before ensures Le(s.ops[a].cell.tag, s.ops[b].cell.tag) {
        assert AtTop(s.ops[a], servers, c);
      }
    }
  }

  /** No client ever gets beyond the greatest number. */
  lemma NothingBeyondTop(servers: seq<Cell>, q: set<nat>, c: Client)
    requires !c.tagFromReply
    ensures forall i: nat :: i in q && i < |servers| ==> Le(Seen(servers[i], c), Top(servers))
    ensures Le(Unset().tag, Top(servers))
  {
    NumberTags("", Greatest(servers));
    forall i: nat | i in q && i < |servers| ensures Le(Seen(servers[i], c), Top(servers)) {
      NumberTags(servers[i].value, Greatest(servers));
    }
  }

  lemma UpdatedKeepsValue(stored: Cell, incoming: Cell)
    ensures Updated(stored, incoming, false).value == stored.value
  {}

  /** A write with a later tag. */
  lemma LaterWriteIsMissed(servers: seq<Cell>, tag: Tag, v: Variant) returns (events: seq<Event>)
    requires !v.client.tagFromReply && !v.serverKeepsIncoming && v.waits.Own?
    requires v.waits.queries <= |servers| && v.waits.updates <= |servers| && Later(tag, Top(servers))
    ensures WritesTagged(events, iset{tag}) && Run(servers, events, v).Some? && !NeverBack(Run(servers, events, v).value)
  {
    var n, c := |servers|, Cell("", tag);
    NothingBeyondTop(servers, Ids(n), v.client);
    forall i: nat | i < n ensures Seen(Updated(servers[i], c, false), v.client) == Seen(servers[i], v.client) {
      UpdatedKeepsValue(servers[i], c);
    }
    events := ReadMisses(servers, v, c, Ids(n), Ids(n), Top(servers));
  }

  /** The tag of the next smaller number is at least what clients see at the servers behind. */
  lemma BehindIsBelow(servers: seq<Cell>, i: nat)
    requires i in Behind(servers) && Greatest(servers) > 0
    ensures Le(NumberTag(servers[i].value), TopTag(Greatest(servers) - 1))
    ensures Later(Top(servers), TopTag(Greatest(servers) - 1))
  {
    NumberTags(servers[i].value, Greatest(servers) - 1);
  }

  /** A read has heard every server and is finished; another one starts. */
  ghost predicate ReadThenRead(servers: seq<Cell>, s: State) {
    && ValuesOf(s, servers) && |s.ops| == 2 && s.ops[0].cell.tag == Top(servers) && 0 in s.ops[1].before
    && s.ops[1].isRead && s.ops[1].phase.Querying? && s.ops[1].cell == Unset() && s.ops[1].replies == map[] && s.ops[1].received == {}
  }

  lemma ReadAlone(servers: seq<Cell>, v: Variant) returns (events: seq<Event>, s: State)
    requires !v.client.tagFromReply && v.waits.Own? && v.waits.queries <= |servers|
    ensures Run(servers, events, v) == Some(s) && NoNewWrites([], events)
    ensures s.servers == servers && |s.ops| == 1 && s.ops[0].isRead && s.ops[0].phase.Writing? && s.ops[0].cell.tag == Top(servers)
    ensures s.ops[0].applied == {} && s.ops[0].acked == {}
  {
    var n := |servers|;
    RunOneMore(servers, [], StartRead, v, Start(servers));
    var s1 := Apply(Start(servers), StartRead, v);
    NothingBeyondTop(servers, Ids(n), v.client);
    StaysBetween(servers, Ids(n), v.client);
    events, s := Query(servers, [] + [StartRead], v, s1, 0, Ids(n), (m: Cell) => Le(Unset().tag, m.tag) && Le(m.tag, Top(servers)));
    if Greatest(servers) > 0 {
      var i :| 0 <= i < n && Atoi(servers[i].value) == Greatest(servers);
      assert i in Ids(n) && Seen(servers[i], v.client) == Top(servers);
    }
    TagOrder(s.ops[0].cell.tag, Top(servers), Top(servers));
  }

  lemma StaysBetween(servers: seq<Cell>, q: set<nat>, c: Client)
    requires forall i: nat :: i in q && i < |servers| ==> Le(Seen(servers[i], c), Top(servers))
    ensures StaysIn(servers, q, c, (m: Cell) => Le(Unset().tag, m.tag) && Le(m.tag, Top(servers)))
  {
    forall i: nat, m: Cell | i in q && i < |servers| && Le(Unset().tag, m.tag) && Le(m.tag, Top(servers))
      ensures Le(Unset().tag, Collect(m, servers[i], c).tag) && Le(Collect(m, servers[i], c).tag, Top(servers))
    {
      CollectRises(m, servers[i], c);
      TagOrder(Unset().tag, m.tag, Collect(m, servers[i], c).tag);
    }
  }

  lemma ReadBefore(servers: seq<Cell>, v: Variant) returns (events: seq<Event>, s: State)
    requires !v.client.tagFromReply && !v.serverKeepsIncoming && v.waits.Own?
    requires v.waits.queries <= |servers| && v.waits.updates <= |servers|
    ensures Run(servers, events, v) == Some(s) && ReadThenRead(servers, s) && NoNewWrites([], events)
  {
    var e1, s1 := ReadAlone(servers, v);
    var e2, s2 := Update(servers, e1, v, s1, 0, Ids(|servers|));
    assert 0 in FinishedOps(s2.ops);
    RunOneMore(servers, e2, StartRead, v, s2);
    events, s := e2 + [StartRead], Apply(s2, StartRead, v);
  }

  /** A read that hears only servers behind, after one that heard all. */
  lemma BehindGoesBack(servers: seq<Cell>, v: Variant) returns (events: seq<Event>)
    requires !v.client.tagFromReply && !v.serverKeepsIncoming && v.waits.Own?
    requires v.waits.queries <= |servers| && v.waits.updates <= |servers| && !TopIsHeard(servers, v.waits.queries)
    ensures NoNewWrites([], events) && Run(servers, events, v).Some? && !NeverBack(Run(servers, events, v).value)
  {
    var e, s := ReadBefore(servers, v);
    var bound := TopTag(Greatest(servers) - 1);
    var heard := Pick(Behind(servers), v.waits.queries);
    forall i: nat | i in heard ensures Le(Seen(s.servers[i], v.client), bound) {
      BehindIsBelow(servers, i);
    }
    NumberTags("", Greatest(servers) - 1);
    StaysAtMost(s.servers, heard, v.client, bound);
    var t;
    events, t := Query(servers, e, v, s, 1, heard, (m: Cell) => Le(m.tag, bound));
    TopIsLater(servers, t.ops[1].cell.tag);
    assert !InOrder(t, t.ops[1]);
  }

  lemma TopIsLater(servers: seq<Cell>, tag: Tag)
    requires Greatest(servers) > 0 && Le(tag, TopTag(Greatest(servers) - 1))
    ensures Later(Top(servers), tag)
  {}

  /** Client and servers as coded, but with `r` and `w` answers of its own for every operation: over
      these servers and with writes of these tags, reads never go back in any run exactly when no tag is
      beyond the greatest number a server starts with, and fewer servers than a query waits for start
      with a smaller one, or some phase can never end. */
  lemma CodedReadsNeverGoBackIff(servers: seq<Cell>, tags: iset<Tag>, v: Variant)
    requires !v.client.tagFromReply && !v.serverKeepsIncoming && v.waits.Own?
    ensures (forall events :: WritesTagged(events, tags) && Run(servers, events, v).Some? ==> NeverBack(Run(servers, events, v).value))
      <==> v.waits.queries > |servers| || v.waits.updates > |servers|
           || ((forall t :: t in tags ==> Le(t, Top(servers))) && TopIsHeard(servers, v.waits.queries))
  {
    if v.waits.queries > |servers| || v.waits.updates > |servers| {
      forall events | WritesTagged(events, tags) && Run(servers, events, v).Some? ensures NeverBack(Run(servers, events, v).value) {
        WaitingNeverGoesBack(servers, events, v);
      }
    } else if t :| t in tags && Later(t, Top(servers)) {
      var events := LaterWriteIsMissed(servers, t, v);
      assert WritesTagged(events, tags);
    } else if !TopIsHeard(servers, v.waits.queries) {
      var events := BehindGoesBack(servers, v);
      assert WritesTagged(events, tags);
    } else {
      forall events | WritesTagged(events, tags) && Run(servers, events, v).Some? ensures NeverBack(Run(servers, events, v).value) {
        RunKeepsCodedInv(servers, events, v, tags);
        CodedInvNeverBack(Run(servers, events, v).value, servers, v.client);
      }
    }
  }

  // ---------------------------------------------------------------- what reads write back

  ghost predicate Unchanged(s: State, servers: seq<Cell>) {
    s.servers == servers && forall j :: 0 <= j < |s.ops| ==> BelowTop(s.ops[j], servers)
  }

  lemma StepKeepsUnchanged(s: State, e: Event, v: Variant, servers: seq<Cell>)
    requires Unchanged(s, servers) && Enabled(s, e, v) && !v.client.tagFromReply
    requires forall i :: 0 <= i < |servers| ==> Le(Top(servers), servers[i].tag)
    requires e.StartWrite? ==> e.cell.tag == Unset().tag
    ensures Unchanged(Apply(s, e, v), servers)
  {
    var t := Apply(s, e, v);
    NumberTags("", Greatest(servers));
    if e.ServerUpdate? {
      assert BelowTop(s.ops[e.op], servers);
      TagOrder(s.ops[e.op].cell.tag, Top(servers), servers[e.server].tag);
      assert t.servers == servers;
    }
    forall j | 0 <= j < |t.ops| ensures BelowTop(t.ops[j], servers) {
      StepKeepsBelowTop(s, e, v, servers, j);
    }
  }

  lemma {:induction false} RunKeepsUnchanged(servers: seq<Cell>, events: seq<Event>, v: Variant)
    requires !v.client.tagFromReply && ZeroWrites(events) && Run(servers, events, v).Some?
    requires forall i :: 0 <= i < |servers| ==> Le(Top(servers), servers[i].tag)
    ensures Unchanged(Run(servers, events, v).value, servers)
  {
    if events != [] {
      var n := |events| - 1;
      RunKeepsUnchanged(servers, events[..n], v);
      StepKeepsUnchanged(Run(servers, events[..n], v).value, events[n], v, servers);
    }
  }

  /** A run of reads, and of writes as `abd_write` makes them, that changes a server. */
  ghost predicate Changes(servers: seq<Cell>, events: seq<Event>, v: Variant) {
    ZeroWrites(events) && Run(servers, events, v).Some? && Run(servers, events, v).value.servers != servers
  }

  lemma ReadChanges(servers: seq<Cell>, i: nat, v: Variant) returns (events: seq<Event>)
    requires !v.client.tagFromReply && v.waits.Own? && v.waits.queries <= |servers|
    requires i < |servers| && Later(Top(servers), servers[i].tag)
    ensures Changes(servers, events, v)
  {
    var e, s := ReadAlone(servers, v);
    RunOneMore(servers, e, ServerUpdate(0, i), v, s);
    events := e + [ServerUpdate(0, i)];
    assert Apply(s, ServerUpdate(0, i), v).servers[i].tag == Top(servers);
  }

  /** With the tag parse as coded, and reads that end: reads and writes as `abd_write` makes them ever
      change a server exactly when some server starts behind the greatest number of a value, or behind
      the tag of a query. */
  lemma CodedRunsChangeServersIff(servers: seq<Cell>, v: Variant)
    requires !v.client.tagFromReply && v.waits.Own? && v.waits.queries <= |servers|
    ensures (exists events :: Changes(servers, events, v)) <==> (exists c :: c in servers && Later(Top(servers), c.tag))
  {
    if c :| c in servers && Later(Top(servers), c.tag) {
      var i :| 0 <= i < |servers| && servers[i] == c;
      var events := ReadChanges(servers, i, v);
    } else if events :| Changes(servers, events, v) {
      RunKeepsUnchanged(servers, events, v);
      assert false;
    }
  }
}
