/** Runs of the register built event by event, and what they show about the answers to wait for. */
module AbdRuns {
  import opened Wrappers
  import opened Counting
  import opened Abd

  lemma RunOneMore(servers: seq<Cell>, events: seq<Event>, e: Event, v: Variant, s: State)
    requires Run(servers, events, v) == Some(s) && Enabled(s, e, v)
    ensures Run(servers, events + [e], v) == Some(Apply(s, e, v))
  {
    assert (events + [e])[..|events|] == events;
  }

  lemma RunKeepsServerCount(servers: seq<Cell>, events: seq<Event>, v: Variant)
    requires Run(servers, events, v).Some?
    ensures |Run(servers, events, v).value.servers| == |servers|
  {
    if events != [] {
      RunKeepsServerCount(servers, events[..|events| - 1], v);
    }
  }

  /** Only operation `op` has changed. */
  ghost predicate OnlyOp(s: State, t: State, op: nat) {
    && op < |s.ops| == |t.ops| && |t.servers| == |s.servers|
    && (forall j :: 0 <= j < |s.ops| && j != op ==> t.ops[j] == s.ops[j])
    && t.ops[op].isRead == s.ops[op].isRead && t.ops[op].phase == s.ops[op].phase
    && t.ops[op].before == s.ops[op].before
  }

  // ---------------------------------------------------------------- queries

  /** The servers of `q` have answered a query. */
  ghost predicate Asked(s: State, t: State, op: nat, q: set<nat>, c: Client) {
    && OnlyOp(s, t, op) && t.servers == s.servers
    && t.readPosts == s.readPosts + |q| && t.writePosts == s.writePosts
    && var o, p := s.ops[op], t.ops[op];
       && p.replies.Keys == o.replies.Keys + q && p.received == o.received + q
       && p.applied == o.applied && p.acked == o.acked
       && Le(o.cell.tag, p.cell.tag) && (forall i: nat :: i in q && i < |s.servers| ==> Le(Seen(s.servers[i], c), p.cell.tag))
  }

  /** No reply of the servers of `q` leads a client out of `these` cells. */
  ghost predicate StaysIn(servers: seq<Cell>, q: set<nat>, c: Client, these: Cell -> bool) {
    forall i: nat, mine: Cell :: i in q && i < |servers| && these(mine) ==> these(Collect(mine, servers[i], c))
  }

  /** `more` starts no write that `events` has not. */
  ghost predicate NoNewWrites(events: seq<Event>, more: seq<Event>) {
    forall e :: e in more && e.StartWrite? ==> e in events
  }

  lemma AskStep(s: State, op: nat, i: nat, v: Variant)
    requires op < |s.ops| && s.ops[op].isRead && s.ops[op].phase.Querying?
    requires i < |s.servers| && i !in s.ops[op].replies && s.ops[op].received <= s.ops[op].replies.Keys
    ensures Enabled(s, ServerQuery(op, i), v) && Enabled(Apply(s, ServerQuery(op, i), v), ClientReply(op, i), v)
    ensures var t := Apply(Apply(s, ServerQuery(op, i), v), ClientReply(op, i), v);
      Asked(s, t, op, {i}, v.client) && t.ops[op].cell == Collect(s.ops[op].cell, s.servers[i], v.client)
  {
    var t1 := Apply(s, ServerQuery(op, i), v);
    assert t1.ops[op].replies.Keys == s.ops[op].replies.Keys + {i};
    CollectRises(s.ops[op].cell, s.servers[i], v.client);
  }

  lemma AskOne(servers: seq<Cell>, events: seq<Event>, v: Variant, s: State, op: nat, i: nat) returns (more: seq<Event>, t: State)
    requires Run(servers, events, v) == Some(s) && op < |s.ops| && s.ops[op].isRead && s.ops[op].phase.Querying?
    requires i < |s.servers| && i !in s.ops[op].replies && s.ops[op].received <= s.ops[op].replies.Keys
    ensures Run(servers, more, v) == Some(t) && Asked(s, t, op, {i}, v.client) && NoNewWrites(events, more)
    ensures t.ops[op].cell == Collect(s.ops[op].cell, s.servers[i], v.client)
  {
    AskStep(s, op, i, v);
    var t1 := Apply(s, ServerQuery(op, i), v);
    RunOneMore(servers, events, ServerQuery(op, i), v, s);
    RunOneMore(servers, events + [ServerQuery(op, i)], ClientReply(op, i), v, t1);
    more := events + [ServerQuery(op, i)] + [ClientReply(op, i)];
    t := Apply(t1, ClientReply(op, i), v);
  }

  /** A query that may still ask the servers of `q`. */
  ghost predicate CanAsk(s: State, op: nat, q: set<nat>) {
    && op < |s.ops| && s.ops[op].isRead && s.ops[op].phase.Querying?
    && q <= Ids(|s.servers|) && q !! s.ops[op].replies.Keys && s.ops[op].received <= s.ops[op].replies.Keys
  }

  lemma AskFewer(s: State, op: nat, q: set<nat>, i: nat)
    requires CanAsk(s, op, q)
    ensures CanAsk(s, op, q - {i})
  {}

  lemma AskedNone(s: State, op: nat, c: Client)
    requires op < |s.ops|
    ensures Asked(s, s, op, {}, c)
  {}

  lemma AskRest(s: State, u: State, op: nat, q: set<nat>, i: nat, c: Client)
    requires CanAsk(s, op, q) && i in q && Asked(s, u, op, q - {i}, c)
    ensures CanAsk(u, op, {i})
  {}

  lemma {:induction false} Ask(servers: seq<Cell>, events: seq<Event>, v: Variant, s: State, op: nat, q: set<nat>, these: Cell -> bool)
    returns (more: seq<Event>, t: State)
    requires Run(servers, events, v) == Some(s) && CanAsk(s, op, q)
    requires these(s.ops[op].cell) && StaysIn(s.servers, q, v.client, these)
    ensures Run(servers, more, v) == Some(t) && Asked(s, t, op, q, v.client) && NoNewWrites(events, more)
    ensures these(t.ops[op].cell)
    decreases |q|
  {
    if q == {} {
      more, t := events, s;
      AskedNone(s, op, v.client);
    } else {
      var i :| i in q;
      AskFewer(s, op, q, i);
      var mid, u := Ask(servers, events, v, s, op, q - {i}, these);
      AskRest(s, u, op, q, i, v.client);
      more, t := AskOne(servers, mid, v, u, op, i);
      AskedBoth(s, u, t, op, q, i, v.client);
    }
  }

  lemma AskedBoth(s: State, u: State, t: State, op: nat, q: set<nat>, i: nat, c: Client)
    requires i in q && Asked(s, u, op, q - {i}, c) && Asked(u, t, op, {i}, c)
    ensures Asked(s, t, op, q, c)
  {
    var o, p, r := s.ops[op].cell.tag, u.ops[op].cell.tag, t.ops[op].cell.tag;
    assert q - {i} + {i} == q && |q| == |q - {i}| + 1;
    TagOrder(o, p, r);
    forall k: nat | k in q && k < |s.servers| ensures Le(Seen(s.servers[k], c), r) {
      if k != i {
        TagOrder(Seen(s.servers[k], c), p, r);
      }
    }
  }

  /** With every tag that is seen at most `bound`, so is what the client holds. */
  lemma StaysAtMost(servers: seq<Cell>, q: set<nat>, c: Client, bound: Tag)
    requires forall i: nat :: i in q && i < |servers| ==> Le(Seen(servers[i], c), bound)
    ensures StaysIn(servers, q, c, (m: Cell) => Le(m.tag, bound))
  {}

  // ---------------------------------------------------------------- updates

  /** The servers of `q` have processed and acknowledged an update. */
  ghost predicate Pushed(s: State, t: State, op: nat, q: set<nat>, keep: bool) {
    && OnlyOp(s, t, op)
    && (forall i: nat :: i < |s.servers| ==>
          t.servers[i] == if i in q then Updated(s.servers[i], s.ops[op].cell, keep) else s.servers[i])
    && t.readPosts == s.readPosts && t.writePosts == s.writePosts + |q|
    && var o, p := s.ops[op], t.ops[op];
       && p.applied == o.applied + q && p.acked == o.acked + q
       && p.cell == o.cell && p.replies == o.replies && p.received == o.received
  }

  lemma PushOne(servers: seq<Cell>, events: seq<Event>, v: Variant, s: State, op: nat, i: nat) returns (more: seq<Event>, t: State)
    requires Run(servers, events, v) == Some(s) && CanPush(s, op, {i})
    ensures Run(servers, more, v) == Some(t) && Pushed(s, t, op, {i}, v.serverKeepsIncoming) && NoNewWrites(events, more)
  {
    assert i in Ids(|s.servers|);
    var t1 := Apply(s, ServerUpdate(op, i), v);
    RunOneMore(servers, events, ServerUpdate(op, i), v, s);
    RunOneMore(servers, events + [ServerUpdate(op, i)], ClientAck(op, i), v, t1);
    more := events + [ServerUpdate(op, i)] + [ClientAck(op, i)];
    t := Apply(t1, ClientAck(op, i), v);
  }

  /** An operation that may still update the servers of `q`. */
  ghost predicate CanPush(s: State, op: nat, q: set<nat>) {
    && op < |s.ops| && !s.ops[op].phase.Querying?
    && q <= Ids(|s.servers|) && q !! s.ops[op].applied && s.ops[op].acked <= s.ops[op].applied
  }

  lemma PushFewer(s: State, op: nat, q: set<nat>, i: nat)
    requires CanPush(s, op, q)
    ensures CanPush(s, op, q - {i})
  {}

  lemma PushedNone(s: State, op: nat, keep: bool)
    requires op < |s.ops|
    ensures Pushed(s, s, op, {}, keep)
  {}

  lemma PushRest(s: State, u: State, op: nat, q: set<nat>, i: nat, keep: bool)
    requires CanPush(s, op, q) && i in q && Pushed(s, u, op, q - {i}, keep)
    ensures CanPush(u, op, {i})
  {}

  lemma {:induction false} Push(servers: seq<Cell>, events: seq<Event>, v: Variant, s: State, op: nat, q: set<nat>)
    returns (more: seq<Event>, t: State)
    requires Run(servers, events, v) == Some(s) && CanPush(s, op, q)
    ensures Run(servers, more, v) == Some(t) && Pushed(s, t, op, q, v.serverKeepsIncoming) && NoNewWrites(events, more)
    decreases |q|
  {
    if q == {} {
      more, t := events, s;
      PushedNone(s, op, v.serverKeepsIncoming);
    } else {
      var i :| i in q;
      PushFewer(s, op, q, i);
      var mid, u := Push(servers, events, v, s, op, q - {i});
      PushRest(s, u, op, q, i, v.serverKeepsIncoming);
      more, t := PushOne(servers, mid, v, u, op, i);
      PushedBoth(s, u, t, op, q, i, v.serverKeepsIncoming);
    }
  }

  lemma PushedBoth(s: State, u: State, t: State, op: nat, q: set<nat>, i: nat, keep: bool)
    requires i in q && Pushed(s, u, op, q - {i}, keep) && Pushed(u, t, op, {i}, keep)
    ensures Pushed(s, t, op, q, keep)
  {
    assert q - {i} + {i} == q && |q| == |q - {i}| + 1;
  }

  // ---------------------------------------------------------------- whole phases

  /** Operation `op` is one phase further; the servers are as they were. */
  ghost predicate QueryDone(s: State, t: State, op: nat, q: set<nat>) {
    && op < |s.ops| == |t.ops| && t.servers == s.servers
    && (forall j :: 0 <= j < |s.ops| && j != op ==> t.ops[j] == s.ops[j])
    && t.readPosts == s.readPosts + |q| && t.writePosts == s.writePosts
    && var o, p := s.ops[op], t.ops[op];
       p.isRead && p.phase.Writing? && p.before == o.before && p.applied == o.applied && p.acked == o.acked
  }

  /** A query that hears the servers of `q` and ends. */
  lemma Query(servers: seq<Cell>, events: seq<Event>, v: Variant, s: State, op: nat, q: set<nat>, these: Cell -> bool)
    returns (more: seq<Event>, t: State)
    requires Run(servers, events, v) == Some(s) && CanAsk(s, op, q) && s.ops[op].received == {}
    requires these(s.ops[op].cell) && StaysIn(s.servers, q, v.client, these)
    requires match v.waits case Own(r, _) => |q| >= r case Shared => s.readPosts + |q| >= Majority(|s.servers|)
    ensures Run(servers, more, v) == Some(t) && QueryDone(s, t, op, q) && NoNewWrites(events, more)
    ensures these(t.ops[op].cell)
    ensures forall i: nat :: i in q && i < |s.servers| ==> Le(Seen(s.servers[i], v.client), t.ops[op].cell.tag)
  {
    var mid, u := Ask(servers, events, v, s, op, q, these);
    assert u.ops[op].received == q;
    RunOneMore(servers, mid, WriteBack(op), v, u);
    more, t := mid + [WriteBack(op)], Apply(u, WriteBack(op), v);
  }

  ghost predicate UpdateDone(s: State, t: State, op: nat, q: set<nat>, keep: bool) {
    && op < |s.ops| == |t.ops| && |t.servers| == |s.servers|
    && (forall i: nat :: i < |s.servers| ==>
          t.servers[i] == if i in q then Updated(s.servers[i], s.ops[op].cell, keep) else s.servers[i])
    && (forall j :: 0 <= j < |s.ops| && j != op ==> t.ops[j] == s.ops[j])
    && t.readPosts == s.readPosts && t.writePosts == s.writePosts + |q|
    && var o, p := s.ops[op], t.ops[op]; p.isRead == o.isRead && p.phase.Finished? && p.before == o.before && p.cell == o.cell
  }

  /** An update that reaches the servers of `q` and ends. */
  lemma Update(servers: seq<Cell>, events: seq<Event>, v: Variant, s: State, op: nat, q: set<nat>)
    returns (more: seq<Event>, t: State)
    requires Run(servers, events, v) == Some(s) && CanPush(s, op, q) && s.ops[op].acked == {} && s.ops[op].phase.Writing?
    requires match v.waits case Own(_, w) => |q| >= w case Shared => s.writePosts + |q| >= Majority(|s.servers|)
    ensures Run(servers, more, v) == Some(t) && UpdateDone(s, t, op, q, v.serverKeepsIncoming) && NoNewWrites(events, more)
  {
    var mid, u := Push(servers, events, v, s, op, q);
    assert u.ops[op].acked == q;
    RunOneMore(servers, mid, Finish(op), v, u);
    more, t := mid + [Finish(op)], Apply(u, Finish(op), v);
  }

  // ---------------------------------------------------------------- too few answers

  /** A write of `c` that has reached the servers of `q`, and a read that starts behind it. */
  ghost predicate WriteThenRead(servers: seq<Cell>, s: State, c: Cell, q: set<nat>, keep: bool) {
    && |s.servers| == |servers| && |s.ops| == 2 && s.ops[0].cell == c && s.ops[0].phase.Finished?
    && (forall i: nat :: i < |servers| ==> s.servers[i] == if i in q then Updated(servers[i], c, keep) else servers[i])
    && s.ops[1].isRead && s.ops[1].phase.Querying? && s.ops[1].cell == Unset() && 0 in s.ops[1].before
    && s.ops[1].replies == map[] && s.ops[1].received == {}
  }

  /** One write, finished. */
  ghost predicate WriteDone(servers: seq<Cell>, s: State, c: Cell, q: set<nat>, keep: bool) {
    && |s.servers| == |servers| && |s.ops| == 1 && s.ops[0].cell == c && s.ops[0].phase.Finished?
    && (forall i: nat :: i < |servers| ==> s.servers[i] == if i in q then Updated(servers[i], c, keep) else servers[i])
  }

  lemma WriteStarts(servers: seq<Cell>, v: Variant, c: Cell)
    ensures var s := Apply(Start(servers), StartWrite(c), v);
      && Run(servers, [StartWrite(c)], v) == Some(s)
      && s.servers == servers && |s.ops| == 1 && s.ops[0].cell == c && s.ops[0].phase.Writing?
      && s.ops[0].applied == {} && s.ops[0].acked == {} && s.writePosts == 0
  {
    RunOneMore(servers, [], StartWrite(c), v, Start(servers));
    assert [] + [StartWrite(c)] == [StartWrite(c)];
  }

  lemma WriteAlone(servers: seq<Cell>, v: Variant, c: Cell, q: set<nat>) returns (events: seq<Event>, s: State)
    requires v.waits.Own? && q <= Ids(|servers|) && |q| >= v.waits.updates
    ensures Run(servers, events, v) == Some(s) && WriteDone(servers, s, c, q, v.serverKeepsIncoming)
    ensures NoNewWrites([StartWrite(c)], events)
  {
    WriteStarts(servers, v, c);
    events, s := Update(servers, [StartWrite(c)], v, Apply(Start(servers), StartWrite(c), v), 0, q);
  }

  lemma ReadStarts(servers: seq<Cell>, s: State, c: Cell, q: set<nat>, v: Variant)
    requires WriteDone(servers, s, c, q, v.serverKeepsIncoming)
    ensures WriteThenRead(servers, Apply(s, StartRead, v), c, q, v.serverKeepsIncoming)
  {
    assert 0 in FinishedOps(s.ops);
  }

  lemma WriteBefore(servers: seq<Cell>, v: Variant, c: Cell, q: set<nat>) returns (events: seq<Event>, s: State)
    requires v.waits.Own? && q <= Ids(|servers|) && |q| >= v.waits.updates
    ensures Run(servers, events, v) == Some(s) && WriteThenRead(servers, s, c, q, v.serverKeepsIncoming)
    ensures NoNewWrites([StartWrite(c)], events)
  {
    var e, s1 := WriteAlone(servers, v, c, q);
    ReadStarts(servers, s1, c, q, v);
    RunOneMore(servers, e, StartRead, v, s1);
    events, s := e + [StartRead], Apply(s1, StartRead, v);
  }

  /** A write reaches the servers of `q`, a read hears those of `heard` and sees nothing later than
      `bound`, which is behind the write. */
  lemma ReadMisses(servers: seq<Cell>, v: Variant, c: Cell, q: set<nat>, heard: set<nat>, bound: Tag)
    returns (events: seq<Event>)
    requires v.waits.Own? && q <= Ids(|servers|) && |q| >= v.waits.updates
    requires heard <= Ids(|servers|) && |heard| >= v.waits.queries
    requires Le(Unset().tag, bound) && Later(c.tag, bound)
    requires forall i: nat :: i in heard && i < |servers| ==>
      Le(Seen(if i in q then Updated(servers[i], c, v.serverKeepsIncoming) else servers[i], v.client), bound)
    ensures Run(servers, events, v).Some? && !NeverBack(Run(servers, events, v).value)
    ensures NoNewWrites([StartWrite(c)], events)
  {
    var e, s := WriteBefore(servers, v, c, q);
    StaysAtMost(s.servers, heard, v.client, bound);
    var t;
    events, t := Query(servers, e, v, s, 1, heard, (m: Cell) => Le(m.tag, bound));
    TagOrder(c.tag, bound, t.ops[1].cell.tag);
    MissesWrite(t, c);
  }

  lemma UnsetIsNotLater(c: Client)
    ensures Le(Seen(Unset(), c), Unset().tag)
  {
    assert Atoi("") == 0;
  }

  /** A write reaches `w` servers, a read hears `r` others: the read misses the finished write. */
  lemma TooFewAnswers(n: nat, v: Variant) returns (servers: seq<Cell>, events: seq<Event>)
    requires v.waits.Own? && v.waits.queries + v.waits.updates <= n
    ensures |servers| == n && Run(servers, events, v).Some? && !NeverBack(Run(servers, events, v).value)
  {
    var r, w := v.waits.queries, v.waits.updates;
    servers := seq(n, _ => Unset());
    SubsetOfIds(w, n);
    var heard := Rest(w, r, n);
    UnsetIsNotLater(v.client);
    assert forall i: nat :: i in heard && i < n ==> i !in Ids(w) && servers[i] == Unset();
    events := ReadMisses(servers, v, Cell("new", Tag(1, CLIENT_ID)), Ids(w), heard, Unset().tag);
  }

  lemma MissesWrite(s: State, c: Cell)
    requires |s.ops| == 2 && s.ops[0].cell == c && Later(c.tag, s.ops[1].cell.tag)
    requires 0 in s.ops[1].before && s.ops[1].isRead && !s.ops[1].phase.Querying?
    ensures !NeverBack(s)
  {}

  lemma SubsetOfIds(k: nat, n: nat)
    requires k <= n
    ensures Ids(k) <= Ids(n)
  {}

  /** `r` servers from the `w`-th on. */
  lemma Rest(w: nat, r: nat, n: nat) returns (q: set<nat>)
    requires w + r <= n
    ensures q <= Ids(n) && |q| == r && q !! Ids(w)
  {
    var others := Ids(n) - Ids(w);
    assert Ids(n) == Ids(w) + others;
    assert |Ids(n)| == |Ids(w)| + |others|;
    q := Pick(others, r);
  }

  /** Reads never go back, in every run over `n` servers, exactly when the answers a read and a write
      wait for are together more than `n`. */
  lemma ReadsNeverGoBackIff(n: nat, v: Variant)
    requires v.client.tagFromReply && v.waits.Own?
    ensures (forall servers, events :: |servers| == n && Run(servers, events, v).Some? ==> NeverBack(Run(servers, events, v).value))
      <==> v.waits.queries + v.waits.updates > n
  {
    if v.waits.queries + v.waits.updates > n {
      forall servers, events | |servers| == n && Run(servers, events, v).Some?
        ensures NeverBack(Run(servers, events, v).value)
      {
        ReadsNeverGoBack(servers, events, v);
      }
    } else {
      var servers, events := TooFewAnswers(n, v);
    }
  }

  /** For the semaphores of the source: with `p` and `q` posts left over when a read and a write start,
      they wait for `OwnAnswers` answers.  Reads never go back exactly when nothing is left over, or,
      with an even number of servers, a single post. */
  lemma LeftoverPostsAreHarmlessIff(n: nat, p: nat, q: nat, v: Variant)
    requires v.client.tagFromReply && n > 0 && v.waits == Own(OwnAnswers(n, p), OwnAnswers(n, q))
    ensures (forall servers, events :: |servers| == n && Run(servers, events, v).Some? ==> NeverBack(Run(servers, events, v).value))
      <==> p + q <= (if n % 2 == 0 then 1 else 0)
  {
    ReadsNeverGoBackIff(n, v);
  }
}
