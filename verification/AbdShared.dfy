/** The semaphores of the source, which keep the posts of all earlier operations: which sequences of
    reads and writes they are good for. */
module AbdShared {
  import opened Wrappers
  import opened Counting
  import opened Abd
  import opened AbdRuns

  /** The operations that have been started, in order: reads (true) and writes. */
  ghost predicate HasKinds(s: State, kinds: seq<bool>) {
    |s.ops| == |kinds| && forall j :: 0 <= j < |kinds| ==> s.ops[j].isRead == kinds[j]
  }

  /** A read comes first, or right behind a first write, or not at all. */
  predicate Harmless(kinds: seq<bool>) {
    forall i :: 0 <= i < |kinds| && kinds[i] ==> i == 0 || (i == 1 && !kinds[0])
  }

  // ---------------------------------------------------------------- what is left of the invariant

  /** Posts come from the operations there are; while there is only one, it has all of them. */
  ghost predicate PostsOk(s: State) {
    if s.ops == [] then s.readPosts == 0 && s.writePosts == 0
    else if |s.ops| == 1 then
      && s.readPosts == |s.ops[0].received| && s.writePosts == |s.ops[0].acked|
      && (s.ops[0].phase.Finished? ==> |s.ops[0].acked| >= Majority(|s.servers|))
    else s.readPosts == |s.ops[0].received| + |s.ops[1].received|
  }

  /** Reads are where they do no harm; writes hear nothing; the first operation has none before it. */
  ghost predicate Early(s: State) {
    && (forall j :: 0 <= j < |s.ops| ==> EarlyOp(s, j))
    && (s.ops != [] ==> s.ops[0].before == {})
  }

  ghost predicate EarlyOp(s: State, j: nat)
    requires j < |s.ops|
  {
    if s.ops[j].isRead then j == 0 || (j == 1 && !s.ops[0].isRead)
    else s.ops[j].replies == map[] && s.ops[j].received == {}
  }

  ghost predicate SharedInv(s: State, c: Client) {
    && (forall j :: 0 <= j < |s.ops| ==> Sound(s, s.ops[j], c, 0))
    && PostsOk(s) && Early(s)
    && (|s.ops| > 1 && s.ops[1].isRead ==> SoundOrder(s, s.ops[1], Majority(|s.servers|)))
  }

  lemma NewReceived(s: State, op: nat, i: nat, v: Variant)
    requires Enabled(s, ClientReply(op, i), v)
    ensures |Apply(s, ClientReply(op, i), v).ops[op].received| == |s.ops[op].received| + 1
  {}

  lemma NewAcked(s: State, op: nat, i: nat, v: Variant)
    requires Enabled(s, ClientAck(op, i), v)
    ensures |Apply(s, ClientAck(op, i), v).ops[op].acked| == |s.ops[op].acked| + 1
  {}

  lemma StepKeepsPosts(s: State, e: Event, v: Variant)
    requires Enabled(s, e, v) && v.waits.Shared? && PostsOk(s) && Early(s) && Early(Apply(s, e, v))
    ensures PostsOk(Apply(s, e, v))
  {
    if e.ClientReply? {
      assert EarlyOp(s, e.op);
      NewReceived(s, e.op, e.server, v);
    } else if e.ClientAck? {
      NewAcked(s, e.op, e.server, v);
    }
  }

  lemma StepKeepsEarlyOp(s: State, e: Event, v: Variant, j: nat)
    requires Enabled(s, e, v) && j < |s.ops| && EarlyOp(s, j) && (e.ClientReply? ==> EarlyOp(s, e.op))
    ensures EarlyOp(Apply(s, e, v), j)
  {}

  lemma StepKeepsEarly(s: State, e: Event, v: Variant)
    requires Enabled(s, e, v) && Early(s)
    requires e.StartRead? ==> s.ops == [] || (|s.ops| == 1 && !s.ops[0].isRead)
    ensures Early(Apply(s, e, v))
  {
    var t := Apply(s, e, v);
    forall j | 0 <= j < |t.ops| ensures EarlyOp(t, j) {
      if j < |s.ops| {
        StepKeepsEarlyOp(s, e, v, j);
      }
    }
  }

  lemma SecondStarts(s: State, v: Variant)
    requires |s.ops| == 1 && v.waits.Shared? && SharedInv(s, v.client)
    ensures SoundOrder(s, Apply(s, StartRead, v).ops[1], Majority(|s.servers|))
  {
    assert Sound(s, s.ops[0], v.client, 0);
    NewOrder(s, Apply(s, StartRead, v).ops[1], v.client, Majority(|s.servers|));
  }

  /** The second operation, a read behind a write. */
  lemma SecondIsOrdered(s: State, e: Event, v: Variant)
    requires Enabled(s, e, v) && v.waits.Shared? && v.client.tagFromReply && SharedInv(s, v.client)
    requires var t := Apply(s, e, v); Early(t) && |t.ops| > 1 && t.ops[1].isRead
    ensures SoundOrder(s, Apply(s, e, v).ops[1], Majority(|s.servers|))
  {
    var t, w := Apply(s, e, v), Majority(|s.servers|);
    if |s.ops| == 1 {
      SecondStarts(s, v);
    } else if e == WriteBack(1) {
      BothMajorities(s, v, w);
    } else {
      OrderStays(s, e, v, 1, w);
    }
  }

  lemma BothMajorities(s: State, v: Variant, w: nat)
    requires SharedInv(s, v.client) && v.waits.Shared? && v.client.tagFromReply && w == Majority(|s.servers|)
    requires |s.ops| > 1 && s.ops[1].isRead && Enabled(s, WriteBack(1), v)
    ensures SoundOrder(s, Apply(s, WriteBack(1), v).ops[1], w)
  {
    var o := s.ops[1];
    assert EarlyOp(s, 0) && EarlyOp(s, 1);
    assert |o.received| >= w && Sound(s, o, v.client, 0);
    forall a | a in o.before ensures Le(s.ops[a].cell.tag, o.cell.tag) {
      HeardEnough(s, o, v.client, s.ops[a].cell.tag, w);
    }
  }

  lemma StepKeepsSharedInv(s: State, e: Event, v: Variant)
    requires Enabled(s, e, v) && v.waits.Shared? && v.client.tagFromReply && SharedInv(s, v.client)
    requires e.StartRead? ==> s.ops == [] || (|s.ops| == 1 && !s.ops[0].isRead)
    ensures SharedInv(Apply(s, e, v), v.client)
  {
    var t := Apply(s, e, v);
    StepKeepsSound(s, e, v, 0);
    StepKeepsEarly(s, e, v);
    StepKeepsPosts(s, e, v);
    if |t.ops| > 1 && t.ops[1].isRead {
      SecondIsOrdered(s, e, v);
      StepForward(s, e, v);
      ForwardKeeps(s, t, t.ops[1], v.client, Majority(|s.servers|));
    }
  }

  /** Operations are only added. */
  lemma StepKeepsKinds(s: State, e: Event, v: Variant)
    requires Enabled(s, e, v)
    ensures var t := Apply(s, e, v); |s.ops| <= |t.ops| && forall j :: 0 <= j < |s.ops| ==> t.ops[j].isRead == s.ops[j].isRead
    ensures e.StartRead? ==> |Apply(s, e, v).ops| == |s.ops| + 1 && Apply(s, e, v).ops[|s.ops|].isRead
  {}

  lemma {:induction false} HarmlessRun(servers: seq<Cell>, events: seq<Event>, v: Variant, kinds: seq<bool>)
    requires v.waits.Shared? && v.client.tagFromReply && Run(servers, events, v).Some? && Harmless(kinds)
    requires HasKinds(Run(servers, events, v).value, kinds)
    ensures SharedInv(Run(servers, events, v).value, v.client)
  {
    if events != [] {
      var n := |events| - 1;
      var s := Run(servers, events[..n], v).value;
      StepKeepsKinds(s, events[n], v);
      HarmlessRun(servers, events[..n], v, kinds[..|s.ops|]);
      StepKeepsSharedInv(s, events[n], v);
    }
  }

  lemma SharedInvNeverBack(s: State, c: Client)
    requires SharedInv(s, c)
    ensures NeverBack(s)
  {
    forall b | 0 <= b < |s.ops| && s.ops[b].isRead && !s.ops[b].phase.Querying? ensures InOrder(s, s.ops[b]) {
      assert EarlyOp(s, b);
    }
  }

  // ---------------------------------------------------------------- starting operations

  /** Operations of the given kinds have been started, writes with the cell `c`. */
  ghost predicate Started(s: State, t: State, kinds: seq<bool>, c: Cell) {
    && t.servers == s.servers && t.readPosts == s.readPosts && t.writePosts == s.writePosts
    && s.ops <= t.ops && |t.ops| <= |kinds|
    && forall j :: |s.ops| <= j < |t.ops| ==> JustStarted(t.ops[j], kinds[j], c) && FinishedOps(s.ops) <= t.ops[j].before
  }

  ghost predicate JustStarted(o: Op, isRead: bool, c: Cell) {
    && o.isRead == isRead && o.phase == (if isRead then Querying else Writing)
    && o.cell == (if isRead then Unset() else c)
    && o.replies == map[] && o.received == {} && o.applied == {} && o.acked == {}
  }

  lemma FinishedStay(ops: seq<Op>, longer: seq<Op>)
    requires ops <= longer
    ensures FinishedOps(ops) <= FinishedOps(longer)
  {}

  lemma StartedOneMore(s: State, t: State, u: State, kinds: seq<bool>, c: Cell, o: Op)
    requires Started(s, t, kinds, c) && |t.ops| < |kinds|
    requires u == t.(ops := t.ops + [o]) && JustStarted(o, kinds[|t.ops|], c) && FinishedOps(s.ops) <= o.before
    ensures Started(s, u, kinds, c)
  {
    assert forall j :: 0 <= j < |t.ops| ==> u.ops[j] == t.ops[j];
  }

  lemma StartOne(s: State, t: State, kinds: seq<bool>, c: Cell, v: Variant)
    requires Started(s, t, kinds, c) && |t.ops| < |kinds|
    ensures Started(s, Apply(t, if kinds[|t.ops|] then StartRead else StartWrite(c), v), kinds, c)
  {
    var u := Apply(t, if kinds[|t.ops|] then StartRead else StartWrite(c), v);
    FinishedStay(s.ops, t.ops);
    StartedOneMore(s, t, u, kinds, c, u.ops[|t.ops|]);
  }

  lemma {:induction false} StartUpTo(servers: seq<Cell>, events: seq<Event>, v: Variant, s: State, kinds: seq<bool>, k: nat, c: Cell)
    returns (more: seq<Event>, t: State)
    requires Run(servers, events, v) == Some(s) && |s.ops| <= k <= |kinds|
    ensures Run(servers, more, v) == Some(t) && Started(s, t, kinds, c) && |t.ops| == k
    decreases k
  {
    if |s.ops| == k {
      more, t := events, s;
    } else {
      var mid, u := StartUpTo(servers, events, v, s, kinds, k - 1, c);
      var e := if kinds[k - 1] then StartRead else StartWrite(c);
      StartOne(s, u, kinds, c, v);
      RunOneMore(servers, mid, e, v, u);
      more, t := mid + [e], Apply(u, e, v);
    }
  }

  /** Once a read has gone back, it has; further operations may start. */
  lemma Rest(servers: seq<Cell>, events: seq<Event>, v: Variant, s: State, kinds: seq<bool>, a: nat, b: nat)
    returns (more: seq<Event>)
    requires Run(servers, events, v) == Some(s) && |s.ops| <= |kinds|
    requires forall j :: 0 <= j < |s.ops| ==> s.ops[j].isRead == kinds[j]
    requires WentBack(s, a, b)
    ensures Run(servers, more, v).Some? && HasKinds(Run(servers, more, v).value, kinds) && !NeverBack(Run(servers, more, v).value)
  {
    var t;
    more, t := StartUpTo(servers, events, v, s, kinds, |kinds|, Unset());
    assert t.ops[a] == s.ops[a] && t.ops[b] == s.ops[b];
    assert WentBack(t, a, b);
  }

  ghost predicate WentBack(s: State, a: nat, b: nat) {
    && a < |s.ops| && b < |s.ops| && a in s.ops[b].before && s.ops[b].isRead && !s.ops[b].phase.Querying?
    && Later(s.ops[a].cell.tag, s.ops[b].cell.tag)
  }

  ghost predicate KindsSoFar(s: State, kinds: seq<bool>) {
    |s.ops| <= |kinds| && forall j :: 0 <= j < |s.ops| ==> s.ops[j].isRead == kinds[j]
  }

  // ---------------------------------------------------------------- a second read

  /** A cell that every client sees as later than the tag a query starts with. */
  function One(): Cell {
    Cell("1", Tag(1, CLIENT_ID))
  }

  lemma OneIsSeen(c: Client)
    ensures Later(Seen(One(), c), Unset().tag) && Later(One().tag, Unset().tag)
  {
    assert "1"[1..] == "";
    assert Atoi("1") == 1;
  }

  /** A read from beginning to end: every server answers both phases. */
  lemma WholeRead(n: nat, v: Variant, kinds: seq<bool>, j: nat) returns (servers: seq<Cell>, events: seq<Event>, s: State)
    requires n > 0 && v.waits.Shared? && j < |kinds| && kinds[j]
    ensures |servers| == n && Run(servers, events, v) == Some(s) && KindsSoFar(s, kinds)
    ensures |s.servers| == n && |s.ops| == j + 1 && s.ops[j].phase.Finished? && s.readPosts == n && s.writePosts == n
    ensures Later(s.ops[j].cell.tag, Unset().tag)
  {
    servers := seq(n, _ => One());
    var e1, s1 := StartUpTo(servers, [], v, Start(servers), kinds, j + 1, Unset());
    var e2, s2 := Query(servers, e1, v, s1, j, Ids(n), (m: Cell) => true);
    events, s := Update(servers, e2, v, s2, j, Ids(n));
    assert 0 in Ids(n);
    OneIsSeen(v.client);
    TagOrder(Seen(One(), v.client), s2.ops[j].cell.tag, Unset().tag);
  }

  /** The next read waits for nothing. */
  lemma SecondReadGoesBack(n: nat, v: Variant, kinds: seq<bool>, j: nat, i: nat) returns (servers: seq<Cell>, events: seq<Event>)
    requires n > 0 && v.waits.Shared? && j < i < |kinds| && kinds[j] && kinds[i]
    ensures |servers| == n && Run(servers, events, v).Some? && HasKinds(Run(servers, events, v).value, kinds)
    ensures !NeverBack(Run(servers, events, v).value)
  {
    var e, s;
    servers, e, s := WholeRead(n, v, kinds, j);
    var e1, s1 := StartUpTo(servers, e, v, s, kinds, i + 1, Unset());
    RunOneMore(servers, e1, WriteBack(i), v, s1);
    var t := Apply(s1, WriteBack(i), v);
    assert j in FinishedOps(s.ops);
    assert WentBack(t, j, i);
    events := Rest(servers, e1 + [WriteBack(i)], v, t, kinds, j, i);
  }

  // ---------------------------------------------------------------- a second write

  /** A write from beginning to end, and a second one that waits for nothing. */
  lemma TwoWrites(n: nat, v: Variant, kinds: seq<bool>) returns (servers: seq<Cell>, events: seq<Event>, s: State)
    requires n > 0 && v.waits.Shared? && |kinds| >= 2 && !kinds[0] && !kinds[1]
    ensures |servers| == n && Run(servers, events, v) == Some(s) && KindsSoFar(s, kinds)
    ensures s.servers == servers && servers == seq(n, _ => Unset())
    ensures |s.ops| == 2 && s.ops[1].phase.Finished? && s.ops[1].cell == One() && s.readPosts == 0
  {
    servers := seq(n, _ => Unset());
    var e1, s1 := StartUpTo(servers, [], v, Start(servers), kinds, 1, Unset());
    var e2, s2 := Update(servers, e1, v, s1, 0, Ids(n));
    assert s2.servers == servers;
    var e3, s3 := StartUpTo(servers, e2, v, s2, kinds, 2, One());
    RunOneMore(servers, e3, Finish(1), v, s3);
    events, s := e3 + [Finish(1)], Apply(s3, Finish(1), v);
  }

  /** The two writes are finished, and a later read has started. */
  ghost predicate ReadBehindTwo(s: State, i: nat) {
    && 2 <= i && |s.ops| == i + 1 && s.ops[1].cell == One() && 1 in s.ops[i].before
    && JustStarted(s.ops[i], true, Unset()) && s.readPosts == 0
  }

  lemma ReadBehindTwoWrites(n: nat, v: Variant, kinds: seq<bool>, i: nat) returns (servers: seq<Cell>, events: seq<Event>, s: State)
    requires n > 0 && v.waits.Shared? && 2 <= i < |kinds| && !kinds[0] && !kinds[1] && kinds[i]
    ensures |servers| == n && Run(servers, events, v) == Some(s) && KindsSoFar(s, kinds)
    ensures s.servers == seq(n, _ => Unset()) && ReadBehindTwo(s, i)
  {
    var e, s0;
    servers, e, s0 := TwoWrites(n, v, kinds);
    assert 1 in FinishedOps(s0.ops);
    events, s := StartUpTo(servers, e, v, s0, kinds, i + 1, Unset());
  }

  lemma MissesSecond(s: State, t: State, i: nat, q: set<nat>)
    requires ReadBehindTwo(s, i) && QueryDone(s, t, i, q) && Le(t.ops[i].cell.tag, Unset().tag)
    ensures WentBack(t, 1, i)
  {
    TagOrder(One().tag, Unset().tag, t.ops[i].cell.tag);
  }

  lemma ReadUnset(servers: seq<Cell>, events: seq<Event>, v: Variant, s: State, n: nat, i: nat) returns (more: seq<Event>, t: State)
    requires n > 0 && v.waits.Shared? && Run(servers, events, v) == Some(s) && s.servers == seq(n, _ => Unset()) && ReadBehindTwo(s, i)
    ensures Run(servers, more, v) == Some(t) && QueryDone(s, t, i, Ids(n)) && Le(t.ops[i].cell.tag, Unset().tag)
  {
    UnsetIsNotLater(v.client);
    StaysAtMost(s.servers, Ids(n), v.client, Unset().tag);
    more, t := Query(servers, events, v, s, i, Ids(n), (m: Cell) => Le(m.tag, Unset().tag));
  }

  /** A read that follows hears every server, and misses the second write. */
  lemma SecondWriteIsMissed(n: nat, v: Variant, kinds: seq<bool>, i: nat) returns (servers: seq<Cell>, events: seq<Event>)
    requires n > 0 && v.waits.Shared? && 2 <= i < |kinds| && !kinds[0] && !kinds[1] && kinds[i]
    ensures |servers| == n && Run(servers, events, v).Some? && HasKinds(Run(servers, events, v).value, kinds)
    ensures !NeverBack(Run(servers, events, v).value)
  {
    var e, s;
    servers, e, s := ReadBehindTwoWrites(n, v, kinds, i);
    var e2, t := ReadUnset(servers, e, v, s, n, i);
    MissesSecond(s, t, i, Ids(n));
    events := Rest(servers, e2, v, t, kinds, 1, i);
  }

  /** As coded, with posts that accumulate: reads never go back, in every run with these reads and
      writes over any number of servers, exactly when the only read comes first or right behind the
      first write. */
  lemma SharedRunsNeverGoBackIff(n: nat, kinds: seq<bool>, v: Variant)
    requires n > 0 && v.waits.Shared? && v.client.tagFromReply
    ensures (forall servers, events :: |servers| == n && Run(servers, events, v).Some? && HasKinds(Run(servers, events, v).value, kinds) ==> NeverBack(Run(servers, events, v).value))
      <==> Harmless(kinds)
  {
    if Harmless(kinds) {
      forall servers, events | |servers| == n && Run(servers, events, v).Some? && HasKinds(Run(servers, events, v).value, kinds)
        ensures NeverBack(Run(servers, events, v).value)
      {
        HarmlessRun(servers, events, v, kinds);
        SharedInvNeverBack(Run(servers, events, v).value, v.client);
      }
    } else {
      var servers, events := HarmfulRun(n, v, kinds);
    }
  }

  /** Whatever the client makes of replies. */
  lemma HarmfulRun(n: nat, v: Variant, kinds: seq<bool>) returns (servers: seq<Cell>, events: seq<Event>)
    requires n > 0 && v.waits.Shared? && !Harmless(kinds)
    ensures |servers| == n && Run(servers, events, v).Some? && HasKinds(Run(servers, events, v).value, kinds)
    ensures !NeverBack(Run(servers, events, v).value)
  {
    var i :| 0 <= i < |kinds| && kinds[i] && !(i == 0 || (i == 1 && !kinds[0]));
    if kinds[0] {
      servers, events := SecondReadGoesBack(n, v, kinds, 0, i);
    } else if kinds[1] {
      servers, events := SecondReadGoesBack(n, v, kinds, 1, i);
    } else {
      servers, events := SecondWriteIsMissed(n, v, kinds, i);
    }
  }

  /** A client that reads, writes and reads again misses its own write. */
  lemma SharedSemaphoresGoBack(n: nat, v: Variant) returns (servers: seq<Cell>, events: seq<Event>)
    requires n > 0 && v.waits.Shared?
    ensures |servers| == n && Run(servers, events, v).Some? && HasKinds(Run(servers, events, v).value, [true, false, true])
    ensures !NeverBack(Run(servers, events, v).value)
  {
    assert [true, false, true][2];
    servers, events := HarmfulRun(n, v, [true, false, true]);
  }
}
