/** What the tag parse of the client does to the rule that equal tags mean equal values. */
module AbdCodedValues {
  import opened Wrappers
  import opened Counting
  import opened Abd
  import opened AbdRuns
  import opened AbdValues
  import opened AbdCoded

  /** What a read returns after replies with this value. */
  function Returned(value: string): Cell {
    if Atoi(value) == 0 then Unset() else Cell(value, NumberTag(value))
  }

  const PARSED_CLIENT := Client(true, false)

  lemma ReturnedAgain(value: string)
    ensures Returned(Returned(value).value) == Returned(value)
  {
    assert Atoi("") == 0;
  }

  lemma CollectReturned(mine: Cell, value: string, reply: Cell)
    requires mine == Returned(value)
    ensures Collect(mine, reply, PARSED_CLIENT) in {mine, Returned(reply.value)}
    ensures mine == Unset() ==> Collect(mine, reply, PARSED_CLIENT) == Returned(reply.value)
  {}

  lemma UnsetIsReturned()
    ensures Returned("") == Unset()
  {
    assert Atoi("") == 0;
  }

  // ---------------------------------------------------------------- what can come out of a run

  /** The result of a read, from one of the cells. */
  ghost predicate Result(c: Cell, cells: iset<Cell>) {
    exists d :: d in cells && c == Returned(d.value)
  }

  /** A server with this value gives such a result. */
  ghost predicate Gives(value: string, cells: iset<Cell>) {
    Result(Returned(value), cells)
  }

  lemma CellGives(c: Cell, cells: iset<Cell>)
    requires c in cells || Result(c, cells)
    ensures Gives(c.value, cells)
  {
    if c in cells {
      assert Returned(c.value) == Returned(c.value);
    } else {
      var d :| d in cells && c == Returned(d.value);
      ReturnedAgain(d.value);
    }
  }

  ghost predicate ReadFrom(o: Op, cells: iset<Cell>) {
    if o.phase.Querying? && o.received == {} then o.cell == Unset() else Result(o.cell, cells)
  }

  ghost predicate OpFrom(o: Op, cells: iset<Cell>) {
    && (forall i :: i in o.replies ==> Gives(o.replies[i].value, cells))
    && (if o.isRead then ReadFrom(o, cells) else o.cell in cells && !o.phase.Querying?)
  }

  ghost predicate AllFrom(s: State, cells: iset<Cell>) {
    && (forall i :: 0 <= i < |s.servers| ==> Gives(s.servers[i].value, cells))
    && (forall j :: 0 <= j < |s.ops| ==> OpFrom(s.ops[j], cells))
  }

  lemma CollectFrom(mine: Cell, reply: Cell, cells: iset<Cell>)
    requires (mine == Unset() || Result(mine, cells)) && Gives(reply.value, cells)
    ensures Result(Collect(mine, reply, PARSED_CLIENT), cells)
  {
    if mine == Unset() {
      UnsetIsReturned();
      CollectReturned(mine, "", reply);
    } else {
      var d :| d in cells && mine == Returned(d.value);
      CollectReturned(mine, d.value, reply);
    }
  }

  lemma StepKeepsOpFrom(s: State, e: Event, v: Variant, cells: iset<Cell>, j: nat)
    requires AllFrom(s, cells) && Enabled(s, e, v) && v.client == PARSED_CLIENT && v.waits.Own? && v.waits.queries > 0
    requires e.StartWrite? ==> e.cell in cells
    requires j < |Apply(s, e, v).ops|
    ensures OpFrom(Apply(s, e, v).ops[j], cells)
  {
    assert j < |s.ops| ==> OpFrom(s.ops[j], cells);
    if e.ClientReply? && e.op == j && s.ops[j].phase.Querying? {
      CollectFrom(s.ops[j].cell, s.ops[j].replies[e.server], cells);
    }
  }

  lemma UpdateKeepsFrom(s: State, op: nat, i: nat, cells: iset<Cell>)
    requires AllFrom(s, cells) && op < |s.ops| && !s.ops[op].phase.Querying? && i < |s.servers|
    ensures Gives(Updated(s.servers[i], s.ops[op].cell, true).value, cells)
  {
    assert OpFrom(s.ops[op], cells);
    CellGives(s.ops[op].cell, cells);
  }

  lemma StepKeepsFrom(s: State, e: Event, v: Variant, cells: iset<Cell>)
    requires AllFrom(s, cells) && Enabled(s, e, v) && v.client == PARSED_CLIENT && v.serverKeepsIncoming
    requires v.waits.Own? && v.waits.queries > 0 && (e.StartWrite? ==> e.cell in cells)
    ensures AllFrom(Apply(s, e, v), cells)
  {
    var t := Apply(s, e, v);
    if e.ServerUpdate? {
      UpdateKeepsFrom(s, e.op, e.server, cells);
    }
    forall j | 0 <= j < |t.ops| ensures OpFrom(t.ops[j], cells) {
      StepKeepsOpFrom(s, e, v, cells, j);
    }
  }

  lemma {:induction false} RunKeepsFrom(servers: seq<Cell>, events: seq<Event>, v: Variant, cells: iset<Cell>)
    requires FromCells(servers, events, cells) && v.client == PARSED_CLIENT && v.serverKeepsIncoming
    requires v.waits.Own? && v.waits.queries > 0 && Run(servers, events, v).Some?
    ensures AllFrom(Run(servers, events, v).value, cells)
  {
    if events == [] {
      forall i | 0 <= i < |servers| ensures Gives(servers[i].value, cells) {
        CellGives(servers[i], cells);
      }
    } else {
      var n := |events| - 1;
      RunKeepsFrom(servers, events[..n], v, cells);
      StepKeepsFrom(Run(servers, events[..n], v).value, events[n], v, cells);
    }
  }

  /** The cells and the results of reads, together, have one value for each tag. */
  ghost predicate OneValuePerTag(cells: iset<Cell>) {
    forall c, d :: (c in cells || Result(c, cells)) && (d in cells || Result(d, cells)) && c.tag == d.tag ==> c == d
  }

  lemma FromNames(s: State, cells: iset<Cell>)
    requires AllFrom(s, cells) && OneValuePerTag(cells)
    ensures TagsName(s)
  {
    assert forall j :: 0 <= j < |s.ops| ==> OpFrom(s.ops[j], cells);
  }

  // ---------------------------------------------------------------- runs with two values for a tag

  lemma StaysReturned(servers: seq<Cell>, q: set<nat>, value: string)
    requires forall i: nat :: i in q && i < |servers| ==> servers[i].value == value
    ensures StaysIn(servers, q, PARSED_CLIENT, (m: Cell) => m == Unset() || m == Returned(value))
  {
    forall i: nat, m: Cell | i in q && i < |servers| && (m == Unset() || m == Returned(value))
      ensures Collect(m, servers[i], PARSED_CLIENT) == Returned(value)
    {
      UnsetIsReturned();
      CollectReturned(m, if m == Unset() then "" else value, servers[i]);
    }
  }

  /** Operation `op` is a read that has just started. */
  ghost predicate FreshRead(s: State, op: nat) {
    && op < |s.ops| && s.ops[op].isRead && s.ops[op].phase.Querying? && s.ops[op].cell == Unset()
    && s.ops[op].replies == map[] && s.ops[op].received == {}
  }

  /** A read that hears all servers, which hold the same cell. */
  lemma ReadAll(servers: seq<Cell>, events: seq<Event>, v: Variant, s: State, c: Cell) returns (more: seq<Event>, t: State)
    requires v.client == PARSED_CLIENT && v.waits.Own? && v.waits.queries <= |s.servers| && s.servers != []
    requires Run(servers, events, v) == Some(s) && forall i :: 0 <= i < |s.servers| ==> s.servers[i] == c
    ensures Run(servers, more, v) == Some(t) && NoNewWrites(events, more) && t.servers == s.servers
    ensures |t.ops| == |s.ops| + 1 && t.ops[..|s.ops|] == s.ops
    ensures t.ops[|s.ops|].cell == Returned(c.value) && !t.ops[|s.ops|].phase.Querying?
    ensures t.ops[|s.ops|].applied == {} && t.ops[|s.ops|].acked == {}
  {
    var op, q := |s.ops|, Ids(|s.servers|);
    RunOneMore(servers, events, StartRead, v, s);
    var s1 := Apply(s, StartRead, v);
    assert FreshRead(s1, op);
    StaysReturned(s1.servers, q, c.value);
    more, t := Query(servers, events + [StartRead], v, s1, op, q, (m: Cell) => m == Unset() || m == Returned(c.value));
    assert 0 in q && Le(Seen(s1.servers[0], v.client), t.ops[op].cell.tag);
    assert forall j :: 0 <= j < op ==> t.ops[j] == s.ops[j];
  }

  /** A write that has not reached anyone. */
  lemma WriteMore(servers: seq<Cell>, events: seq<Event>, v: Variant, s: State, c: Cell) returns (more: seq<Event>, t: State)
    requires Run(servers, events, v) == Some(s)
    ensures Run(servers, more, v) == Some(t) && more == events + [StartWrite(c)] && t.servers == s.servers
    ensures |t.ops| == |s.ops| + 1 && t.ops[..|s.ops|] == s.ops && t.ops[|s.ops|].cell == c && t.ops[|s.ops|].phase.Writing?
    ensures t.ops[|s.ops|].applied == {} && t.ops[|s.ops|].acked == {}
  {
    RunOneMore(servers, events, StartWrite(c), v, s);
    more, t := events + [StartWrite(c)], Apply(s, StartWrite(c), v);
  }

  lemma TwoCells(s: State, a: nat, b: nat)
    requires a < |s.ops| && b < |s.ops| && !s.ops[a].phase.Querying? && !s.ops[b].phase.Querying?
    requires s.ops[a].cell.tag == s.ops[b].cell.tag && s.ops[a].cell != s.ops[b].cell
    ensures !TagsName(s)
  {}

  lemma TwoWritesClash(n: nat, c: Cell, d: Cell, v: Variant) returns (servers: seq<Cell>, events: seq<Event>)
    requires c.tag == d.tag && c != d
    ensures |servers| == n && FromCells(servers, events, iset{c, d})
    ensures Run(servers, events, v).Some? && !TagsName(Run(servers, events, v).value)
  {
    servers := seq(n, _ => c);
    var e1, s1 := WriteMore(servers, [], v, Start(servers), c);
    var e2, s2 := WriteMore(servers, e1, v, s1, d);
    events := e2;
    assert s2.ops[0] == s2.ops[..1][0];
    TwoCells(s2, 0, 1);
  }

  lemma WriteAndReadClash(n: nat, c: Cell, e: Cell, v: Variant) returns (servers: seq<Cell>, events: seq<Event>)
    requires v.client == PARSED_CLIENT && v.waits.Own? && 0 < v.waits.queries <= n
    requires c.tag == Returned(e.value).tag && c != Returned(e.value)
    ensures |servers| == n && FromCells(servers, events, iset{c, e})
    ensures Run(servers, events, v).Some? && !TagsName(Run(servers, events, v).value)
  {
    servers := seq(n, _ => e);
    var e1, s1 := ReadAll(servers, [], v, Start(servers), e);
    var e2, s2 := WriteMore(servers, e1, v, s1, c);
    events := e2;
    assert s2.ops[0] == s2.ops[..1][0];
    TwoCells(s2, 0, 1);
  }

  /** A read of `e`, and then a later write of `f` that reaches every server. */
  lemma ReadThenWrite(n: nat, e: Cell, f: Cell, v: Variant) returns (servers: seq<Cell>, events: seq<Event>, s: State)
    requires v.client == PARSED_CLIENT && v.serverKeepsIncoming && v.waits.Own? && 0 < v.waits.queries <= n && Later(f.tag, e.tag)
    ensures |servers| == n && FromCells(servers, events, iset{e, f}) && Run(servers, events, v) == Some(s)
    ensures |s.servers| == n && (forall i :: 0 <= i < n ==> s.servers[i] == f)
    ensures |s.ops| == 2 && s.ops[0].cell == Returned(e.value) && !s.ops[0].phase.Querying?
  {
    servers := seq(n, _ => e);
    var e1, s1 := ReadAll(servers, [], v, Start(servers), e);
    events, s := WriteEverywhere(servers, e1, v, s1, e, f);
  }

  /** A second operation, a later write, reaches every server. */
  lemma WriteEverywhere(servers: seq<Cell>, events: seq<Event>, v: Variant, s: State, e: Cell, f: Cell)
    returns (more: seq<Event>, t: State)
    requires v.serverKeepsIncoming && Run(servers, events, v) == Some(s) && |s.ops| == 1 && Later(f.tag, e.tag)
    requires forall i :: 0 <= i < |s.servers| ==> s.servers[i] == e
    ensures Run(servers, more, v) == Some(t) && NoNewWrites(events + [StartWrite(f)], more)
    ensures |t.servers| == |s.servers| && (forall i :: 0 <= i < |t.servers| ==> t.servers[i] == f)
    ensures |t.ops| == 2 && t.ops[0] == s.ops[0]
  {
    var mid, u := WriteMore(servers, events, v, s, f);
    more, t := Push(servers, mid, v, u, 1, Ids(|s.servers|));
    assert t.ops[0] == u.ops[0] == u.ops[..1][0];
  }

  /** Reads before and after a later write. */
  lemma TwoReadsClash(n: nat, e: Cell, f: Cell, v: Variant) returns (servers: seq<Cell>, events: seq<Event>)
    requires v.client == PARSED_CLIENT && v.serverKeepsIncoming && v.waits.Own? && 0 < v.waits.queries <= n
    requires Later(f.tag, e.tag) && Returned(e.value).tag == Returned(f.value).tag && Returned(e.value) != Returned(f.value)
    ensures |servers| == n && FromCells(servers, events, iset{e, f})
    ensures Run(servers, events, v).Some? && !TagsName(Run(servers, events, v).value)
  {
    var mid, s;
    servers, mid, s := ReadThenWrite(n, e, f, v);
    var t;
    events, t := ReadAll(servers, mid, v, s, f);
    assert t.ops[0] == t.ops[..2][0];
    TwoCells(t, 0, 2);
  }

  lemma FewerCells(servers: seq<Cell>, events: seq<Event>, few: iset<Cell>, cells: iset<Cell>)
    requires FromCells(servers, events, few) && few <= cells
    ensures FromCells(servers, events, cells)
  {}

  lemma Clash(n: nat, cells: iset<Cell>, v: Variant) returns (servers: seq<Cell>, events: seq<Event>)
    requires v.client == PARSED_CLIENT && v.serverKeepsIncoming && v.waits.Own? && 0 < v.waits.queries <= n
    requires !OneValuePerTag(cells)
    ensures |servers| == n && FromCells(servers, events, cells)
    ensures Run(servers, events, v).Some? && !TagsName(Run(servers, events, v).value)
  {
    var c, d :| (c in cells || Result(c, cells)) && (d in cells || Result(d, cells)) && c.tag == d.tag && c != d;
    if c in cells && d in cells {
      servers, events := TwoWritesClash(n, c, d, v);
      FewerCells(servers, events, iset{c, d}, cells);
    } else if c in cells {
      servers, events := ResultClash(n, cells, c, d, v);
    } else if d in cells {
      servers, events := ResultClash(n, cells, d, c, v);
    } else {
      var e :| e in cells && c == Returned(e.value);
      var f :| f in cells && d == Returned(f.value);
      servers, events := ResultsClash(n, e, f, v);
      FewerCells(servers, events, iset{e, f}, cells);
    }
  }

  lemma ResultClash(n: nat, cells: iset<Cell>, c: Cell, d: Cell, v: Variant) returns (servers: seq<Cell>, events: seq<Event>)
    requires v.client == PARSED_CLIENT && v.waits.Own? && 0 < v.waits.queries <= n
    requires c in cells && Result(d, cells) && c.tag == d.tag && c != d
    ensures |servers| == n && FromCells(servers, events, cells)
    ensures Run(servers, events, v).Some? && !TagsName(Run(servers, events, v).value)
  {
    var e :| e in cells && d == Returned(e.value);
    servers, events := WriteAndReadClash(n, c, e, v);
    FewerCells(servers, events, iset{c, e}, cells);
  }

  lemma ResultsClash(n: nat, e: Cell, f: Cell, v: Variant) returns (servers: seq<Cell>, events: seq<Event>)
    requires v.client == PARSED_CLIENT && v.serverKeepsIncoming && v.waits.Own? && 0 < v.waits.queries <= n
    requires Returned(e.value).tag == Returned(f.value).tag && Returned(e.value) != Returned(f.value)
    ensures |servers| == n && FromCells(servers, events, iset{e, f})
    ensures Run(servers, events, v).Some? && !TagsName(Run(servers, events, v).value)
  {
    TagOrder(e.tag, f.tag, e.tag);
    if e.tag == f.tag {
      servers, events := TwoWritesClash(n, e, f, v);
    } else if Later(f.tag, e.tag) {
      servers, events := TwoReadsClash(n, e, f, v);
    } else {
      servers, events := TwoReadsClash(n, f, e, v);
      FewerCells(servers, events, iset{f, e}, iset{e, f});
    }
  }

  /** With values that follow the parsed tags and servers that keep them, and cells from a given set:
      operations with equal tags have equal values in all runs over n servers exactly when each tag has
      one value among the cells together with what reads make of them: the value with its number for a
      tag, or the empty register. */
  lemma ParsedEqualTagsEqualValuesIff(n: nat, cells: iset<Cell>, v: Variant)
    requires v.client == PARSED_CLIENT && v.serverKeepsIncoming && v.waits.Own? && 0 < v.waits.queries <= n
    ensures (forall servers, events :: |servers| == n && FromCells(servers, events, cells) && Run(servers, events, v).Some? ==> TagsName(Run(servers, events, v).value))
      <==> OneValuePerTag(cells)
  {
    if OneValuePerTag(cells) {
      forall servers, events | |servers| == n && FromCells(servers, events, cells) && Run(servers, events, v).Some?
        ensures TagsName(Run(servers, events, v).value)
      {
        RunKeepsFrom(servers, events, v, cells);
        FromNames(Run(servers, events, v).value, cells);
      }
    } else {
      var servers, events := Clash(n, cells, v);
    }
  }

  /** A read gives a server a tag that no server had. */
  lemma ReadMakesATag(v: Variant) returns (events: seq<Event>)
    requires v.client == PARSED_CLIENT && v.serverKeepsIncoming && v.waits.Own? && v.waits.queries == 1
    ensures Changes([Cell("7", Tag(1, 1))], events, v)
    ensures Run([Cell("7", Tag(1, 1))], events, v).value.servers == [Cell("7", Tag(7, 7))]
  {
    var c := Cell("7", Tag(1, 1));
    assert "7"[1..] == "" && Atoi("7") == 7;
    var e1, s1 := ReadAll([c], [], v, Start([c]), c);
    var e2, s2 := Push([c], e1, v, s1, 0, Ids(1));
    assert s2.servers[0] == Cell("7", Tag(7, 7));
    events := e2;
  }
}
