/** The journal of a server that stores tagged values: every PUT is logged before its tag is looked at,
    and replayed without it (server-part1.c, journal.c). */
module AbdRecovery {
  import opened Wrappers
  import opened Abd

  datatype TaggedPut = TaggedPut(key: string, cell: Cell)

  /** The entries of a server, and what it has after a replay: an entry with its tag, or a bare value. */
  type Cells = map<string, Cell>

  datatype Held = Tagged(cell: Cell) | Bare(value: string)

  function ValueOf(h: Held): string {
    match h
    case Tagged(cell) => cell.value
    case Bare(value) => value
  }

  /** The server handles the logged PUTs in order.  It goes down on a key that it does not have. */
  function Served(base: Cells, log: seq<TaggedPut>, keep: bool): Option<Cells> {
    if log == [] then Some(base)
    else
      var before, p := Served(base, log[..|log| - 1], keep), log[|log| - 1];
      if before.None? || p.key !in before.value then None
      else Some(before.value[p.key := Updated(before.value[p.key], p.cell, keep)])
  }

  /** `recover` carries out every logged PUT as a plain one. */
  function Replayed(base: Cells, log: seq<TaggedPut>): map<string, Held> {
    if log == [] then map k | k in base :: Tagged(base[k])
    else Replayed(base, log[..|log| - 1])[log[|log| - 1].key := Bare(log[|log| - 1].cell.value)]
  }

  /** The cells logged for a key. */
  function Logged(log: seq<TaggedPut>, key: string): seq<Cell> {
    if log == [] then []
    else Logged(log[..|log| - 1], key) + (if log[|log| - 1].key == key then [log[|log| - 1].cell] else [])
  }

  function ServedCell(c: Cell, puts: seq<Cell>, keep: bool): Cell {
    if puts == [] then c else Updated(ServedCell(c, puts[..|puts| - 1], keep), puts[|puts| - 1], keep)
  }

  /** Served cells, key by key. */
  lemma {:induction false} ServedByKey(base: Cells, log: seq<TaggedPut>, keep: bool, k: string)
    requires Served(base, log, keep).Some?
    ensures var t := Served(base, log, keep).value;
      (k in t <==> k in base) && (k in base ==> t[k] == ServedCell(base[k], Logged(log, k), keep))
  {
    if log != [] {
      var n := |log| - 1;
      ServedByKey(base, log[..n], keep, k);
      if k in base {
        ServedOneMore(base[k], log, k, keep);
      }
    }
  }

  lemma {:induction false} ServedKeys(base: Cells, log: seq<TaggedPut>, keep: bool)
    requires Served(base, log, keep).Some?
    ensures Served(base, log, keep).value.Keys == base.Keys
    ensures forall i :: 0 <= i < |log| ==> log[i].key in base
  {
    if log != [] {
      var n := |log| - 1;
      ServedKeys(base, log[..n], keep);
      assert forall i :: 0 <= i < n ==> log[i] == log[..n][i];
    }
  }

  lemma LoggedOneMore(log: seq<TaggedPut>, key: string)
    requires log != []
    ensures var n := |log| - 1; var before := Logged(log[..n], key);
      if log[n].key == key
      then Logged(log, key) == before + [log[n].cell] && Logged(log, key)[..|before|] == before
      else Logged(log, key) == before
  {}

  lemma ServedOneMore(c: Cell, log: seq<TaggedPut>, key: string, keep: bool)
    requires log != []
    ensures var n := |log| - 1; var before := ServedCell(c, Logged(log[..n], key), keep);
      ServedCell(c, Logged(log, key), keep) == if key == log[n].key then Updated(before, log[n].cell, keep) else before
  {
    LoggedOneMore(log, key);
  }

  /** Replayed entries, key by key: the last logged value, without a tag. */
  lemma {:induction false} ReplayedByKey(base: Cells, log: seq<TaggedPut>, key: string)
    ensures var puts, t := Logged(log, key), Replayed(base, log);
      if puts != [] then key in t && t[key] == Bare(puts[|puts| - 1].value)
      else (key in t <==> key in base) && (key in t ==> t[key] == Tagged(base[key]))
  {
    if log != [] {
      ReplayedByKey(base, log[..|log| - 1], key);
      LoggedOneMore(log, key);
    }
  }

  /** The `i`-th cell is later than all before it, and no later one follows. */
  ghost predicate Wins(cells: seq<Cell>, i: int) {
    && 0 <= i < |cells|
    && (forall k :: 0 <= k < i ==> Later(cells[i].tag, cells[k].tag))
    && (forall k :: i < k < |cells| ==> Le(cells[k].tag, cells[i].tag))
  }

  lemma OneWins(cells: seq<Cell>, i: int, j: int)
    requires Wins(cells, i) && Wins(cells, j)
    ensures i == j
  {
    TagOrder(cells[i].tag, cells[j].tag, cells[i].tag);
  }

  /** What a server that keeps incoming values ends with is the first cell with the greatest tag. */
  lemma {:induction false} ServedIsWinner(c: Cell, puts: seq<Cell>) returns (i: nat)
    ensures Wins([c] + puts, i) && ServedCell(c, puts, true) == ([c] + puts)[i]
  {
    i := 0;
    if puts != [] {
      var n := |puts| - 1;
      var before, all := [c] + puts[..n], [c] + puts;
      i := ServedIsWinner(c, puts[..n]);
      assert all[n + 1] == puts[n] && forall k :: 0 <= k <= n ==> all[k] == before[k];
      if Later(puts[n].tag, before[i].tag) {
        LaterThanAll(before, i, puts[n].tag);
        i := n + 1;
      }
    }
  }

  lemma LaterThanAll(cells: seq<Cell>, i: int, tag: Tag)
    requires Wins(cells, i) && Later(tag, cells[i].tag)
    ensures forall k :: 0 <= k < |cells| ==> Later(tag, cells[k].tag)
  {
    forall k | 0 <= k < |cells| ensures Later(tag, cells[k].tag) {
      TagOrder(tag, cells[i].tag, cells[k].tag);
    }
  }

  lemma {:induction false} CodedServerKeepsValue(c: Cell, puts: seq<Cell>)
    ensures ServedCell(c, puts, false).value == c.value
  {
    if puts != [] {
      CodedServerKeepsValue(c, puts[..|puts| - 1]);
    }
  }

  /** The last PUT of a key has the value the server has: as coded, the value it had before them all;
      with incoming values kept, that of the first PUT with the greatest tag. */
  ghost predicate LastIsServed(c: Cell, puts: seq<Cell>, keep: bool)
    requires puts != []
  {
    var last, all := puts[|puts| - 1].value, [c] + puts;
    if keep then exists i :: Wins(all, i) && all[i].value == last else c.value == last
  }

  lemma LastIsServedIff(c: Cell, puts: seq<Cell>, keep: bool)
    requires puts != []
    ensures ServedCell(c, puts, keep).value == puts[|puts| - 1].value <==> LastIsServed(c, puts, keep)
  {
    if keep {
      var i := ServedIsWinner(c, puts);
      forall j | Wins([c] + puts, j) ensures j == i {
        OneWins([c] + puts, i, j);
      }
    } else {
      CodedServerKeepsValue(c, puts);
    }
  }

  /** After a crash, recovery brings back every value exactly when the last logged PUT of every key has
      the value the server had; and every tag exactly when nothing was logged. */
  lemma TaggedReplayIff(base: Cells, log: seq<TaggedPut>, keep: bool)
    requires Served(base, log, keep).Some?
    ensures var s, t := Served(base, log, keep).value, Replayed(base, log);
      && t.Keys == s.Keys == base.Keys
      && ((forall k :: k in base ==> ValueOf(t[k]) == s[k].value) <==>
          (forall k :: k in base && Logged(log, k) != [] ==> LastIsServed(base[k], Logged(log, k), keep)))
      && ((forall k :: k in base ==> t[k] == Tagged(s[k])) <==> log == [])
  {
    var s, t := Served(base, log, keep).value, Replayed(base, log);
    ServedKeys(base, log, keep);
    ReplayedKeys(base, log);
    forall k | k in base
      ensures ValueOf(t[k]) == s[k].value <==> Logged(log, k) == [] || LastIsServed(base[k], Logged(log, k), keep)
    {
      ValueIsServedIff(base, log, keep, k);
    }
    TagsAreLost(base, log, s);
  }

  lemma TagsAreLost(base: Cells, log: seq<TaggedPut>, served: Cells)
    requires served.Keys == base.Keys == Replayed(base, log).Keys && (log == [] ==> served == base)
    requires forall i :: 0 <= i < |log| ==> log[i].key in base
    ensures (forall k :: k in base ==> Replayed(base, log)[k] == Tagged(served[k])) <==> log == []
  {
    if log != [] {
      var last := log[|log| - 1];
      assert last.key in base && Replayed(base, log)[last.key] == Bare(last.cell.value);
    }
  }

  lemma ValueIsServedIff(base: Cells, log: seq<TaggedPut>, keep: bool, k: string)
    requires Served(base, log, keep).Some? && k in base && k in Replayed(base, log) && k in Served(base, log, keep).value
    ensures ValueOf(Replayed(base, log)[k]) == Served(base, log, keep).value[k].value <==>
      Logged(log, k) == [] || LastIsServed(base[k], Logged(log, k), keep)
  {
    ServedByKey(base, log, keep, k);
    ReplayedByKey(base, log, k);
    if Logged(log, k) != [] {
      LastIsServedIff(base[k], Logged(log, k), keep);
    }
  }

  lemma {:induction false} ReplayedKeys(base: Cells, log: seq<TaggedPut>)
    requires forall i :: 0 <= i < |log| ==> log[i].key in base
    ensures Replayed(base, log).Keys == base.Keys
  {
    if log != [] {
      assert forall i :: 0 <= i < |log| - 1 ==> log[..|log| - 1][i] == log[i];
      ReplayedKeys(base, log[..|log| - 1]);
    }
  }

  /** A PUT that was refused for its tag is carried out by recovery. */
  lemma RefusedPutIsReplayed(key: string, stored: Cell, refused: Cell, keep: bool)
    requires Le(refused.tag, stored.tag)
    ensures var base, log := map[key := stored], [TaggedPut(key, refused)];
      && Served(base, log, keep) == Some(base)
      && Replayed(base, log) == map[key := Bare(refused.value)]
  {
    var base, log := map[key := stored], [TaggedPut(key, refused)];
    assert log[..0] == [];
    assert base[key := stored] == base;
    assert Replayed(base, [])[key := Bare(refused.value)] == map[key := Bare(refused.value)];
  }
}
