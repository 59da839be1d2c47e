/** What the tree operations do to the records, in order. */
module AvlOrder {
  import opened Records
  import opened Wrappers
  import opened Avl

  function Rec(t: Tree): Record
    requires t.Node?
  {
    Record(t.key, t.value, t.flag)
  }

  /** A search tree: its records in order are sorted by key. */
  ghost predicate Ordered(t: Tree) {
    Sorted(InOrder(t))
  }

  lemma OrderedParts(t: Tree)
    requires t.Node? && Ordered(t)
    ensures Ordered(t.left) && Ordered(t.right)
  {
    SortedParts(InOrder(t.left), Rec(t), InOrder(t.right));
  }

  // ---------------------------------------------------------------- rotations keep the order

  lemma RotateRightOrder(x: Tree)
    ensures InOrder(RotateRight(x)) == InOrder(x)
  {
    if x.Node? && x.left.Node? {
      var y := x.left;
      var x' := Rebuilt(x, y.right, x.right);
      assert InOrder(x') == InOrder(y.right) + [Rec(x)] + InOrder(x.right);
      assert InOrder(RotateRight(x)) == InOrder(y.left) + [Rec(y)] + InOrder(x');
    }
  }

  lemma RotateLeftOrder(x: Tree)
    ensures InOrder(RotateLeft(x)) == InOrder(x)
  {
    if x.Node? && x.right.Node? {
      var y := x.right;
      var x' := Rebuilt(x, x.left, y.left);
      assert InOrder(x') == InOrder(x.left) + [Rec(x)] + InOrder(y.left);
      assert InOrder(RotateLeft(x)) == InOrder(x') + [Rec(y)] + InOrder(y.right);
    }
  }

  lemma DoubleOrder(t: Tree)
    ensures InOrder(LR(t)) == InOrder(t) && InOrder(RL(t)) == InOrder(t)
  {
    if t.Node? {
      RotateLeftOrder(t.left);
      RotateRightOrder(t.(left := RotateLeft(t.left)));
      RotateRightOrder(t.right);
      RotateLeftOrder(t.(right := RotateRight(t.right)));
    }
  }

  lemma WithHeightOrder(t: Tree)
    ensures InOrder(WithHeight(t)) == InOrder(t)
  {}

  lemma InsertFixesOrder(t: Tree, key: string)
    requires t.Node?
    ensures InOrder(FixRightInsert(t, key)) == InOrder(t) && InOrder(FixLeftInsert(t, key)) == InOrder(t)
  {
    RotateLeftOrder(t);
    RotateRightOrder(t);
    DoubleOrder(t);
  }

  lemma DeleteFixesOrder(t: Tree)
    requires t.Node?
    ensures InOrder(FixLeftHeavy(t)) == InOrder(t) && InOrder(FixRightHeavy(t)) == InOrder(t)
  {
    RotateLeftOrder(t);
    RotateRightOrder(t);
    DoubleOrder(t);
  }

  /** No rebalancing changes the records. */
  lemma FixesKeepOrder(t: Tree, key: string)
    requires t.Node?
    ensures InOrder(WithHeight(FixRightInsert(t, key))) == InOrder(t)
    ensures InOrder(WithHeight(FixLeftInsert(t, key))) == InOrder(t)
    ensures InOrder(WithHeight(FixLeftHeavy(t))) == InOrder(t)
    ensures InOrder(WithHeight(FixRightHeavy(t))) == InOrder(t)
  {
    InsertFixesOrder(t, key);
    DeleteFixesOrder(t);
    WithHeightOrder(FixRightInsert(t, key));
    WithHeightOrder(FixLeftInsert(t, key));
    WithHeightOrder(FixLeftHeavy(t));
    WithHeightOrder(FixRightHeavy(t));
  }

  // ---------------------------------------------------------------- insertion

  /** Insertion adds exactly the new record, and nothing when the key is present. */
  lemma {:induction false} InsertOrder(t: Tree, key: string, value: string, flag: int)
    requires Ordered(t)
    ensures InOrder(Insert(t, key, value, flag)) == PutIfAbsent(InOrder(t), Record(key, value, flag))
    decreases t
  {
    var r := Record(key, value, flag);
    if t.Node? {
      OrderedParts(t);
      var a, b := InOrder(t.left), InOrder(t.right);
      StrCmpEqual(key, t.key);
      StrCmpFlip(key, t.key);
      if StrCmp(key, t.key) > 0 {
        InsertOrder(t.right, key, value, flag);
        FixesKeepOrder(t.(right := Insert(t.right, key, value, flag)), key);
        PutRight(a, Rec(t), b, r);
      } else if StrCmp(key, t.key) < 0 {
        InsertOrder(t.left, key, value, flag);
        FixesKeepOrder(t.(left := Insert(t.left, key, value, flag)), key);
        PutLeft(a, Rec(t), b, r);
      } else {
        PutHere(a, Rec(t), b, r);
      }
    }
  }

  /** A memtable: ordered and balanced. */
  ghost predicate IsAvl(t: Tree) {
    Ordered(t) && Balanced(t)
  }

  lemma InsertIsAvl(t: Tree, key: string, value: string, flag: int)
    requires IsAvl(t)
    ensures IsAvl(Insert(t, key, value, flag))
    ensures forall k :: Find(InOrder(Insert(t, key, value, flag)), k) ==
                        if k == key && Find(InOrder(t), k).None? then Some(Record(key, value, flag)) else Find(InOrder(t), k)
  {
    InsertKeepsBalance(t, key, value, flag);
    InsertOrder(t, key, value, flag);
    PutKeepsSorted(InOrder(t), Record(key, value, flag));
    forall k {
      PutMeaning(InOrder(t), Record(key, value, flag), k);
    }
  }

  /** The size grows by one exactly when the key is new. */
  lemma InsertSize(t: Tree, key: string, value: string, flag: int)
    requires IsAvl(t)
    ensures Size(Insert(t, key, value, flag)) == if HasKey(InOrder(t), key) then Size(t) else Size(t) + 1
  {
    InsertOrder(t, key, value, flag);
    FindIsLookup(InOrder(t), key);
  }

  // ---------------------------------------------------------------- deletion

  /** How many nodes, from the deleted one on, hand their flag to the next record: one per node on
      the chain of successors that is replaced rather than unlinked. */
  function Carry(t: Tree, key: string): nat
    decreases t
  {
    if t.Null? then 0
    else if StrCmp(key, t.key) > 0 then Carry(t.right, key)
    else if StrCmp(key, t.key) < 0 then Carry(t.left, key)
    else if t.right.Node? then 1 + Carry(t.right, Leftmost(t.right).key)
    else 0
  }

  /** Sequence `s` without position `p`, where the `c` records after it take over the flags of their
      predecessors. */
  function Removed(s: seq<Record>, p: nat, c: nat): (r: seq<Record>)
    requires p < |s|
  {
    seq(|s| - 1, i requires 0 <= i < |s| - 1 =>
      if i < p then s[i]
      else if i < p + c then Record(s[i + 1].key, s[i + 1].value, s[i].flag)
      else s[i + 1])
  }

  lemma {:induction false} LeftmostIsFirst(t: Tree)
    requires t.Node?
    ensures InOrder(t)[0] == Rec(Leftmost(t))
  {
    if t.left.Node? {
      LeftmostIsFirst(t.left);
    }
  }

  lemma RemovedLeft(a: seq<Record>, x: Record, b: seq<Record>, p: nat, c: nat)
    requires p + c < |a|
    ensures Removed(a + [x] + b, p, c) == Removed(a, p, c) + [x] + b
  {}

  lemma RemovedRight(u: seq<Record>, b: seq<Record>, p: nat, c: nat)
    requires p + c < |b|
    ensures Removed(u + b, |u| + p, c) == u + Removed(b, p, c)
  {
    var s := u + b;
    forall i | 0 <= i < |s| - 1 ensures Removed(s, |u| + p, c)[i] == (u + Removed(b, p, c))[i] {
      assert i >= |u| ==> s[i] == b[i - |u|] && s[i + 1] == b[i + 1 - |u|];
    }
  }

  /** The successor moves up and the carry continues behind it. */
  lemma RemovedHere(a: seq<Record>, x: Record, b: seq<Record>, c: nat)
    requires b != [] && c < |b|
    ensures Removed(a + [x] + b, |a|, 1 + c) == a + [Record(b[0].key, b[0].value, x.flag)] + Removed(b, 0, c)
  {
    var s := a + [x] + b;
    var d, e := Removed(s, |a|, 1 + c), a + [Record(b[0].key, b[0].value, x.flag)] + Removed(b, 0, c);
    forall i | 0 <= i < |d| ensures d[i] == e[i] {
      assert s[i + 1] == if i + 1 < |a| then a[i + 1] else if i + 1 == |a| then x else b[i - |a|];
      assert i >= |a| ==> s[i] == if i == |a| then x else b[i - |a| - 1];
    }
  }

  /** Deletion in order: the record of the key goes, every other key and value stays, and flags are
      carried as `Removed` says. */
  lemma {:induction false} DeleteOrder(t: Tree, key: string)
    requires Ordered(t)
    ensures IsDeletion(InOrder(t), key, Carry(t, key), InOrder(Delete(t, key)))
    decreases t
  {
    if t.Node? {
      OrderedParts(t);
      StrCmpEqual(key, t.key);
      StrCmpFlip(key, t.key);
      RankAround(InOrder(t.left), Rec(t), InOrder(t.right), key);
      if StrCmp(key, t.key) > 0 {
        DeleteOrderRight(t, key);
      } else if StrCmp(key, t.key) < 0 {
        DeleteOrderLeft(t, key);
      } else {
        DeleteOrderHere(t, key);
      }
    }
  }

  /** `d` is `s` after the deletion of `key`, with `c` flags carried. */
  ghost predicate IsDeletion(s: seq<Record>, key: string, c: nat, d: seq<Record>) {
    var p := Rank(s, key);
    if p < |s| && s[p].key == key then p + c < |s| && d == Removed(s, p, c) else d == s
  }

  lemma DeletionRight(u: seq<Record>, b: seq<Record>, key: string, c: nat, d: seq<Record>)
    requires IsDeletion(b, key, c, d) && Rank(u + b, key) == |u| + Rank(b, key)
    ensures IsDeletion(u + b, key, c, u + d)
  {
    var p := Rank(b, key);
    SplitRight(u, b, p);
    if p < |b| && b[p].key == key {
      RemovedRight(u, b, p, c);
    }
  }

  lemma {:induction false} DeleteOrderRight(t: Tree, key: string)
    requires Ordered(t) && t.Node? && Ordered(t.right) && StrCmp(key, t.key) > 0
    requires Rank(InOrder(t), key) == Size(t.left) + 1 + Rank(InOrder(t.right), key)
    ensures IsDeletion(InOrder(t), key, Carry(t, key), InOrder(Delete(t, key)))
    decreases t, 0
  {
    var u := InOrder(t.left) + [Rec(t)];
    DeleteOrder(t.right, key);
    FixesKeepOrder(t.(right := Delete(t.right, key)), key);
    DeletionRight(u, InOrder(t.right), key, Carry(t.right, key), InOrder(Delete(t.right, key)));
  }

  lemma {:induction false} DeleteOrderLeft(t: Tree, key: string)
    requires Ordered(t) && t.Node? && Ordered(t.left) && StrCmp(key, t.key) < 0
    requires Rank(InOrder(t), key) == Rank(InOrder(t.left), key)
    ensures IsDeletion(InOrder(t), key, Carry(t, key), InOrder(Delete(t, key)))
    decreases t, 0
  {
    var a, b := InOrder(t.left), InOrder(t.right);
    var p := Rank(a, key);
    DeleteOrder(t.left, key);
    FixesKeepOrder(t.(left := Delete(t.left, key)), key);
    StrCmpEqual(key, t.key);
    assert InOrder(t)[p] == if p < |a| then a[p] else Rec(t);
    if p < |a| && a[p].key == key {
      RemovedLeft(a, Rec(t), b, p, Carry(t.left, key));
    }
  }

  lemma {:induction false} DeleteOrderHere(t: Tree, key: string)
    requires Ordered(t) && t.Node? && Ordered(t.right) && key == t.key && StrCmp(key, t.key) == 0
    requires Rank(InOrder(t), key) == Size(t.left)
    ensures var s, p := InOrder(t), Rank(InOrder(t), key);
      && p < |s| && s[p].key == key
      && p + Carry(t, key) < |s| && InOrder(Delete(t, key)) == Removed(s, p, Carry(t, key))
    decreases t, 0
  {
    var a, b := InOrder(t.left), InOrder(t.right);
    assert InOrder(t)[|a|] == Rec(t);
    if t.right.Node? {
      var m := Leftmost(t.right);
      LeftmostIsFirst(t.right);
      StrCmpEqual(m.key, m.key);
      RankUnique(b, m.key, 0) by { KeyOrder(); }
      DeleteOrder(t.right, m.key);
      var u := t.(key := m.key, value := m.value, right := Delete(t.right, m.key));
      FixesKeepOrder(u, key);
      RemovedHere(a, Rec(t), b, Carry(t.right, m.key));
    } else {
      assert InOrder(t) == a + [Rec(t)];
      assert Removed(a + [Rec(t)], |a|, 0) == a;
    }
  }

  /** Keys and values only. */
  function Pairs(s: seq<Record>): seq<(string, string)> {
    seq(|s|, i requires 0 <= i < |s| => (s[i].key, s[i].value))
  }

  /** Deletion removes exactly the given key and keeps every other key with its value. */
  lemma DeleteIsAvl(t: Tree, key: string)
    requires IsAvl(t)
    ensures IsAvl(Delete(t, key))
    ensures Pairs(InOrder(Delete(t, key))) == Pairs(Without(InOrder(t), key))
  {
    DeleteKeepsBalance(t, key);
    DeleteOrder(t, key);
    WithoutKeepsSorted(InOrder(t), key);
    DeletionPairs(InOrder(t), key, Carry(t, key), InOrder(Delete(t, key)));
    SamePairsSorted(InOrder(Delete(t, key)), Without(InOrder(t), key));
  }

  lemma DeletionPairs(s: seq<Record>, key: string, c: nat, d: seq<Record>)
    requires IsDeletion(s, key, c, d)
    ensures Pairs(d) == Pairs(Without(s, key))
  {
    var p := Rank(s, key);
    if p < |s| && s[p].key == key {
      RemovedAt(s, p);
      assert forall i :: 0 <= i < |d| ==> Pairs(d)[i] == Pairs(s[..p] + s[p + 1..])[i];
    }
  }

  lemma SamePairsSorted(d: seq<Record>, w: seq<Record>)
    requires Sorted(w) && Pairs(d) == Pairs(w)
    ensures Sorted(d)
  {
    assert |d| == |Pairs(d)| == |w|;
    forall i | 0 <= i < |d| ensures d[i].key == w[i].key {
      assert Pairs(d)[i] == (d[i].key, d[i].value) && Pairs(w)[i] == (w[i].key, w[i].value);
    }
  }

  lemma SamePairsFind(d: seq<Record>, w: seq<Record>, q: string)
    requires Sorted(d) && Sorted(w) && Pairs(d) == Pairs(w)
    ensures ValueOf(Find(d, q)) == ValueOf(Find(w, q))
  {
    assert |d| == |Pairs(d)| == |w|;
    forall i | 0 <= i < |d| ensures d[i].key == w[i].key && d[i].value == w[i].value {
      assert Pairs(d)[i] == (d[i].key, d[i].value) && Pairs(w)[i] == (w[i].key, w[i].value);
    }
    RankIs(d, q);
    RankUnique(w, q, Rank(d, q));
  }

  /** After a deletion the key is gone and every other key has the value it had. */
  lemma DeleteMeaning(t: Tree, key: string, q: string)
    requires IsAvl(t)
    ensures ValueOf(Search(Delete(t, key), q)) == if q == key then None else ValueOf(Search(t, q))
  {
    DeleteIsAvl(t, key);
    WithoutKeepsSorted(InOrder(t), key);
    SamePairsFind(InOrder(Delete(t, key)), Without(InOrder(t), key), q);
    WithoutMeaning(InOrder(t), key, q);
    SearchIsFind(t, q);
    SearchIsFind(Delete(t, key), q);
  }

  /** A record has the flag of the next one. */
  predicate SameFlag(s: seq<Record>, i: nat)
    requires i + 1 < |s|
  {
    s[i].flag == s[i + 1].flag
  }

  /** All flags along the carried stretch are equal. */
  predicate SameFlags(s: seq<Record>, p: nat, c: nat)
    requires p + c < |s|
  {
    forall i :: p <= i < p + c ==> SameFlag(s, i)
  }

  /** The flags survive too exactly when the carried ones are all equal. */
  lemma DeleteKeepsFlagsIff(t: Tree, key: string)
    requires IsAvl(t) && HasKey(InOrder(t), key)
    ensures var s, p := InOrder(t), Rank(InOrder(t), key);
      && p + Carry(t, key) < |s|
      && (InOrder(Delete(t, key)) == Without(s, key) <==> SameFlags(s, p, Carry(t, key)))
  {
    DeleteOrder(t, key);
    FindIsLookup(InOrder(t), key);
    DeletionFlagsIff(InOrder(t), key, Carry(t, key), InOrder(Delete(t, key)), Rank(InOrder(t), key));
  }

  lemma DeletionFlagsIff(s: seq<Record>, key: string, c: nat, d: seq<Record>, p: nat)
    requires p == Rank(s, key) && p < |s| && s[p].key == key && IsDeletion(s, key, c, d)
    ensures p + c < |s| && (d == Without(s, key) <==> SameFlags(s, p, c))
  {
    RemovedIsWithoutIff(s, p, c);
  }

  lemma RemovedIsWithoutIff(s: seq<Record>, p: nat, c: nat)
    requires p + c < |s|
    ensures Removed(s, p, c) == s[..p] + s[p + 1..] <==> SameFlags(s, p, c)
  {
    var d, w := Removed(s, p, c), s[..p] + s[p + 1..];
    if d == w {
      forall i | p <= i < p + c ensures SameFlag(s, i) {
        assert d[i].flag == s[i].flag && w[i] == s[i + 1];
      }
    }
    if SameFlags(s, p, c) {
      forall i | 0 <= i < |d| ensures d[i] == w[i] {
        assert p <= i < p + c ==> SameFlag(s, i);
        assert w[i] == if i < p then s[i] else s[i + 1];
      }
      assert |d| == |w|;
    }
  }

  lemma SmallKeys()
    ensures StrCmp("b", "a") == 1 && StrCmp("a", "b") == -1 && StrCmp("a", "a") == 0 && StrCmp("b", "b") == 0
  {
    StrCmpEqual("a", "a");
    StrCmpEqual("b", "b");
  }

  /** A deleted record with a live one to the right of it. */
  function TwoRecords(): Tree {
    Node("a", "1", 1, Null, Node("b", "2", 0, Null, Null, 0), 1)
  }

  lemma TwoRecordsInserted()
    ensures Insert(Insert(Null, "a", "1", 1), "b", "2", 0) == TwoRecords()
    ensures IsAvl(TwoRecords()) && InOrder(TwoRecords()) == [Record("a", "1", 1), Record("b", "2", 0)]
  {
    SmallKeys();
  }

  lemma LeftRecordDeleted()
    ensures Delete(TwoRecords(), "a") == Node("b", "2", 1, Null, Null, 0)
  {
    SmallKeys();
    assert Delete(TwoRecords().right, "b") == Null;
  }

  /** Deleting the left key of a two-node tree leaves the other record with the wrong flag. */
  lemma DeleteCanChangeAFlag()
    ensures var t := Insert(Insert(Null, "a", "1", 1), "b", "2", 0);
      && IsAvl(t)
      && Find(InOrder(t), "b") == Some(Record("b", "2", 0))
      && Find(InOrder(Delete(t, "a")), "b") == Some(Record("b", "2", 1))
  {
    TwoRecordsInserted();
    LeftRecordDeleted();
    SmallKeys();
    SearchIsFind(TwoRecords(), "b");
    SearchIsFind(Delete(TwoRecords(), "a"), "b");
  }

  // ---------------------------------------------------------------- lookup and update

  /** The intended search finds exactly what the tree holds. */
  lemma {:induction false} SearchIsFind(t: Tree, key: string)
    requires Ordered(t)
    ensures Search(t, key) == Find(InOrder(t), key)
  {
    if t.Node? {
      OrderedParts(t);
      var a, b := InOrder(t.left), InOrder(t.right);
      RankAround(a, Rec(t), b, key);
      StrCmpEqual(key, t.key);
      StrCmpFlip(key, t.key);
      assert (a + [Rec(t)] + b)[|a|] == Rec(t);
      if StrCmp(key, t.key) < 0 {
        SearchIsFind(t.left, key);
        assert (a + [Rec(t)] + b)[Rank(a, key)] == if Rank(a, key) < |a| then a[Rank(a, key)] else Rec(t);
      } else if StrCmp(key, t.key) > 0 {
        SearchIsFind(t.right, key);
        SplitRight(a + [Rec(t)], b, Rank(b, key));
      }
    }
  }

  /** `Get` as written answers correctly exactly for the root key and for absent keys. */
  lemma GetIsRightIff(t: Tree, key: string)
    requires Ordered(t)
    ensures Get(t, key) == Find(InOrder(t), key) <==> !HasKey(InOrder(t), key) || (t.Node? && t.key == key)
  {
    SearchIsFind(t, key);
    FindIsLookup(InOrder(t), key);
    if t.Node? {
      StrCmpEqual(key, t.key);
    }
  }

  /** Replaces the record of a key, if any. */
  function Replaced(s: seq<Record>, r: Record): seq<Record> {
    var p := Rank(s, r.key);
    if p < |s| && s[p].key == r.key then s[p := r] else s
  }

  lemma ReplacedMeaning(s: seq<Record>, r: Record, k: string)
    requires Sorted(s)
    ensures Sorted(Replaced(s, r))
    ensures Find(Replaced(s, r), k) == if k == r.key && Find(s, k).Some? then Some(r) else Find(s, k)
  {
    var t, p := Replaced(s, r), Rank(s, r.key);
    FindIsLookup(s, k);
    assert forall i :: 0 <= i < |s| ==> t[i].key == s[i].key;
    RankIs(s, k);
    assert IsRank(t, k, Rank(s, k));
    RankUnique(t, k, Rank(s, k));
  }

  lemma ReplacedRight(u: seq<Record>, b: seq<Record>, r: Record)
    requires Rank(u + b, r.key) == |u| + Rank(b, r.key)
    ensures Replaced(u + b, r) == u + Replaced(b, r)
  {
    SplitRight(u, b, Rank(b, r.key));
  }

  lemma ReplacedLeft(a: seq<Record>, x: Record, b: seq<Record>, r: Record)
    requires Rank(a + [x] + b, r.key) == Rank(a, r.key) && r.key != x.key
    ensures Replaced(a + [x] + b, r) == Replaced(a, r) + [x] + b
  {
    var p := Rank(a, r.key);
    assert (a + [x] + b)[p] == if p < |a| then a[p] else x;
  }

  /** `Update` overwrites the record of a present key at any depth, and leaves an absent one absent. */
  lemma {:induction false} UpdateOrder(t: Tree, key: string, value: string, flag: int)
    requires Ordered(t)
    ensures InOrder(Update(t, key, value, flag)) == Replaced(InOrder(t), Record(key, value, flag))
  {
    if t.Node? {
      OrderedParts(t);
      var a, b, x, r := InOrder(t.left), InOrder(t.right), Rec(t), Record(key, value, flag);
      RankAround(a, x, b, key);
      StrCmpEqual(key, t.key);
      StrCmpFlip(key, t.key);
      if StrCmp(key, t.key) < 0 {
        UpdateOrder(t.left, key, value, flag);
        ReplacedLeft(a, x, b, r);
      } else if StrCmp(key, t.key) > 0 {
        UpdateOrder(t.right, key, value, flag);
        ReplacedRight(a + [x], b, r);
      } else {
        assert (a + [x] + b)[|a|] == x;
      }
    }
  }

  lemma {:induction false} UpdateKeepsShape(t: Tree, key: string, value: string, flag: int)
    requires Balanced(t)
    ensures Balanced(Update(t, key, value, flag)) && Arm(Update(t, key, value, flag)) == Arm(t)
  {
    if t.Node? {
      UpdateKeepsShape(t.left, key, value, flag);
      UpdateKeepsShape(t.right, key, value, flag);
    }
  }

  lemma UpdateIsAvl(t: Tree, key: string, value: string, flag: int)
    requires IsAvl(t)
    ensures IsAvl(Update(t, key, value, flag))
    ensures forall k :: Find(InOrder(Update(t, key, value, flag)), k) ==
                        if k == key && Find(InOrder(t), k).Some? then Some(Record(key, value, flag)) else Find(InOrder(t), k)
  {
    UpdateOrder(t, key, value, flag);
    UpdateKeepsShape(t, key, value, flag);
    forall k {
      ReplacedMeaning(InOrder(t), Record(key, value, flag), k);
    }
    ReplacedMeaning(InOrder(t), Record(key, value, flag), key);
  }
}
