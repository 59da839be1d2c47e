/** The LRU cache of cache.c: a doubly linked list relinked in place, proved against a
    recency-ordered list of distinct keys. */
module LruCache {
  import opened Wrappers

  /** Number of entries the cache keeps. */
  const CACHE_SIZE := 101

  datatype Entry = Entry(name: string, defn: string)

  // ---------------------------------------------------------------- the recency list

  /** Most recently used first. */
  type Recency = seq<Entry>

  /** Position of a key, or the length when it is absent. */
  function IndexOf(l: Recency, k: string): (i: nat)
    ensures i <= |l|
    ensures i < |l| ==> l[i].name == k
    ensures forall j :: 0 <= j < i ==> l[j].name != k
  {
    if l == [] || l[0].name == k then 0 else 1 + IndexOf(l[1..], k)
  }

  function ToFront<T>(l: seq<T>, i: nat): seq<T>
    requires i < |l|
  {
    [l[i]] + l[..i] + l[i + 1..]
  }

  /** The list after a lookup: a hit moves to the front. */
  function Touched(l: Recency, k: string): Recency {
    var i := IndexOf(l, k);
    if i < |l| then ToFront(l, i) else l
  }

  function Truncated(l: Recency): Recency {
    if |l| <= CACHE_SIZE then l else l[..CACHE_SIZE]
  }

  function WithPut(l: Recency, k: string, v: string): Recency {
    var i := IndexOf(l, k);
    if i < |l| then ToFront(l, i)[0 := Entry(k, v)] else Truncated([Entry(k, v)] + l)
  }

  function Removed(l: Recency, k: string): Recency {
    var i := IndexOf(l, k);
    if i < |l| then l[..i] + l[i + 1..] else l
  }

  function Lookup(l: Recency, k: string): Option<string> {
    var i := IndexOf(l, k);
    if i < |l| then Some(l[i].defn) else None
  }

  ghost predicate Distinct(l: Recency) {
    forall i, j :: 0 <= i < j < |l| ==> l[i].name != l[j].name
  }

  lemma IndexIs(l: Recency, k: string, i: nat)
    requires i < |l| && l[i].name == k && forall j :: 0 <= j < i ==> l[j].name != k
    ensures IndexOf(l, k) == i
  {
    var j := IndexOf(l, k);
    if i < j {
      assert false;
    }
  }

  lemma AbsentIs(l: Recency, k: string)
    requires forall j :: 0 <= j < |l| ==> l[j].name != k
    ensures IndexOf(l, k) == |l|
  {}

  lemma ToFrontKeeps(l: Recency, i: nat)
    requires i < |l| && Distinct(l)
    ensures Distinct(ToFront(l, i))
    ensures forall k :: Lookup(ToFront(l, i), k) == Lookup(l, k)
  {
    var r := ToFront(l, i);
    assert forall j :: 0 < j < |r| ==> r[j] == l[if j <= i then j - 1 else j];
    forall k ensures Lookup(r, k) == Lookup(l, k) {
      var a := IndexOf(l, k);
      if a < |l| {
        var b := if a == i then 0 else if a < i then a + 1 else a;
        assert r[b] == l[a];
        IndexIs(r, k, b);
      } else {
        AbsentIs(r, k);
      }
    }
  }

  /** A lookup answers from the list and changes nothing but the order. */
  lemma TouchedKeeps(l: Recency, k: string)
    requires Distinct(l)
    ensures Distinct(Touched(l, k)) && |Touched(l, k)| == |l|
    ensures forall q :: Lookup(Touched(l, k), q) == Lookup(l, q)
    ensures Lookup(l, k).Some? ==> Touched(l, k)[0].name == k
  {
    if IndexOf(l, k) < |l| {
      ToFrontKeeps(l, IndexOf(l, k));
    }
  }

  /** The key pushed out by a put of `k`, if any: the least recently used one of a full cache. */
  function Evicted(l: Recency, k: string): Option<string> {
    if IndexOf(l, k) == |l| && |l| >= CACHE_SIZE then Some(l[CACHE_SIZE - 1].name) else None
  }

  /** After a put the key is first with its new value, every other key keeps its value, and only the
      least recently used one of a full cache is lost. */
  lemma PutMeaning(l: Recency, k: string, v: string)
    requires Distinct(l) && |l| <= CACHE_SIZE
    ensures Distinct(WithPut(l, k, v)) && |WithPut(l, k, v)| <= CACHE_SIZE
    ensures WithPut(l, k, v)[0] == Entry(k, v)
    ensures forall q :: Lookup(WithPut(l, k, v), q) ==
                        if q == k then Some(v)
                        else if Evicted(l, k) == Some(q) then None
                        else Lookup(l, q)
  {
    var i := IndexOf(l, k);
    if i < |l| {
      ToFrontKeeps(l, i);
      var r := ToFront(l, i);
      var p := r[0 := Entry(k, v)];
      assert forall j :: 0 < j < |r| ==> p[j] == r[j] && r[j].name != r[0].name;
      forall q ensures Lookup(p, q) == if q == k then Some(v) else Lookup(r, q) {
        var a := IndexOf(r, q);
        if a < |r| { IndexIs(p, q, a); } else { AbsentIs(p, q); }
      }
    } else {
      PutNewMeaning(l, k, v);
    }
  }

  lemma PrependMeaning(l: Recency, k: string, v: string)
    requires Distinct(l) && IndexOf(l, k) == |l|
    ensures Distinct([Entry(k, v)] + l)
    ensures forall q :: Lookup([Entry(k, v)] + l, q) == if q == k then Some(v) else Lookup(l, q)
  {
    var p := [Entry(k, v)] + l;
    assert forall j :: 0 < j < |p| ==> p[j] == l[j - 1];
    forall q ensures Lookup(p, q) == if q == k then Some(v) else Lookup(l, q) {
      var a := IndexOf(l, q);
      if q == k { IndexIs(p, q, 0); }
      else if a < |l| { IndexIs(p, q, a + 1); }
      else { AbsentIs(p, q); }
    }
  }

  lemma DropLastMeaning(l: Recency)
    requires Distinct(l) && l != []
    ensures Distinct(l[..|l| - 1])
    ensures forall q :: Lookup(l[..|l| - 1], q) == if q == l[|l| - 1].name then None else Lookup(l, q)
  {
    var p := l[..|l| - 1];
    forall q ensures Lookup(p, q) == if q == l[|l| - 1].name then None else Lookup(l, q) {
      var a := IndexOf(l, q);
      if a < |p| { IndexIs(p, q, a); } else { AbsentIs(p, q); }
    }
  }

  lemma PutNewMeaning(l: Recency, k: string, v: string)
    requires Distinct(l) && |l| <= CACHE_SIZE && IndexOf(l, k) == |l|
    ensures Distinct(WithPut(l, k, v))
    ensures forall q :: Lookup(WithPut(l, k, v), q) ==
                        if q == k then Some(v)
                        else if Evicted(l, k) == Some(q) then None
                        else Lookup(l, q)
  {
    var p := [Entry(k, v)] + l;
    PrependMeaning(l, k, v);
    if |l| == CACHE_SIZE {
      assert p[|p| - 1] == l[|l| - 1];
      DropLastMeaning(p);
    }
  }

  lemma LookupWithout(l: Recency, i: nat, q: string)
    requires Distinct(l) && i < |l|
    ensures Lookup(l[..i] + l[i + 1..], q) == if q == l[i].name then None else Lookup(l, q)
  {
    var r, a := l[..i] + l[i + 1..], IndexOf(l, q);
    assert forall j :: 0 <= j < |r| ==> r[j] == l[if j < i then j else j + 1];
    if a < |l| && a != i {
      IndexIs(r, q, if a < i then a else a - 1);
    } else {
      AbsentIs(r, q);
    }
  }

  lemma RemovedMeaning(l: Recency, k: string)
    requires Distinct(l)
    ensures Distinct(Removed(l, k))
    ensures forall q :: Lookup(Removed(l, k), q) == if q == k then None else Lookup(l, q)
  {
    var i := IndexOf(l, k);
    if i < |l| {
      var r := Removed(l, k);
      assert forall j :: 0 <= j < |r| ==> r[j] == l[if j < i then j else j + 1];
      forall q ensures Lookup(r, q) == if q == k then None else Lookup(l, q) {
        LookupWithout(l, i, q);
      }
    }
  }

  // ---------------------------------------------------------------- what the order means

  /** Finding a key, or storing it. */
  datatype Use = Look(key: string) | Store(key: string, value: string)

  function Used(l: Recency, u: Use): Recency {
    match u
    case Look(k) => Touched(l, k)
    case Store(k, v) => WithPut(l, k, v)
  }

  /** The list after some uses, from an empty cache. */
  function After(uses: seq<Use>): Recency {
    if uses == [] then [] else Used(After(uses[..|uses| - 1]), uses[|uses| - 1])
  }

  lemma AfterOneMore(uses: seq<Use>, u: Use)
    ensures After(uses + [u]) == Used(After(uses), u)
  {
    assert (uses + [u])[..|uses|] == uses;
  }

  function KeysOf(l: Recency): (r: seq<string>)
    ensures |r| == |l| && forall i :: 0 <= i < |l| ==> r[i] == l[i].name
  {
    seq(|l|, i requires 0 <= i < |l| => l[i].name)
  }

  function First(s: seq<string>, n: nat): seq<string> {
    if |s| <= n then s else s[..n]
  }

  /** A sequence without a key. */
  function Drop(s: seq<string>, k: string): (r: seq<string>)
    ensures k !in r && |r| <= |s|
    ensures k !in s ==> r == s
  {
    if s == [] then [] else (if s[0] == k then [] else [s[0]]) + Drop(s[1..], k)
  }

  /** All keys that were ever stored, the most recently used first; looking for a key that the cache
      has lost is no use of it. */
  function ByUse(uses: seq<Use>): seq<string> {
    if uses == [] then []
    else
      var n := |uses| - 1;
      var before, k := ByUse(uses[..n]), uses[n].key;
      if uses[n].Look? && Lookup(After(uses[..n]), k).None? then before else [k] + Drop(before, k)
  }

  ghost predicate NoTwice(s: seq<string>) {
    forall i, j :: 0 <= i < j < |s| ==> s[i] != s[j]
  }

  lemma {:induction false} DropAt(s: seq<string>, i: nat)
    requires NoTwice(s) && i < |s|
    ensures Drop(s, s[i]) == s[..i] + s[i + 1..]
  {
    if i == 0 {
      assert s[0] !in s[1..];
      assert s[..0] + s[1..] == s[1..];
    } else {
      assert s[1..][i - 1] == s[i];
      DropAt(s[1..], i - 1);
      assert s[..i] + s[i + 1..] == [s[0]] + (s[1..][..i - 1] + s[1..][i..]);
    }
  }

  lemma {:induction false} DropKeeps(s: seq<string>, k: string)
    requires NoTwice(s)
    ensures NoTwice(Drop(s, k)) && forall x :: x in Drop(s, k) ==> x in s
  {
    if s != [] {
      DropKeeps(s[1..], k);
      assert s[0] !in s[1..];
    }
  }

  lemma ToFrontWhole<T>(s: seq<T>, i: nat)
    requires i < |s|
    ensures ToFront(s, i) == [s[i]] + (s[..i] + s[i + 1..])
  {}

  lemma ToFrontOfPrefix<T>(s: seq<T>, n: nat, i: nat)
    requires i < n <= |s|
    ensures ToFront(s[..n], i) == ToFront(s, i)[..n]
  {
    ToFrontAt(s[..n], i);
    ToFrontAt(s, i);
  }

  /** A hit at `i` among the first `n` of all keys moves in front, and the others keep their order. */
  lemma HitMoves(s: seq<string>, n: nat, i: nat)
    requires NoTwice(s) && i < |First(s, n)|
    ensures ToFront(First(s, n), i) == First([s[i]] + Drop(s, s[i]), n)
  {
    DropAt(s, i);
    ToFrontWhole(s, i);
    ToFrontAt(s, i);
    if |s| > n {
      ToFrontOfPrefix(s, n, i);
    }
  }

  lemma FirstHas(s: seq<string>, n: nat)
    ensures forall j :: 0 <= j < |s| && j < n ==> s[j] in First(s, n)
  {
    assert forall j :: 0 <= j < |First(s, n)| ==> First(s, n)[j] == s[j];
  }

  /** A new key comes in front; the last of the first `n` falls out. */
  lemma NewKeyComesFirst(s: seq<string>, n: nat, k: string)
    requires NoTwice(s) && k !in First(s, n)
    ensures First([k] + First(s, n), n) == First([k] + Drop(s, k), n)
  {
    if k in s {
      var i :| 0 <= i < |s| && s[i] == k;
      DropAt(s, i);
      FirstHas(s, n);
      assert Drop(s, k)[..n] == s[..n];
    }
  }

  lemma KeysToFront(l: Recency, i: nat)
    requires i < |l|
    ensures KeysOf(ToFront(l, i)) == ToFront(KeysOf(l), i)
  {
    ToFrontAt(l, i);
    ToFrontAt(KeysOf(l), i);
  }

  lemma KeysOfValue(l: Recency, v: string)
    requires l != []
    ensures KeysOf(l[0 := Entry(l[0].name, v)]) == KeysOf(l)
  {}

  lemma KeysOfNew(l: Recency, k: string, v: string)
    ensures KeysOf(Truncated([Entry(k, v)] + l)) == First([k] + KeysOf(l), CACHE_SIZE)
  {}

  /** The cache holds the most recently used keys, in the order of their last use, as many as fit. */
  lemma {:induction false} HoldsMostRecent(uses: seq<Use>)
    ensures NoTwice(ByUse(uses)) && KeysOf(After(uses)) == First(ByUse(uses), CACHE_SIZE)
  {
    if uses != [] {
      var n := |uses| - 1;
      HoldsMostRecent(uses[..n]);
      OneMoreUse(After(uses[..n]), ByUse(uses[..n]), uses[n]);
    }
  }

  lemma OneMoreUse(l: Recency, s: seq<string>, u: Use)
    requires NoTwice(s) && KeysOf(l) == First(s, CACHE_SIZE)
    ensures var t := if u.Look? && Lookup(l, u.key).None? then s else [u.key] + Drop(s, u.key);
      NoTwice(t) && KeysOf(Used(l, u)) == First(t, CACHE_SIZE)
  {
    var i := IndexOf(l, u.key);
    DropKeeps(s, u.key);
    if i < |l| {
      assert s[i] == KeysOf(l)[i] == u.key;
      HitMoves(s, CACHE_SIZE, i);
      HitKeys(l, u, i);
    } else if u.Store? {
      MissKeys(l, u.key);
      NewKeyComesFirst(s, CACHE_SIZE, u.key);
      KeysOfNew(l, u.key, u.value);
    }
  }

  lemma StoreKeys(l: Recency, k: string, v: string, i: nat)
    requires i == IndexOf(l, k) && i < |l|
    ensures KeysOf(WithPut(l, k, v)) == KeysOf(ToFront(l, i))
  {
    assert ToFront(l, i)[0].name == k;
    KeysOfValue(ToFront(l, i), v);
  }

  lemma HitKeys(l: Recency, u: Use, i: nat)
    requires i == IndexOf(l, u.key) && i < |l|
    ensures KeysOf(Used(l, u)) == ToFront(KeysOf(l), i)
  {
    KeysToFront(l, i);
    if u.Store? {
      StoreKeys(l, u.key, u.value, i);
    }
  }

  lemma MissKeys(l: Recency, k: string)
    requires IndexOf(l, k) == |l|
    ensures k !in KeysOf(l)
  {}

  // ---------------------------------------------------------------- the linked list

  class ListNode {
    const name: string
    var defn: string
    var next: ListNode?
    var prev: ListNode?

    constructor (name: string, defn: string)
      ensures this.name == name && this.defn == defn && next == null && prev == null
    {
      this.name, this.defn := name, defn;
      next, prev := null, null;
    }
  }

  ghost function At(nodes: seq<ListNode>, i: int): ListNode? {
    if 0 <= i < |nodes| then nodes[i] else null
  }

  ghost predicate NoRepeats(nodes: seq<ListNode>) {
    forall i, j :: 0 <= i < j < |nodes| ==> nodes[i] != nodes[j]
  }

  /** `next` and `prev` run through `nodes` in both directions. */
  ghost predicate Linked(nodes: seq<ListNode>)
    reads nodes
  {
    && (forall i {:trigger nodes[i].next} :: 0 <= i < |nodes| ==> nodes[i].next == At(nodes, i + 1))
    && (forall i {:trigger nodes[i].prev} :: 0 <= i < |nodes| ==> nodes[i].prev == At(nodes, i - 1))
  }

  ghost function Entries(nodes: seq<ListNode>): (l: Recency)
    reads nodes
    ensures |l| == |nodes|
  {
    seq(|nodes|, i requires 0 <= i < |nodes| reads nodes => Entry(nodes[i].name, nodes[i].defn))
  }

  lemma ToFrontAt<T>(s: seq<T>, i: nat)
    requires i < |s|
    ensures |ToFront(s, i)| == |s|
    ensures forall j :: 0 <= j < |s| ==> ToFront(s, i)[j] == if j == 0 then s[i] else if j <= i then s[j - 1] else s[j]
  {}

  lemma ToFrontNoRepeats(nodes: seq<ListNode>, i: nat)
    requires i < |nodes| && NoRepeats(nodes)
    ensures NoRepeats(ToFront(nodes, i))
    ensures forall n :: n in ToFront(nodes, i) <==> n in nodes
  {
    ToFrontAt(nodes, i);
    assert nodes == nodes[..i] + [nodes[i]] + nodes[i + 1..];
  }

  lemma EntriesToFront(nodes: seq<ListNode>, i: nat)
    requires i < |nodes|
    ensures Entries(ToFront(nodes, i)) == ToFront(Entries(nodes), i)
  {
    ToFrontAt(nodes, i);
    ToFrontAt(Entries(nodes), i);
  }

  /** The pointer surgery of a hit at position `i > 0`. */
  method Relink(node: ListNode, head: ListNode, tail: ListNode, ghost nodes: seq<ListNode>, ghost i: nat)
    returns (last: ListNode)
    requires NoRepeats(nodes) && Linked(nodes) && 0 < i < |nodes| && node == nodes[i]
    requires head == nodes[0] && tail == nodes[|nodes| - 1]
    modifies (set n | n in nodes)`next, (set n | n in nodes)`prev
    ensures Linked(ToFront(nodes, i)) && last == ToFront(nodes, i)[|nodes| - 1]
  {
    ghost var rest := nodes[..i] + nodes[i + 1..];
    RestOf(nodes, i);
    last := UnlinkAt(node, tail, nodes, i);
    LinkBefore(node, head, rest);
    assert ToFront(nodes, i) == [node] + rest;
    ToFrontAt(nodes, i);
  }

  lemma RestOf(nodes: seq<ListNode>, i: nat)
    requires NoRepeats(nodes) && i < |nodes|
    ensures var rest := nodes[..i] + nodes[i + 1..];
      && NoRepeats(rest) && nodes[i] !in rest
      && forall j :: 0 <= j < |rest| ==> rest[j] == nodes[if j < i then j else j + 1]
  {}

  /** The node at position `i > 0` is left out of the chain. */
  method UnlinkAt(node: ListNode, tail: ListNode, ghost nodes: seq<ListNode>, ghost i: nat) returns (last: ListNode)
    requires NoRepeats(nodes) && Linked(nodes) && 0 < i < |nodes| && node == nodes[i] && tail == nodes[|nodes| - 1]
    modifies (set n | n in nodes)`next, (set n | n in nodes)`prev
    ensures Linked(nodes[..i] + nodes[i + 1..])
    ensures last == (nodes[..i] + nodes[i + 1..])[|nodes| - 2]
  {
    last := tail;
    var temporary := node.prev;
    if node == tail {
      temporary.next := null;
      last := temporary;
    } else {
      temporary.next := node.next;
      node.next.prev := temporary;
    }
    LinkedAround(nodes, i, nodes[..i] + nodes[i + 1..]);
  }

  /** With its neighbours linked to each other, a node is out of the chain. */
  lemma LinkedAround(nodes: seq<ListNode>, i: nat, rest: seq<ListNode>)
    requires 0 < i < |nodes| && |rest| == |nodes| - 1
    requires forall j {:trigger rest[j]} :: 0 <= j < i ==> rest[j] == nodes[j]
    requires forall j {:trigger rest[j]} :: i <= j < |rest| ==> rest[j] == nodes[j + 1]
    requires forall j {:trigger nodes[j].next} :: 0 <= j < |nodes| && j != i ==>
      nodes[j].next == At(nodes, if j == i - 1 then i + 1 else j + 1)
    requires forall j {:trigger nodes[j].prev} :: 0 <= j < |nodes| && j != i ==>
      nodes[j].prev == At(nodes, if j == i + 1 then i - 1 else j - 1)
    ensures Linked(rest)
  {
    assert forall j :: 0 <= j < i ==> rest[j].next == At(rest, j + 1) && rest[j].prev == At(rest, j - 1);
    assert forall j :: i <= j < |rest| ==> rest[j].next == At(rest, j + 1) && rest[j].prev == At(rest, j - 1);
  }

  /** A node outside the chain becomes its first. */
  method LinkBefore(node: ListNode, head: ListNode, ghost rest: seq<ListNode>)
    requires NoRepeats(rest) && Linked(rest) && node !in rest && rest != [] && head == rest[0]
    modifies (set n | n in rest)`prev, node`next, node`prev
    ensures Linked([node] + rest)
  {
    head.prev := node;
    node.next := head;
    node.prev := null;
  }

  class Cache {
    var head: ListNode?
    var tail: ListNode?
    var count: nat
    ghost var nodes: seq<ListNode>

    /** `tail` is the last node whenever there is one; on an empty list it may dangle. */
    ghost predicate Chain()
      reads this, nodes
    {
      && NoRepeats(nodes) && Linked(nodes)
      && head == At(nodes, 0)
      && (nodes != [] ==> tail == At(nodes, |nodes| - 1))
    }

    ghost predicate Valid()
      reads this, nodes
    {
      && Chain()
      && count == |nodes| <= CACHE_SIZE
      && Distinct(Entries(nodes))
    }

    ghost function Contents(): Recency
      reads this, nodes
    {
      Entries(nodes)
    }

    constructor ()
      ensures Valid() && Contents() == []
    {
      head, tail, count, nodes := null, null, 0, [];
    }

    /** Unlinks the node at position `i > 0` and puts it in front. */
    method MoveToFront(node: ListNode, ghost i: nat)
      requires Valid() && 0 < i < |nodes| && node == nodes[i]
      modifies this, nodes
      ensures Valid() && nodes == ToFront(old(nodes), i)
      ensures Contents() == ToFront(old(Contents()), i)
    {
      ghost var was, l := nodes, Contents();
      ToFrontKeeps(l, i);
      RelinkAll(node, i);
      assert Entries(was) == l;
      EntriesToFront(was, i);
    }

    /** The same, without a look at the keys. */
    method RelinkAll(node: ListNode, ghost i: nat)
      requires Chain() && 0 < i < |nodes| && node == nodes[i]
      modifies this`head, this`tail, this`nodes, (set n | n in nodes)`next, (set n | n in nodes)`prev
      ensures Chain() && nodes == ToFront(old(nodes), i)
    {
      ghost var was := nodes;
      ToFrontNoRepeats(was, i);
      tail := Relink(node, head, tail, nodes, i);
      head := node;
      nodes := ToFront(was, i);
    }

    /** A hit becomes the head of the list. */
    method Get(s: string) returns (r: ListNode?)
      requires Valid()
      modifies this, nodes
      ensures Valid() && Contents() == Touched(old(Contents()), s)
      ensures (r != null) == Lookup(old(Contents()), s).Some?
      ensures r != null ==> r == head && r.name == s && Lookup(old(Contents()), s) == Some(r.defn)
      ensures forall n :: n in nodes <==> n in old(nodes)
      ensures r == null ==> nodes == old(nodes)
    {
      var cursor := head;
      ghost var i := 0;
      while cursor != null
        invariant i <= |nodes| && cursor == At(nodes, i)
        invariant forall j :: 0 <= j < i ==> Contents()[j].name != s
        decreases |nodes| - i
      {
        if cursor.name == s {
          IndexIs(Contents(), s, i);
          if cursor != head {
            ToFrontNoRepeats(nodes, i);
            MoveToFront(cursor, i);
          } else {
            assert ToFront(nodes, 0) == nodes && ToFront(Contents(), 0) == Contents();
          }
          assert Contents()[0].defn == head.defn;
          return head;
        }
        cursor := cursor.next;
        i := i + 1;
      }
      AbsentIs(Contents(), s);
      r := null;
    }

    method LinkFront(node: ListNode)
      requires Chain() && node !in nodes && node.next == null && node.prev == null
      modifies this`head, this`tail, this`nodes, (set n | n in nodes)`prev, node`next, node`prev
      ensures Chain() && nodes == [node] + old(nodes)
    {
      ghost var was := nodes;
      if head == null {
        head, tail := node, node;
      } else {
        head.prev := node;
        node.next := head;
        node.prev := null;
        head := node;
      }
      nodes := [node] + was;
    }

    method UnlinkLast()
      requires Chain() && |nodes| > 1
      modifies this`tail, this`nodes, (set n | n in nodes)`next
      ensures Chain() && nodes == old(nodes)[..|old(nodes)| - 1]
    {
      ghost var was := nodes;
      tail := tail.prev;
      tail.next := null;
      nodes := was[..|was| - 1];
    }

    method Put(name: string, defn: string)
      requires Valid()
      modifies this, nodes
      ensures Valid() && Contents() == WithPut(old(Contents()), name, defn)
      ensures forall n :: n in nodes ==> n in old(nodes) || fresh(n)
    {
      var entry := Get(name);
      if entry == null {
        PutNew(name, defn);
      } else {
        assert entry in nodes;
        Overwrite(entry, defn);
      }
    }

    /** The value of the head entry is replaced. */
    method Overwrite(entry: ListNode, defn: string)
      requires Valid() && nodes != [] && entry == head
      modifies entry`defn
      ensures Valid() && Contents() == old(Contents())[0 := Entry(old(Contents())[0].name, defn)]
    {
      ghost var l := Contents();
      entry.defn := defn;
      assert Contents() == l[0 := Entry(l[0].name, defn)];
    }

    method PutNew(name: string, defn: string)
      requires Valid() && IndexOf(Contents(), name) == |Contents()|
      modifies this, nodes
      ensures Valid() && Contents() == WithPut(old(Contents()), name, defn)
      ensures forall n :: n in nodes ==> n in old(nodes) || fresh(n)
    {
      PrependMeaning(Contents(), name, defn);
      LinkNew(name, defn);
      EvictOrCount();
    }

    method LinkNew(name: string, defn: string)
      requires Chain()
      modifies this`head, this`tail, this`nodes, (set n | n in nodes)`prev
      ensures Chain() && Contents() == [Entry(name, defn)] + old(Contents())
      ensures |nodes| == |old(nodes)| + 1 && fresh(nodes[0]) && nodes[1..] == old(nodes)
    {
      ghost var l := Contents();
      var node := new ListNode(name, defn);
      LinkFront(node);
      assert Contents() == [Entry(name, defn)] + l;
    }

    /** With one entry more than counted: drops the last one of a full cache, or counts it. */
    method EvictOrCount()
      requires Chain() && |nodes| == count + 1 <= CACHE_SIZE + 1 && Distinct(Contents())
      modifies this`tail, this`nodes, this`count, (set n | n in nodes)`next
      ensures Valid() && Contents() == Truncated(old(Contents()))
      ensures nodes <= old(nodes)
    {
      if count >= CACHE_SIZE {
        ghost var l := Contents();
        DropLastMeaning(l);
        UnlinkLast();
        assert Contents() == l[..CACHE_SIZE];
      } else {
        count := count + 1;
      }
    }

    /** Removing the only entry leaves `tail` where it was. */
    method UnlinkHead()
      requires Chain() && nodes != []
      modifies this`head, this`nodes, (set n | n in nodes)`prev
      ensures Chain() && nodes == old(nodes)[1..]
    {
      ghost var was := nodes;
      if head.next != null {
        head.next.prev := null;
        head := head.next;
      } else {
        head := null;
      }
      nodes := was[1..];
    }

    /** The entry in front is dropped. */
    method DropHead()
      requires Valid() && nodes != []
      modifies this`head, this`nodes, this`count, (set n | n in nodes)`prev
      ensures Valid() && Contents() == old(Contents())[1..] && nodes == old(nodes)[1..]
    {
      ghost var l := Contents();
      UnlinkHead();
      count := count - 1;
      assert Contents() == l[1..];
    }

    method Invalidate(key: string)
      requires Valid()
      modifies this, nodes
      ensures Valid() && Contents() == Removed(old(Contents()), key)
      ensures forall n :: n in nodes ==> n in old(nodes)
    {
      ghost var l := Contents();
      var hit := Get(key);
      if hit != null {
        DropHead();
        TouchedTail(l, key);
      }
    }
  }

  lemma TouchedTail(l: Recency, k: string)
    requires Lookup(l, k).Some?
    ensures Touched(l, k)[1..] == Removed(l, k)
  {}
}
