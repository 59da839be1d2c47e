/** The circular priority queue of lock requests (pqueue.c, pqueue.h).

    Requests are ordered by (timestamp, node id).  `SortedInsert` is the value-level meaning of
    `enqueue`; the class `Ring` is the array with its `front` and `rear` indices, and its methods
    are proved against that function. */
module LockQueue {

  /** Number of slots of the ring. */
  const MAX := 50

  /** The part of a queued message the queue looks at. */
  datatype Entry = Entry(ts: nat, id: nat)

  /** The three-way comparison of pqueue.c. */
  function Compare(first: Entry, second: Entry): int {
    if first.ts == second.ts then
      if first.id > second.id then 1
      else if first.id < second.id then -1
      else 0
    else if first.ts > second.ts then 1
    else -1
  }

  predicate Less(a: Entry, b: Entry) {
    a.ts < b.ts || (a.ts == b.ts && a.id < b.id)
  }

  /** The comparison decides the lexicographic order, which is total on distinct entries. */
  lemma CompareDecidesOrder(a: Entry, b: Entry)
    ensures Compare(a, b) == -1 <==> Less(a, b)
    ensures Compare(a, b) == 1 <==> Less(b, a)
    ensures Compare(a, b) == 0 <==> a == b
  {}

  predicate Sorted(q: seq<Entry>) {
    forall i, j :: 0 <= i < j < |q| ==> !Less(q[j], q[i])
  }

  /** Scans from the rear past every entry greater than `x`. */
  function SortedInsert(q: seq<Entry>, x: Entry): (r: seq<Entry>)
    ensures |r| == |q| + 1
  {
    if |q| == 0 || !Less(x, q[|q| - 1]) then q + [x]
    else SortedInsert(q[..|q| - 1], x) + [q[|q| - 1]]
  }

  /** `k` is where `SortedInsert` puts `x`: everything from `k` on is greater, its predecessor is not. */
  predicate InsertionPoint(q: seq<Entry>, x: Entry, k: nat) {
    && k <= |q|
    && (forall m :: k <= m < |q| ==> Less(x, q[m]))
    && (k == 0 || !Less(x, q[k - 1]))
  }

  lemma InsertedBeforeLast<T>(q: seq<T>, x: T, k: nat)
    requires k < |q|
    ensures q[..|q| - 1][..k] + [x] + q[..|q| - 1][k..] + [q[|q| - 1]] == q[..k] + [x] + q[k..]
  {}

  lemma {:induction false} SortedInsertAt(q: seq<Entry>, x: Entry, k: nat)
    requires InsertionPoint(q, x, k)
    ensures SortedInsert(q, x) == q[..k] + [x] + q[k..]
  {
    if k == |q| {
      assert q[..k] == q && q[k..] == [];
    } else {
      var last := |q| - 1;
      assert Less(x, q[last]);
      assert InsertionPoint(q[..last], x, k);
      SortedInsertAt(q[..last], x, k);
      InsertedBeforeLast(q, x, k);
    }
  }

  lemma SortedInsertIndex(q: seq<Entry>, x: Entry, k: nat)
    requires InsertionPoint(q, x, k)
    ensures forall m :: 0 <= m <= |q| ==> SortedInsert(q, x)[m] == if m < k then q[m] else if m == k then x else q[m - 1]
  {
    SortedInsertAt(q, x, k);
  }

  function InsertionIndex(q: seq<Entry>, x: Entry): (k: nat)
    ensures InsertionPoint(q, x, k)
  {
    if |q| == 0 || !Less(x, q[|q| - 1]) then |q| else InsertionIndex(q[..|q| - 1], x)
  }

  /** Enqueueing keeps the queue sorted, adds exactly `x`, and is stable: entries that compare
      equal to `x` stay in front of it. */
  lemma SortedInsertIsStableInsert(q: seq<Entry>, x: Entry)
    requires Sorted(q)
    ensures Sorted(SortedInsert(q, x))
    ensures multiset(SortedInsert(q, x)) == multiset(q) + multiset{x}
    ensures exists k: nat :: InsertionPoint(q, x, k) && SortedInsert(q, x) == q[..k] + [x] + q[k..]
  {
    var k := InsertionIndex(q, x);
    SortedInsertAt(q, x, k);
    SplitAroundIsSorted(q, x, k);
    SortedInsertMultiset(q, x);
  }

  lemma {:induction false} SortedInsertMultiset(q: seq<Entry>, x: Entry)
    ensures multiset(SortedInsert(q, x)) == multiset(q) + multiset{x}
  {
    if |q| > 0 && Less(x, q[|q| - 1]) {
      SortedInsertMultiset(q[..|q| - 1], x);
      assert q == q[..|q| - 1] + [q[|q| - 1]];
    }
  }

  lemma SplitAroundIsSorted(q: seq<Entry>, x: Entry, k: nat)
    requires Sorted(q) && InsertionPoint(q, x, k)
    ensures Sorted(q[..k] + [x] + q[k..])
  {
    var r := q[..k] + [x] + q[k..];
    forall i, j | 0 <= i < j < |r|
      ensures !Less(r[j], r[i])
    {
      var qi := if i < k then i else i - 1;
      var qj := if j < k then j else j - 1;
      if i == k {
        assert Less(x, q[qj]);
      } else if j == k {
        assert !Less(q[k - 1], q[qi]);
      } else {
        assert r[i] == q[qi] && r[j] == q[qj];
      }
    }
  }

  /** Membership after an insertion. */
  lemma {:induction false} SortedInsertMembers(q: seq<Entry>, x: Entry)
    ensures forall e :: e in SortedInsert(q, x) <==> e == x || e in q
  {
    if |q| > 0 && Less(x, q[|q| - 1]) {
      SortedInsertMembers(q[..|q| - 1], x);
      assert q == q[..|q| - 1] + [q[|q| - 1]];
    }
  }

  /** The minimum of a sorted queue is its head. */
  lemma HeadIsLeast(q: seq<Entry>, e: Entry)
    requires Sorted(q) && e in q
    ensures !Less(e, q[0])
  {}

  /** Array slot of the `k`-th element of a ring that starts at `front`. */
  function Slot(front: nat, k: nat): nat
    requires front < MAX && k <= MAX
  {
    if front + k < MAX then front + k else front + k - MAX
  }

  /** The successor and predecessor of a slot, modulo MAX as in pqueue.c. */
  function Next(i: int): (r: int)
    requires 0 <= i < MAX
    ensures r == if i == MAX - 1 then 0 else i + 1
  {
    (i + 1) % MAX
  }

  function Prev(i: int): (r: int)
    requires 0 <= i < MAX
    ensures r == if i == 0 then MAX - 1 else i - 1
  {
    (i - 1 + MAX) % MAX
  }

  /** Slots hold the entries before position `k` of `q` in place, and those from `k` on one slot later. */
  ghost predicate ShiftedFrom(d: seq<Entry>, front: nat, q: seq<Entry>, k: nat)
    requires |d| == MAX && front < MAX && k <= |q| < MAX
  {
    && (forall m :: 0 <= m < k ==> d[Slot(front, m)] == q[m])
    && (forall m :: k < m <= |q| ==> d[Slot(front, m)] == q[m - 1])
  }

  /** One turn of the shifting loop. */
  lemma ShiftOne(d: seq<Entry>, front: nat, q: seq<Entry>, k: nat, i: nat)
    requires |d| == MAX && front < MAX && 0 < k <= |q| < MAX
    requires ShiftedFrom(d, front, q, k) && i == Slot(front, k - 1)
    ensures Next(i) == Slot(front, k) && d[i] == q[k - 1]
    ensures ShiftedFrom(d[Next(i) := d[i]], front, q, k - 1)
    ensures k > 1 ==> Prev(i) == Slot(front, k - 2)
    ensures Next(Prev(i)) == front <==> k == 1
  {}

  /** The shifting loop of `enqueue`: entries greater than `x` move one slot towards the rear,
      which never touches a slot that is still live. */
  method MakeRoom(data: array<Entry>, front: nat, rear: nat, x: Entry, ghost q: seq<Entry>)
    returns (i: nat, ghost k: nat)
    requires data.Length == MAX && front < MAX
    requires 0 < |q| < MAX && rear == Slot(front, |q| - 1)
    requires forall m :: 0 <= m < |q| ==> data[Slot(front, m)] == q[m]
    modifies data
    ensures InsertionPoint(q, x, k) && i == Slot(front, k)
    ensures ShiftedFrom(data[..], front, q, k)
  {
    i := rear;
    k := |q|;
    while Compare(x, data[i]) == -1
      invariant 0 < k <= |q| && i == Slot(front, k - 1)
      invariant ShiftedFrom(data[..], front, q, k)
      invariant forall m :: k <= m < |q| ==> Less(x, q[m])
      decreases k
    {
      ShiftOne(data[..], front, q, k, i);
      ghost var d := data[..];
      data[Next(i)] := data[i];
      assert data[..] == d[Next(i) := d[i]];
      i := Prev(i);
      k := k - 1;
      if Next(i) == front {
        break;
      }
    }
    i := Next(i);
  }

  /** The new entry goes where the gap is. */
  lemma GapFilled(d: seq<Entry>, front: nat, q: seq<Entry>, k: nat, x: Entry)
    requires |d| == MAX && front < MAX && |q| < MAX && InsertionPoint(q, x, k) && ShiftedFrom(d, front, q, k)
    ensures forall m :: 0 <= m <= |q| ==> d[Slot(front, k) := x][Slot(front, m)] == SortedInsert(q, x)[m]
  {
    var filled := d[Slot(front, k) := x];
    SortedInsertIndex(q, x, k);
    forall m | 0 <= m <= |q| ensures filled[Slot(front, m)] == SortedInsert(q, x)[m] {
      if m != k {
        assert Slot(front, m) != Slot(front, k) && filled[Slot(front, m)] == d[Slot(front, m)];
      }
    }
  }

  /** `enqueue` on a ring that is neither empty nor full, up to the advance of `rear`. */
  method InsertLive(data: array<Entry>, front: nat, rear: nat, x: Entry, ghost q: seq<Entry>)
    requires data.Length == MAX && front < MAX
    requires 0 < |q| < MAX && rear == Slot(front, |q| - 1)
    requires forall m :: 0 <= m < |q| ==> data[Slot(front, m)] == q[m]
    modifies data
    ensures forall m :: 0 <= m <= |q| ==> data[Slot(front, m)] == SortedInsert(q, x)[m]
  {
    var i, k := MakeRoom(data, front, rear, x, q);
    ghost var d := data[..];
    data[i] := x;
    GapFilled(d, front, q, k, x);
    assert data[..] == d[i := x];
    forall m | 0 <= m <= |q| ensures data[Slot(front, m)] == SortedInsert(q, x)[m] {
      assert data[Slot(front, m)] == data[..][Slot(front, m)];
    }
  }

  /** The ring buffer itself. */
  class Ring {
    const data: array<Entry>
    var front: int
    var rear: int

    ghost predicate Shape()
      reads this
    {
      && data.Length == MAX
      && -1 <= front < MAX
      && -1 <= rear < MAX
      && (front == -1 <==> rear == -1)
    }

    /** The live slots from front to rear, unrolled. */
    ghost function Contents(): seq<Entry>
      requires Shape()
      reads this, data
    {
      if rear == -1 then []
      else if front <= rear then data[front..rear + 1]
      else data[front..] + data[..rear + 1]
    }

    ghost predicate Valid()
      reads this, data
    {
      Shape() && Sorted(Contents())
    }

    constructor ()
      ensures Valid() && Contents() == [] && fresh(data)
    {
      data := new Entry[MAX](_ => Entry(0, 0));
      front, rear := -1, -1;
    }

    method Reset()
      requires Shape()
      modifies this
      ensures Valid() && Contents() == []
    {
      rear := -1;
      front := -1;
    }

    method Empty() returns (r: bool)
      requires Valid()
      ensures r <==> Contents() == []
    {
      r := rear == -1;
    }

    /** The capacity is exactly MAX: no slot is sacrificed to tell full from empty. */
    method Full() returns (r: bool)
      requires Valid()
      ensures r <==> |Contents()| == MAX
    {
      r := (rear + 1) % MAX == front;
    }

    lemma ContentsBySlot()
      requires Shape()
      ensures |Contents()| <= MAX
      ensures forall k :: 0 <= k < |Contents()| ==> Contents()[k] == data[Slot(front, k)]
    {}

    lemma ContentsFromSlots(q: seq<Entry>)
      requires Shape() && rear != -1 && 0 < |q| <= MAX && rear == Slot(front, |q| - 1)
      requires forall k :: 0 <= k < |q| ==> data[Slot(front, k)] == q[k]
      ensures Contents() == q
    {
      ContentsBySlot();
    }

    /** Inserts in order, or refuses and changes nothing when all MAX slots are live. */
    method Enqueue(x: Entry) returns (ok: bool)
      requires Valid()
      modifies this, data
      ensures Valid()
      ensures ok <==> |old(Contents())| < MAX
      ensures Contents() == if ok then SortedInsert(old(Contents()), x) else old(Contents())
    {
      var full := Full();
      if full {
        return false;
      }
      ok := true;
      var empty := Empty();
      if empty {
        StartWith(x);
      } else {
        Insert(x);
      }
    }

    /** The first entry of an empty ring. */
    method StartWith(x: Entry)
      requires Valid() && Contents() == []
      modifies this, data
      ensures Valid() && Contents() == SortedInsert([], x)
    {
      rear, front := 0, 0;
      data[0] := x;
      assert SortedInsert([], x) == [x];
      assert Contents() == [x];
    }

    method Insert(x: Entry)
      requires Valid() && 0 < |Contents()| < MAX
      modifies this, data
      ensures Valid() && Contents() == SortedInsert(old(Contents()), x)
    {
      ghost var q := Contents();
      assert Sorted(SortedInsert(q, x)) by { SortedInsertIsStableInsert(q, x); }
      ContentsBySlot();
      InsertLive(data, front, rear, x, q);
      rear := Next(rear);
      ContentsFromSlots(SortedInsert(q, x));
    }

    /** Removes and returns the minimum; on an empty queue the source returns NULL. */
    method Dequeue() returns (found: bool, x: Entry)
      requires Valid()
      modifies this
      ensures Valid()
      ensures found <==> old(Contents()) != []
      ensures found ==> x == old(Contents())[0] && Contents() == old(Contents())[1..]
      ensures found ==> forall e :: e in old(Contents()) ==> !Less(e, x)
      ensures !found ==> Contents() == []
    {
      ghost var q := Contents();
      x := Entry(0, 0);
      found := rear != -1;
      if found {
        x := data[front];
        if rear == front {
          Reset();
        } else {
          front := Next(front);
        }
        assert Contents() == q[1..];
      }
    }

    method Peek() returns (found: bool, x: Entry)
      requires Valid()
      ensures found <==> Contents() != []
      ensures found ==> x == Contents()[0] && forall e :: e in Contents() ==> !Less(e, x)
    {
      x := Entry(0, 0);
      found := rear != -1;
      if found {
        x := data[front];
      }
    }
  }
}
