/** Keys, their `strcmp` order, and sorted sequences of records: the common ground of the memtable
    and the sorted files. */
module Records {
  import opened Wrappers

  /** One entry of the store; `flag` is 0 for a live entry, as in c1.h. */
  datatype Record = Record(key: string, value: string, flag: int)

  /** The sign of C's `strcmp`. */
  function StrCmp(a: string, b: string): int {
    if a == [] then if b == [] then 0 else -1
    else if b == [] then 1
    else if a[0] < b[0] then -1
    else if a[0] > b[0] then 1
    else StrCmp(a[1..], b[1..])
  }

  predicate Lt(a: string, b: string) {
    StrCmp(a, b) < 0
  }

  lemma {:induction false} StrCmpEqual(a: string, b: string)
    ensures StrCmp(a, b) == 0 <==> a == b
  {
    if a != [] && b != [] {
      StrCmpEqual(a[1..], b[1..]);
      assert a == [a[0]] + a[1..] && b == [b[0]] + b[1..];
    }
  }

  lemma {:induction false} StrCmpFlip(a: string, b: string)
    ensures StrCmp(a, b) == -StrCmp(b, a)
  {
    if a != [] && b != [] {
      StrCmpFlip(a[1..], b[1..]);
    }
  }

  lemma {:induction false} LtTransitive(a: string, b: string, c: string)
    requires Lt(a, b) && Lt(b, c)
    ensures Lt(a, c)
  {
    if a != [] && a[0] == b[0] && b[0] == c[0] {
      LtTransitive(a[1..], b[1..], c[1..]);
    }
  }

  /** `Lt` is a strict total order, and `StrCmp` decides it. */
  lemma KeyOrder()
    ensures forall a, b :: StrCmp(a, b) == 0 <==> a == b
    ensures forall a, b :: StrCmp(a, b) > 0 <==> Lt(b, a)
    ensures forall a, b :: Lt(a, b) ==> !Lt(b, a) && a != b
    ensures forall a, b, c :: Lt(a, b) && Lt(b, c) ==> Lt(a, c)
  {
    forall a, b ensures StrCmp(a, b) == 0 <==> a == b { StrCmpEqual(a, b); }
    forall a, b ensures StrCmp(a, b) == -StrCmp(b, a) { StrCmpFlip(a, b); }
    forall a, b, c | Lt(a, b) && Lt(b, c) ensures Lt(a, c) { LtTransitive(a, b, c); }
  }

  /** At `p` the strings part: there `a` ends, or has the smaller character. */
  ghost predicate PartsBelow(a: string, b: string, p: nat) {
    p <= |a| && p < |b| && a[..p] == b[..p] && (p == |a| || a[p] < b[p])
  }

  lemma {:induction false} LtParts(a: string, b: string) returns (p: nat)
    requires Lt(a, b)
    ensures PartsBelow(a, b, p)
  {
    p := 0;
    if a != [] && a[0] == b[0] {
      var q := LtParts(a[1..], b[1..]);
      p := q + 1;
      assert a[..p] == [a[0]] + a[1..][..q] && b[..p] == [b[0]] + b[1..][..q];
    }
  }

  lemma {:induction false} PartsLt(a: string, b: string, p: nat)
    requires PartsBelow(a, b, p)
    ensures Lt(a, b)
  {
    if p > 0 {
      assert a[0] == a[..p][0] && b[0] == b[..p][0];
      assert a[1..][..p - 1] == a[..p][1..] && b[1..][..p - 1] == b[..p][1..];
      PartsLt(a[1..], b[1..], p - 1);
    }
  }

  /** The order is lexicographic: behind a common prefix the first string ends, or has the smaller
      character. */
  lemma LtIsLexicographic(a: string, b: string)
    ensures Lt(a, b) <==> exists p: nat :: PartsBelow(a, b, p)
  {
    if Lt(a, b) {
      var p := LtParts(a, b);
    }
    if p: nat :| PartsBelow(a, b, p) {
      PartsLt(a, b, p);
    }
  }

  ghost predicate Sorted(s: seq<Record>) {
    forall i, j :: 0 <= i < j < |s| ==> Lt(s[i].key, s[j].key)
  }

  ghost predicate HasKey(s: seq<Record>, k: string) {
    exists i :: 0 <= i < |s| && s[i].key == k
  }

  /** Number of records in front of where `k` belongs. */
  function Rank(s: seq<Record>, k: string): (p: nat)
    ensures p <= |s|
  {
    if s == [] then 0
    else if Lt(s[0].key, k) then 1 + Rank(s[1..], k)
    else 0
  }

  /** Adds a record unless its key is there already. */
  function PutIfAbsent(s: seq<Record>, r: Record): seq<Record> {
    var p := Rank(s, r.key);
    if p < |s| && s[p].key == r.key then s else s[..p] + [r] + s[p..]
  }

  /** Removes the record of a key, if any. */
  function Without(s: seq<Record>, k: string): seq<Record> {
    var p := Rank(s, k);
    if p < |s| && s[p].key == k then s[..p] + s[p + 1..] else s
  }

  /** The record of a key in a sorted sequence. */
  function Find(s: seq<Record>, k: string): (r: Option<Record>) {
    var p := Rank(s, k);
    if p < |s| && s[p].key == k then Some(s[p]) else None
  }

  function ValueOf(r: Option<Record>): Option<string> {
    if r.Some? then Some(r.value.value) else None
  }

  ghost predicate IsRank(s: seq<Record>, k: string, p: nat) {
    && p <= |s|
    && (forall i :: 0 <= i < p ==> Lt(s[i].key, k))
    && (forall i :: p <= i < |s| ==> !Lt(s[i].key, k))
  }

  lemma {:induction false} RankIs(s: seq<Record>, k: string)
    requires Sorted(s)
    ensures IsRank(s, k, Rank(s, k))
  {
    if s != [] {
      KeyOrder();
      RankIs(s[1..], k);
      forall i | Rank(s, k) <= i < |s| ensures !Lt(s[i].key, k) {
        if i > 0 && Lt(s[0].key, k) {
          assert s[i] == s[1..][i - 1];
        }
      }
    }
  }

  lemma {:induction false} RankUnique(s: seq<Record>, k: string, p: nat)
    requires IsRank(s, k, p)
    ensures Rank(s, k) == p
  {
    if s != [] {
      if Lt(s[0].key, k) {
        assert p > 0;
        RankUnique(s[1..], k, p - 1);
      } else {
        assert p == 0;
      }
    }
  }

  /** A key is in a sorted sequence exactly when it sits at its rank. */
  lemma FindIsLookup(s: seq<Record>, k: string)
    requires Sorted(s)
    ensures Find(s, k).Some? <==> HasKey(s, k)
    ensures forall i :: 0 <= i < |s| && s[i].key == k ==> Find(s, k) == Some(s[i])
    ensures Find(s, k).Some? ==> Find(s, k).value in s && Find(s, k).value.key == k
  {
    RankIs(s, k);
    KeyOrder();
    forall i | 0 <= i < |s| && s[i].key == k ensures Find(s, k) == Some(s[i]) {
      RankUnique(s, k, i);
    }
  }

  lemma IsRankLeft(a: seq<Record>, x: Record, b: seq<Record>, k: string, p: nat)
    requires IsRank(a, k, p) && Lt(k, x.key) && forall j :: 0 <= j < |b| ==> Lt(x.key, b[j].key)
    ensures IsRank(a + [x] + b, k, p)
  {
    var s := a + [x] + b;
    assert forall i :: 0 <= i < p ==> s[i] == a[i];
    forall i | p <= i < |s| ensures !Lt(s[i].key, k) {
      KeyOrder();
      assert s[i] == if i < |a| then a[i] else if i == |a| then x else b[i - |a| - 1];
    }
  }

  lemma IsRankRight(a: seq<Record>, x: Record, b: seq<Record>, k: string, p: nat)
    requires IsRank(b, k, p) && Lt(x.key, k) && forall i :: 0 <= i < |a| ==> Lt(a[i].key, x.key)
    ensures IsRank(a + [x] + b, k, |a| + 1 + p)
  {
    var s := a + [x] + b;
    assert forall i :: |a| < i < |s| ==> s[i] == b[i - |a| - 1];
    forall i | 0 <= i < |a| + 1 + p ensures Lt(s[i].key, k) {
      KeyOrder();
      assert s[i] == if i < |a| then a[i] else if i == |a| then x else b[i - |a| - 1];
    }
  }

  lemma IsRankHere(a: seq<Record>, x: Record, b: seq<Record>)
    requires forall i :: 0 <= i < |a| ==> Lt(a[i].key, x.key)
    requires forall j :: 0 <= j < |b| ==> Lt(x.key, b[j].key)
    ensures IsRank(a + [x] + b, x.key, |a|)
  {
    var s := a + [x] + b;
    assert forall i :: 0 <= i < |a| ==> s[i] == a[i];
    forall i | |a| <= i < |s| ensures !Lt(s[i].key, x.key) {
      KeyOrder();
      assert s[i] == if i == |a| then x else b[i - |a| - 1];
    }
  }

  /** Around a middle record, the rank of a key is found on one side of it. */
  lemma RankAround(a: seq<Record>, x: Record, b: seq<Record>, k: string)
    requires Sorted(a + [x] + b)
    ensures Sorted(a) && Sorted(b)
    ensures Lt(k, x.key) ==> Rank(a + [x] + b, k) == Rank(a, k)
    ensures k == x.key ==> Rank(a + [x] + b, k) == |a|
    ensures Lt(x.key, k) ==> Rank(a + [x] + b, k) == |a| + 1 + Rank(b, k)
  {
    var s := a + [x] + b;
    SortedParts(a, x, b);
    RankIs(a, k);
    RankIs(b, k);
    if Lt(k, x.key) {
      IsRankLeft(a, x, b, k, Rank(a, k));
      RankUnique(s, k, Rank(a, k));
    }
    if k == x.key {
      IsRankHere(a, x, b);
      RankUnique(s, k, |a|);
    }
    if Lt(x.key, k) {
      IsRankRight(a, x, b, k, Rank(b, k));
      RankUnique(s, k, |a| + 1 + Rank(b, k));
    }
  }

  lemma SortedParts(a: seq<Record>, x: Record, b: seq<Record>)
    requires Sorted(a + [x] + b)
    ensures Sorted(a) && Sorted(b)
    ensures forall i :: 0 <= i < |a| ==> Lt(a[i].key, x.key)
    ensures forall j :: 0 <= j < |b| ==> Lt(x.key, b[j].key)
  {
    var s := a + [x] + b;
    assert forall i :: 0 <= i < |a| ==> s[i] == a[i];
    assert s[|a|] == x;
    assert forall j :: 0 <= j < |b| ==> s[|a| + 1 + j] == b[j];
  }

  lemma SortedWhole(a: seq<Record>, x: Record, b: seq<Record>)
    requires Sorted(a) && Sorted(b)
    requires forall i :: 0 <= i < |a| ==> Lt(a[i].key, x.key)
    requires forall j :: 0 <= j < |b| ==> Lt(x.key, b[j].key)
    ensures Sorted(a + [x] + b)
  {
    KeyOrder();
    var s := a + [x] + b;
    forall i, j | 0 <= i < j < |s| ensures Lt(s[i].key, s[j].key) {
      assert i < |a| ==> s[i] == a[i];
      assert j > |a| ==> s[j] == b[j - |a| - 1];
      assert i > |a| ==> s[i] == b[i - |a| - 1];
      assert j < |a| ==> s[j] == a[j];
    }
  }

  // ---------------------------------------------------------------- what Put and Without mean

  lemma SplitRight<T>(u: seq<T>, b: seq<T>, p: nat)
    requires p <= |b|
    ensures (u + b)[..|u| + p] == u + b[..p]
    ensures (u + b)[|u| + p..] == b[p..]
    ensures p < |b| ==> (u + b)[|u| + p] == b[p]
  {}

  lemma PutLeft(a: seq<Record>, x: Record, b: seq<Record>, r: Record)
    requires Sorted(a + [x] + b) && Lt(r.key, x.key)
    ensures PutIfAbsent(a + [x] + b, r) == PutIfAbsent(a, r) + [x] + b
  {
    var s, p := a + [x] + b, Rank(a, r.key);
    RankAround(a, x, b, r.key);
    StrCmpEqual(r.key, x.key);
    assert s[..p] == a[..p] && s[p..] == a[p..] + [x] + b;
    assert s[p] == if p < |a| then a[p] else x;
  }

  lemma PutHere(a: seq<Record>, x: Record, b: seq<Record>, r: Record)
    requires Sorted(a + [x] + b) && r.key == x.key
    ensures PutIfAbsent(a + [x] + b, r) == a + [x] + b
  {
    RankAround(a, x, b, r.key);
    assert (a + [x] + b)[|a|] == x;
  }

  lemma PutAtRank(s: seq<Record>, r: Record, p: nat)
    requires p == Rank(s, r.key)
    ensures PutIfAbsent(s, r) == if p < |s| && s[p].key == r.key then s else s[..p] + [r] + s[p..]
  {}

  lemma InsertRight<T>(u: seq<T>, b: seq<T>, r: T, p: nat)
    requires p <= |b|
    ensures (u + b)[..|u| + p] + [r] + (u + b)[|u| + p..] == u + (b[..p] + [r] + b[p..])
    ensures p < |b| ==> (u + b)[|u| + p] == b[p]
  {}

  lemma PutBehind(u: seq<Record>, b: seq<Record>, r: Record, p: nat)
    requires p <= |b| && p == Rank(b, r.key) && |u| + p == Rank(u + b, r.key)
    ensures PutIfAbsent(u + b, r) == u + PutIfAbsent(b, r)
  {
    PutAtRank(b, r, p);
    PutAtRank(u + b, r, |u| + p);
    InsertRight(u, b, r, p);
  }

  lemma PutRight(a: seq<Record>, x: Record, b: seq<Record>, r: Record)
    requires Sorted(a + [x] + b) && Lt(x.key, r.key)
    ensures PutIfAbsent(a + [x] + b, r) == a + [x] + PutIfAbsent(b, r)
  {
    RankAround(a, x, b, r.key);
    PutBehind(a + [x], b, r, Rank(b, r.key));
  }

  lemma PutKeepsSorted(s: seq<Record>, r: Record)
    requires Sorted(s)
    ensures Sorted(PutIfAbsent(s, r))
  {
    var p := Rank(s, r.key);
    RankIs(s, r.key);
    KeyOrder();
    if !(p < |s| && s[p].key == r.key) {
      forall j | 0 <= j < |s[p..]| ensures Lt(r.key, s[p..][j].key) {
        assert !Lt(s[p + j].key, r.key);
        assert j > 0 ==> Lt(s[p].key, s[p + j].key);
        StrCmpEqual(r.key, s[p].key);
        StrCmpFlip(r.key, s[p].key);
      }
      SortedWhole(s[..p], r, s[p..]);
    }
  }

  lemma WithoutKeepsSorted(s: seq<Record>, k: string)
    requires Sorted(s)
    ensures Sorted(Without(s, k))
  {}

  lemma InsertedAt<T>(s: seq<T>, p: nat, r: T)
    requires p <= |s|
    ensures var t := s[..p] + [r] + s[p..];
      && t[p] == r
      && (forall i :: 0 <= i < p ==> t[i] == s[i])
      && (forall i :: p <= i < |s| ==> t[i + 1] == s[i])
      && (forall j :: p < j < |t| ==> t[j] == s[j - 1])
  {}

  lemma PutElement(s: seq<Record>, r: Record, i: nat)
    requires i < |PutIfAbsent(s, r)|
    ensures PutIfAbsent(s, r)[i] in s || PutIfAbsent(s, r)[i] == r
  {
    var p := Rank(s, r.key);
    InsertedAt(s, p, r);
  }

  /** Insertion adds exactly its own record, and only when the key is new. */
  lemma PutMeaning(s: seq<Record>, r: Record, k: string)
    requires Sorted(s)
    ensures Find(PutIfAbsent(s, r), k) ==
      if k == r.key && Find(s, k).None? then Some(r) else Find(s, k)
  {
    var t, p := PutIfAbsent(s, r), Rank(s, r.key);
    PutKeepsSorted(s, r);
    FindIsLookup(s, k);
    FindIsLookup(t, k);
    FindIsLookup(s, r.key);
    if t != s {
      InsertedAt(s, p, r);
      if k == r.key {
        assert t[p].key == k;
      } else if HasKey(s, k) {
        var i :| 0 <= i < |s| && s[i].key == k;
        assert t[if i < p then i else i + 1] == s[i];
      }
    }
  }

  lemma RemovedAt<T>(s: seq<T>, p: nat)
    requires p < |s|
    ensures var t := s[..p] + s[p + 1..];
      && (forall i :: 0 <= i < p ==> t[i] == s[i])
      && (forall i :: p < i < |s| ==> t[i - 1] == s[i])
      && (forall j :: p <= j < |t| ==> t[j] == s[j + 1])
  {}

  lemma SortedIsDistinct(s: seq<Record>, i: nat, j: nat)
    requires Sorted(s) && i < |s| && j < |s| && i != j
    ensures s[i].key != s[j].key
  {
    StrCmpEqual(s[i].key, s[j].key);
    StrCmpFlip(s[i].key, s[j].key);
  }

  lemma RemovedMembers(s: seq<Record>, p: nat, r: Record)
    requires Sorted(s) && p < |s|
    ensures r in s[..p] + s[p + 1..] <==> r in s && r.key != s[p].key
  {
    var t := s[..p] + s[p + 1..];
    RemovedAt(s, p);
    if r in t {
      var j :| 0 <= j < |t| && t[j] == r;
      SortedIsDistinct(s, p, if j < p then j else j + 1);
    }
    if r in s && r.key != s[p].key {
      var i :| 0 <= i < |s| && s[i] == r;
      assert t[if i < p then i else i - 1] == r;
    }
  }

  lemma WithoutMembers(s: seq<Record>, k: string, r: Record)
    requires Sorted(s)
    ensures r in Without(s, k) <==> r in s && r.key != k
  {
    var p := Rank(s, k);
    FindIsLookup(s, k);
    if p < |s| && s[p].key == k {
      RemovedMembers(s, p, r);
    }
  }

  /** Removal removes exactly the given key. */
  lemma WithoutMeaning(s: seq<Record>, k: string, q: string)
    requires Sorted(s)
    ensures Find(Without(s, k), q) == if q == k then None else Find(s, q)
  {
    WithoutKeepsSorted(s, k);
    FindIsLookup(s, q);
    FindIsLookup(Without(s, k), q);
    if Find(s, q).Some? {
      WithoutMembers(s, k, Find(s, q).value);
    }
    if Find(Without(s, k), q).Some? {
      WithoutMembers(s, k, Find(Without(s, k), q).value);
    }
  }
}
