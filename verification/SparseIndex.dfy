/** The first-character index of a sorted file and the lookup through it (c1.c). */
module SparseIndex {
  import opened Wrappers
  import opened Records

  const INDEX_SIZE := 62

  /** Bytes of a line of a file. */
  const LINE_SIZE := 431

  const CHARSET := "0123456789" + "ABCDEFGHIJKLMNOPQRSTUVWXYZ" + "abcdefghijklmnopqrstuvwxyz"

  // ---------------------------------------------------------------- characters

  /** Position of the first `c`, or -1: `strchr`. */
  function IndexIn(s: string, c: char): (i: int)
    ensures -1 <= i < |s|
    ensures i >= 0 ==> s[i] == c
    ensures i == -1 ==> c !in s
  {
    if s == [] then -1
    else if s[0] == c then 0
    else
      var i := IndexIn(s[1..], c);
      if i == -1 then -1 else i + 1
  }

  /** `char_to_idx`, for any character but the terminator, which `strchr` would find at 62. */
  function CharToIdx(c: char): (i: int)
    ensures -1 <= i < INDEX_SIZE
  {
    if '0' <= c <= '9' then (c - '0') as int
    else if 'A' <= c <= 'Z' then 10 + (c - 'A') as int
    else if 'a' <= c <= 'z' then 36 + (c - 'a') as int
    else -1
  }

  /** `s` runs through consecutive characters from `first`. */
  ghost predicate Consecutive(s: string, first: char) {
    forall i :: 0 <= i < |s| ==> s[i] as int == first as int + i
  }

  lemma Runs()
    ensures Consecutive("0123456789", '0')
    ensures Consecutive("ABCDEFGHIJKLMNOPQRSTUVWXYZ", 'A')
    ensures Consecutive("abcdefghijklmnopqrstuvwxyz", 'a')
  {}

  /** `CharToIdx` is the position in the character set. */
  lemma CharToIdxIsPosition(c: char)
    ensures CharToIdx(c) == IndexIn(CHARSET, c)
  {
    var d, u, l := "0123456789", "ABCDEFGHIJKLMNOPQRSTUVWXYZ", "abcdefghijklmnopqrstuvwxyz";
    Runs();
    PositionInRuns(d, u, l, c);
  }

  lemma PositionInRuns(d: string, u: string, l: string, c: char)
    requires Consecutive(d, '0') && Consecutive(u, 'A') && Consecutive(l, 'a')
    requires |d| == 10 && |u| == 26 && |l| == 26
    ensures IndexIn(d + u + l, c) == CharToIdx(c)
  {
    var s, i, j := d + u + l, IndexIn(d + u + l, c), CharToIdx(c);
    assert forall k :: 0 <= k < 62 ==> s[k] == if k < 10 then d[k] else if k < 36 then u[k - 10] else l[k - 36];
    assert j >= 0 ==> s[j] == c;
  }

  predicate WellKeyed(k: string) {
    k != [] && CharToIdx(k[0]) >= 0
  }

  ghost predicate AllWellKeyed(s: seq<Record>) {
    forall i :: 0 <= i < |s| ==> WellKeyed(s[i].key)
  }

  /** The bucket of a key. */
  function Bucket(k: string): (c: nat)
    requires WellKeyed(k)
    ensures c < INDEX_SIZE
  {
    CharToIdx(k[0])
  }

  /** Buckets follow the `strcmp` order of keys. */
  lemma BucketMonotone(a: string, b: string)
    requires WellKeyed(a) && WellKeyed(b) && Lt(a, b)
    ensures Bucket(a) <= Bucket(b)
  {
  }

  // ---------------------------------------------------------------- the index

  /** The first line whose key falls into bucket `c`, or the number of lines. */
  function FirstLine(file: seq<Record>, c: int): (p: nat)
    requires AllWellKeyed(file)
    ensures p <= |file|
    ensures p < |file| ==> Bucket(file[p].key) == c
    ensures forall i :: 0 <= i < p ==> Bucket(file[i].key) != c
  {
    if file == [] || Bucket(file[0].key) == c then 0 else 1 + FirstLine(file[1..], c)
  }

  predicate Present(file: seq<Record>, c: int)
    requires AllWellKeyed(file)
  {
    FirstLine(file, c) < |file|
  }

  /** An entry after a rebuild.  The byte offset 0 is stored as -1; the entry of a bucket without a
      line keeps its old value, except that 0 becomes -1. */
  function RebuiltEntry(file: seq<Record>, prior: seq<int>, c: nat): int
    requires AllWellKeyed(file) && |prior| == INDEX_SIZE && c < INDEX_SIZE
  {
    var offset := Offset(file, prior, c);
    if offset == 0 then -1 else offset
  }

  function RebuiltIndex(file: seq<Record>, prior: seq<int>): (ix: seq<int>)
    requires AllWellKeyed(file) && |prior| == INDEX_SIZE
    ensures |ix| == INDEX_SIZE
  {
    seq(INDEX_SIZE, c requires 0 <= c < INDEX_SIZE => RebuiltEntry(file, prior, c))
  }

  /** The offset of the first line of a bucket, or the entry the bucket had. */
  function Offset(file: seq<Record>, prior: seq<int>, c: nat): int
    requires AllWellKeyed(file) && |prior| == INDEX_SIZE && c < INDEX_SIZE
  {
    if Present(file, c) then FirstLine(file, c) * LINE_SIZE else prior[c]
  }

  /** `update_sstable`: one pass over the file with a mask of the buckets seen, then zeros become -1. */
  method UpdateSstable(file: seq<Record>, ssindex: array<int>)
    requires AllWellKeyed(file) && ssindex.Length == INDEX_SIZE
    modifies ssindex
    ensures ssindex[..] == RebuiltIndex(file, old(ssindex[..]))
  {
    ghost var was := ssindex[..];
    RecordOffsets(file, ssindex);
    for i := 0 to INDEX_SIZE
      invariant forall c :: 0 <= c < i ==> ssindex[c] == RebuiltEntry(file, was, c)
      invariant forall c :: i <= c < INDEX_SIZE ==> ssindex[c] == Offset(file, was, c)
    {
      if ssindex[i] == 0 {
        ssindex[i] := -1;
      }
    }
  }

  /** Mask and offsets after the first `n` lines. */
  ghost predicate Recorded(file: seq<Record>, prior: seq<int>, n: nat, mask: seq<bool>, offsets: seq<int>)
    requires AllWellKeyed(file) && |prior| == INDEX_SIZE
  {
    && |mask| == |offsets| == INDEX_SIZE
    && forall c :: 0 <= c < INDEX_SIZE ==>
         var p := FirstLine(file, c); mask[c] == (p < n) && offsets[c] == if p < n then p * LINE_SIZE else prior[c]
  }

  /** A line is the first of its bucket, or changes nothing. */
  lemma RecordStep(file: seq<Record>, prior: seq<int>, n: nat, mask: seq<bool>, offsets: seq<int>, idx: nat)
    requires n < |file| && AllWellKeyed(file) && |prior| == INDEX_SIZE && Recorded(file, prior, n, mask, offsets)
    requires idx == Bucket(file[n].key) && idx < INDEX_SIZE
    ensures Recorded(file, prior, n + 1, mask[idx := true], if mask[idx] then offsets else offsets[idx := n * LINE_SIZE])
  {
    var first := FirstLine(file, idx);
    assert first <= n;
    assert !mask[idx] ==> first == n;
    forall c | 0 <= c < INDEX_SIZE && c != idx ensures FirstLine(file, c) != n {
      var p := FirstLine(file, c);
      assert p < |file| ==> Bucket(file[p].key) == c;
    }
  }

  method RecordFirst(boolmask: array<bool>, ssindex: array<int>, idx: nat, offset: int)
    requires idx < boolmask.Length && idx < ssindex.Length
    modifies boolmask, ssindex
    ensures boolmask[..] == old(boolmask[..])[idx := true]
    ensures ssindex[..] == if old(boolmask[..])[idx] then old(ssindex[..]) else old(ssindex[..])[idx := offset]
  {
    if !boolmask[idx] {
      ssindex[idx] := offset;
      boolmask[idx] := true;
    }
  }

  method RecordOffsets(file: seq<Record>, ssindex: array<int>)
    requires AllWellKeyed(file) && ssindex.Length == INDEX_SIZE
    modifies ssindex
    ensures forall c :: 0 <= c < INDEX_SIZE ==> ssindex[c] == Offset(file, old(ssindex[..]), c)
  {
    ghost var was := ssindex[..];
    var boolmask := new bool[INDEX_SIZE](_ => false);
    var pos := 0;
    while pos < |file|
      invariant pos <= |file| && Recorded(file, was, pos, boolmask[..], ssindex[..])
    {
      var idx := CharToIdx(file[pos].key[0]);
      RecordStep(file, was, pos, boolmask[..], ssindex[..], idx);
      RecordFirst(boolmask, ssindex, idx, pos * LINE_SIZE);
      pos := pos + 1;
    }
  }

  // ---------------------------------------------------------------- lookup

  /** `c1_search` over the lines `startline..endline`, both included. */
  function C1Search(file: seq<Record>, key: string, startline: int, endline: int): Option<string>
    requires 0 <= startline && endline < |file|
    decreases endline - startline
  {
    if endline >= startline then
      var mid := (endline - startline) / 2 + startline;
      var c := StrCmp(file[mid].key, key);
      if c == 0 then Some(file[mid].value)
      else if c > 0 then C1Search(file, key, startline, mid - 1)
      else C1Search(file, key, mid + 1, endline)
    else None
  }

  /** What a comparison with one line says about the rank of a key. */
  lemma ComparedWithRank(file: seq<Record>, key: string, mid: nat)
    requires Sorted(file) && mid < |file|
    ensures var c := StrCmp(file[mid].key, key);
      && (c == 0 ==> Rank(file, key) == mid && Find(file, key) == Some(file[mid]))
      && (c > 0 ==> Rank(file, key) <= mid && (Rank(file, key) == mid ==> Find(file, key).None?))
      && (c < 0 ==> Rank(file, key) > mid)
  {
    RankIs(file, key);
    StrCmpEqual(file[mid].key, key);
    if file[mid].key == key {
      FindIsLookup(file, key);
      KeyOrder();
      RankUnique(file, key, mid);
    }
  }

  lemma Middle(startline: int, endline: int)
    requires startline <= endline
    ensures startline <= (endline - startline) / 2 + startline <= endline
  {}

  /** Binary search finds the key exactly when its line is in the window. */
  lemma {:induction false} SearchIsFindInWindow(file: seq<Record>, key: string, startline: int, endline: int)
    requires Sorted(file) && 0 <= startline && endline < |file|
    ensures C1Search(file, key, startline, endline) ==
      if startline <= Rank(file, key) <= endline then ValueOf(Find(file, key)) else None
    decreases endline - startline
  {
    if endline >= startline {
      var mid := (endline - startline) / 2 + startline;
      Middle(startline, endline);
      ComparedWithRank(file, key, mid);
      if StrCmp(file[mid].key, key) > 0 {
        SearchIsFindInWindow(file, key, startline, mid - 1);
      } else if StrCmp(file[mid].key, key) < 0 {
        SearchIsFindInWindow(file, key, mid + 1, endline);
      }
    }
  }

  /** C's division, which truncates toward zero. */
  function TruncDiv(a: int, b: int): int
    requires b > 0
  {
    if a >= 0 then a / b else -((-a) / b)
  }

  /** Division as in C: the remainder is smaller than the divisor and has the sign of the dividend. */
  lemma TruncDivRemainder(a: int, b: int) returns (r: int)
    requires b > 0
    ensures a == TruncDiv(a, b) * b + r && -b < r < b && (a >= 0 ==> r >= 0) && (a <= 0 ==> r <= 0)
  {
    r := if a >= 0 then a % b else -((-a) % b);
    if a < 0 {
      assert -a == (-a) / b * b + (-a) % b;
    }
  }

  /** Entry `c` of the index; entry 62 lies outside the array, where `beyond` happens to be. */
  function EntryAt(ssindex: seq<int>, beyond: int, c: nat): int
    requires |ssindex| == INDEX_SIZE && c <= INDEX_SIZE
  {
    if c < INDEX_SIZE then ssindex[c] else beyond
  }

  /** An index as the rebuilds leave it, starting from zeroed memory. */
  predicate ValidIndex(ssindex: seq<int>) {
    |ssindex| == INDEX_SIZE && forall c :: 0 <= c < |ssindex| ==> ssindex[c] >= -1
  }

  function StartLine(ssindex: seq<int>, c: nat): (l: nat)
    requires ValidIndex(ssindex) && c < INDEX_SIZE
  {
    if ssindex[c] == -1 then 0 else TruncDiv(ssindex[c], LINE_SIZE)
  }

  function EndLine(ssindex: seq<int>, beyond: int, c: nat, numlines: nat): (e: int)
    requires |ssindex| == INDEX_SIZE && c < INDEX_SIZE
    ensures e <= numlines
  {
    var next := EntryAt(ssindex, beyond, c + 1);
    var e := if next == -1 then numlines else TruncDiv(next, LINE_SIZE);
    if e > numlines then numlines else e
  }

  lemma RebuiltIsValid(file: seq<Record>, prior: seq<int>)
    requires AllWellKeyed(file) && ValidIndex(prior)
    ensures ValidIndex(RebuiltIndex(file, prior))
  {}

  function C1Get(file: seq<Record>, ssindex: seq<int>, beyond: int, key: string): Option<string>
    requires ValidIndex(ssindex) && WellKeyed(key)
  {
    var c := Bucket(key);
    C1Search(file, key, StartLine(ssindex, c), EndLine(ssindex, beyond, c, |file|) - 1)
  }

  /** The end of the lines of bucket `c`. */
  function BucketEnd(file: seq<Record>, c: int): (e: nat)
    requires AllWellKeyed(file)
    ensures e <= |file|
    ensures forall i :: e <= i < |file| ==> Bucket(file[i].key) != c
    ensures e > 0 ==> Bucket(file[e - 1].key) == c
  {
    if file == [] || Bucket(file[|file| - 1].key) == c then |file| else BucketEnd(file[..|file| - 1], c)
  }

  /** The entry after a bucket does not cut its lines off: it is unset, or points behind them. */
  predicate ClosesBucket(file: seq<Record>, next: int, c: int)
    requires AllWellKeyed(file)
  {
    next == -1 || TruncDiv(next, LINE_SIZE) >= BucketEnd(file, c)
  }

  lemma BucketsInOrder(file: seq<Record>, i: nat, j: nat)
    requires Sorted(file) && AllWellKeyed(file) && i <= j < |file|
    ensures Bucket(file[i].key) <= Bucket(file[j].key)
  {
    if i < j {
      BucketMonotone(file[i].key, file[j].key);
    }
  }

  lemma StartIsBucketStart(file: seq<Record>, prior: seq<int>, c: nat)
    requires AllWellKeyed(file) && ValidIndex(prior) && c < INDEX_SIZE && Present(file, c)
    ensures ValidIndex(RebuiltIndex(file, prior)) && StartLine(RebuiltIndex(file, prior), c) == FirstLine(file, c)
  {}

  lemma EntryIsLine(file: seq<Record>, prior: seq<int>, c: nat)
    requires AllWellKeyed(file) && ValidIndex(prior) && c < INDEX_SIZE && Present(file, c)
    ensures var entry := RebuiltEntry(file, prior, c); entry == -1 || TruncDiv(entry, LINE_SIZE) == FirstLine(file, c)
  {}

  /** Where the next bucket has lines, its entry is where this bucket ends. */
  lemma NextBucketCloses(file: seq<Record>, prior: seq<int>, beyond: int, c: nat)
    requires Sorted(file) && AllWellKeyed(file) && ValidIndex(prior)
    requires c + 1 < INDEX_SIZE && Present(file, c) && Present(file, c + 1)
    ensures ClosesBucket(file, EntryAt(RebuiltIndex(file, prior), beyond, c + 1), c)
  {
    NextStartsBehind(file, c);
    EntryIsLine(file, prior, c + 1);
    assert EntryAt(RebuiltIndex(file, prior), beyond, c + 1) == RebuiltEntry(file, prior, c + 1);
  }

  lemma NextStartsBehind(file: seq<Record>, c: nat)
    requires Sorted(file) && AllWellKeyed(file) && Present(file, c + 1)
    ensures FirstLine(file, c + 1) >= BucketEnd(file, c)
  {
    var p, e := FirstLine(file, c + 1), BucketEnd(file, c);
    assert Bucket(file[p].key) == c + 1;
    if p < e {
      BucketsInOrder(file, p, e - 1);
      assert false;
    }
  }

  /** Lookup of one key: right exactly when the key is absent or in front of the end line. */
  lemma GetInBucket(file: seq<Record>, prior: seq<int>, beyond: int, key: string)
    requires Sorted(file) && AllWellKeyed(file) && ValidIndex(prior) && WellKeyed(key)
    requires ValidIndex(RebuiltIndex(file, prior))
    ensures var ix := RebuiltIndex(file, prior);
      C1Get(file, ix, beyond, key) ==
      if Rank(file, key) < EndLine(ix, beyond, Bucket(key), |file|) then ValueOf(Find(file, key)) else None
  {
    if Find(file, key).Some? {
      StartsInFront(file, prior, key);
    }
    GetInWindow(file, RebuiltIndex(file, prior), beyond, key);
  }

  lemma GetIsSearch(file: seq<Record>, ix: seq<int>, beyond: int, key: string, s: nat, e: int)
    requires ValidIndex(ix) && WellKeyed(key) && s == StartLine(ix, Bucket(key)) && e == EndLine(ix, beyond, Bucket(key), |file|)
    ensures C1Get(file, ix, beyond, key) == C1Search(file, key, s, e - 1)
  {}

  lemma GetInWindow(file: seq<Record>, ix: seq<int>, beyond: int, key: string)
    requires Sorted(file) && ValidIndex(ix) && WellKeyed(key)
    requires Find(file, key).Some? ==> StartLine(ix, Bucket(key)) <= Rank(file, key)
    ensures C1Get(file, ix, beyond, key) ==
      if Rank(file, key) < EndLine(ix, beyond, Bucket(key), |file|) then ValueOf(Find(file, key)) else None
  {
    GetBetween(file, ix, beyond, key, StartLine(ix, Bucket(key)), EndLine(ix, beyond, Bucket(key), |file|));
  }

  lemma GetBetween(file: seq<Record>, ix: seq<int>, beyond: int, key: string, s: nat, e: int)
    requires Sorted(file) && ValidIndex(ix) && WellKeyed(key) && e <= |file|
    requires s == StartLine(ix, Bucket(key)) && e == EndLine(ix, beyond, Bucket(key), |file|)
    requires Find(file, key).Some? ==> s <= Rank(file, key)
    ensures C1Get(file, ix, beyond, key) == if Rank(file, key) < e then ValueOf(Find(file, key)) else None
  {
    GetIsSearch(file, ix, beyond, key, s, e);
    SearchFromStart(file, key, s, e);
  }

  lemma SearchFromStart(file: seq<Record>, key: string, s: nat, e: int)
    requires Sorted(file) && e <= |file| && (Find(file, key).Some? ==> s <= Rank(file, key))
    ensures C1Search(file, key, s, e - 1) == if Rank(file, key) < e then ValueOf(Find(file, key)) else None
  {
    SearchIsFindInWindow(file, key, s, e - 1);
  }

  lemma StartsInFront(file: seq<Record>, prior: seq<int>, key: string)
    requires AllWellKeyed(file) && ValidIndex(prior) && WellKeyed(key) && Find(file, key).Some?
    ensures ValidIndex(RebuiltIndex(file, prior)) && StartLine(RebuiltIndex(file, prior), Bucket(key)) <= Rank(file, key)
  {
    var p, c := Rank(file, key), Bucket(key);
    assert file[p].key == key;
    assert FirstLine(file, c) <= p;
    StartIsBucketStart(file, prior, c);
  }

  /** No stale entry cuts a bucket short.  Entry 62 is never written. */
  ghost predicate NothingCutShort(file: seq<Record>, prior: seq<int>, beyond: int)
    requires AllWellKeyed(file) && |prior| == INDEX_SIZE
  {
    forall c {:trigger Present(file, c)} :: 0 <= c < INDEX_SIZE && Present(file, c) ==>
      (c + 1 < INDEX_SIZE && (Present(file, c + 1) || prior[c + 1] == 0)) || ClosesBucket(file, EntryAt(prior, beyond, c + 1), c)
  }

  /** The lookup agrees with a linear scan on every key exactly when, for every bucket with lines
      whose successor bucket has none, the successor's entry left from earlier files is unset or
      points behind the bucket. */
  lemma IndexAgreesWithScanIff(file: seq<Record>, prior: seq<int>, beyond: int)
    requires Sorted(file) && AllWellKeyed(file) && ValidIndex(prior)
    requires ValidIndex(RebuiltIndex(file, prior))
    ensures (forall key :: WellKeyed(key) ==> C1Get(file, RebuiltIndex(file, prior), beyond, key) == ValueOf(Find(file, key)))
      <==> NothingCutShort(file, prior, beyond)
  {
    var ix := RebuiltIndex(file, prior);
    if NothingCutShort(file, prior, beyond) {
      forall key | WellKeyed(key) ensures C1Get(file, ix, beyond, key) == ValueOf(Find(file, key)) {
        NothingCutShortIsEnough(file, prior, beyond, key);
      }
    } else {
      var c :| 0 <= c < INDEX_SIZE && Present(file, c) &&
        !((c + 1 < INDEX_SIZE && (Present(file, c + 1) || prior[c + 1] == 0)) || ClosesBucket(file, EntryAt(prior, beyond, c + 1), c));
      CutShortLosesLast(file, prior, beyond, c);
    }
  }

  lemma NothingCutShortIsEnough(file: seq<Record>, prior: seq<int>, beyond: int, key: string)
    requires Sorted(file) && AllWellKeyed(file) && ValidIndex(prior) && WellKeyed(key)
    requires ValidIndex(RebuiltIndex(file, prior)) && NothingCutShort(file, prior, beyond)
    ensures C1Get(file, RebuiltIndex(file, prior), beyond, key) == ValueOf(Find(file, key))
  {
    var ix, c := RebuiltIndex(file, prior), Bucket(key);
    GetInBucket(file, prior, beyond, key);
    if Find(file, key).Some? {
      LineInBucket(file, key);
      BucketIsClosed(file, prior, beyond, c);
      ClosedEndsBehind(file, ix, beyond, c);
    }
  }

  lemma LineInBucket(file: seq<Record>, key: string)
    requires AllWellKeyed(file) && WellKeyed(key) && Find(file, key).Some?
    ensures Present(file, Bucket(key)) && Rank(file, key) < BucketEnd(file, Bucket(key))
  {
    var p := Rank(file, key);
    assert file[p].key == key;
    assert FirstLine(file, Bucket(key)) <= p;
  }

  lemma BucketIsClosed(file: seq<Record>, prior: seq<int>, beyond: int, c: nat)
    requires Sorted(file) && AllWellKeyed(file) && ValidIndex(prior)
    requires NothingCutShort(file, prior, beyond) && c < INDEX_SIZE && Present(file, c)
    ensures ClosesBucket(file, EntryAt(RebuiltIndex(file, prior), beyond, c + 1), c)
  {
    if c + 1 < INDEX_SIZE && Present(file, c + 1) {
      NextBucketCloses(file, prior, beyond, c);
    }
  }

  lemma ClosedEndsBehind(file: seq<Record>, ix: seq<int>, beyond: int, c: nat)
    requires AllWellKeyed(file) && |ix| == INDEX_SIZE && c < INDEX_SIZE
    requires ClosesBucket(file, EntryAt(ix, beyond, c + 1), c)
    ensures BucketEnd(file, c) <= EndLine(ix, beyond, c, |file|)
  {}

  lemma RankOfLine(file: seq<Record>, p: nat)
    requires Sorted(file) && p < |file|
    ensures Rank(file, file[p].key) == p && Find(file, file[p].key) == Some(file[p])
  {
    KeyOrder();
    RankUnique(file, file[p].key, p);
  }

  lemma CutShortEnds(file: seq<Record>, prior: seq<int>, beyond: int, c: nat)
    requires AllWellKeyed(file) && ValidIndex(prior) && ValidIndex(RebuiltIndex(file, prior))
    requires c < INDEX_SIZE && (c + 1 == INDEX_SIZE || (!Present(file, c + 1) && prior[c + 1] != 0))
    requires !ClosesBucket(file, EntryAt(prior, beyond, c + 1), c)
    ensures EndLine(RebuiltIndex(file, prior), beyond, c, |file|) < BucketEnd(file, c)
  {
    assert EntryAt(RebuiltIndex(file, prior), beyond, c + 1) == EntryAt(prior, beyond, c + 1);
  }

  /** The last line of a bucket that is cut short is not found. */
  lemma CutShortLosesLast(file: seq<Record>, prior: seq<int>, beyond: int, c: nat)
    requires Sorted(file) && AllWellKeyed(file) && ValidIndex(prior) && ValidIndex(RebuiltIndex(file, prior))
    requires c < INDEX_SIZE && Present(file, c) && (c + 1 == INDEX_SIZE || (!Present(file, c + 1) && prior[c + 1] != 0))
    requires !ClosesBucket(file, EntryAt(prior, beyond, c + 1), c)
    ensures exists key :: WellKeyed(key) && C1Get(file, RebuiltIndex(file, prior), beyond, key) != ValueOf(Find(file, key))
  {
    var e := BucketEnd(file, c);
    PresentEnds(file, c);
    CutShortEnds(file, prior, beyond, c);
    LineBehindEndIsLost(file, prior, beyond, e - 1);
  }

  lemma PresentEnds(file: seq<Record>, c: nat)
    requires AllWellKeyed(file) && Present(file, c)
    ensures BucketEnd(file, c) > 0 && Bucket(file[BucketEnd(file, c) - 1].key) == c
  {
    assert Bucket(file[FirstLine(file, c)].key) == c;
  }

  lemma LineBehindEndIsLost(file: seq<Record>, prior: seq<int>, beyond: int, p: nat)
    requires Sorted(file) && AllWellKeyed(file) && ValidIndex(prior) && ValidIndex(RebuiltIndex(file, prior)) && p < |file|
    requires p >= EndLine(RebuiltIndex(file, prior), beyond, Bucket(file[p].key), |file|)
    ensures WellKeyed(file[p].key)
    ensures C1Get(file, RebuiltIndex(file, prior), beyond, file[p].key) != ValueOf(Find(file, file[p].key))
  {
    RankOfLine(file, p);
    GetInBucket(file, prior, beyond, file[p].key);
  }

  // ---------------------------------------------------------------- histories of rebuilds

  /** Every bucket without a line has no entry. */
  ghost predicate Fresh(file: seq<Record>, ssindex: seq<int>)
    requires AllWellKeyed(file) && |ssindex| == INDEX_SIZE
  {
    forall c :: 0 <= c < INDEX_SIZE && !Present(file, c) ==> ssindex[c] in {0, -1}
  }

  ghost predicate KeepsBuckets(prior: seq<Record>, next: seq<Record>)
    requires AllWellKeyed(prior) && AllWellKeyed(next)
  {
    forall c :: 0 <= c < INDEX_SIZE && Present(prior, c) ==> Present(next, c)
  }

  /** As long as no bucket disappears the index stays fresh, and with -1 behind its end every lookup
      agrees with the scan. */
  lemma FreshIndexAgrees(file: seq<Record>, next: seq<Record>, ssindex: seq<int>)
    requires AllWellKeyed(file) && AllWellKeyed(next) && Sorted(next) && ValidIndex(ssindex)
    requires Fresh(file, ssindex) && KeepsBuckets(file, next)
    ensures Fresh(next, RebuiltIndex(next, ssindex)) && ValidIndex(RebuiltIndex(next, ssindex))
    ensures forall key :: WellKeyed(key) ==> C1Get(next, RebuiltIndex(next, ssindex), -1, key) == ValueOf(Find(next, key))
  {
    RebuiltIsValid(next, ssindex);
    assert NothingCutShort(next, ssindex, -1);
    IndexAgreesWithScanIff(next, ssindex, -1);
  }
}
