/** Flushing the memtable into numbered sorted files (`c0_dump`, `c1_batch_insert`). */
module Generations {
  import opened Wrappers
  import opened Records
  import opened Merge
  import opened SparseIndex
  import opened Avl
  import opened Memtable

  /** The database directory and the metadata: the last file number used, the files by number, and
      the index of the current file. */
  datatype Disk = Disk(counter: int, files: map<int, seq<Line>>, index: seq<int>)

  /** The first run ever: no file, zeroed index. */
  function EmptyDisk(): Disk {
    Disk(-1, map[], seq(INDEX_SIZE, _ => 0))
  }

  /** The records of a file without blank lines. */
  function Recs(lines: seq<Line>): seq<Record>
    requires Blank !in lines
  {
    seq(|lines|, i requires 0 <= i < |lines| => assert lines[i] != Blank; lines[i].rec)
  }

  lemma RecsOfLines(s: seq<Record>)
    ensures Blank !in Lines(s) && Recs(Lines(s)) == s
  {}

  /** The current file, if there is one, can be read. */
  ghost predicate Readable(d: Disk) {
    && ValidIndex(d.index) && d.counter >= -1
    && (d.counter >= 0 ==> d.counter in d.files && Blank !in d.files[d.counter] && AllWellKeyed(Recs(d.files[d.counter])))
  }

  function Current(d: Disk): (s: seq<Record>)
    requires Readable(d)
    ensures AllWellKeyed(s)
  {
    if d.counter < 0 then [] else Recs(d.files[d.counter])
  }

  /** The lines the new current file gets when `batch` is flushed. */
  function FlushedLines(d: Disk, batch: seq<Record>, fix: Repairs): seq<Line>
    requires Readable(d)
  {
    if d.counter < 0 then Lines(batch) else MergedFile(batch, Current(d), fix)
  }

  function FlushedNumber(d: Disk): int {
    if d.counter < 0 then 0 else d.counter + 2
  }

  function FlushedFiles(d: Disk, batch: seq<Record>, fix: Repairs): map<int, seq<Line>>
    requires Readable(d)
  {
    d.files[d.counter + 1 := Lines(batch)][FlushedNumber(d) := FlushedLines(d, batch, fix)]
  }

  /** One flush.  The first file is the batch itself; later the batch goes to a file of its own, which
      is then merged with the previous one into a third.  A blank line in the result has no place in
      the index, so that from then on the source reads and writes outside its arrays: no result. */
  function Flush(d: Disk, batch: seq<Record>, fix: Repairs): (r: Option<Disk>)
    requires Readable(d) && batch != [] && AllWellKeyed(batch)
    ensures r.Some? ==> Readable(r.value)
  {
    var lines := FlushedLines(d, batch, fix);
    if Blank in lines then None
    else
      FlushedKeys(d, batch, fix);
      RebuiltIsValid(Recs(lines), d.index);
      Some(Disk(FlushedNumber(d), FlushedFiles(d, batch, fix), RebuiltIndex(Recs(lines), d.index)))
  }

  lemma FlushedKeys(d: Disk, batch: seq<Record>, fix: Repairs)
    requires Readable(d) && AllWellKeyed(batch) && Blank !in FlushedLines(d, batch, fix)
    ensures AllWellKeyed(Recs(FlushedLines(d, batch, fix)))
    ensures Recs(FlushedLines(d, batch, fix)) == if d.counter < 0 then batch else MergeRecords(batch, Current(d), fix.newWins)
  {
    RecsOfLines(batch);
    if d.counter >= 0 {
      var m := MergeRecords(batch, Current(d), fix.newWins);
      RecsOfLines(m);
      NoBlankNoMore(batch, Current(d), fix);
      forall i | 0 <= i < |m| ensures WellKeyed(m[i].key) {
        MergeMembers(batch, Current(d), fix.newWins, m[i]);
      }
    }
  }

  /** A flush writes the file of the batch and, unless it is the first, the merged file behind it; no
      other file changes. */
  lemma FlushWritesFiles(d: Disk, batch: seq<Record>, fix: Repairs)
    requires Readable(d) && batch != [] && AllWellKeyed(batch) && Flush(d, batch, fix).Some?
    ensures var e := Flush(d, batch, fix).value;
      && e.counter == d.counter + (if d.counter < 0 then 1 else 2)
      && d.counter + 1 in e.files && Blank !in e.files[d.counter + 1] && Recs(e.files[d.counter + 1]) == batch
      && forall n :: n != d.counter + 1 && n != e.counter ==> (n in e.files <==> n in d.files) && (n in d.files ==> e.files[n] == d.files[n])
  {
    RecsOfLines(batch);
  }

  lemma NoBlankNoMore(a: seq<Record>, b: seq<Record>, fix: Repairs)
    requires Blank !in MergedFile(a, b, fix)
    ensures MergedFile(a, b, fix) == Lines(MergeRecords(a, b, fix.newWins))
  {
    var front, back := [Blank] + Lines(b), Lines(MergeRecords(a, b, fix.newWins)) + [Blank];
    assert front[0] == Blank && back[|back| - 1] == Blank;
  }

  // ---------------------------------------------------------------- runs of flushes

  ghost predicate Batches(batches: seq<seq<Record>>) {
    forall i :: 0 <= i < |batches| ==> batches[i] != [] && Sorted(batches[i]) && AllWellKeyed(batches[i])
  }

  /** The disk after flushing the batches in turn, from the first run ever. */
  ghost function FlushAll(batches: seq<seq<Record>>, fix: Repairs): (r: Option<Disk>)
    requires Batches(batches)
    ensures r.Some? ==> Readable(r.value)
  {
    if batches == [] then Some(EmptyDisk())
    else
      var n := |batches| - 1;
      var before := FlushAll(batches[..n], fix);
      if before.None? then None else Flush(before.value, batches[n], fix)
  }

  /** Each batch merged with what was there before. */
  ghost function MergeAll(batches: seq<seq<Record>>, newWins: bool): seq<Record> {
    if batches == [] then []
    else if |batches| == 1 then batches[0]
    else
      var n := |batches| - 1;
      MergeRecords(batches[n], MergeAll(batches[..n], newWins), newWins)
  }

  lemma {:induction false} MergeAllSorted(batches: seq<seq<Record>>, newWins: bool)
    requires Batches(batches)
    ensures Sorted(MergeAll(batches, newWins))
  {
    if |batches| > 1 {
      var n := |batches| - 1;
      MergeAllSorted(batches[..n], newWins);
      MergeKeepsSorted(batches[n], MergeAll(batches[..n], newWins), newWins);
    }
  }

  /** After k >= 1 flushes that leave a file, its number is 2(k - 1) and it holds the k-fold merge of
      the batches, strictly sorted. */
  lemma {:induction false} GenerationsMeaning(batches: seq<seq<Record>>, fix: Repairs)
    requires Batches(batches) && FlushAll(batches, fix).Some?
    ensures var d := FlushAll(batches, fix).value;
      && d.counter == (if batches == [] then -1 else 2 * (|batches| - 1))
      && Current(d) == MergeAll(batches, fix.newWins)
      && Sorted(Current(d))
  {
    MergeAllSorted(batches, fix.newWins);
    if batches != [] {
      var n := |batches| - 1;
      GenerationsMeaning(batches[..n], fix);
      FlushedKeys(FlushAll(batches[..n], fix).value, batches[n], fix);
    }
  }

  /** With the two copies exclusive, every run of flushes leaves a file. */
  lemma {:induction false} RepairedRunsNeverSpoil(batches: seq<seq<Record>>, newWins: bool)
    requires Batches(batches)
    ensures FlushAll(batches, Repairs(newWins, true)).Some?
  {
    if batches != [] {
      var n, fix := |batches| - 1, Repairs(newWins, true);
      RepairedRunsNeverSpoil(batches[..n], newWins);
      var d := FlushAll(batches[..n], fix).value;
      RecsOfLines(batches[n]);
      RecsOfLines(MergeRecords(batches[n], Current(d), newWins));
    }
  }

  function LastKey(s: seq<Record>): string
    requires s != []
  {
    s[|s| - 1].key
  }

  /** No batch after the first has a key beyond the last key of the first. */
  ghost predicate NothingBeyondFirst(batches: seq<seq<Record>>)
    requires Batches(batches)
  {
    forall i :: 1 <= i < |batches| ==> !Lt(LastKey(batches[0]), LastKey(batches[i]))
  }

  lemma NotBeyondTransitive(a: string, b: string, c: string)
    requires !Lt(b, a) && !Lt(c, b)
    ensures !Lt(c, a)
  {
    KeyOrder();
  }

  lemma NothingBeyondLast(s: seq<Record>, r: Record)
    requires Sorted(s) && r in s
    ensures !Lt(LastKey(s), r.key)
  {
    KeyOrder();
  }

  lemma LastKeyIs(s: seq<Record>, k: string)
    requires Sorted(s) && Find(s, k).Some? && !Lt(k, LastKey(s))
    ensures LastKey(s) == k
  {
    FindIsLookup(s, k);
  }

  lemma LastOfMerge(a: seq<Record>, b: seq<Record>, newWins: bool)
    requires Sorted(a) && Sorted(b) && AllLive(a) && AllLive(b) && a != [] && b != []
    requires !Lt(LastKey(b), LastKey(a))
    ensures var m := MergeRecords(a, b, newWins); m != [] && Sorted(m) && LastKey(m) == LastKey(b)
  {
    MergeKeepsSorted(a, b, newWins);
    LastSurvives(a, b, newWins);
    LastIsLast(a, b, newWins, MergeRecords(a, b, newWins));
  }

  lemma LastIsLast(a: seq<Record>, b: seq<Record>, newWins: bool, m: seq<Record>)
    requires m == MergeRecords(a, b, newWins) && Sorted(m) && b != [] && Find(m, LastKey(b)).Some?
    requires Sorted(a) && Sorted(b) && a != [] && !Lt(LastKey(b), LastKey(a))
    ensures m != [] && LastKey(m) == LastKey(b)
  {
    NothingBeyondEither(a, b, newWins, m[|m| - 1]);
    LastKeyIs(m, LastKey(b));
  }

  lemma LastSurvives(a: seq<Record>, b: seq<Record>, newWins: bool)
    requires Sorted(a) && Sorted(b) && AllLive(a) && AllLive(b) && b != []
    ensures Find(MergeRecords(a, b, newWins), LastKey(b)).Some?
  {
    var k := LastKey(b);
    MergeMeaning(a, b, newWins, k);
    FindIsLookup(a, k);
    FindIsLookup(b, k);
  }

  lemma NothingBeyondEither(a: seq<Record>, b: seq<Record>, newWins: bool, r: Record)
    requires Sorted(a) && Sorted(b) && a != [] && b != [] && !Lt(LastKey(b), LastKey(a))
    requires r in MergeRecords(a, b, newWins)
    ensures !Lt(LastKey(b), r.key)
  {
    MergeMembers(a, b, newWins, r);
    if r in b {
      NothingBeyondLast(b, r);
    } else {
      NothingBeyondLast(a, r);
      NotBeyondTransitive(r.key, LastKey(a), LastKey(b));
    }
  }

  ghost predicate AllBatchesLive(batches: seq<seq<Record>>) {
    forall i :: 0 <= i < |batches| ==> AllLive(batches[i])
  }

  lemma {:induction false} LastOfMergeAll(batches: seq<seq<Record>>, newWins: bool)
    requires Batches(batches) && AllBatchesLive(batches) && batches != [] && NothingBeyondFirst(batches)
    ensures var m := MergeAll(batches, newWins);
      Sorted(m) && AllLive(m) && m != [] && LastKey(m) == LastKey(batches[0])
  {
    if |batches| > 1 {
      var n := |batches| - 1;
      LastOfMergeAll(batches[..n], newWins);
      LastOfMerge(batches[n], MergeAll(batches[..n], newWins), newWins);
      MergeKeepsLive(batches[n], MergeAll(batches[..n], newWins), newWins);
    }
  }

  /** As coded, a run of flushes of live records leaves a file exactly when no later batch has a key
      beyond the greatest key of the first batch. */
  lemma {:induction false} CodedRunsSpoilIff(batches: seq<seq<Record>>, newWins: bool)
    requires Batches(batches) && AllBatchesLive(batches)
    ensures FlushAll(batches, Repairs(newWins, false)).Some? <==> NothingBeyondFirst(batches)
  {
    if |batches| == 1 {
      RecsOfLines(batches[0]);
      assert batches[..0] == [];
    } else if |batches| > 1 {
      var before := batches[..|batches| - 1];
      CodedRunsSpoilIff(before, newWins);
      if NothingBeyondFirst(before) {
        LastFlushSpoilsIff(batches, newWins);
      } else {
        assert !NothingBeyondFirst(batches) by {
          var i :| 1 <= i < |before| && Lt(LastKey(before[0]), LastKey(before[i]));
          assert batches[i] == before[i];
        }
      }
    }
  }

  lemma LastFlushSpoilsIff(batches: seq<seq<Record>>, newWins: bool)
    requires Batches(batches) && AllBatchesLive(batches) && |batches| > 1
    requires NothingBeyondFirst(batches[..|batches| - 1])
    requires FlushAll(batches[..|batches| - 1], Repairs(newWins, false)).Some?
    ensures FlushAll(batches, Repairs(newWins, false)).Some? <==> NothingBeyondFirst(batches)
  {
    var n, fix := |batches| - 1, Repairs(newWins, false);
    var before := batches[..n];
    assert before[0] == batches[0];
    GenerationsMeaning(before, fix);
    LastOfMergeAll(before, newWins);
    NextFlushSpoilsIff(FlushAll(before, fix).value, batches[n], newWins);
    NothingBeyondStep(batches);
  }

  lemma NextFlushSpoilsIff(d: Disk, batch: seq<Record>, newWins: bool)
    requires Readable(d) && d.counter >= 0 && Sorted(Current(d)) && Current(d) != []
    requires batch != [] && Sorted(batch) && AllWellKeyed(batch)
    ensures Flush(d, batch, Repairs(newWins, false)).Some? <==> !Lt(LastKey(Current(d)), LastKey(batch))
  {
    MergedFileCleanIff(batch, Current(d), newWins);
  }

  lemma NothingBeyondStep(batches: seq<seq<Record>>)
    requires Batches(batches) && |batches| > 1
    ensures NothingBeyondFirst(batches) <==>
      NothingBeyondFirst(batches[..|batches| - 1]) && !Lt(LastKey(batches[0]), LastKey(batches[|batches| - 1]))
  {
    var before := batches[..|batches| - 1];
    assert forall i :: 0 <= i < |before| ==> batches[i] == before[i];
  }

  /** Two flushes after which the files of the source are spoiled. */
  lemma GrowingKeysSpoilTheFile()
    ensures var batches := [[Record("a", "1", 0)], [Record("b", "2", 0)]];
      Batches(batches) && FlushAll(batches, AS_CODED).None?
  {
    var batches := [[Record("a", "1", 0)], [Record("b", "2", 0)]];
    CodedRunsSpoilIff(batches, false);
    assert LastKey(batches[0]) == "a" && LastKey(batches[1]) == "b";
  }

  /** The first batch of the run below holds a tombstone, the second merge drops it. */
  function StaleBatches(): seq<seq<Record>> {
    [[Record("0a", "v", 0), Record("1", "invalid_delete", 1), Record("3", "v", 0)],
     [Record("0b", "w", 0), Record("2", "v", 0)]]
  }

  function StaleFile(): seq<Record> {
    [Record("0a", "v", 0), Record("0b", "w", 0), Record("2", "v", 0), Record("3", "v", 0)]
  }

  lemma StaleOrder()
    ensures StrCmp("0b", "0a") == 1 && StrCmp("0a", "0b") == -1
    ensures StrCmp("0a", "1") == -1 && StrCmp("0b", "1") == -1 && StrCmp("1", "3") == -1 && StrCmp("2", "1") == 1
    ensures StrCmp("0a", "2") == -1 && StrCmp("0b", "3") == -1
    ensures StrCmp("0b", "2") == -1 && StrCmp("2", "3") == -1 && StrCmp("0a", "3") == -1
  {
    assert "0a"[1..] == "a" && "0b"[1..] == "b";
    assert StrCmp("b", "a") == 1 && StrCmp("a", "b") == -1;
  }

  lemma StaleMerge()
    ensures MergeRecords(StaleBatches()[1], StaleBatches()[0], false) == StaleFile()
    ensures !SecondEndsFirst(StaleBatches()[1], StaleBatches()[0])
  {
    StaleOrder();
    var a, b := StaleBatches()[1], StaleBatches()[0];
    assert a[1..] == [Record("2", "v", 0)] && a[1..][1..] == [];
    assert b[1..] == [Record("1", "invalid_delete", 1), Record("3", "v", 0)] && b[1..][1..] == [Record("3", "v", 0)];
    assert MergeRecords(a[1..][1..], b[1..][1..], false) == b[1..][1..];
    assert MergeRecords(a[1..], b[1..][1..], false) == [a[1]] + b[1..][1..];
    assert MergeRecords(a[1..], b[1..], false) == [a[1]] + b[1..][1..];
    assert MergeRecords(a, b[1..], false) == [a[0]] + ([a[1]] + b[1..][1..]);
    assert !SecondEndsFirst(a[1..], b[1..][1..]);
    assert !SecondEndsFirst(a[1..], b[1..]);
    assert !SecondEndsFirst(a, b[1..]);
  }

  lemma StaleBatchesAreBatches()
    ensures Batches(StaleBatches())
  {
    StaleOrder();
  }

  /** Two flushes of the source after which a stored key is not found: the entry of the tombstone's
      bucket outlives the tombstone and cuts the bucket in front of it short. */
  lemma StaleEntryHidesAKey()
    ensures Batches(StaleBatches()) && FlushAll(StaleBatches(), AS_CODED).Some?
    ensures var d := FlushAll(StaleBatches(), AS_CODED).value;
      && Current(d) == StaleFile()
      && Find(Current(d), "0b") == Some(Record("0b", "w", 0)) && C1Get(Current(d), d.index, -1, "0b") == None
  {
    var first := StaleBatches()[0];
    StaleBatchesAreBatches();
    StaleMerge();
    assert StaleBatches()[..1] == [first] && StaleBatches()[..1][..0] == [];
    RecsOfLines(first);
    RecsOfLines(StaleFile());
    var d1 := Flush(EmptyDisk(), first, AS_CODED).value;
    assert Current(d1) == first && d1.index == RebuiltIndex(first, EmptyDisk().index);
    var d := Flush(d1, StaleBatches()[1], AS_CODED).value;
    assert Current(d) == StaleFile() && d.index == RebuiltIndex(StaleFile(), d1.index);
    StaleLookup(d1.index);
  }

  lemma StaleLookup(prior: seq<int>)
    requires AllWellKeyed(StaleBatches()[0]) && AllWellKeyed(StaleFile())
    requires prior == RebuiltIndex(StaleBatches()[0], EmptyDisk().index)
    ensures ValidIndex(RebuiltIndex(StaleFile(), prior))
    ensures C1Get(StaleFile(), RebuiltIndex(StaleFile(), prior), -1, "0b") == None
    ensures Find(StaleFile(), "0b") == Some(Record("0b", "w", 0))
  {
    var file, ix := StaleFile(), RebuiltIndex(StaleFile(), prior);
    StaleOrder();
    RebuiltIsValid(StaleBatches()[0], EmptyDisk().index);
    RebuiltIsValid(file, prior);
    FileIsSorted();
    assert FirstLine(StaleBatches()[0], 1) == 1;
    assert prior[1] == LINE_SIZE;
    assert !Present(file, 1);
    assert ix[1] == LINE_SIZE;
    RankOfLine(file, 1);
    GetInBucket(file, prior, -1, "0b");
    assert EndLine(ix, -1, 0, 4) == 1;
  }

  lemma FileIsSorted()
    ensures Sorted(StaleFile())
  {
    StaleOrder();
  }

  // ---------------------------------------------------------------- live records and the index

  /** What a disk without deletions keeps: the file is sorted and live, and the index is fresh. */
  ghost predicate Live(d: Disk) {
    && Readable(d) && Sorted(Current(d)) && AllLive(Current(d)) && Fresh(Current(d), d.index)
  }

  /** Merging live records keeps every key, so no bucket disappears. */
  lemma LiveMergeKeepsBuckets(a: seq<Record>, b: seq<Record>, newWins: bool)
    requires Sorted(a) && Sorted(b) && AllLive(a) && AllLive(b)
    requires AllWellKeyed(a) && AllWellKeyed(b) && AllWellKeyed(MergeRecords(a, b, newWins))
    ensures KeepsBuckets(b, MergeRecords(a, b, newWins))
  {
    var m := MergeRecords(a, b, newWins);
    MergeKeepsSorted(a, b, newWins);
    forall c | 0 <= c < INDEX_SIZE && Present(b, c) ensures Present(m, c) {
      var k := b[FirstLine(b, c)].key;
      MergeMeaning(a, b, newWins, k);
      FindIsLookup(a, k);
      FindIsLookup(b, k);
      FindIsLookup(m, k);
    }
  }

  /** A flush of live records keeps all that, and lookups through the new index, with -1 behind its
      end, agree with a scan of the new file. */
  lemma FlushKeepsLive(d: Disk, batch: seq<Record>, fix: Repairs)
    requires Live(d) && batch != [] && Sorted(batch) && AllLive(batch) && AllWellKeyed(batch)
    requires Flush(d, batch, fix).Some?
    ensures var e := Flush(d, batch, fix).value;
      && Live(e)
      && (d.counter >= 0 ==> Current(e) == MergeRecords(batch, Current(d), fix.newWins))
      && (d.counter < 0 ==> Current(e) == batch)
      && forall key :: WellKeyed(key) ==> C1Get(Current(e), e.index, -1, key) == ValueOf(Find(Current(e), key))
  {
    var e := Flush(d, batch, fix).value;
    FlushedKeys(d, batch, fix);
    if d.counter >= 0 {
      MergeKeepsSorted(batch, Current(d), fix.newWins);
      MergeKeepsLive(batch, Current(d), fix.newWins);
      LiveMergeKeepsBuckets(batch, Current(d), fix.newWins);
    }
    FreshIndexAgrees(Current(d), Current(e), d.index);
  }

  // ---------------------------------------------------------------- the database directory

  class SortedFiles {
    const fix: Repairs
    const ssindex: array<int>
    var fileCounter: int
    var files: map<int, seq<Line>>

    ghost predicate Valid()
      reads this, ssindex
    {
      ssindex.Length == INDEX_SIZE && Readable(State())
    }

    ghost function State(): Disk
      reads this, ssindex
    {
      Disk(fileCounter, files, ssindex[..])
    }

    constructor (fix: Repairs)
      ensures Valid() && State() == EmptyDisk() && this.fix == fix && fresh(ssindex)
    {
      this.fix := fix;
      fileCounter, files := -1, map[];
      ssindex := new int[INDEX_SIZE](_ => 0);
      new;
      assert ssindex[..] == EmptyDisk().index;
    }

    /** `c1_batch_insert`: the batch is written to a file of its own, merged with the previous file
        if there is one, and the index is rebuilt.  A blank line in the file has no place in the index:
        the files are written, but there is no further result. */
    method BatchInsert(nodes: array<C0Node?>, ghost batch: seq<Record>) returns (ok: bool)
      requires Valid() && nodes.Length == |batch| > 0 && AllWellKeyed(batch)
      requires forall i :: 0 <= i < nodes.Length ==> nodes[i] != null && NodeRecord(nodes[i]) == batch[i]
      modifies this, ssindex
      ensures ok <==> Flush(old(State()), batch, fix).Some?
      ensures ok ==> Valid() && State() == Flush(old(State()), batch, fix).value
      ensures fileCounter in files && files[fileCounter] == FlushedLines(old(State()), batch, fix)
    {
      ghost var d := State();
      var lines := WriteBatch(nodes, batch);
      WriteFiles(lines, batch);
      ok := Blank !in files[fileCounter];
      if ok {
        FlushedKeys(d, batch, fix);
        UpdateSstable(Recs(files[fileCounter]), ssindex);
      }
    }

    /** The file of the batch, and the file merged from it and the previous one. */
    method WriteFiles(lines: seq<Line>, ghost batch: seq<Record>)
      requires Valid() && lines == Lines(batch)
      modifies this`fileCounter, this`files
      ensures fileCounter == FlushedNumber(old(State())) && files == FlushedFiles(old(State()), batch, fix)
    {
      RecsOfLines(batch);
      fileCounter := fileCounter + 1;
      files := files[fileCounter := lines];
      if fileCounter > 0 {
        var merged := MergeFiles(Recs(lines), Recs(files[fileCounter - 1]), fix);
        fileCounter := fileCounter + 1;
        files := files[fileCounter := merged];
      }
    }

    static method WriteBatch(nodes: array<C0Node?>, ghost batch: seq<Record>) returns (lines: seq<Line>)
      requires nodes.Length == |batch|
      requires forall i :: 0 <= i < nodes.Length ==> nodes[i] != null && NodeRecord(nodes[i]) == batch[i]
      ensures lines == Lines(batch)
    {
      lines := [];
      for i := 0 to nodes.Length
        invariant lines == Lines(batch[..i])
      {
        lines := lines + [Full(Record(nodes[i].key, nodes[i].value, nodes[i].flag))];
        assert batch[..i + 1] == batch[..i] + [batch[i]];
      }
      assert batch[..|batch|] == batch;
    }

    /** The nodes of a tree in key order. */
    static method NodesOf(t: C0Node?, size: nat, ghost batch: seq<Record>) returns (nodes: array<C0Node?>)
      requires Ok(t) && batch == InOrder(TreeOf(t)) && size == |batch|
      ensures fresh(nodes) && nodes.Length == |batch|
      ensures forall i :: 0 <= i < nodes.Length ==> nodes[i] != null && NodeRecord(nodes[i]) == batch[i]
    {
      ghost var tree := TreeOf(t);
      nodes := new C0Node?[size](_ => null);
      assert Ok(t) && TreeOf(t) == tree;
      var end := DumpToArray(t, nodes, 0);
      assert TreeOf(t) == tree && end == size;
      forall i | 0 <= i < end ensures nodes[i] != null && NodeRecord(nodes[i]) == batch[i] {
        assert batch[i - 0] == batch[i];
      }
    }

    /** `c0_dump`: an empty tree leaves the disk alone, any other is flushed in key order. */
    method C0Dump(t: C0Node?, ghost batch: seq<Record>) returns (ok: bool)
      requires Valid() && Ok(t) && batch == InOrder(TreeOf(t)) && AllWellKeyed(batch)
      modifies this, ssindex
      ensures ok <==> batch == [] || Flush(old(State()), batch, fix).Some?
      ensures ok ==> Valid()
      ensures ok ==> State() == if batch == [] then old(State()) else Flush(old(State()), batch, fix).value
    {
      var size := C0Size(t);
      if size == 0 {
        return true;
      }
      var nodes := NodesOf(t, size, batch);
      ok := BatchInsert(nodes, batch);
    }
  }
}
