/** Merging two sorted files (`merge` in c1.c). */
module Merge {
  import opened Records
  import opened Wrappers

  /** A fixed-size line of a file: a record, or nothing but zero bytes. */
  datatype Line = Full(rec: Record) | Blank

  function Lines(s: seq<Record>): seq<Line> {
    seq(|s|, i requires 0 <= i < |s| => Full(s[i]))
  }

  /** Two deviations of `merge` from what its caller and its comments say, and whether they are
      repaired: on equal keys the new file's record is kept, and only one of the two copies at the
      end runs. */
  datatype Repairs = Repairs(newWins: bool, exclusiveTails: bool)

  const AS_CODED := Repairs(false, false)

  /** A record whose flag is 0 is written, any other is skipped. */
  function Written(r: Record): seq<Record> {
    if r.flag == 0 then [r] else []
  }

  /** The records that end up in the merged file; `a` is file1 and `b` is file2.  On equal keys the
      source keeps file2's record; `newWins` swaps that choice. */
  function MergeRecords(a: seq<Record>, b: seq<Record>, newWins: bool): seq<Record>
    decreases |a| + |b|
  {
    if a == [] then b
    else if b == [] then a
    else if StrCmp(a[0].key, b[0].key) < 0 then Written(a[0]) + MergeRecords(a[1..], b, newWins)
    else if StrCmp(a[0].key, b[0].key) > 0 then Written(b[0]) + MergeRecords(a, b[1..], newWins)
    else Written(if newWins then a[0] else b[0]) + MergeRecords(a[1..], b[1..], newWins)
  }

  /** File 2 runs out while a line of file 1 is pending. */
  predicate SecondEndsFirst(a: seq<Record>, b: seq<Record>)
    decreases |a| + |b|
  {
    if a == [] then false
    else if b == [] then true
    else if StrCmp(a[0].key, b[0].key) < 0 then SecondEndsFirst(a[1..], b)
    else if StrCmp(a[0].key, b[0].key) > 0 then SecondEndsFirst(a, b[1..])
    else SecondEndsFirst(a[1..], b[1..])
  }

  /** The merged file.  As coded, a blank line slips in at the end when file 2 ends first, and in
      front when file 1 is empty. */
  function MergedFile(a: seq<Record>, b: seq<Record>, fix: Repairs): seq<Line> {
    if fix.exclusiveTails then Lines(MergeRecords(a, b, fix.newWins))
    else if a == [] then [Blank] + Lines(b)
    else Lines(MergeRecords(a, b, fix.newWins)) + (if SecondEndsFirst(a, b) then [Blank] else [])
  }

  /** The records of a file, blank lines left out. */
  function FullRecs(lines: seq<Line>): seq<Record> {
    if lines == [] then []
    else FullRecs(lines[..|lines| - 1]) + match lines[|lines| - 1] case Full(r) => [r] case Blank => []
  }

  lemma {:induction false} FullRecsOfLines(s: seq<Record>)
    ensures FullRecs(Lines(s)) == s
  {
    if s != [] {
      var n := |s| - 1;
      FullRecsOfLines(s[..n]);
      assert Lines(s)[..n] == Lines(s[..n]) && Lines(s)[n] == Full(s[n]);
    }
  }

  lemma {:induction false} FullRecsOfBlankFirst(s: seq<Record>)
    ensures FullRecs([Blank] + Lines(s)) == s
  {
    var l := [Blank] + Lines(s);
    if s == [] {
      assert l[..0] == [] && l[0] == Blank;
    } else {
      var n := |s| - 1;
      FullRecsOfBlankFirst(s[..n]);
      assert l[..|l| - 1] == [Blank] + Lines(s[..n]) && l[|l| - 1] == Full(s[n]);
    }
  }

  lemma FullRecsOfBlankLast(s: seq<Record>)
    ensures FullRecs(Lines(s) + [Blank]) == s
  {
    var l := Lines(s) + [Blank];
    FullRecsOfLines(s);
    assert l[..|l| - 1] == Lines(s) && l[|l| - 1] == Blank;
    assert FullRecs(l) == s + [];
  }

  /** Blank lines apart, the merged file holds the merge; at most one line is blank, and none if the
      copies at the end exclude each other. */
  lemma MergedFileHoldsMerge(a: seq<Record>, b: seq<Record>, fix: Repairs)
    ensures FullRecs(MergedFile(a, b, fix)) == MergeRecords(a, b, fix.newWins)
    ensures |MergedFile(a, b, fix)| <= |MergeRecords(a, b, fix.newWins)| + (if fix.exclusiveTails then 0 else 1)
  {
    var m := MergeRecords(a, b, fix.newWins);
    FullRecsOfLines(m);
    FullRecsOfBlankFirst(b);
    FullRecsOfBlankLast(m);
    assert a == [] ==> m == b;
    assert Lines(m) + [] == Lines(m);
  }

  lemma LinesAppend(s: seq<Record>, t: seq<Record>)
    ensures Lines(s + t) == Lines(s) + Lines(t)
  {}

  /** Appends what is left of an open file: the copy loops at the end of `merge`. */
  method CopyRest(out0: seq<Line>, file: seq<Record>, pos: nat) returns (out: seq<Line>)
    requires pos <= |file|
    ensures out == out0 + Lines(file[pos..])
  {
    out := out0;
    for p := pos to |file|
      invariant out == out0 + Lines(file[pos..p])
    {
      out := out + [Full(file[p])];
      assert file[pos..p + 1] == file[pos..p] + [file[p]];
    }
    assert file[pos..|file|] == file[pos..];
  }

  /** A line with flag 0 goes to the output. */
  method Emit(out0: seq<Line>, line: Line, ghost rest: seq<Record>) returns (out: seq<Line>)
    requires line.Full?
    ensures out + Lines(rest) == out0 + Lines(Written(line.rec) + rest)
    ensures out0 <= out
  {
    out := if line.rec.flag == 0 then out0 + [line] else out0;
    LinesAppend(Written(line.rec), rest);
    assert Lines(Written(line.rec)) == if line.rec.flag == 0 then [line] else [];
  }

  /** What is still to be merged of a file: the pending line, if any, and the unread part. */
  ghost function Left(line: Option<Line>, unread: seq<Record>): seq<Record> {
    if line.Some? && line.value.Full? then [line.value.rec] + unread else unread
  }

  /** The next line of an open file; past the end the buffer stays zeroed and the size is 0. */
  method ReadLine(file: seq<Record>, pos: nat) returns (line: Line, size: nat, next: nat)
    requires pos <= |file|
    ensures pos < |file| ==> line == Full(file[pos]) && size == 1 && next == pos + 1
    ensures pos == |file| ==> line == Blank && size == 0 && next == pos
    ensures Left(Some(line), file[next..]) == file[pos..]
  {
    if pos < |file| {
      line, size, next := Full(file[pos]), 1, pos + 1;
    } else {
      line, size, next := Blank, 0, pos;
    }
  }

  /** One comparison: the line with the smaller key is consumed, or both on equal keys. */
  method TakeSmaller(out0: seq<Line>, l1: Line, l2: Line, newWins: bool,
                     ghost unread1: seq<Record>, ghost unread2: seq<Record>)
    returns (out: seq<Line>, line1: Option<Line>, line2: Option<Line>)
    requires l1.Full? && l2.Full?
    ensures out + Lines(MergeRecords(Left(line1, unread1), Left(line2, unread2), newWins))
      == out0 + Lines(MergeRecords([l1.rec] + unread1, [l2.rec] + unread2, newWins))
    ensures SecondEndsFirst(Left(line1, unread1), Left(line2, unread2))
      == SecondEndsFirst([l1.rec] + unread1, [l2.rec] + unread2)
    ensures line1 in {None, Some(l1)} && line2 in {None, Some(l2)}
    ensures line1.None? || line2.None?
  {
    line1, line2 := Some(l1), Some(l2);
    ghost var a, b := [l1.rec] + unread1, [l2.rec] + unread2;
    assert a[1..] == unread1 && b[1..] == unread2;
    if StrCmp(l1.rec.key, l2.rec.key) < 0 {
      out := Emit(out0, l1, MergeRecords(unread1, b, newWins));
      line1 := None;
    } else if StrCmp(l1.rec.key, l2.rec.key) > 0 {
      out := Emit(out0, l2, MergeRecords(a, unread2, newWins));
      line2 := None;
    } else {
      out := Emit(out0, if newWins then l1 else l2, MergeRecords(unread1, unread2, newWins));
      line1, line2 := None, None;
    }
  }

  /** What the end of `merge` appends.  As coded, copying the rest of file 1 leaves its size at 0, so
      the second copy runs as well. */
  ghost function Tails(file1: seq<Record>, pos1: nat, line1: Option<Line>, size1: nat, file2: seq<Record>, pos2: nat,
                       line2: Option<Line>, size2: nat, exclusive: bool): seq<Line>
    requires pos1 <= |file1| && pos2 <= |file2|
    requires size2 == 0 ==> line1.Some?
  {
    var firstTail := if size2 == 0 then [line1.value] + Lines(file1[pos1..]) else [];
    var secondTail := (if line2.Some? then [line2.value] else []) + Lines(file2[pos2..]);
    if !exclusive then firstTail + secondTail else if size1 == 0 then secondTail else firstTail
  }

  lemma LinesCons(r: Record, s: seq<Record>)
    ensures Lines([r] + s) == [Full(r)] + Lines(s)
  {}

  /** The loop stops because file 1 has run out. */
  lemma FirstRanOut(file1: seq<Record>, file2: seq<Record>, pos2: nat, line2: Option<Line>, size2: nat,
                    out: seq<Line>, fix: Repairs)
    requires pos2 <= |file2|
    requires line2.Some? ==> line2.value.Full?
    requires size2 == 0 <==> file1 == []
    requires file1 == [] ==> line2.None? && pos2 == 0 && out == []
    requires out + Lines(Left(line2, file2[pos2..])) == Lines(MergeRecords(file1, file2, fix.newWins))
    requires !SecondEndsFirst(file1, file2)
    ensures out + Tails(file1, |file1|, Some(Blank), 0, file2, pos2, line2, size2, fix.exclusiveTails)
      == MergedFile(file1, file2, fix)
  {
    PendingLines(line2, file2[pos2..]);
    var secondTail := (if line2.Some? then [line2.value] else []) + Lines(file2[pos2..]);
    var tails := Tails(file1, |file1|, Some(Blank), 0, file2, pos2, line2, size2, fix.exclusiveTails);
    if file1 == [] {
      NothingToMerge(file2, line2, pos2, out, fix);
    } else {
      assert tails == secondTail;
    }
  }

  /** An empty file 1. */
  lemma NothingToMerge(file2: seq<Record>, line2: Option<Line>, pos2: nat, out: seq<Line>, fix: Repairs)
    requires line2.None? && pos2 == 0 && out == [] && pos2 <= |file2|
    ensures out + Tails([], 0, Some(Blank), 0, file2, pos2, line2, 0, fix.exclusiveTails) == MergedFile([], file2, fix)
  {
    assert file2[0..] == file2;
    assert Lines([]) == [];
    assert MergeRecords([], file2, fix.newWins) == file2;
  }

  /** The pending line and what follows it, as lines. */
  lemma PendingLines(line: Option<Line>, unread: seq<Record>)
    requires line.Some? ==> line.value.Full?
    ensures Lines(Left(line, unread)) == (if line.Some? then [line.value] else []) + Lines(unread)
  {
    if line.Some? {
      LinesCons(line.value.rec, unread);
    }
  }

  /** The loop stops because file 2 has run out; a line of file 1 is pending. */
  lemma SecondRanOut(file1: seq<Record>, file2: seq<Record>, pos1: nat, r1: Record, size1: nat,
                     out: seq<Line>, fix: Repairs)
    requires 0 < pos1 <= |file1| && size1 > 0
    requires out + Lines([r1] + file1[pos1..]) == Lines(MergeRecords(file1, file2, fix.newWins))
    requires SecondEndsFirst(file1, file2)
    ensures out + Tails(file1, pos1, Some(Full(r1)), size1, file2, |file2|, Some(Blank), 0, fix.exclusiveTails)
      == MergedFile(file1, file2, fix)
  {
    LinesCons(r1, file1[pos1..]);
    assert Lines(file2[|file2|..]) == [];
  }

  /** The end of `merge`. */
  method CopyTails(out0: seq<Line>, file1: seq<Record>, pos1: nat, line1: Option<Line>, size1: nat,
                   file2: seq<Record>, pos2: nat, line2: Option<Line>, size2: nat, exclusive: bool)
    returns (out: seq<Line>)
    requires pos1 <= |file1| && pos2 <= |file2|
    requires size2 == 0 ==> line1.Some?
    requires size1 == 0 || size2 == 0
    ensures out == out0 + Tails(file1, pos1, line1, size1, file2, pos2, line2, size2, exclusive)
  {
    out := out0;
    var size := size1;
    if size2 == 0 && !(exclusive && size1 == 0) {
      out := out + [line1.value];
      out := CopyRest(out, file1, pos1);
      size := 0;
    }
    if size == 0 && !(exclusive && size1 != 0) {
      if line2.Some? {
        out := out + [line2.value];
      }
      out := CopyRest(out, file2, pos2);
    }
  }

  /** `merge`, line by line, with its two pending lines and the two sizes last read. */
  method MergeFiles(file1: seq<Record>, file2: seq<Record>, fix: Repairs) returns (out: seq<Line>)
    ensures out == MergedFile(file1, file2, fix)
  {
    out := [];
    var line1: Option<Line>, line2: Option<Line> := None, None;
    var size1: nat, size2: nat, pos1: nat, pos2: nat := 0, 0, 0, 0;
    while true
      invariant pos1 <= |file1| && pos2 <= |file2|
      invariant line1.Some? ==> line1.value.Full? && size1 > 0
      invariant line2.Some? ==> line2.value.Full?
      invariant line1.None? || line2.None?
      invariant out + Lines(MergeRecords(Left(line1, file1[pos1..]), Left(line2, file2[pos2..]), fix.newWins))
        == Lines(MergeRecords(file1, file2, fix.newWins))
      invariant SecondEndsFirst(Left(line1, file1[pos1..]), Left(line2, file2[pos2..])) == SecondEndsFirst(file1, file2)
      invariant pos1 > 0 ==> size2 == 1
      invariant pos1 == 0 ==> line1.None? && line2.None? && pos2 == 0 && size2 == 0 && out == []
      decreases |Left(line1, file1[pos1..])| + |Left(line2, file2[pos2..])|
    {
      if line1.None? {
        var l;
        l, size1, pos1 := ReadLine(file1, pos1);
        line1 := Some(l);
        if size1 == 0 {
          FirstRanOut(file1, file2, pos2, line2, size2, out, fix);
          break;
        }
      }
      if line2.None? {
        var l;
        l, size2, pos2 := ReadLine(file2, pos2);
        line2 := Some(l);
        if size2 == 0 {
          SecondRanOut(file1, file2, pos1, line1.value.rec, size1, out, fix);
          break;
        }
      }
      out, line1, line2 := TakeSmaller(out, line1.value, line2.value, fix.newWins, file1[pos1..], file2[pos2..]);
    }
    out := CopyTails(out, file1, pos1, line1, size1, file2, pos2, line2, size2, fix.exclusiveTails);
  }

  // ---------------------------------------------------------------- what merging means

  lemma {:induction false} MergeMembers(a: seq<Record>, b: seq<Record>, newWins: bool, r: Record)
    requires r in MergeRecords(a, b, newWins)
    ensures r in a || r in b
    decreases |a| + |b|
  {
    if a != [] && b != [] {
      var c := StrCmp(a[0].key, b[0].key);
      var w := Written(if c < 0 then a[0] else if c > 0 then b[0] else if newWins then a[0] else b[0]);
      if r !in w {
        MergeMembers(if c > 0 then a else a[1..], if c < 0 then b else b[1..], newWins, r);
      }
    }
  }

  /** `k` comes after every key of `s`. */
  ghost predicate Above(s: seq<Record>, k: string) {
    forall i :: 0 <= i < |s| ==> Lt(s[i].key, k)
  }

  /** `k` comes before every key of `s`. */
  ghost predicate Below(k: string, s: seq<Record>) {
    forall i :: 0 <= i < |s| ==> Lt(k, s[i].key)
  }

  lemma SortedCons(x: Record, s: seq<Record>)
    requires Sorted(s) && Below(x.key, s)
    ensures Sorted([x] + s)
  {
    SortedWhole([], x, s);
    assert [] + [x] + s == [x] + s;
  }

  lemma FindCons(x: Record, s: seq<Record>, k: string)
    requires Sorted(s) && Below(x.key, s)
    ensures Find([x] + s, k) == if k == x.key then Some(x) else Find(s, k)
    ensures k == x.key ==> Find(s, k) == None
  {
    SortedCons(x, s);
    KeyOrder();
    FindIsLookup(s, k);
    FindIsLookup([x] + s, k);
    assert ([x] + s)[0] == x && forall i :: 0 <= i < |s| ==> ([x] + s)[i + 1] == s[i];
    if HasKey([x] + s, k) && k != x.key {
      var j :| 0 <= j < |[x] + s| && ([x] + s)[j].key == k;
      assert s[j - 1].key == k;
    }
  }

  lemma HeadSplits(s: seq<Record>)
    requires Sorted(s) && s != []
    ensures s == [s[0]] + s[1..] && Sorted(s[1..]) && Below(s[0].key, s[1..])
  {}

  lemma BelowMerge(k: string, a: seq<Record>, b: seq<Record>, newWins: bool)
    requires Below(k, a) && Below(k, b)
    ensures Below(k, MergeRecords(a, b, newWins))
  {
    var m := MergeRecords(a, b, newWins);
    forall i | 0 <= i < |m| ensures Lt(k, m[i].key) {
      MergeMembers(a, b, newWins, m[i]);
    }
  }

  lemma BelowAll(k: string, s: seq<Record>)
    requires Sorted(s) && s != [] && Lt(k, s[0].key)
    ensures Below(k, s)
  {
    KeyOrder();
  }

  /** The merged file is strictly sorted, and so is every file of a chain of merges. */
  lemma {:induction false} MergeKeepsSorted(a: seq<Record>, b: seq<Record>, newWins: bool)
    requires Sorted(a) && Sorted(b)
    ensures Sorted(MergeRecords(a, b, newWins))
    decreases |a| + |b|
  {
    if a != [] && b != [] {
      KeyOrder();
      HeadSplits(a);
      HeadSplits(b);
      var c := StrCmp(a[0].key, b[0].key);
      var x := if c < 0 then a[0] else if c > 0 then b[0] else if newWins then a[0] else b[0];
      var a', b' := if c > 0 then a else a[1..], if c < 0 then b else b[1..];
      if c < 0 { BelowAll(x.key, b); }
      if c > 0 { BelowAll(x.key, a); }
      MergeKeepsSorted(a', b', newWins);
      BelowMerge(x.key, a', b', newWins);
      SortedCons(x, MergeRecords(a', b', newWins));
    }
  }

  /** What the merged file holds for a key.  A key of both files keeps one record, file2's as
      coded, and only if that one is live; a key of one file keeps its record if it is live or comes
      after every key of the other file, where lines are copied unread. */
  ghost function Survivor(a: seq<Record>, b: seq<Record>, newWins: bool, k: string): Option<Record> {
    match (Find(a, k), Find(b, k))
    case (Some(x), Some(y)) =>
      var r := if newWins then x else y;
      if r.flag == 0 then Some(r) else None
    case (Some(x), None) => if x.flag == 0 || Above(b, k) then Some(x) else None
    case (None, Some(y)) => if y.flag == 0 || Above(a, k) then Some(y) else None
    case (None, None) => None
  }

  lemma FindBelow(s: seq<Record>, k: string)
    requires Sorted(s) && Below(k, s)
    ensures Find(s, k) == None
  {
    KeyOrder();
    FindIsLookup(s, k);
  }

  /** Dropping the smaller head of file 1 changes nothing for the other keys. */
  lemma SurvivorSkipsFirst(a: seq<Record>, b: seq<Record>, newWins: bool, k: string)
    requires Sorted(a) && Sorted(b) && a != [] && b != [] && Below(a[0].key, b)
    ensures Survivor(a, b, newWins, k) ==
      if k == a[0].key then (if a[0].flag == 0 then Some(a[0]) else None) else Survivor(a[1..], b, newWins, k)
    ensures k == a[0].key ==> Survivor(a[1..], b, newWins, k) == None
  {
    KeyOrder();
    HeadSplits(a);
    FindCons(a[0], a[1..], k);
    if k == a[0].key {
      FindBelow(b, k);
      assert !Above(b, k) by { assert Lt(k, b[0].key); }
    } else if Find(b, k).Some? {
      FindIsLookup(b, k);
      assert Lt(a[0].key, k);
      AboveCons(a[0], a[1..], k);
    }
  }

  lemma SurvivorSkipsSecond(a: seq<Record>, b: seq<Record>, newWins: bool, k: string)
    requires Sorted(a) && Sorted(b) && a != [] && b != [] && Below(b[0].key, a)
    ensures Survivor(a, b, newWins, k) ==
      if k == b[0].key then (if b[0].flag == 0 then Some(b[0]) else None) else Survivor(a, b[1..], newWins, k)
    ensures k == b[0].key ==> Survivor(a, b[1..], newWins, k) == None
  {
    KeyOrder();
    HeadSplits(b);
    FindCons(b[0], b[1..], k);
    if k == b[0].key {
      FindBelow(a, k);
      assert !Above(a, k) by { assert Lt(k, a[0].key); }
    } else if Find(a, k).Some? {
      FindIsLookup(a, k);
      assert Lt(b[0].key, k);
      AboveCons(b[0], b[1..], k);
    }
  }

  lemma AboveCons(x: Record, s: seq<Record>, k: string)
    requires Lt(x.key, k)
    ensures Above([x] + s, k) <==> Above(s, k)
  {
    assert forall i :: 0 <= i < |s| ==> ([x] + s)[i + 1] == s[i];
  }

  lemma SurvivorSkipsBoth(a: seq<Record>, b: seq<Record>, newWins: bool, k: string)
    requires Sorted(a) && Sorted(b) && a != [] && b != [] && a[0].key == b[0].key
    ensures var r := if newWins then a[0] else b[0];
      Survivor(a, b, newWins, k) ==
      if k == r.key then (if r.flag == 0 then Some(r) else None) else Survivor(a[1..], b[1..], newWins, k)
    ensures k == a[0].key ==> Survivor(a[1..], b[1..], newWins, k) == None
  {
    KeyOrder();
    HeadSplits(a);
    HeadSplits(b);
    FindCons(a[0], a[1..], k);
    FindCons(b[0], b[1..], k);
    if k != a[0].key && (Find(a, k).Some? || Find(b, k).Some?) {
      FindIsLookup(a, k);
      FindIsLookup(b, k);
      assert Lt(a[0].key, k);
      AboveCons(a[0], a[1..], k);
      AboveCons(b[0], b[1..], k);
    }
  }

  lemma FindWritten(x: Record, m: seq<Record>, k: string)
    requires Sorted(m) && Below(x.key, m)
    ensures Find(Written(x) + m, k) ==
      if k == x.key then (if x.flag == 0 then Some(x) else None) else Find(m, k)
  {
    FindCons(x, m, k);
    assert [] + m == m;
  }

  /** Merging does to every key what `Survivor` says. */
  lemma {:induction false} MergeMeaning(a: seq<Record>, b: seq<Record>, newWins: bool, k: string)
    requires Sorted(a) && Sorted(b)
    ensures Find(MergeRecords(a, b, newWins), k) == Survivor(a, b, newWins, k)
    decreases |a| + |b|
  {
    if a != [] && b != [] {
      KeyOrder();
      HeadSplits(a);
      HeadSplits(b);
      var c := StrCmp(a[0].key, b[0].key);
      var x := if c < 0 then a[0] else if c > 0 then b[0] else if newWins then a[0] else b[0];
      var a', b' := if c > 0 then a else a[1..], if c < 0 then b else b[1..];
      if c < 0 {
        BelowAll(x.key, b);
        SurvivorSkipsFirst(a, b, newWins, k);
      } else if c > 0 {
        BelowAll(x.key, a);
        SurvivorSkipsSecond(a, b, newWins, k);
      } else {
        SurvivorSkipsBoth(a, b, newWins, k);
      }
      MergeMeaning(a', b', newWins, k);
      MergeKeepsSorted(a', b', newWins);
      BelowMerge(x.key, a', b', newWins);
      FindWritten(x, MergeRecords(a', b', newWins), k);
    }
  }

  /** File 2 runs out first exactly when file 1 has a key after all of file 2's. */
  lemma {:induction false} SecondEndsFirstIff(a: seq<Record>, b: seq<Record>)
    requires Sorted(a) && Sorted(b)
    ensures SecondEndsFirst(a, b) <==> a != [] && Above(b, a[|a| - 1].key)
    decreases |a| + |b|
  {
    if a != [] && b != [] {
      KeyOrder();
      HeadSplits(a);
      HeadSplits(b);
      var c := StrCmp(a[0].key, b[0].key);
      SecondEndsFirstIff(if c > 0 then a else a[1..], if c < 0 then b else b[1..]);
      var last := a[|a| - 1].key;
      if |a| > 1 {
        assert Lt(a[0].key, last);
      }
      if c >= 0 && Lt(b[0].key, last) {
        AboveCons(b[0], b[1..], last);
      }
    }
  }

  /** As coded, the merged file holds records only, without a blank line, exactly when both files
      have lines and the last key of the new file is not after the last key of the old one. */
  lemma MergedFileCleanIff(a: seq<Record>, b: seq<Record>, newWins: bool)
    requires Sorted(a) && Sorted(b)
    ensures var m := MergedFile(a, b, Repairs(newWins, false));
      && (Blank !in m <==> a != [] && b != [] && !Lt(b[|b| - 1].key, a[|a| - 1].key))
      && (Blank !in m ==> m == Lines(MergeRecords(a, b, newWins)))
  {
    var front, back := [Blank] + Lines(b), Lines(MergeRecords(a, b, newWins)) + [Blank];
    assert front[0] == Blank && back[|back| - 1] == Blank;
    SecondEndsFirstIff(a, b);
    if a != [] && b != [] {
      AboveIffAboveLast(b, a[|a| - 1].key);
    }
  }

  lemma AboveIffAboveLast(s: seq<Record>, k: string)
    requires Sorted(s) && s != []
    ensures Above(s, k) <==> Lt(s[|s| - 1].key, k)
  {
    KeyOrder();
  }

  /** What a store expects of a merge: the newer file decides. */
  ghost function Newest(a: seq<Record>, b: seq<Record>, k: string): Option<Record> {
    if Find(a, k).Some? then Find(a, k) else Find(b, k)
  }

  ghost predicate HasNewest(m: seq<Record>, a: seq<Record>, b: seq<Record>) {
    forall k :: Find(m, k) == Newest(a, b, k)
  }

  ghost predicate AgreeOnShared(a: seq<Record>, b: seq<Record>) {
    forall k :: Find(a, k).Some? && Find(b, k).Some? ==> Find(a, k) == Find(b, k)
  }

  ghost predicate AllLive(s: seq<Record>) {
    forall i :: 0 <= i < |s| ==> s[i].flag == 0
  }

  lemma MergeKeepsLive(a: seq<Record>, b: seq<Record>, newWins: bool)
    requires AllLive(a) && AllLive(b)
    ensures AllLive(MergeRecords(a, b, newWins))
  {
    var m := MergeRecords(a, b, newWins);
    forall i | 0 <= i < |m| ensures m[i].flag == 0 {
      MergeMembers(a, b, newWins, m[i]);
    }
  }

  /** Of live records, the merge with the new file preferred keeps the newest. */
  lemma NewWinsKeepsNewest(a: seq<Record>, b: seq<Record>, k: string)
    requires Sorted(a) && Sorted(b) && AllLive(a) && AllLive(b)
    ensures Find(MergeRecords(a, b, true), k) == Newest(a, b, k)
  {
    MergeMeaning(a, b, true, k);
    FindIsLookup(a, k);
    FindIsLookup(b, k);
  }

  /** As coded, file1 is the new file and file2 the old one: the newest record survives for every key
      exactly when the two files hold the same record for every key they share. */
  lemma MergeKeepsNewestIff(a: seq<Record>, b: seq<Record>)
    requires Sorted(a) && Sorted(b) && AllLive(a) && AllLive(b)
    ensures HasNewest(MergeRecords(a, b, false), a, b) <==> AgreeOnShared(a, b)
  {
    forall k
      ensures Find(MergeRecords(a, b, false), k) == Newest(a, b, k)
        <==> (Find(a, k).Some? && Find(b, k).Some? ==> Find(a, k) == Find(b, k))
    {
      MergeMeaning(a, b, false, k);
      FindIsLookup(a, k);
      FindIsLookup(b, k);
    }
  }

  /** Two one-record files on which the merge loses the new value. */
  lemma MergeCanKeepTheOldValue()
    ensures var a, b := [Record("k", "new", 0)], [Record("k", "old", 0)];
      Sorted(a) && Sorted(b) && MergeRecords(a, b, false) == b
  {}
}
