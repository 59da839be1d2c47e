/** The transaction log of journal.c: fixed-size records and their recovery. */
module Journal {
  import opened Wrappers
  import opened Bytes

  const MAX_ENTRY_SIZE := 404

  /** Bytes of a record of the log. */
  const MAX_JOURNAL_ENTRY_SIZE := 434

  const NEWLINE: byte := 10

  datatype Tx = Tx(txid: int, data: seq<byte>, valid: int, committed: int)

  /** A transaction that can be logged: an empty request fails its first `fwrite`. */
  predicate Loggable(t: Tx) {
    IsUint32(t.txid) && 0 < |t.data| <= MAX_ENTRY_SIZE && IsUint32(t.valid) && IsUint32(t.committed)
  }

  /** A `size_t`, eight bytes. */
  function SizeBytes(n: nat): (s: seq<byte>)
    requires n <= MAX_ENTRY_SIZE
    ensures |s| == 8
  {
    IntBytes(n) + Zeros(4)
  }

  function BytesSize(s: seq<byte>): nat
    requires |s| == 8
  {
    BytesInt(s[..4]) + 0x1_0000_0000 * BytesInt(s[4..])
  }

  lemma SizeRoundTrip(n: nat)
    requires n <= MAX_ENTRY_SIZE
    ensures BytesSize(SizeBytes(n)) == n
  {
    IntRoundTrip(n);
    assert SizeBytes(n)[..4] == IntBytes(n) && SizeBytes(n)[4..] == Zeros(4);
  }

  function Body(t: Tx): (s: seq<byte>)
    requires Loggable(t)
    ensures |s| == 22 + |t.data|
  {
    IntBytes(t.txid) + SizeBytes(|t.data|) + t.data + [NUL] + IntBytes(t.valid) + IntBytes(t.committed) + [NEWLINE]
  }

  /** A record; its padding is never empty. */
  function Record(t: Tx): (s: seq<byte>)
    requires Loggable(t)
    ensures |s| == MAX_JOURNAL_ENTRY_SIZE
  {
    Body(t) + Zeros(MAX_JOURNAL_ENTRY_SIZE - |Body(t)|)
  }

  predicate AllLoggable(txs: seq<Tx>) {
    forall i :: 0 <= i < |txs| ==> Loggable(txs[i])
  }

  function Log(txs: seq<Tx>): seq<byte>
    requires AllLoggable(txs)
  {
    if txs == [] then [] else Record(txs[0]) + Log(txs[1..])
  }

  /** `unmarshall_journal_entry`; a length that points outside the record is read blindly by the
      source and has no result here. */
  function Unmarshall(entry: seq<byte>): Option<Tx>
    requires |entry| == MAX_JOURNAL_ENTRY_SIZE
  {
    var n := BytesSize(entry[4..12]);
    if n + 21 > |entry| then None
    else
      Some(Tx(BytesInt(entry[..4]), entry[12..12 + n], BytesInt(entry[13 + n..17 + n]), BytesInt(entry[17 + n..21 + n])))
  }

  lemma BytesSizeIsLittleEndian(s: seq<byte>)
    requires |s| == 8
    ensures BytesSize(s) == LittleEndian(s)
  {
    var b := s[4..];
    BytesIntIsLittleEndian(s[..4]);
    BytesIntIsLittleEndian(b);
    assert s[1..][1..] == s[2..] && s[2..][1..] == s[3..] && s[3..][1..] == b;
    assert LittleEndian(s[3..]) == s[3] as int + 256 * LittleEndian(b);
    assert LittleEndian(s[2..]) == s[2] as int + 256 * LittleEndian(s[3..]);
    assert LittleEndian(s[1..]) == s[1] as int + 256 * LittleEndian(s[2..]);
  }

  /** What is read of any record, intact or not: there is a result exactly if the length field stays
      inside the record. */
  lemma UnmarshallReads(entry: seq<byte>)
    requires |entry| == MAX_JOURNAL_ENTRY_SIZE
    ensures var n, t := LittleEndian(entry[4..12]), Unmarshall(entry);
      && (t.Some? <==> n + 21 <= |entry|)
      && (t.Some? ==>
            && t.value.txid == LittleEndian(entry[..4]) && t.value.data == entry[12..12 + n]
            && t.value.valid == LittleEndian(entry[13 + n..17 + n]) && t.value.committed == LittleEndian(entry[17 + n..21 + n]))
  {
    BytesSizeIsLittleEndian(entry[4..12]);
    BytesIntIsLittleEndian(entry[..4]);
    var n := BytesSize(entry[4..12]);
    if n + 21 <= |entry| {
      BytesIntIsLittleEndian(entry[13 + n..17 + n]);
      BytesIntIsLittleEndian(entry[17 + n..21 + n]);
    }
  }

  lemma RecordRoundTrip(t: Tx)
    requires Loggable(t)
    ensures Unmarshall(Record(t)) == Some(t)
  {
    var e, n := Record(t), |t.data|;
    IntRoundTrip(t.txid);
    IntRoundTrip(t.valid);
    IntRoundTrip(t.committed);
    SizeRoundTrip(n);
    assert e[..4] == IntBytes(t.txid) && e[4..12] == SizeBytes(n);
    assert e[12..12 + n] == t.data;
    assert e[13 + n..17 + n] == IntBytes(t.valid) && e[17 + n..21 + n] == IntBytes(t.committed);
  }

  /** Where the fields are in a record. */
  lemma RecordLayout(t: Tx)
    requires Loggable(t)
    ensures var e, n := Record(t), 12 + |t.data|;
      && LittleEndian(e[..4]) == t.txid && LittleEndian(e[4..8]) == |t.data| && e[8..12] == Zeros(4)
      && e[12..n] == t.data && e[n] == NUL
      && LittleEndian(e[n + 1..n + 5]) == t.valid && LittleEndian(e[n + 5..n + 9]) == t.committed
      && e[n + 9] == NEWLINE && forall i :: n + 10 <= i < |e| ==> e[i] == NUL
  {
    var e, n := Record(t), 12 + |t.data|;
    assert e[..4] == IntBytes(t.txid) && e[4..8] == IntBytes(|t.data|) && e[8..12] == Zeros(4);
    assert e[12..n] == t.data;
    assert e[n + 1..n + 5] == IntBytes(t.valid) && e[n + 5..n + 9] == IntBytes(t.committed);
    IntBytesAreLittleEndian(t.txid);
    IntBytesAreLittleEndian(|t.data|);
    IntBytesAreLittleEndian(t.valid);
    IntBytesAreLittleEndian(t.committed);
  }

  /** What the recovery loop decodes: full records in turn, until a short read. */
  function Decoded(log: seq<byte>): Option<seq<Tx>> {
    if |log| < MAX_JOURNAL_ENTRY_SIZE then Some([])
    else
      var first := Unmarshall(log[..MAX_JOURNAL_ENTRY_SIZE]);
      var rest := Decoded(log[MAX_JOURNAL_ENTRY_SIZE..]);
      if first.None? || rest.None? then None else Some([first.value] + rest.value)
  }

  lemma DecodeFirst(entry: seq<byte>, rest: seq<byte>, t: Tx, ts: seq<Tx>)
    requires |entry| == MAX_JOURNAL_ENTRY_SIZE && Unmarshall(entry) == Some(t) && Decoded(rest) == Some(ts)
    ensures Decoded(entry + rest) == Some([t] + ts)
  {
    var log := entry + rest;
    assert log[..MAX_JOURNAL_ENTRY_SIZE] == entry && log[MAX_JOURNAL_ENTRY_SIZE..] == rest;
  }

  lemma Regroup(a: seq<byte>, b: seq<byte>, c: seq<byte>)
    ensures a + b + c == a + (b + c)
  {}

  /** Recovery decodes exactly the logged transactions, in order, whatever a crash has left of one
      more record. */
  lemma {:induction false} RecoveryDecodesLog(txs: seq<Tx>, torn: seq<byte>)
    requires AllLoggable(txs) && |torn| < MAX_JOURNAL_ENTRY_SIZE
    ensures Decoded(Log(txs) + torn) == Some(txs)
  {
    if txs == [] {
      assert [] + torn == torn;
    } else {
      var t, ts := txs[0], txs[1..];
      RecoveryDecodesLog(ts, torn);
      RecordRoundTrip(t);
      DecodeFirst(Record(t), Log(ts) + torn, t, ts);
      Regroup(Record(t), Log(ts), torn);
      assert txs == [t] + ts;
    }
  }

  // ---------------------------------------------------------------- replay

  datatype Command =
    | Get(key: seq<byte>)
    | Put(key: seq<byte>, value: Option<seq<byte>>)
    | Insert(key: seq<byte>, value: Option<seq<byte>>)
    | Delete(key: seq<byte>)

  predicate Spells(bytes: seq<byte>, s: string) {
    |bytes| == |s| && forall i :: 0 <= i < |s| ==> bytes[i] as int == s[i] as int
  }

  /** The names of the requests in ASCII. */
  const GET: seq<byte> := [71, 69, 84]
  const PUT: seq<byte> := [80, 85, 84]
  const INSERT: seq<byte> := [73, 78, 83, 69, 82, 84]
  const DELETE: seq<byte> := [68, 69, 76, 69, 84, 69]

  /** `strncmp(word, name, strlen(name)) == 0`. */
  predicate StartsWith(word: seq<byte>, name: seq<byte>) {
    name <= word
  }

  /** The request three tokens stand for, if the replay loop recognises it. */
  function Recognised(word: seq<byte>, key: seq<byte>, value: Option<seq<byte>>): Option<Command> {
    if StartsWith(word, GET) then Some(Get(key))
    else if StartsWith(word, PUT) then Some(Put(key, value))
    else if StartsWith(word, INSERT) then Some(Insert(key, value))
    else if StartsWith(word, DELETE) then Some(Delete(key))
    else None
  }

  function Parse(data: seq<byte>): Option<Command> {
    var t := Strtok(data + [NUL]);
    var k := Strtok(t.rest);
    var v := Strtok(k.rest);
    if t.token.None? || k.token.None? then None else Recognised(t.token.value, k.token.value, v.token)
  }

  predicate Word(s: seq<byte>) {
    s != [] && SPACE !in s && CString(s)
  }

  function Line(name: seq<byte>, key: seq<byte>, value: seq<byte>): seq<byte> {
    name + [SPACE] + key + [SPACE] + value
  }

  /** A logged line is taken apart into its three words again. */
  lemma LineRoundTrip(name: seq<byte>, key: seq<byte>, value: seq<byte>)
    requires Word(name) && Word(key) && Word(value)
    ensures var t := Strtok(Line(name, key, value) + [NUL]);
      var k := Strtok(t.rest);
      t.token == Some(name) && k.token == Some(key) && Strtok(k.rest).token == Some(value)
  {
    StrtokTakesWord(name, SPACE, key + [SPACE] + value + [NUL]);
    assert Line(name, key, value) + [NUL] == name + [SPACE] + (key + [SPACE] + value + [NUL]);
    StrtokTakesWord(key, SPACE, value + [NUL]);
    assert key + [SPACE] + value + [NUL] == key + [SPACE] + (value + [NUL]);
    StrtokTakesWord(value, NUL, []);
    assert value + [NUL] == value + [NUL] + [];
  }

  /** A logged line is replayed as the request whose name it starts with. */
  lemma WriteLinesParse(name: seq<byte>, key: seq<byte>, value: seq<byte>)
    requires Word(name) && Word(key) && Word(value)
    ensures Parse(Line(name, key, value)) == Recognised(name, key, Some(value))
    ensures name == PUT ==> Parse(Line(name, key, value)) == Some(Put(key, Some(value)))
    ensures name == INSERT ==> Parse(Line(name, key, value)) == Some(Insert(key, Some(value)))
  {
    LineRoundTrip(name, key, value);
    assert PUT[0] != GET[0] && INSERT[0] != GET[0] && INSERT[0] != PUT[0];
  }

  /** What follows the first two words of a line: nothing, or a space and anything. */
  predicate Tail(s: seq<byte>) {
    s == [] || s[0] == SPACE
  }

  /** The third token of a line. */
  function ThirdToken(tail: seq<byte>): Option<seq<byte>>
    requires Tail(tail)
  {
    if tail == [] then None else Strtok(tail[1..] + [NUL]).token
  }

  lemma TwoWords(name: seq<byte>, key: seq<byte>, tail: seq<byte>)
    requires Word(name) && Word(key) && Tail(tail)
    ensures var t := Strtok(name + [SPACE] + key + tail + [NUL]);
      var k := Strtok(t.rest);
      t.token == Some(name) && k.token == Some(key) && Strtok(k.rest).token == ThirdToken(tail)
  {
    assert name + [SPACE] + key + tail + [NUL] == name + [SPACE] + (key + tail + [NUL]);
    StrtokTakesWord(name, SPACE, key + tail + [NUL]);
    WordAndTail(key, tail);
  }

  lemma WordAndTail(key: seq<byte>, tail: seq<byte>)
    requires Word(key) && Tail(tail)
    ensures var k := Strtok(key + tail + [NUL]); k.token == Some(key) && Strtok(k.rest).token == ThirdToken(tail)
  {
    if tail == [] {
      StrtokTakesWord(key, NUL, []);
      assert key + tail + [NUL] == key + [NUL] + [];
      StrtokFindsNone([NUL] + []);
    } else {
      StrtokTakesWord(key, SPACE, tail[1..] + [NUL]);
      assert key + tail + [NUL] == key + [SPACE] + (tail[1..] + [NUL]);
    }
  }

  /** A line is replayed as the request its first word starts with: lookup and deletion whatever
      follows the key, the writes with the next word, if there is one; and not at all if it starts with
      none of the four names. */
  lemma LinesParse(name: seq<byte>, key: seq<byte>, tail: seq<byte>)
    requires Word(name) && Word(key) && Tail(tail)
    ensures var line := name + [SPACE] + key + tail;
      && (GET <= name ==> Parse(line) == Some(Get(key)))
      && (DELETE <= name ==> Parse(line) == Some(Delete(key)))
      && (PUT <= name ==> Parse(line) == Some(Put(key, ThirdToken(tail))))
      && (INSERT <= name ==> Parse(line) == Some(Insert(key, ThirdToken(tail))))
      && (!(GET <= name) && !(PUT <= name) && !(INSERT <= name) && !(DELETE <= name) ==> Parse(line) == None)
  {
    TwoWords(name, key, tail);
    NamesDiffer(name);
  }

  /** No word starts with two of the names. */
  lemma NamesDiffer(word: seq<byte>)
    ensures Spells(GET, "GET") && Spells(PUT, "PUT") && Spells(INSERT, "INSERT") && Spells(DELETE, "DELETE")
    ensures GET <= word ==> word != [] && word[0] == 71
    ensures PUT <= word ==> word != [] && word[0] == 80
    ensures INSERT <= word ==> word != [] && word[0] == 73
    ensures DELETE <= word ==> word != [] && word[0] == 68
  {
    assert GET <= word ==> word[0] == GET[0];
    assert PUT <= word ==> word[0] == PUT[0];
    assert INSERT <= word ==> word[0] == INSERT[0];
    assert DELETE <= word ==> word[0] == DELETE[0];
  }

  /** A line without a key is not replayed. */
  lemma KeylessLineIsIgnored(name: seq<byte>, k: nat)
    requires Word(name)
    ensures Parse(name) == None && Parse(name + [SPACE] + Spaces(k)) == None && Parse(Spaces(k)) == None
  {
    StrtokTakesWord(name, NUL, []);
    assert name + [NUL] == name + [NUL] + [];
    StrtokFindsNone([NUL] + []);
    StrtokTakesWord(name, SPACE, Spaces(k) + [NUL]);
    assert name + [SPACE] + Spaces(k) + [NUL] == name + [SPACE] + (Spaces(k) + [NUL]);
    StrtokSkipsSpaces(k, [NUL]);
    StrtokFindsNone([NUL]);
  }

  /** The first three words of a line, whatever follows them. */
  lemma ThreeWords(name: seq<byte>, key: seq<byte>, value: seq<byte>, more: seq<byte>)
    requires Word(name) && Word(key) && Word(value)
    ensures var t := Strtok(name + [SPACE] + (key + [SPACE] + (value + [SPACE] + more)));
      var k := Strtok(t.rest);
      t.token == Some(name) && k.token == Some(key) && Strtok(k.rest).token == Some(value)
  {
    StrtokTakesWord(name, SPACE, key + [SPACE] + (value + [SPACE] + more));
    StrtokTakesWord(key, SPACE, value + [SPACE] + more);
    StrtokTakesWord(value, SPACE, more);
  }

  lemma Regrouped(name: seq<byte>, key: seq<byte>, value: seq<byte>, tag: seq<byte>)
    ensures Line(name, key, value) + [SPACE] + tag + [NUL] == name + [SPACE] + (key + [SPACE] + (value + [SPACE] + (tag + [NUL])))
  {}

  /** A request with a tag behind its value is replayed without it. */
  lemma TaggedLineParses(name: seq<byte>, key: seq<byte>, value: seq<byte>, tag: seq<byte>)
    requires Word(name) && Word(key) && Word(value)
    ensures Parse(Line(name, key, value) + [SPACE] + tag) == Recognised(name, key, Some(value))
    ensures name == PUT ==> Parse(Line(name, key, value) + [SPACE] + tag) == Some(Put(key, Some(value)))
  {
    ThreeWords(name, key, value, tag + [NUL]);
    Regrouped(name, key, value, tag);
    assert PUT[0] != GET[0];
  }

  /** The commands replayed: those of the valid transactions, in order. */
  function Replayed(txs: seq<Tx>): seq<Command> {
    if txs == [] then []
    else (if txs[0].valid != 0 then Recorded(txs[0].data) else []) + Replayed(txs[1..])
  }

  function Recorded(data: seq<byte>): seq<Command> {
    var c := Parse(data);
    if c.Some? then [c.value] else []
  }

  lemma {:induction false} ReplayedAppend(a: seq<Tx>, b: seq<Tx>)
    ensures Replayed(a + b) == Replayed(a) + Replayed(b)
  {
    if a == [] {
      assert a + b == b;
    } else {
      assert (a + b)[1..] == a[1..] + b;
      ReplayedAppend(a[1..], b);
    }
  }

  /** A valid transaction whose line is a request is replayed in its place; any other is not. */
  lemma ReplayedInPlace(before: seq<Tx>, t: Tx, after: seq<Tx>)
    ensures Replayed(before + [t] + after) == Replayed(before)
      + (if t.valid != 0 && Parse(t.data).Some? then [Parse(t.data).value] else []) + Replayed(after)
  {
    ReplayedAppend(before + [t], after);
    ReplayedAppend(before, [t]);
    assert Replayed([t]) == (if t.valid != 0 then Recorded(t.data) else []) + Replayed([t][1..]);
  }

  /** A logged request is replayed between what was logged before and after it. */
  lemma LoggedIsReplayed(before: seq<Tx>, t: Tx, after: seq<Tx>, torn: seq<byte>)
    requires AllLoggable(before) && Loggable(t) && AllLoggable(after) && |torn| < MAX_JOURNAL_ENTRY_SIZE
    ensures var txs := before + [t] + after;
      && AllLoggable(txs) && Decoded(Log(txs) + torn) == Some(txs)
      && Replayed(txs) == Replayed(before)
           + (if t.valid != 0 && Parse(t.data).Some? then [Parse(t.data).value] else []) + Replayed(after)
  {
    RecoveryDecodesLog(before + [t] + after, torn);
    ReplayedInPlace(before, t, after);
  }

  lemma {:induction false} LogAppend(txs: seq<Tx>, t: Tx)
    requires AllLoggable(txs) && Loggable(t)
    ensures Log(txs + [t]) == Log(txs) + Record(t)
  {
    if txs == [] {
      assert txs + [t] == [t];
    } else {
      assert (txs + [t])[1..] == txs[1..] + [t];
      LogAppend(txs[1..], t);
    }
  }

  // ---------------------------------------------------------------- the log file

  function Min(a: nat, b: nat): nat { if a < b then a else b }

  class LogFile {
    var contents: seq<byte>

    constructor ()
      ensures contents == []
    {
      contents := [];
    }

    /** One write; a crash stops it after `budget` bytes, and stops every later one. */
    method Write(bytes: seq<byte>, budget: nat) returns (left: nat)
      modifies this
      ensures contents == old(contents) + bytes[..Min(budget, |bytes|)]
      ensures left == budget - Min(budget, |bytes|)
    {
      var n := Min(budget, |bytes|);
      contents := contents + bytes[..n];
      left := budget - n;
    }

    /** `log_transaction`, up to a crash after `budget` bytes. */
    method LogTransaction(txid: int, data: seq<byte>, budget: nat)
      requires Loggable(Tx(txid, data, 1, 1))
      modifies this
      ensures contents == old(contents) + Record(Tx(txid, data, 1, 1))[..Min(budget, MAX_JOURNAL_ENTRY_SIZE)]
    {
      ghost var was := contents;
      var left := Write(IntBytes(txid), budget);
      var written := 4;
      left := WriteNext(SizeBytes(|data|), budget, left, was, IntBytes(txid));
      left := WriteNext(data, budget, left, was, IntBytes(txid) + SizeBytes(|data|));
      left := WriteNext([NUL], budget, left, was, IntBytes(txid) + SizeBytes(|data|) + data);
      left := WriteNext(IntBytes(1), budget, left, was, IntBytes(txid) + SizeBytes(|data|) + data + [NUL]);
      left := WriteNext(IntBytes(1), budget, left, was, IntBytes(txid) + SizeBytes(|data|) + data + [NUL] + IntBytes(1));
      left := WriteNext([NEWLINE], budget, left, was,
        IntBytes(txid) + SizeBytes(|data|) + data + [NUL] + IntBytes(1) + IntBytes(1));
      written := 22 + |data|;
      left := WriteNext(Zeros(MAX_JOURNAL_ENTRY_SIZE - written), budget, left, was, Body(Tx(txid, data, 1, 1)));
    }

    /** The next write of a record of which `done` has been issued. */
    method WriteNext(bytes: seq<byte>, ghost budget: nat, left0: nat, ghost was: seq<byte>, ghost done: seq<byte>)
      returns (left: nat)
      requires contents == was + done[..Min(budget, |done|)] && left0 == budget - Min(budget, |done|)
      modifies this
      ensures contents == was + (done + bytes)[..Min(budget, |done + bytes|)]
      ensures left == budget - Min(budget, |done + bytes|)
    {
      left := Write(bytes, left0);
    }

    /** `recover`: replays the log and removes it.  A record whose length points outside it is read
        blindly by the source; the model stops there. */
    method Recover() returns (ok: bool, commands: seq<Command>)
      modifies this
      ensures ok <==> Decoded(old(contents)).Some?
      ensures ok ==> commands == Replayed(Decoded(old(contents)).value) && contents == []
    {
      ok, commands := true, [];
      var offset := 0;
      ghost var all := Decoded(contents);
      assert contents[0..] == contents;
      while offset + MAX_JOURNAL_ENTRY_SIZE <= |contents|
        invariant offset <= |contents| && contents == old(contents)
        invariant Decoded(contents[offset..]).Some? <==> all.Some?
        invariant all.Some? ==> commands + Replayed(Decoded(contents[offset..]).value) == Replayed(all.value)
        decreases |contents| - offset
      {
        ghost var rest := contents[offset..];
        var entry := contents[offset..offset + MAX_JOURNAL_ENTRY_SIZE];
        FirstRecord(rest, entry, contents[offset + MAX_JOURNAL_ENTRY_SIZE..]);
        var tx := Unmarshall(entry);
        if tx.None? {
          return false, commands;
        }
        offset := offset + MAX_JOURNAL_ENTRY_SIZE;
        commands := Replay(tx.value, commands, if all.Some? then Decoded(contents[offset..]).value else []);
      }
      contents := [];
    }
  }

  lemma FirstRecord(log: seq<byte>, entry: seq<byte>, rest: seq<byte>)
    requires log == entry + rest && |entry| == MAX_JOURNAL_ENTRY_SIZE
    ensures Decoded(log).Some? <==> Unmarshall(entry).Some? && Decoded(rest).Some?
    ensures Decoded(log).Some? ==> Decoded(log).value == [Unmarshall(entry).value] + Decoded(rest).value
  {
    assert log[..MAX_JOURNAL_ENTRY_SIZE] == entry && log[MAX_JOURNAL_ENTRY_SIZE..] == rest;
  }

  lemma ReplayedFirst(tx: Tx, rest: seq<Tx>)
    ensures Replayed([tx] + rest) == (if tx.valid != 0 then Recorded(tx.data) else []) + Replayed(rest)
  {
    assert ([tx] + rest)[1..] == rest;
  }

  /** One record of the replay loop: invalid transactions and unknown requests are passed over. */
  method Replay(tx: Tx, commands0: seq<Command>, ghost rest: seq<Tx>) returns (commands: seq<Command>)
    ensures commands + Replayed(rest) == commands0 + Replayed([tx] + rest)
  {
    commands := commands0;
    ReplayedFirst(tx, rest);
    if tx.valid == 0 {
      return;
    }
    var c := Parse(tx.data);
    if c.Some? {
      commands := commands + [c.value];
    }
  }

  /** A log of whole records followed by whatever a crash left of one more. */
  lemma CrashedLogIsRecovered(txs: seq<Tx>, t: Tx, budget: nat)
    requires AllLoggable(txs) && Loggable(t)
    ensures var log := Log(txs) + Record(t)[..Min(budget, MAX_JOURNAL_ENTRY_SIZE)];
      Decoded(log) == Some(if budget < MAX_JOURNAL_ENTRY_SIZE then txs else txs + [t])
  {
    if budget < MAX_JOURNAL_ENTRY_SIZE {
      RecoveryDecodesLog(txs, Record(t)[..budget]);
    } else {
      assert Record(t)[..MAX_JOURNAL_ENTRY_SIZE] == Record(t);
      LogAppend(txs, t);
      RecoveryDecodesLog(txs + [t], []);
      assert Log(txs) + Record(t) == Log(txs + [t]) + [];
    }
  }
}
