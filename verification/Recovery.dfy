/** A server with its journal: what a crash loses and what recovery brings back (journal.c, with the
    request loop of server-part1.c and the start-up of server-main.c). */
module Recovery {
  import opened Wrappers
  import opened Records
  import opened Merge
  import opened SparseIndex
  import opened Avl
  import opened AvlOrder
  import opened Generations
  import opened Store
  import opened Bytes
  import Journal
  import LruCache

  predicate IsWrite(r: Request) {
    r.PutRequest? || r.InsertRequest?
  }

  /** The server, the requests in its log, and the write that has been logged but not carried out.
      Writers take turns, so that there is at most one. */
  datatype Machine = Machine(store: State, log: seq<Request>, pending: Option<Request>)

  /** A write takes two steps, under different mutexes; lookups and the timer may come in between. */
  datatype Event = LogWrite(r: Request) | CarryOut | Read(key: string) | Tick

  predicate ValidEvent(e: Event) {
    && (e.LogWrite? ==> IsWrite(e.r) && ValidRequest(e.r))
    && (e.Read? ==> WellKeyed(e.key))
  }

  predicate Writes(log: seq<Request>) {
    forall i :: 0 <= i < |log| ==> IsWrite(log[i]) && ValidRequest(log[i])
  }

  ghost predicate Proper(m: Machine) {
    Sane(m.store) && Writes(m.log) && (m.pending.Some? ==> IsWrite(m.pending.value) && ValidRequest(m.pending.value))
  }

  /** A flush, which gives the disk a new file number, removes the whole log. */
  predicate Flushes(s: State, t: State) {
    t.disk.counter != s.disk.counter
  }

  function Carry(m: Machine, r: Request): (n: Option<Machine>)
    requires Proper(m) && ValidRequest(r)
    ensures n.Some? ==> Proper(n.value)
  {
    match Step(m.store, r, REPAIRED)
    case Down => None
    case Next(s, _) => Some(m.(store := s, log := if Flushes(m.store, s) then [] else m.log))
  }

  /** The next state; none if the event is not possible or brings the server down. */
  function Handle(m: Machine, e: Event): (n: Option<Machine>)
    requires Proper(m) && ValidEvent(e)
    ensures n.Some? ==> Proper(n.value)
  {
    match e
    case LogWrite(r) => if m.pending.Some? then None else Some(Machine(m.store, m.log + [r], Some(r)))
    case CarryOut => if m.pending.None? then None else Carry(m.(pending := None), m.pending.value)
    case Read(key) => Carry(m, GetRequest(key))
    case Tick => Carry(m, Timer)
  }

  ghost predicate ValidEvents(events: seq<Event>) {
    forall i :: 0 <= i < |events| ==> ValidEvent(events[i])
  }

  ghost function ServeFrom(m: Machine, events: seq<Event>): (n: Option<Machine>)
    requires Proper(m) && ValidEvents(events)
    ensures n.Some? ==> Proper(n.value)
  {
    if events == [] then Some(m)
    else
      var before := ServeFrom(m, events[..|events| - 1]);
      if before.None? then None else Handle(before.value, events[|events| - 1])
  }

  function FirstMachine(): Machine {
    Machine(EmptyStore(), [], None)
  }

  ghost function Serve(events: seq<Event>): (n: Option<Machine>)
    requires ValidEvents(events)
    ensures n.Some? ==> Proper(n.value)
  {
    ServeFrom(FirstMachine(), events)
  }

  lemma OneMore(m: Machine, events: seq<Event>, e: Event)
    requires Proper(m) && ValidEvents(events) && ValidEvent(e) && ServeFrom(m, events).Some?
    ensures ValidEvents(events + [e]) && ServeFrom(m, events + [e]) == Handle(ServeFrom(m, events).value, e)
  {
    assert (events + [e])[..|events|] == events;
  }

  // ---------------------------------------------------------------- recovery

  /** Memtable and cache are gone after a crash. */
  function Restarted(d: Disk): State {
    State(Null, d, [])
  }

  /** The replay of a log.  It happens before the metadata of the files is loaded, so that a replay
      that fills the memtable and flushes it brings the server down. */
  ghost function Replay(d: Disk, log: seq<Request>): (t: Option<State>)
    requires Readable(d) && Writes(log)
    ensures t.Some? ==> Sane(t.value)
  {
    if log == [] then Some(Restarted(d))
    else
      var before := Replay(d, log[..|log| - 1]);
      if before.None? then None
      else
        var o := Step(before.value, log[|log| - 1], REPAIRED);
        if o.Down? || Flushes(before.value, o.state) then None else Some(o.state)
  }

  /** The server after a crash and `recover`.  The cache that replay has filled is cut off when the
      server starts. */
  ghost function Recovered(m: Machine): (t: Option<State>)
    requires Proper(m)
    ensures t.Some? ==> Sane(t.value)
  {
    var t := Replay(m.store.disk, m.log);
    if t.None? then None else Some(t.value.(cache := []))
  }

  /** A PUT counts always, an INSERT if its key has no value yet. */
  function Applied(values: map<string, string>, r: Request): map<string, string>
    requires IsWrite(r)
  {
    if r.InsertRequest? && r.key in values then values else values[r.key := r.value]
  }

  /** The values a log stands for. */
  function Folded(log: seq<Request>): map<string, string>
    requires Writes(log)
  {
    if log == [] then map[] else Applied(Folded(log[..|log| - 1]), log[|log| - 1])
  }

  /** The value of a key, from memtable or file. */
  ghost function ValueIn(s: State, k: string): Option<string>
    requires Readable(s.disk)
  {
    ValueOf(Stored(s.tree, s.disk, k))
  }

  /** Both states hold the same values. */
  ghost predicate SameValues(s: State, t: State)
    requires Readable(s.disk) && Readable(t.disk)
  {
    forall k :: ValueIn(s, k) == ValueIn(t, k)
  }

  /** What a file holds for a key once the values of a log are put over it. */
  ghost function Over(values: map<string, string>, d: Disk, k: string): Option<string>
    requires Readable(d)
  {
    if k in values then Some(values[k]) else ValueOf(Find(Current(d), k))
  }

  ghost predicate IsOver(t: State, values: map<string, string>, d: Disk)
    requires Readable(t.disk) && Readable(d)
  {
    forall k :: ValueIn(t, k) == Over(values, d, k)
  }

  /** The memtable holds exactly these values. */
  ghost predicate TreeHolds(t: Tree, values: map<string, string>) {
    && Size(t) == |values|
    && forall k :: Find(InOrder(t), k) == if k in values then Some(Record(k, values[k], 0)) else None
  }

  lemma AddKey(values: map<string, string>, k: string, v: string)
    ensures |values[k := v]| == if k in values then |values| else |values| + 1
  {
    assert values[k := v].Keys == values.Keys + {k};
    if k in values {
      assert values[k := v].Keys == values.Keys;
    }
  }

  /** A flush of anything gives the disk a new number; a flush of nothing leaves it alone. */
  lemma DumpCounts(d: Disk, t: Tree)
    requires Readable(d) && AllWellKeyed(InOrder(t)) && Dump(d, t, REPAIRED).Some?
    ensures var e := Dump(d, t, REPAIRED).value;
      if t.Null? then e == d else e.counter != d.counter
  {}

  /** An INSERT that is rejected, for whatever reason. */
  predicate Rejected(s: State, r: Request) {
    r.InsertRequest? && (LruCache.Lookup(s.cache, r.key).Some? || Find(InOrder(s.tree), r.key).Some?)
  }

  /** The write fills the memtable. */
  predicate Fills(s: State, r: Request)
    requires IsWrite(r)
  {
    !Rejected(s, r) && Find(InOrder(s.tree), r.key).None? && Size(s.tree) + 1 == MAX_C0_SIZE
  }

  /** The memtable after a write that does not fill it. */
  function TreeAfterWrite(s: State, r: Request): Tree
    requires IsWrite(r)
  {
    if Rejected(s, r) then s.tree
    else if Find(InOrder(s.tree), r.key).Some? then Update(s.tree, r.key, r.value, 0)
    else Insert(s.tree, r.key, r.value, 0)
  }

  lemma FillingFlushes(s: State, r: Request)
    requires Sound(s) && IsWrite(r) && ValidRequest(r) && Fills(s, r)
    ensures var a := Add(s, r.key, r.value, REPAIRED);
      a.Some? && Flushes(s, a.value) && a.value.tree == Null
  {
    var t := Insert(s.tree, r.key, r.value, 0);
    InsertMeaning(s.tree, r.key, r.value);
    DumpMeaning(s.disk, t);
    DumpCounts(s.disk, t);
  }

  lemma WriteFills(s: State, r: Request)
    requires Sound(s) && IsWrite(r) && ValidRequest(r) && Fills(s, r)
    ensures var o := Step(s, r, REPAIRED); o.Next? && Flushes(s, o.state) && o.state.tree == Null
  {
    SearchIsFind(s.tree, r.key);
    FillingFlushes(s, r);
  }

  lemma WriteWithoutFilling(s: State, r: Request)
    requires Sound(s) && IsWrite(r) && ValidRequest(r) && !Fills(s, r)
    ensures var o := Step(s, r, REPAIRED);
      && o.Next? && o.state.tree == TreeAfterWrite(s, r) && o.state.disk == s.disk
      && (Rejected(s, r) ==> o.state.cache == s.cache || o.state.cache == LruCache.Touched(s.cache, r.key))
      && (!Rejected(s, r) ==> o.state.cache == LruCache.WithPut(s.cache, r.key, r.value))
      && (o.reply == Success <==> !Rejected(s, r))
  {
    SearchIsFind(s.tree, r.key);
    if Find(InOrder(s.tree), r.key).None? {
      InsertMeaning(s.tree, r.key, r.value);
    }
  }

  /** `t` holds the value of the write, unless it was rejected, and all other values of `s`. */
  ghost predicate WriteEffect(s: State, r: Request, t: State)
    requires Readable(s.disk) && Readable(t.disk) && IsWrite(r)
  {
    forall k :: ValueIn(t, k) == (if k == r.key && !Rejected(s, r) then Some(r.value) else ValueIn(s, k))
  }

  /** Whatever a write does, it keeps the invariant of the store, and what it stores is as it replies. */
  lemma WriteMeaning(s: State, r: Request)
    requires Sound(s) && IsWrite(r) && ValidRequest(r)
    ensures var o := Step(s, r, REPAIRED);
      && o.Next? && Sound(o.state) && (Flushes(s, o.state) <==> Fills(s, r))
      && (o.reply == Success <==> !Rejected(s, r))
      && WriteEffect(s, r, o.state)
  {
    if r.PutRequest? {
      PutStores(s, r.key, r.value);
    } else {
      InsertStores(s, r.key, r.value);
    }
    WriteReply(s, r);
  }

  lemma WriteReply(s: State, r: Request)
    requires Sound(s) && IsWrite(r) && ValidRequest(r)
    ensures var o := Step(s, r, REPAIRED);
      o.Next? && (Flushes(s, o.state) <==> Fills(s, r)) && (o.reply == Success <==> !Rejected(s, r))
  {
    if Fills(s, r) {
      WriteFills(s, r);
      SearchIsFind(s.tree, r.key);
    } else {
      WriteWithoutFilling(s, r);
    }
  }

  /** Every cached key is in the memtable. */
  ghost predicate CacheBelow(t: State) {
    forall k :: LruCache.Lookup(t.cache, k).Some? ==> Find(InOrder(t.tree), k).Some?
  }

  /** An INSERT of a key that only the cache knows; it is rejected. */
  ghost predicate CacheOnlyDuplicate(s: State, r: Request) {
    r.InsertRequest? && LruCache.Lookup(s.cache, r.key).Some? && Find(InOrder(s.tree), r.key).None?
  }

  /** The values of the memtable after one more, in place or new. */
  lemma UpdateHolds(t: Tree, values: map<string, string>, k: string, v: string)
    requires SoundTree(t) && WellKeyed(k) && TreeHolds(t, values) && k in values
    ensures TreeHolds(Update(t, k, v, 0), values[k := v])
  {
    AddKey(values, k, v);
    assert Find(InOrder(t), k).Some?;
    UpdateMeaning(t, k, v);
  }

  lemma InsertHolds(t: Tree, values: map<string, string>, k: string, v: string)
    requires SoundTree(t) && WellKeyed(k) && TreeHolds(t, values) && k !in values
    ensures TreeHolds(Insert(t, k, v, 0), values[k := v])
  {
    AddKey(values, k, v);
    assert Find(InOrder(t), k).None?;
    InsertMeaning(t, k, v);
  }

  lemma HoldsKey(t: Tree, values: map<string, string>, k: string)
    requires TreeHolds(t, values)
    ensures Find(InOrder(t), k).Some? <==> k in values
  {}

  /** One write, on the values of the memtable. */
  lemma WriteFolds(s: State, values: map<string, string>, r: Request)
    requires SoundTree(s.tree) && IsWrite(r) && ValidRequest(r) && TreeHolds(s.tree, values)
    requires !CacheOnlyDuplicate(s, r)
    ensures TreeHolds(TreeAfterWrite(s, r), Applied(values, r))
  {
    HoldsKey(s.tree, values, r.key);
    if Rejected(s, r) {
      assert Applied(values, r) == values;
    } else if r.key in values {
      UpdateHolds(s.tree, values, r.key, r.value);
    } else {
      InsertHolds(s.tree, values, r.key, r.value);
    }
  }

  lemma CacheStaysBelow(t: State, r: Request)
    requires Sound(t) && IsWrite(r) && ValidRequest(r) && CacheBelow(t) && !Fills(t, r)
    ensures var o := Step(t, r, REPAIRED); o.Next? && CacheBelow(o.state)
  {
    WriteWithoutFilling(t, r);
    if Find(InOrder(t.tree), r.key).Some? {
      UpdateMeaning(t.tree, r.key, r.value);
    } else {
      InsertMeaning(t.tree, r.key, r.value);
    }
    LruCache.PutMeaning(t.cache, r.key, r.value);
    LruCache.TouchedKeeps(t.cache, r.key);
  }

  /** One replayed write. */
  lemma ReplayStep(t: State, values: map<string, string>, r: Request)
    requires Sound(t) && IsWrite(r) && ValidRequest(r) && TreeHolds(t.tree, values) && CacheBelow(t) && !Fills(t, r)
    ensures var o := Step(t, r, REPAIRED);
      && o.Next? && Sound(o.state) && o.state.disk == t.disk && CacheBelow(o.state)
      && TreeHolds(o.state.tree, Applied(values, r))
  {
    WriteMeaning(t, r);
    WriteWithoutFilling(t, r);
    WriteFolds(t, values, r);
    CacheStaysBelow(t, r);
  }

  lemma FoldedGrows(log: seq<Request>)
    requires Writes(log) && log != []
    ensures |Folded(log[..|log| - 1])| <= |Folded(log)|
  {
    var r := log[|log| - 1];
    AddKey(Folded(log[..|log| - 1]), r.key, r.value);
  }

  /** Replay rebuilds exactly the values of the log, and fails exactly when they fill a memtable. */
  lemma {:induction false} ReplayIsFold(d: Disk, log: seq<Request>)
    requires SoundDisk(d) && Writes(log)
    ensures Replay(d, log).Some? <==> |Folded(log)| < MAX_C0_SIZE
    ensures Replay(d, log).Some? ==>
      var t := Replay(d, log).value; Sound(t) && t.disk == d && TreeHolds(t.tree, Folded(log)) && CacheBelow(t)
  {
    if log == [] {
      forall k { FindInNothing(k); }
    } else {
      var before, r := log[..|log| - 1], log[|log| - 1];
      ReplayIsFold(d, before);
      FoldedGrows(log);
      if Replay(d, before).Some? {
        var t := Replay(d, before).value;
        AddKey(Folded(before), r.key, r.value);
        if Fills(t, r) {
          WriteFills(t, r);
        } else {
          ReplayStep(t, Folded(before), r);
        }
      }
    }
  }

  /** Recovery succeeds exactly when the log has writes of fewer than 100 keys, and then puts the
      values of the log over the file. */
  lemma RecoveredIsFoldOverFile(m: Machine)
    requires Proper(m) && SoundDisk(m.store.disk)
    ensures Recovered(m).Some? <==> |Folded(m.log)| < MAX_C0_SIZE
    ensures Recovered(m).Some? ==>
      var t := Recovered(m).value;
      && Sound(t) && t.disk == m.store.disk && TreeHolds(t.tree, Folded(m.log)) && t.cache == []
      && IsOver(t, Folded(m.log), m.store.disk)
  {
    ReplayIsFold(m.store.disk, m.log);
  }

  // ---------------------------------------------------------------- what the log covers

  /** The log, put over the file, gives what the server holds. */
  ghost predicate Covers(log: seq<Request>, s: State)
    requires Writes(log) && Readable(s.disk)
  {
    IsOver(s, Folded(log), s.disk)
  }

  /** The record of the pending write is still in the log. */
  predicate Recorded(m: Machine) {
    m.pending.Some? && m.log != []
  }

  /** The records of the writes that have been carried out. */
  function Done(m: Machine): seq<Request> {
    if Recorded(m) then m.log[..|m.log| - 1] else m.log
  }

  /** What every event keeps.  A pending write is the last in the log, unless a flush in between has
      removed its record; then the memtable is empty. */
  ghost predicate Consistent(m: Machine) {
    && Proper(m) && Sound(m.store)
    && (Recorded(m) ==> m.log[|m.log| - 1] == m.pending.value)
    && (m.pending.Some? && !Recorded(m) ==> m.store.tree == Null)
  }

  lemma EmptyLogCoversFile(s: State)
    requires Readable(s.disk) && s.tree == Null
    ensures Covers([], s)
  {
    forall k { FindInNothing(k); }
  }

  lemma TickCounts(s: State)
    requires Sound(s)
    ensures var o := OnTimer(s, REPAIRED);
      o.Next? && o.state.tree == Null && o.state.cache == s.cache && (Flushes(s, o.state) <==> s.tree.Node?) && (s.tree.Null? ==> o.state == s)
  {
    DumpMeaning(s.disk, s.tree);
    DumpCounts(s.disk, s.tree);
  }

  lemma TickMeaning(s: State)
    requires Sound(s)
    ensures var o := OnTimer(s, REPAIRED);
      && o.Next? && Sound(o.state) && o.state.tree == Null && o.state.cache == s.cache
      && (Flushes(s, o.state) <==> s.tree.Node?)
      && (s.tree.Null? ==> o.state == s)
      && forall k :: Stored(o.state.tree, o.state.disk, k) == Stored(s.tree, s.disk, k)
  {
    TimerKeepsAll(s);
    TickCounts(s);
  }

  ghost predicate Kept(m: Machine, n: Machine) {
    Consistent(n) && (Consistent(m) && Covers(Done(m), m.store) ==> Covers(Done(n), n.store))
  }

  lemma LogWriteKeeps(m: Machine, r: Request)
    requires Consistent(m) && IsWrite(r) && ValidRequest(r) && Handle(m, LogWrite(r)).Some?
    ensures Kept(m, Handle(m, LogWrite(r)).value)
  {
    assert (m.log + [r])[..|m.log|] == m.log;
  }

  lemma ReadMeaning(s: State, key: string)
    requires Sound(s) && WellKeyed(key) && Store.Get(s, key, REPAIRED).Next?
    ensures var t := Store.Get(s, key, REPAIRED).state; Sound(t) && t.tree == s.tree && t.disk == s.disk
  {
    GetMeaning(s, key);
  }

  /** Only the cache differs. */
  lemma SameLayersKeep(m: Machine, s: State)
    requires Consistent(m) && Sound(s) && s.tree == m.store.tree && s.disk == m.store.disk
    ensures Kept(m, m.(store := s))
  {}

  lemma ReadKeeps(m: Machine, key: string)
    requires Consistent(m) && WellKeyed(key) && Handle(m, Read(key)).Some?
    ensures var n := Handle(m, Read(key)).value;
      Kept(m, n) && n == m.(store := n.store) && n.store.tree == m.store.tree && n.store.disk == m.store.disk
  {
    ReadMeaning(m.store, key);
    SameLayersKeep(m, Store.Get(m.store, key, REPAIRED).state);
  }

  lemma TickKeeps(m: Machine)
    requires Consistent(m)
    ensures var n := Handle(m, Tick);
      && n.Some? && Kept(m, n.value) && n.value.pending == m.pending && n.value.store.tree == Null
      && n.value.store.cache == m.store.cache
      && (if m.store.tree.Null? then n.value == m else n.value.log == [])
      && forall k :: Stored(Null, n.value.store.disk, k) == Stored(m.store.tree, m.store.disk, k)
  {
    TickMeaning(m.store);
    EmptyLogCoversFile(OnTimer(m.store, REPAIRED).state);
  }

  /** Logging, lookups and the timer keep what the log covers. */
  lemma QuietEventKeeps(m: Machine, e: Event)
    requires Consistent(m) && ValidEvent(e) && !e.CarryOut? && Handle(m, e).Some?
    ensures Kept(m, Handle(m, e).value)
  {
    match e
    case LogWrite(r) => LogWriteKeeps(m, r);
    case Read(key) => ReadKeeps(m, key);
    case Tick => TickKeeps(m);
  }

  lemma FoldedOneMore(log: seq<Request>, r: Request)
    requires Writes(log) && IsWrite(r) && ValidRequest(r)
    ensures Writes(log + [r])
    ensures Folded(log + [r]) == Applied(Folded(log), r)
  {
    assert (log + [r])[..|log|] == log;
  }

  /** Carrying out a recorded write and replaying it come to the same: a PUT always; an INSERT if the
      server rejects it exactly when the log has a write of its key, or if it changes nothing. */
  ghost predicate ReplayedAlike(s: State, log: seq<Request>, r: Request)
    requires Writes(log) && Readable(s.disk) && IsWrite(r)
  {
    r.PutRequest? || (r.key in Folded(log) <==> Rejected(s, r)) || ValueIn(s, r.key) == Some(r.value)
  }

  /** The record of a write covers its effect. */
  lemma RecordCoversIff(s: State, log: seq<Request>, r: Request, t: State)
    requires Readable(s.disk) && Writes(log) && IsWrite(r) && ValidRequest(r) && Covers(log, s)
    requires Readable(t.disk) && WriteEffect(s, r, t)
    ensures Writes(log + [r]) && (IsOver(t, Folded(log + [r]), s.disk) <==> ReplayedAlike(s, log, r))
  {
    FoldedOneMore(log, r);
    AppliedIsEffectIff(s, Folded(log), r, t);
  }

  lemma AppliedIsEffectIff(s: State, values: map<string, string>, r: Request, t: State)
    requires Readable(s.disk) && Readable(t.disk) && IsWrite(r) && IsOver(s, values, s.disk) && WriteEffect(s, r, t)
    ensures IsOver(t, Applied(values, r), s.disk) <==>
      r.PutRequest? || (r.key in values <==> Rejected(s, r)) || ValueIn(s, r.key) == Some(r.value)
  {
    var d := s.disk;
    assert ValueIn(t, r.key) == if Rejected(s, r) then ValueIn(s, r.key) else Some(r.value);
    assert Over(values, d, r.key) == ValueIn(s, r.key);
    assert forall k :: k != r.key ==> Over(Applied(values, r), d, k) == Over(values, d, k) && ValueIn(t, k) == ValueIn(s, k);
  }

  /** Carrying out the pending write leaves a log that covers it. */
  ghost predicate CarriedSafely(m: Machine)
    requires Consistent(m) && m.pending.Some?
  {
    var s, r := m.store, m.pending.value;
    || Fills(s, r)
    || (if Recorded(m) then ReplayedAlike(s, Done(m), r)
        else Rejected(s, r) || ValueIn(s, r.key) == Some(r.value))
  }

  lemma CarryOutKeepsConsistent(m: Machine)
    requires Consistent(m) && m.pending.Some?
    ensures Handle(m, CarryOut).Some? && Consistent(Handle(m, CarryOut).value)
    ensures var n := Handle(m, CarryOut).value; Done(n) == n.log && n.pending == None
  {
    WriteMeaning(m.store, m.pending.value);
  }

  lemma CarryFills(m: Machine)
    requires Consistent(m) && m.pending.Some? && Fills(m.store, m.pending.value)
    ensures var n := Handle(m, CarryOut);
      n.Some? && n.value.log == [] && n.value.store.tree == Null && Covers([], n.value.store)
  {
    WriteFills(m.store, m.pending.value);
    EmptyLogCoversFile(Step(m.store, m.pending.value, REPAIRED).state);
  }

  /** Without filling, the write takes effect on the memtable and the log stays. */
  lemma CarryPlain(m: Machine)
    requires Consistent(m) && m.pending.Some? && !Fills(m.store, m.pending.value)
    ensures var n := Handle(m, CarryOut);
      && n.Some? && n.value.log == m.log && n.value.store.disk == m.store.disk
      && n.value.store.tree == TreeAfterWrite(m.store, m.pending.value)
      && WriteEffect(m.store, m.pending.value, n.value.store)
  {
    WriteMeaning(m.store, m.pending.value);
    WriteWithoutFilling(m.store, m.pending.value);
  }

  /** After the next write is carried out the log covers the server exactly when the write filled the
      memtable, or is replayed as it was carried out; without its record, when it changed nothing. */
  lemma CarryOutCoveredIff(m: Machine)
    requires Consistent(m) && m.pending.Some? && Covers(Done(m), m.store)
    ensures var n := Handle(m, CarryOut);
      n.Some? && Consistent(n.value) && (Covers(Done(n.value), n.value.store) <==> CarriedSafely(m))
  {
    CarryOutKeepsConsistent(m);
    if Fills(m.store, m.pending.value) {
      CarryFills(m);
    } else {
      CarryPlain(m);
      PlainCoveredIff(m, Handle(m, CarryOut).value.store);
    }
  }

  /** A recorded write is the last in the log. */
  lemma RecordIsLast(m: Machine)
    requires Consistent(m) && Recorded(m)
    ensures m.log == Done(m) + [m.pending.value]
  {}

  lemma PlainCoveredIff(m: Machine, t: State)
    requires Consistent(m) && m.pending.Some? && Covers(Done(m), m.store) && !Fills(m.store, m.pending.value)
    requires t.disk == m.store.disk && WriteEffect(m.store, m.pending.value, t)
    ensures Covers(m.log, t) <==> CarriedSafely(m)
  {
    var s, r := m.store, m.pending.value;
    if Recorded(m) {
      RecordIsLast(m);
      RecordCoversIff(s, Done(m), r, t);
    } else {
      LostRecordCoversIff(s, r, t);
    }
  }

  lemma LostRecordCoversIff(s: State, r: Request, t: State)
    requires Readable(s.disk) && t.disk == s.disk && Covers([], s) && IsWrite(r)
    requires WriteEffect(s, r, t)
    ensures Covers([], t) <==> Rejected(s, r) || ValueIn(s, r.key) == Some(r.value)
  {
    assert forall k :: Over(Folded([]), s.disk, k) == ValueIn(s, k);
    assert ValueIn(t, r.key) == if Rejected(s, r) then ValueIn(s, r.key) else Some(r.value);
  }

  // ---------------------------------------------------------------- runs

  /** The requests carried out, with what the next event carries out, if anything. */
  function WithCarried(earlier: seq<Request>, pending: Option<Request>, e: Event): seq<Request> {
    match e
    case LogWrite(_) => earlier
    case Read(key) => earlier + [GetRequest(key)]
    case Tick => earlier + [Timer]
    case CarryOut => if pending.Some? then earlier + [pending.value] else earlier
  }

  /** The requests carried out in a run, in order. */
  ghost function CarriedOut(events: seq<Event>): seq<Request>
    requires ValidEvents(events)
  {
    if events == [] then []
    else
      var n := |events| - 1;
      var m := Serve(events[..n]);
      WithCarried(CarriedOut(events[..n]), if m.Some? then m.value.pending else None, events[n])
  }

  lemma CarriesOut(earlier: seq<Request>, m: Machine, e: Event)
    requires ValidRequests(earlier) && Run(earlier, REPAIRED) == Some(m.store) && Proper(m) && ValidEvent(e) && Handle(m, e).Some?
    ensures var reqs := WithCarried(earlier, m.pending, e);
      ValidRequests(reqs) && Run(reqs, REPAIRED) == Some(Handle(m, e).value.store)
  {
    match e {
      case LogWrite(_) =>
      case Read(key) => RunOneMore(earlier, GetRequest(key), REPAIRED, m.store);
      case Tick => RunOneMore(earlier, Timer, REPAIRED, m.store);
      case CarryOut => RunOneMore(earlier, m.pending.value, REPAIRED, m.store);
    }
  }

  lemma {:induction false} CarriedOutIsRun(events: seq<Event>)
    requires ValidEvents(events) && Serve(events).Some?
    ensures ValidRequests(CarriedOut(events)) && Run(CarriedOut(events), REPAIRED) == Some(Serve(events).value.store)
  {
    if events != [] {
      var n := |events| - 1;
      CarriedOutIsRun(events[..n]);
      CarriesOut(CarriedOut(events[..n]), Serve(events[..n]).value, events[n]);
    }
  }

  lemma FirstIsConsistent()
    ensures Consistent(FirstMachine()) && Covers([], FirstMachine().store) && TreeHolds(Null, map[])
  {
    EmptyIsSound();
    EmptyLogCoversFile(FirstMachine().store);
    forall k { FindInNothing(k); }
  }

  /** Every write of the run was carried out safely. */
  ghost predicate SafeRun(events: seq<Event>)
    requires ValidEvents(events)
  {
    events == [] ||
    var before := events[..|events| - 1];
    && SafeRun(before)
    && (events[|events| - 1].CarryOut? && Serve(before).Some? && Serve(before).value.pending.Some? ==>
          Consistent(Serve(before).value) && CarriedSafely(Serve(before).value))
  }

  /** In such a run the log covers the server at every moment. */
  lemma {:induction false} SafeRunIsCovered(events: seq<Event>)
    requires ValidEvents(events) && Serve(events).Some?
    ensures var m := Serve(events).value; Consistent(m) && (SafeRun(events) ==> Covers(Done(m), m.store))
  {
    if events == [] {
      FirstIsConsistent();
    } else {
      var n := |events| - 1;
      SafeRunIsCovered(events[..n]);
      var m := Serve(events[..n]).value;
      if events[n].CarryOut? {
        CarryOutKeepsConsistent(m);
        if SafeRun(events) {
          CarryOutCoveredIff(m);
        }
      } else {
        QuietEventKeeps(m, events[n]);
      }
    }
  }

  /** No write of the run lost its record to a flush before it was carried out, and none was an INSERT
      for a key that only the cache knew. */
  ghost predicate Undisturbed(events: seq<Event>)
    requires ValidEvents(events)
  {
    events == [] ||
    var before := events[..|events| - 1];
    && Undisturbed(before)
    && (events[|events| - 1].CarryOut? && Serve(before).Some? && Serve(before).value.pending.Some? ==>
          Recorded(Serve(before).value) && !CacheOnlyDuplicate(Serve(before).value.store, Serve(before).value.pending.value))
  }

  lemma NoDuplicateIsAlike(s: State, log: seq<Request>, r: Request)
    requires Writes(log) && Readable(s.disk) && IsWrite(r) && TreeHolds(s.tree, Folded(log)) && !CacheOnlyDuplicate(s, r)
    ensures ReplayedAlike(s, log, r)
  {
    HoldsKey(s.tree, Folded(log), r.key);
  }

  lemma UndisturbedCarryOut(m: Machine)
    requires Consistent(m) && Recorded(m) && !CacheOnlyDuplicate(m.store, m.pending.value)
    requires TreeHolds(m.store.tree, Folded(Done(m)))
    ensures CarriedSafely(m)
    ensures var n := Handle(m, CarryOut); n.Some? && TreeHolds(n.value.store.tree, Folded(n.value.log))
  {
    var s, r := m.store, m.pending.value;
    NoDuplicateIsAlike(s, Done(m), r);
    if Fills(s, r) {
      CarryFills(m);
      forall k { FindInNothing(k); }
    } else {
      CarryPlain(m);
      WriteFolds(s, Folded(Done(m)), r);
      RecordIsLast(m);
      FoldedOneMore(Done(m), r);
    }
  }

  lemma TickKeepsTree(m: Machine)
    requires Consistent(m) && TreeHolds(m.store.tree, Folded(Done(m)))
    ensures Handle(m, Tick).Some? && TreeHolds(Handle(m, Tick).value.store.tree, Folded(Done(Handle(m, Tick).value)))
  {
    TickKeeps(m);
    forall k { FindInNothing(k); }
  }

  /** The memtable and the log of carried out writes stay. */
  lemma QuietEventKeepsDone(m: Machine, e: Event)
    requires Consistent(m) && ValidEvent(e) && (e.LogWrite? || e.Read?) && Handle(m, e).Some?
    ensures var n := Handle(m, e).value; n.store.tree == m.store.tree && Done(n) == Done(m)
  {
    match e
    case LogWrite(r) => assert (m.log + [r])[..|m.log|] == m.log;
    case Read(key) => ReadKeeps(m, key);
  }

  lemma QuietEventKeepsTree(m: Machine, e: Event)
    requires Consistent(m) && ValidEvent(e) && !e.CarryOut? && Handle(m, e).Some?
    requires TreeHolds(m.store.tree, Folded(Done(m)))
    ensures var n := Handle(m, e).value; TreeHolds(n.store.tree, Folded(Done(n)))
  {
    if e.Tick? {
      TickKeepsTree(m);
    } else {
      QuietEventKeepsDone(m, e);
    }
  }

  /** In an undisturbed run the log has exactly the values of the memtable. */
  lemma {:induction false} UndisturbedIsMirrored(events: seq<Event>)
    requires ValidEvents(events) && Serve(events).Some? && Undisturbed(events)
    ensures SafeRun(events)
    ensures var m := Serve(events).value; Consistent(m) && TreeHolds(m.store.tree, Folded(Done(m)))
  {
    SafeRunIsCovered(events);
    if events == [] {
      FirstIsConsistent();
    } else {
      var n := |events| - 1;
      UndisturbedIsMirrored(events[..n]);
      var m := Serve(events[..n]).value;
      if events[n].CarryOut? {
        UndisturbedCarryOut(m);
        CarryOutKeepsConsistent(m);
      } else {
        QuietEventKeepsTree(m, events[n]);
      }
    }
  }

  lemma HoldsByValue(s: State, t: State, values: map<string, string>)
    requires Readable(s.disk) && Readable(t.disk) && SameValues(s, t) && Holds(t, values)
    ensures Holds(s, values)
  {
    forall k ensures ValueOf(Stored(s.tree, s.disk, k)) == Entry(values, k) {
      assert ValueIn(s, k) == ValueIn(t, k);
    }
  }

  /** Recovery, against any state that is the log put over the file. */
  lemma RecoveredAs(m: Machine, t: State)
    requires Proper(m) && SoundDisk(m.store.disk) && Readable(t.disk) && IsOver(t, Folded(m.log), m.store.disk)
    ensures Recovered(m).Some? <==> |Folded(m.log)| < MAX_C0_SIZE
    ensures Recovered(m).Some? ==> Sound(Recovered(m).value) && SameValues(Recovered(m).value, t)
  {
    RecoveredIsFoldOverFile(m);
  }

  /** A covered server without a recorded write is recovered with every latest written value, if
      recovery succeeds at all. */
  lemma CoveredIsRestored(events: seq<Event>)
    requires ValidEvents(events) && Serve(events).Some? && SafeRun(events) && !Recorded(Serve(events).value)
    ensures var m := Serve(events).value;
      && ValidRequests(CarriedOut(events))
      && (Recovered(m).Some? <==> |Folded(m.log)| < MAX_C0_SIZE)
      && (Recovered(m).Some? ==> Sound(Recovered(m).value) && Holds(Recovered(m).value, Latest(CarriedOut(events), REPAIRED)))
  {
    SafeRunIsCovered(events);
    CarriedOutIsRun(events);
    StoreRefinesMap(CarriedOut(events));
    var m := Serve(events).value;
    RecoveredAs(m, m.store);
    if Recovered(m).Some? {
      HoldsByValue(Recovered(m).value, m.store, Latest(CarriedOut(events), REPAIRED));
    }
  }

  /** Whenever the server crashes in an undisturbed run, recovery brings back every key with its latest
      written value, except that a write logged but not carried out may be carried out as well. */
  lemma RecoveryRestoresMap(events: seq<Event>)
    requires ValidEvents(events) && Serve(events).Some? && Undisturbed(events)
    ensures var m := Serve(events).value;
      && ValidRequests(CarriedOut(events))
      && (!Recorded(m) ==> Recovered(m).Some? && Sound(Recovered(m).value) && Holds(Recovered(m).value, Latest(CarriedOut(events), REPAIRED)))
  {
    UndisturbedIsMirrored(events);
    CarriedOutIsRun(events);
    if !Recorded(Serve(events).value) {
      CoveredIsRestored(events);
    }
  }

  /** One more write leaves room in the memtable, or not. */
  lemma FillsIff(s: State, values: map<string, string>, r: Request)
    requires Size(s.tree) < MAX_C0_SIZE && IsWrite(r) && TreeHolds(s.tree, values) && !CacheOnlyDuplicate(s, r)
    ensures |Applied(values, r)| < MAX_C0_SIZE <==> !Fills(s, r)
  {
    HoldsKey(s.tree, values, r.key);
    AddKey(values, r.key, r.value);
  }

  lemma PendingIsReplayedAlike(m: Machine, t: State)
    requires Consistent(m) && Recorded(m) && !CacheOnlyDuplicate(m.store, m.pending.value)
    requires TreeHolds(m.store.tree, Folded(Done(m))) && Covers(Done(m), m.store)
    requires Readable(t.disk) && WriteEffect(m.store, m.pending.value, t)
    ensures Recovered(m).Some? <==> !Fills(m.store, m.pending.value)
    ensures Recovered(m).Some? ==> Sound(Recovered(m).value) && SameValues(Recovered(m).value, t)
  {
    var log, r := Done(m), m.pending.value;
    RecordIsLast(m);
    FoldedOneMore(log, r);
    FillsIff(m.store, Folded(log), r);
    NoDuplicateIsAlike(m.store, log, r);
    RecordCoversIff(m.store, log, r, t);
    RecoveredAs(m, t);
  }

  /** A write that is logged when the server crashes, but not carried out, is recovered too, exactly
      when it does not fill the memtable; if it does, the replay flushes, and recovery fails. */
  lemma PendingWriteIsRecoveredIff(events: seq<Event>)
    requires ValidEvents(events) && Serve(events).Some? && Undisturbed(events) && Recorded(Serve(events).value)
    requires !CacheOnlyDuplicate(Serve(events).value.store, Serve(events).value.pending.value)
    ensures var m := Serve(events).value; var r := m.pending.value;
      && ValidRequests(CarriedOut(events) + [r])
      && (Recovered(m).Some? <==> !Fills(m.store, r))
      && (Recovered(m).Some? ==> Sound(Recovered(m).value) && Holds(Recovered(m).value, Latest(CarriedOut(events) + [r], REPAIRED)))
  {
    var m := Serve(events).value;
    var r := m.pending.value;
    var t := Step(m.store, r, REPAIRED).state;
    UndisturbedIsMirrored(events);
    SafeRunIsCovered(events);
    WriteMeaning(m.store, r);
    PendingIsReplayedAlike(m, t);
    PendingRun(events, t);
    if Recovered(m).Some? {
      HoldsByValue(Recovered(m).value, t, Latest(CarriedOut(events) + [r], REPAIRED));
    }
  }

  lemma PendingRun(events: seq<Event>, t: State)
    requires ValidEvents(events) && Serve(events).Some? && Serve(events).value.pending.Some?
    requires var m := Serve(events).value; var o := Step(m.store, m.pending.value, REPAIRED); o.Next? && t == o.state
    ensures var reqs := CarriedOut(events) + [Serve(events).value.pending.value];
      ValidRequests(reqs) && Sound(t) && Holds(t, Latest(reqs, REPAIRED))
  {
    var m := Serve(events).value;
    CarriedOutIsRun(events);
    RunOneMore(CarriedOut(events), m.pending.value, REPAIRED, m.store);
    StoreRefinesMap(CarriedOut(events) + [m.pending.value]);
  }

  // ---------------------------------------------------------------- a flush between record and execution

  /** Only lookups and the timer. */
  ghost predicate Interlude(between: seq<Event>) {
    forall i :: 0 <= i < |between| ==> between[i].Tick? || (between[i].Read? && WellKeyed(between[i].key))
  }

  /** What a pending write finds after an interlude: the same values, and its record, unless the timer
      has flushed a non-empty memtable. */
  ghost predicate Waited(m: Machine, n: Machine, ticked: bool) {
    && Consistent(m) && Consistent(n) && n.pending == m.pending
    && SameValues(n.store, m.store)
    && (if !ticked || m.store.tree.Null?
        then n.log == m.log && n.store.tree == m.store.tree && n.store.disk == m.store.disk
        else n.log == [] && n.store.tree == Null)
  }

  lemma WaitTick(m: Machine, n: Machine, ticked: bool)
    requires Waited(m, n, ticked)
    ensures Handle(n, Tick).Some? && Waited(m, Handle(n, Tick).value, true)
  {
    TickKeeps(n);
    var t := Handle(n, Tick).value;
    assert SameValues(t.store, n.store);
  }

  lemma WaitRead(m: Machine, n: Machine, ticked: bool, key: string)
    requires Waited(m, n, ticked) && WellKeyed(key) && Handle(n, Read(key)).Some?
    ensures Waited(m, Handle(n, Read(key)).value, ticked)
  {
    ReadKeeps(n, key);
  }

  lemma WaitOne(m: Machine, n: Machine, ticked: bool, e: Event)
    requires Waited(m, n, ticked) && ValidEvent(e) && (e.Tick? || e.Read?) && Handle(n, e).Some?
    ensures Waited(m, Handle(n, e).value, ticked || e.Tick?)
  {
    match e
    case Tick => WaitTick(m, n, ticked);
    case Read(key) => WaitRead(m, n, ticked, key);
  }

  lemma TickInOneMore(events: seq<Event>)
    requires events != []
    ensures var n := |events| - 1; Tick in events <==> Tick in events[..n] || events[n].Tick?
  {
    var n := |events| - 1;
    assert events == events[..n] + [events[n]];
  }

  lemma {:induction false} InterludeMeaning(m: Machine, between: seq<Event>)
    requires Consistent(m) && Interlude(between) && ValidEvents(between)
    requires ServeFrom(m, between).Some?
    ensures Waited(m, ServeFrom(m, between).value, Tick in between)
  {
    if between != [] {
      var last := |between| - 1;
      InterludeMeaning(m, between[..last]);
      TickInOneMore(between);
      WaitOne(m, ServeFrom(m, between[..last]).value, Tick in between[..last], between[last]);
    }
  }

  /** A logged PUT survives a crash right after it was carried out exactly when no timer flush of a
      non-empty memtable fell between its record and its execution, or its value was stored already. */
  lemma LoggedPutSurvivesIff(m: Machine, r: Request, between: seq<Event>)
    requires Consistent(m) && m.pending.None? && Covers(m.log, m.store)
    requires r.PutRequest? && ValidRequest(r) && Interlude(between) && ValidEvents(between)
    requires ServeFrom(Handle(m, LogWrite(r)).value, between).Some?
    ensures var n := Handle(ServeFrom(Handle(m, LogWrite(r)).value, between).value, CarryOut);
      && n.Some? && Consistent(n.value)
      && (Recovered(n.value).Some? <==> |Folded(n.value.log)| < MAX_C0_SIZE)
      && (Recovered(n.value).Some? ==>
            (SameValues(Recovered(n.value).value, n.value.store) <==>
             Tick !in between || m.store.tree.Null? || ValueIn(m.store, r.key) == Some(r.value)))
  {
    var m1 := Handle(m, LogWrite(r)).value;
    LogWriteKeeps(m, r);
    assert Done(m1) == m.log by { assert (m.log + [r])[..|m.log|] == m.log; }
    InterludeMeaning(m1, between);
    var n1 := ServeFrom(m1, between).value;
    InterludeCovers(m1, n1, Tick in between);
    CarriedPutSurvivesIff(n1);
    WaitedIsRecordedIff(m1, n1, Tick in between);
  }

  /** A PUT that is carried out survives a crash right after it exactly when it has filled the memtable,
      its record is still in the log, or it has changed nothing. */
  lemma CarriedPutSurvivesIff(m: Machine)
    requires Consistent(m) && m.pending.Some? && m.pending.value.PutRequest? && Covers(Done(m), m.store)
    ensures var n, r := Handle(m, CarryOut), m.pending.value;
      && n.Some? && Consistent(n.value)
      && (Recovered(n.value).Some? <==> |Folded(n.value.log)| < MAX_C0_SIZE)
      && (Recovered(n.value).Some? ==>
            (SameValues(Recovered(n.value).value, n.value.store) <==>
             Fills(m.store, r) || Recorded(m) || ValueIn(m.store, r.key) == Some(r.value)))
  {
    CarryOutCoveredIff(m);
    CarryOutKeepsConsistent(m);
    RecoveredIsFoldOverFile(Handle(m, CarryOut).value);
  }

  /** After a flush the record is gone, and a single write does not fill the memtable. */
  lemma WaitedIsRecordedIff(m: Machine, n: Machine, ticked: bool)
    requires Waited(m, n, ticked) && Recorded(m) && IsWrite(n.pending.value)
    ensures var r := n.pending.value;
      (Fills(n.store, r) || Recorded(n) || ValueIn(n.store, r.key) == Some(r.value)) <==>
      (!ticked || m.store.tree.Null? || ValueIn(m.store, r.key) == Some(r.value))
  {
    if ticked && m.store.tree.Node? {
      assert Size(n.store.tree) == 0;
    }
  }

  lemma InterludeCovers(m: Machine, n: Machine, ticked: bool)
    requires Waited(m, n, ticked) && Recorded(m) && Covers(Done(m), m.store)
    ensures Covers(Done(n), n.store)
  {
    if n.log == [] {
      EmptyLogCoversFile(n.store);
    }
  }

  /** A PUT whose record a flush has removed is carried out, and a crash loses it. */
  lemma FlushedRecordIsLost(m: Machine, r: Request) returns (n: Machine)
    requires Consistent(m) && m.pending.None? && m.store.tree.Node? && Covers(m.log, m.store)
    requires r.PutRequest? && ValidRequest(r)
    ensures Handle(m, LogWrite(r)).Some? && Handle(Handle(m, LogWrite(r)).value, Tick).Some?
    ensures Handle(Handle(Handle(m, LogWrite(r)).value, Tick).value, CarryOut) == Some(n)
    ensures Recovered(n).Some?
    ensures ValueIn(n.store, r.key) == Some(r.value) && ValueIn(Recovered(n).value, r.key) == ValueIn(m.store, r.key)
  {
    LogWriteKeeps(m, r);
    var m1 := Handle(m, LogWrite(r)).value;
    TickKeeps(m1);
    var m2 := Handle(m1, Tick).value;
    CarryOutKeepsConsistent(m2) by { WriteMeaning(m2.store, r); }
    WriteMeaning(m2.store, r);
    n := Handle(m2, CarryOut).value;
    WriteWithoutFilling(m2.store, r);
    RecoveredIsFoldOverFile(n);
  }

  /** The first PUT of a server. */
  function OnePut(key: string, value: string): Machine {
    Machine(State(Node(key, value, 0, Null, Null, 0), EmptyDisk(), [LruCache.Entry(key, value)]), [PutRequest(key, value)], None)
  }

  /** The first PUT, logged. */
  function OneLogged(r: Request): Machine {
    Machine(EmptyStore(), [r], Some(r))
  }

  lemma FirstIsLogged(r: Request)
    requires r.PutRequest? && ValidRequest(r)
    ensures Handle(FirstMachine(), LogWrite(r)) == Some(OneLogged(r))
    ensures Consistent(OneLogged(r)) && Done(OneLogged(r)) == [] && Covers([], OneLogged(r).store)
  {
    FirstIsConsistent();
    assert [] + [r] == [r];
  }

  lemma FirstIsCarriedOut(key: string, value: string)
    requires WellKeyed(key)
    ensures var m := OneLogged(PutRequest(key, value));
      Proper(m) && Handle(m, CarryOut) == Some(OnePut(key, value))
    ensures Consistent(OnePut(key, value)) && Covers(OnePut(key, value).log, OnePut(key, value).store)
  {
    var r := PutRequest(key, value);
    FirstIsLogged(r);
    WriteWithoutFilling(EmptyStore(), r);
    assert LruCache.WithPut([], key, value) == [LruCache.Entry(key, value)];
    assert Handle(OneLogged(r), CarryOut) == Some(OnePut(key, value));
    CarryOutCoveredIff(OneLogged(r));
  }

  lemma AfterOnePut(key: string, value: string)
    requires WellKeyed(key)
    ensures var events := [LogWrite(PutRequest(key, value)), CarryOut];
      ValidEvents(events) && Serve(events) == Some(OnePut(key, value))
    ensures Consistent(OnePut(key, value)) && Covers(OnePut(key, value).log, OnePut(key, value).store)
  {
    var r := PutRequest(key, value);
    FirstIsLogged(r);
    FirstIsCarriedOut(key, value);
    TwoMore(FirstMachine(), [], FirstMachine(), LogWrite(r), CarryOut);
    assert [] + [LogWrite(r), CarryOut] == [LogWrite(r), CarryOut];
  }

  lemma TwoMore(first: Machine, events: seq<Event>, m: Machine, a: Event, b: Event)
    requires Proper(first) && ValidEvents(events) && ServeFrom(first, events) == Some(m)
    requires ValidEvent(a) && ValidEvent(b) && Handle(m, a).Some?
    ensures ValidEvents(events + [a, b])
    ensures ServeFrom(first, events + [a, b]) == Handle(Handle(m, a).value, b)
  {
    OneMore(first, events, a);
    OneMore(first, events + [a], b);
    assert events + [a] + [b] == events + [a, b];
  }

  lemma ThreeMore(first: Machine, events: seq<Event>, m: Machine, a: Event, b: Event, c: Event)
    requires Proper(first) && ValidEvents(events) && ServeFrom(first, events) == Some(m)
    requires ValidEvent(a) && ValidEvent(b) && ValidEvent(c)
    requires Handle(m, a).Some? && Handle(Handle(m, a).value, b).Some?
    ensures ValidEvents(events + [a, b, c])
    ensures ServeFrom(first, events + [a, b, c]) == Handle(Handle(Handle(m, a).value, b).value, c)
  {
    TwoMore(first, events, m, a, b);
    OneMore(first, events + [a, b], c);
    assert events + [a, b] + [c] == events + [a, b, c];
  }

  lemma Join(a: Event, b: Event, c: Event, d: Event, e: Event)
    ensures [a, b] + [c, d, e] == [a, b, c, d, e]
  {}

  /** Two PUTs, the second with a timer flush between its record and its execution: it has been
      acknowledged, and a crash loses it. */
  lemma FlushedRecordLosesAWrite()
    ensures var events := [LogWrite(PutRequest("a", "1")), CarryOut, LogWrite(PutRequest("b", "2")), Tick, CarryOut];
      && ValidEvents(events) && Serve(events).Some?
      && var m := Serve(events).value;
         Recovered(m).Some? && ValueIn(m.store, "b") == Some("2") && ValueIn(Recovered(m).value, "b") == None
  {
    var p, q := PutRequest("a", "1"), PutRequest("b", "2");
    AfterOnePut("a", "1");
    var m := OnePut("a", "1");
    var n := FlushedRecordIsLost(m, q);
    var events := [LogWrite(p), CarryOut];
    ThreeMore(FirstMachine(), events, m, LogWrite(q), Tick, CarryOut);
    Join(LogWrite(p), CarryOut, LogWrite(q), Tick, CarryOut);
    NothingElse("a", "1", "b");
  }

  lemma NothingElse(key: string, value: string, k: string)
    requires WellKeyed(key) && k != key
    ensures ValueIn(OnePut(key, value).store, k) == None
  {
    FirstIsConsistent();
    FindInNothing(k);
    InsertMeaning(Null, key, value);
    assert OnePut(key, value).store.tree == Insert(Null, key, value, 0);
  }

  // ---------------------------------------------------------------- further losses

  /** An INSERT of a cached key after a flush is rejected; its record is replayed all the same. */
  lemma RejectedRecordIsReplayed(m: Machine, r: Request) returns (n: Machine)
    requires Consistent(m) && m.pending.None? && m.log == [] && m.store.tree.Null?
    requires r.InsertRequest? && ValidRequest(r) && LruCache.Lookup(m.store.cache, r.key).Some?
    ensures Handle(m, LogWrite(r)).Some? && Handle(Handle(m, LogWrite(r)).value, CarryOut) == Some(n)
    ensures Recovered(n).Some?
    ensures ValueIn(n.store, r.key) == ValueIn(m.store, r.key) && ValueIn(Recovered(n).value, r.key) == Some(r.value)
  {
    LogWriteKeeps(m, r);
    var m1 := Handle(m, LogWrite(r)).value;
    WriteMeaning(m1.store, r);
    WriteWithoutFilling(m1.store, r);
    n := Handle(m1, CarryOut).value;
    CarryOutKeepsConsistent(m1);
    assert n.log == [] + [r];
    FoldedOneMore([], r);
    RecoveredIsFoldOverFile(n);
  }

  /** After a PUT and a tick, an INSERT of the same key is rejected for the cache alone. */
  lemma AfterTick(key: string, value: string)
    requires Consistent(OnePut(key, value))
    ensures var n := Handle(OnePut(key, value), Tick);
      && n.Some? && Consistent(n.value) && n.value.pending == None && n.value.log == [] && n.value.store.tree == Null
      && LruCache.Lookup(n.value.store.cache, key) == Some(value) && ValueIn(n.value.store, key) == Some(value)
  {
    TickKeeps(OnePut(key, value));
    TickKeepsCache(key, value);
  }

  /** A rejected INSERT that recovery carries out. */
  lemma RejectedInsertIsReplayed(key: string, value: string, rejected: string) returns (m: Machine)
    requires WellKeyed(key)
    ensures var events := [LogWrite(PutRequest(key, value)), CarryOut, Tick, LogWrite(InsertRequest(key, rejected)), CarryOut];
      ValidEvents(events) && Serve(events) == Some(m)
    ensures Recovered(m).Some? && ValueIn(m.store, key) == Some(value) && ValueIn(Recovered(m).value, key) == Some(rejected)
  {
    var p, q := PutRequest(key, value), InsertRequest(key, rejected);
    var events := [LogWrite(p), CarryOut];
    AfterOnePut(key, value);
    AfterTick(key, value);
    var n := Handle(OnePut(key, value), Tick).value;
    m := RejectedRecordIsReplayed(n, q);
    ThreeMore(FirstMachine(), events, OnePut(key, value), Tick, LogWrite(q), CarryOut);
    Join(LogWrite(p), CarryOut, Tick, LogWrite(q), CarryOut);
  }

  lemma TickKeepsCache(key: string, value: string)
    requires Consistent(OnePut(key, value))
    ensures var n := Handle(OnePut(key, value), Tick);
      n.Some? && LruCache.Lookup(n.value.store.cache, key) == Some(value) && ValueIn(n.value.store, key) == Some(value)
  {
    var m := OnePut(key, value);
    TickKeeps(m);
    OnePutIsCached(key, value);
  }

  lemma OnePutIsCached(key: string, value: string)
    requires Sound(OnePut(key, value).store)
    ensures LruCache.Lookup(OnePut(key, value).store.cache, key) == Some(value) && ValueIn(OnePut(key, value).store, key) == Some(value)
  {
    var s := OnePut(key, value).store;
    LruCache.IndexIs(s.cache, key, 0);
    assert LruCache.Lookup(s.cache, key) == Some(value);
    assert CacheAgrees(s);
  }

  lemma FileAgreesIff(t: State, u: State, values: map<string, string>, d: Disk)
    requires Readable(t.disk) && Readable(u.disk) && Readable(d) && IsOver(t, values, d) && IsOver(u, map[], d)
    ensures SameValues(u, t) <==> forall k :: k in values ==> ValueOf(Find(Current(d), k)) == Some(values[k])
  {
    forall k
      ensures ValueIn(u, k) == ValueIn(t, k) <==> (k in values ==> ValueOf(Find(Current(d), k)) == Some(values[k]))
    {
      assert ValueIn(u, k) == Over(map[], d, k) && ValueIn(t, k) == Over(values, d, k);
    }
  }

  lemma SecondCrash(m: Machine, t: State)
    requires Consistent(m) && Recovered(m) == Some(t)
    ensures Recovered(Machine(t, [], None)) == Some(Restarted(m.store.disk))
    ensures SameValues(Restarted(m.store.disk), t) <==>
      forall k :: k in Folded(m.log) ==> ValueOf(Find(Current(m.store.disk), k)) == Some(Folded(m.log)[k])
  {
    RecoveredIsFoldOverFile(m);
    assert t.disk == m.store.disk;
    RestartedIsFile(m.store.disk);
    FileAgreesIff(t, Restarted(m.store.disk), Folded(m.log), m.store.disk);
  }

  lemma RestartedIsFile(d: Disk)
    requires Readable(d)
    ensures IsOver(Restarted(d), map[], d)
  {
    forall k ensures ValueIn(Restarted(d), k) == Over(map[], d, k) { FindInNothing(k); }
  }

  /** `recover` removes the log, although what it has replayed is only in memory.  After a second crash
      the server has what the file has: nothing is lost exactly when the file has, for every key of the
      log, the value the log ends with. */
  lemma SecondCrashKeepsAllIff(events: seq<Event>)
    requires ValidEvents(events) && Serve(events).Some? && Recovered(Serve(events).value).Some?
    ensures var m := Serve(events).value;
      var again := Recovered(Machine(Recovered(m).value, [], None));
      && again.Some?
      && (SameValues(again.value, Recovered(m).value) <==>
          forall k :: k in Folded(m.log) ==> ValueOf(Find(Current(m.store.disk), k)) == Some(Folded(m.log)[k]))
  {
    SafeRunIsCovered(events);
    SecondCrash(Serve(events).value, Recovered(Serve(events).value).value);
  }

  /** One PUT, recovered once and lost by the second crash. */
  lemma SecondCrashLosesAPut()
    ensures var events := [LogWrite(PutRequest("a", "1")), CarryOut];
      && ValidEvents(events) && Serve(events).Some? && Recovered(Serve(events).value).Some?
      && var t := Recovered(Serve(events).value).value;
         && ValueIn(t, "a") == Some("1")
         && Recovered(Machine(t, [], None)).Some? && ValueIn(Recovered(Machine(t, [], None)).value, "a") == None
  {
    var m, r := OnePut("a", "1"), PutRequest("a", "1");
    AfterOnePut("a", "1");
    FoldedOneMore([], r);
    assert [] + [r] == [r];
    RecoveredIsFoldOverFile(m);
    SecondCrash(m, Recovered(m).value);
    FindInNothing("a");
  }

  // ---------------------------------------------------------------- a log that cannot be replayed

  /** The `n`-th of a family of different keys. */
  function Key(n: nat): (k: string)
    ensures |k| == n + 1 && WellKeyed(k)
  {
    if n == 0 then "a" else "a" + Key(n - 1)
  }

  lemma NewPut(m: Machine, r: Request) returns (n: Machine)
    requires Consistent(m) && m.pending.None? && TreeHolds(m.store.tree, Folded(m.log))
    requires r.PutRequest? && ValidRequest(r) && r.key !in Folded(m.log) && |Folded(m.log)| + 1 < MAX_C0_SIZE
    ensures Handle(m, LogWrite(r)).Some? && Handle(Handle(m, LogWrite(r)).value, CarryOut) == Some(n)
    ensures Consistent(n) && n.pending.None? && n.log == m.log + [r] && TreeHolds(n.store.tree, Folded(n.log))
    ensures Folded(n.log) == Folded(m.log)[r.key := r.value] && |Folded(n.log)| == |Folded(m.log)| + 1
  {
    LogWriteKeeps(m, r);
    var m1 := Handle(m, LogWrite(r)).value;
    assert Done(m1) == m.log by { assert (m.log + [r])[..|m.log|] == m.log; }
    CarryOutKeepsConsistent(m1);
    CarryPlain(m1);
    WriteWithoutFilling(m1.store, r);
    WriteFolds(m1.store, Folded(m.log), r);
    FoldedOneMore(m.log, r);
    AddKey(Folded(m.log), r.key, r.value);
    n := Handle(m1, CarryOut).value;
  }

  /** Memtable and log have the same `n` keys, none longer than that. */
  ghost predicate Filled(m: Machine, n: nat) {
    && Consistent(m) && m.pending.None? && TreeHolds(m.store.tree, Folded(m.log))
    && |Folded(m.log)| == n && forall k :: k in Folded(m.log) ==> |k| <= n
  }

  lemma FillOneMore(m: Machine, n: nat) returns (next: Machine)
    requires Filled(m, n) && n + 1 < MAX_C0_SIZE
    ensures var r := PutRequest(Key(n), "v");
      Handle(m, LogWrite(r)).Some? && Handle(Handle(m, LogWrite(r)).value, CarryOut) == Some(next)
    ensures Filled(next, n + 1)
  {
    next := NewPut(m, PutRequest(Key(n), "v"));
  }

  lemma FirstIsFilled()
    ensures Filled(FirstMachine(), 0)
  {
    FirstIsConsistent();
  }

  lemma PutOneMore(before: seq<Event>, m: Machine, n: nat) returns (events: seq<Event>, next: Machine)
    requires ValidEvents(before) && Serve(before) == Some(m) && Filled(m, n) && n + 1 < MAX_C0_SIZE
    ensures ValidEvents(events) && Serve(events) == Some(next) && Filled(next, n + 1)
  {
    var r := PutRequest(Key(n), "v");
    next := FillOneMore(m, n);
    TwoMore(FirstMachine(), before, m, LogWrite(r), CarryOut);
    events := before + [LogWrite(r), CarryOut];
  }

  /** A run of `n` PUTs of different keys. */
  lemma {:induction false} ManyPuts(n: nat) returns (events: seq<Event>, m: Machine)
    requires n < MAX_C0_SIZE
    ensures ValidEvents(events) && Serve(events) == Some(m) && Filled(m, n)
  {
    if n == 0 {
      FirstIsFilled();
      events, m := [], FirstMachine();
    } else {
      events, m := ManyPuts(n - 1);
      events, m := PutOneMore(events, m, n - 1);
    }
  }

  /** The hundredth key is logged, and the server crashes before the write is carried out: recovery
      fails, because the replay flushes before the metadata of the files is loaded. */
  lemma FullLogIsNotRecovered() returns (events: seq<Event>)
    ensures ValidEvents(events) && Serve(events).Some? && Recovered(Serve(events).value).None?
  {
    var before, m := ManyPuts(MAX_C0_SIZE - 1);
    var r := PutRequest(Key(MAX_C0_SIZE - 1), "v");
    OneMore(FirstMachine(), before, LogWrite(r));
    LogWriteKeeps(m, r);
    events := before + [LogWrite(r)];
    FoldedOneMore(m.log, r);
    AddKey(Folded(m.log), r.key, r.value);
    RecoveredIsFoldOverFile(Serve(events).value);
  }

  // ---------------------------------------------------------------- the log file

  predicate OneByteChars(s: string) {
    forall i :: 0 <= i < |s| ==> s[i] as int < 256
  }

  function Encode(s: string): seq<byte>
    requires OneByteChars(s)
  {
    seq(|s|, i requires 0 <= i < |s| => s[i] as int as byte)
  }

  /** A write whose line fits a record and whose key and value are single words. */
  predicate Loggable(r: Request) {
    && IsWrite(r) && OneByteChars(r.key) && OneByteChars(r.value)
    && Journal.Word(Encode(r.key)) && Journal.Word(Encode(r.value))
    && |r.key| + |r.value| + 8 <= Journal.MAX_ENTRY_SIZE
  }

  function LineOf(r: Request): seq<byte>
    requires Loggable(r)
  {
    Journal.Line(if r.PutRequest? then Journal.PUT else Journal.INSERT, Encode(r.key), Encode(r.value))
  }

  function CommandOf(r: Request): Journal.Command
    requires Loggable(r)
  {
    if r.PutRequest? then Journal.Put(Encode(r.key), Some(Encode(r.value)))
    else Journal.Insert(Encode(r.key), Some(Encode(r.value)))
  }

  /** The transactions that hold the requests of a log, whatever their ids. */
  ghost predicate Holding(txs: seq<Journal.Tx>, log: seq<Request>) {
    && |txs| == |log|
    && forall i :: 0 <= i < |log| ==> Loggable(log[i]) && IsUint32(txs[i].txid) && txs[i] == Journal.Tx(txs[i].txid, LineOf(log[i]), 1, 1)
  }

  lemma LineFits(r: Request)
    requires Loggable(r)
    ensures 0 < |LineOf(r)| <= Journal.MAX_ENTRY_SIZE && Journal.Parse(LineOf(r)) == Some(CommandOf(r))
  {
    assert Journal.Word(Journal.PUT) && Journal.Word(Journal.INSERT);
    Journal.WriteLinesParse(if r.PutRequest? then Journal.PUT else Journal.INSERT, Encode(r.key), Encode(r.value));
  }

  lemma {:induction false} HoldingReplays(txs: seq<Journal.Tx>, log: seq<Request>)
    requires Holding(txs, log)
    ensures Journal.AllLoggable(txs)
    ensures |Journal.Replayed(txs)| == |log|
    ensures forall i :: 0 <= i < |log| ==> Journal.Replayed(txs)[i] == CommandOf(log[i])
  {
    if txs != [] {
      LineFits(log[0]);
      HoldingReplays(txs[1..], log[1..]);
      forall i | 0 <= i < |txs| ensures Journal.Loggable(txs[i]) {
        LineFits(log[i]);
      }
    }
  }

  /** Recovery from the bytes of the log, with whatever a crash left of one more record, replays
      exactly the logged requests, in order. */
  lemma LogFileReplaysRequests(txs: seq<Journal.Tx>, log: seq<Request>, torn: seq<byte>)
    requires Holding(txs, log) && |torn| < Journal.MAX_JOURNAL_ENTRY_SIZE
    ensures Journal.AllLoggable(txs)
    ensures var d := Journal.Decoded(Journal.Log(txs) + torn);
      && d.Some? && |Journal.Replayed(d.value)| == |log|
      && forall i :: 0 <= i < |log| ==> Journal.Replayed(d.value)[i] == CommandOf(log[i])
  {
    HoldingReplays(txs, log);
    Journal.RecoveryDecodesLog(txs, torn);
  }
}
