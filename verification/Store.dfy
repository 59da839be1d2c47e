/** The layered store of server-part1.c on values: cache, memtable and current file. */
module Store {
  import opened Wrappers
  import opened Records
  import opened Merge
  import opened SparseIndex
  import opened Avl
  import opened AvlOrder
  import opened Generations
  import LruCache

  /** The memtable is flushed when it reaches this many entries. */
  const MAX_C0_SIZE := 100

  /** Which deviations of the source are repaired: whether lookups in the memtable return what their
      recursion finds, how files are merged, and what lies behind the end of the index. */
  datatype Variant = Variant(searches: bool, merge: Repairs, beyond: int)

  const REPAIRED := Variant(true, Repairs(true, true), -1)

  datatype State = State(tree: Tree, disk: Disk, cache: LruCache.Recency)

  datatype Request =
    | GetRequest(key: string)
    | PutRequest(key: string, value: string)
    | InsertRequest(key: string, value: string)
    | Timer

  datatype Reply = Value(value: string) | Success | Duplicate | NoReply

  /** `Down`: the source copies from a null pointer, or a flush has spoiled its files. */
  datatype Outcome = Next(state: State, reply: Reply) | Down

  /** Keys start with a character of the index. */
  predicate ValidRequest(r: Request) {
    r.Timer? || WellKeyed(r.key)
  }

  ghost predicate Sane(s: State) {
    && Readable(s.disk)
    && Ordered(s.tree) && AllWellKeyed(InOrder(s.tree))
  }

  function EmptyStore(): State {
    State(Null, EmptyDisk(), [])
  }

  /** The memtable lookup of the source drops what its recursion finds. */
  function C0Lookup(t: Tree, key: string, v: Variant): Option<Record> {
    if v.searches then Search(t, key) else Avl.Get(t, key)
  }

  /** Without a file there is nothing to open, and the lookup gives up. */
  function C1Lookup(d: Disk, key: string, v: Variant): Option<string>
    requires Readable(d) && WellKeyed(key)
  {
    if d.counter < 0 then None else C1Get(Current(d), d.index, v.beyond, key)
  }

  /** `c0_dump` of a whole memtable. */
  function Dump(d: Disk, t: Tree, v: Variant): (r: Option<Disk>)
    requires Readable(d) && AllWellKeyed(InOrder(t))
    ensures r.Some? ==> Readable(r.value)
  {
    if InOrder(t) == [] then Some(d) else Flush(d, InOrder(t), v.merge)
  }

  lemma InsertKeepsKeys(t: Tree, key: string, value: string)
    requires Ordered(t) && AllWellKeyed(InOrder(t)) && WellKeyed(key)
    ensures Ordered(Insert(t, key, value, 0)) && AllWellKeyed(InOrder(Insert(t, key, value, 0)))
  {
    var r := Record(key, value, 0);
    InsertOrder(t, key, value, 0);
    PutKeepsSorted(InOrder(t), r);
    forall i | 0 <= i < |PutIfAbsent(InOrder(t), r)| ensures WellKeyed(PutIfAbsent(InOrder(t), r)[i].key) {
      PutElement(InOrder(t), r, i);
    }
  }

  lemma UpdateKeepsKeys(t: Tree, key: string, value: string)
    requires Ordered(t) && AllWellKeyed(InOrder(t)) && WellKeyed(key)
    ensures Ordered(Update(t, key, value, 0)) && AllWellKeyed(InOrder(Update(t, key, value, 0)))
  {
    UpdateOrder(t, key, value, 0);
    ReplacedMeaning(InOrder(t), Record(key, value, 0), key);
  }

  /** Adds an entry to the memtable, which is flushed when that makes it full. */
  function Add(s: State, key: string, value: string, v: Variant): (r: Option<State>)
    requires Sane(s) && WellKeyed(key)
    ensures r.Some? ==> Sane(r.value)
  {
    InsertKeepsKeys(s.tree, key, value);
    var t := Insert(s.tree, key, value, 0);
    if Size(t) != MAX_C0_SIZE then Some(s.(tree := t))
    else
      var d := Dump(s.disk, t, v);
      if d.None? then None else Some(s.(tree := Null, disk := d.value))
  }

  function Cached(s: State, key: string, value: string): State {
    s.(cache := LruCache.WithPut(s.cache, key, value))
  }

  function Get(s: State, key: string, v: Variant): Outcome
    requires Sane(s) && WellKeyed(key)
  {
    var hit := LruCache.Lookup(s.cache, key);
    if hit.Some? then Next(s.(cache := LruCache.Touched(s.cache, key)), Value(hit.value))
    else
      var r := C0Lookup(s.tree, key, v);
      var found := if r.Some? then Some(r.value.value) else C1Lookup(s.disk, key, v);
      if found.None? then Down else Next(Cached(s, key, found.value), Value(found.value))
  }

  function Put(s: State, key: string, value: string, v: Variant): Outcome
    requires Sane(s) && WellKeyed(key)
  {
    var stored :=
      if C0Lookup(s.tree, key, v).Some? then Some(s.(tree := Update(s.tree, key, value, 0)))
      else Add(s, key, value, v);
    if stored.None? then Down else Next(Cached(stored.value, key, value), Success)
  }

  /** A key is a duplicate if the cache or the memtable has it; the file is not looked at. */
  function InsertNew(s: State, key: string, value: string, v: Variant): Outcome
    requires Sane(s) && WellKeyed(key)
  {
    if LruCache.Lookup(s.cache, key).Some? then Next(s.(cache := LruCache.Touched(s.cache, key)), Duplicate)
    else if C0Lookup(s.tree, key, v).Some? then Next(s, Duplicate)
    else
      var stored := Add(s, key, value, v);
      if stored.None? then Down else Next(Cached(stored.value, key, value), Success)
  }

  function OnTimer(s: State, v: Variant): Outcome
    requires Sane(s)
  {
    var d := Dump(s.disk, s.tree, v);
    if d.None? then Down else Next(s.(tree := Null, disk := d.value), NoReply)
  }

  function Step(s: State, r: Request, v: Variant): (o: Outcome)
    requires Sane(s) && ValidRequest(r)
    ensures o.Next? ==> Sane(o.state)
  {
    match r
    case GetRequest(key) => Get(s, key, v)
    case PutRequest(key, value) => UpdateKeepsKeys(s.tree, key, value); Put(s, key, value, v)
    case InsertRequest(key, value) => InsertNew(s, key, value, v)
    case Timer => OnTimer(s, v)
  }

  // ---------------------------------------------------------------- what a state stores

  /** The record the memtable, and else the current file, has for a key. */
  ghost function Stored(t: Tree, d: Disk, k: string): Option<Record>
    requires Readable(d)
  {
    Newest(InOrder(t), Current(d), k)
  }

  ghost predicate SoundTree(t: Tree) {
    IsAvl(t) && AllLive(InOrder(t)) && AllWellKeyed(InOrder(t))
  }

  ghost predicate SoundDisk(d: Disk) {
    && Live(d)
    && forall k :: WellKeyed(k) ==> C1Lookup(d, k, REPAIRED) == ValueOf(Find(Current(d), k))
  }

  /** A cached value is what memtable and file would give. */
  ghost predicate CacheAgrees(s: State)
    requires Readable(s.disk)
  {
    forall k :: LruCache.Lookup(s.cache, k).Some? ==> LruCache.Lookup(s.cache, k) == ValueOf(Stored(s.tree, s.disk, k))
  }

  /** What every step of a run without deletions keeps. */
  ghost predicate Sound(s: State) {
    && SoundTree(s.tree) && Size(s.tree) < MAX_C0_SIZE
    && SoundDisk(s.disk)
    && LruCache.Distinct(s.cache) && |s.cache| <= LruCache.CACHE_SIZE
    && CacheAgrees(s)
  }

  lemma FindInNothing(k: string)
    ensures Find([], k) == None
  {}

  /** Flushing moves everything to the file and loses nothing. */
  lemma DumpMeaning(d: Disk, t: Tree)
    requires SoundTree(t) && SoundDisk(d)
    ensures Dump(d, t, REPAIRED).Some?
    ensures var e := Dump(d, t, REPAIRED).value;
      SoundDisk(e) && forall k :: Find(Current(e), k) == Stored(t, d, k)
  {
    var batch := InOrder(t);
    if batch != [] {
      RecsOfLines(batch);
      RecsOfLines(MergeRecords(batch, Current(d), true));
      FlushKeepsLive(d, batch, REPAIRED.merge);
      forall k ensures Find(Current(Dump(d, t, REPAIRED).value), k) == Stored(t, d, k) {
        if d.counter >= 0 {
          NewWinsKeepsNewest(batch, Current(d), k);
        } else {
          FindInNothing(k);
        }
      }
    }
  }

  /** The memtable after a new entry. */
  lemma InsertMeaning(t: Tree, key: string, value: string)
    requires SoundTree(t) && WellKeyed(key) && Find(InOrder(t), key).None?
    ensures var u := Insert(t, key, value, 0); SoundTree(u) && Size(u) == Size(t) + 1
    ensures forall k :: Find(InOrder(Insert(t, key, value, 0)), k) == if k == key then Some(Record(key, value, 0)) else Find(InOrder(t), k)
  {
    InsertIsAvl(t, key, value, 0);
    InsertSize(t, key, value, 0);
    FindIsLookup(InOrder(t), key);
    InsertKeepsKeys(t, key, value);
    InsertKeepsLive(t, key, value);
  }

  lemma InsertKeepsLive(t: Tree, key: string, value: string)
    requires Ordered(t) && AllLive(InOrder(t))
    ensures AllLive(InOrder(Insert(t, key, value, 0)))
  {
    var r := Record(key, value, 0);
    InsertOrder(t, key, value, 0);
    forall i | 0 <= i < |PutIfAbsent(InOrder(t), r)| ensures PutIfAbsent(InOrder(t), r)[i].flag == 0 {
      PutElement(InOrder(t), r, i);
    }
  }

  lemma UpdateMeaning(t: Tree, key: string, value: string)
    requires SoundTree(t) && WellKeyed(key) && Find(InOrder(t), key).Some?
    ensures var u := Update(t, key, value, 0); SoundTree(u) && Size(u) == Size(t)
    ensures forall k :: Find(InOrder(Update(t, key, value, 0)), k) == if k == key then Some(Record(key, value, 0)) else Find(InOrder(t), k)
  {
    UpdateIsAvl(t, key, value, 0);
    UpdateKeepsKeys(t, key, value);
    UpdateOrder(t, key, value, 0);
  }

  /** After storing a value, `s2` holds it and everything else that `s1` held. */
  ghost predicate StoredNow(s1: State, s2: State, key: string, value: string)
    requires Readable(s1.disk) && Readable(s2.disk)
  {
    forall k :: Stored(s2.tree, s2.disk, k) ==
      if k == key then Some(Record(key, value, 0)) else Stored(s1.tree, s1.disk, k)
  }

  lemma AddMeaning(s: State, key: string, value: string)
    requires Sound(s) && WellKeyed(key) && Find(InOrder(s.tree), key).None?
    ensures Add(s, key, value, REPAIRED).Some?
    ensures var a := Add(s, key, value, REPAIRED).value;
      && SoundTree(a.tree) && Size(a.tree) < MAX_C0_SIZE && SoundDisk(a.disk) && a.cache == s.cache
      && StoredNow(s, a, key, value)
  {
    var t := Insert(s.tree, key, value, 0);
    InsertMeaning(s.tree, key, value);
    NewEntryIsStored(s, t, key, value);
    if Size(t) == MAX_C0_SIZE {
      DumpMeaning(s.disk, t);
      var e := Dump(s.disk, t, REPAIRED).value;
      forall k ensures Stored(Null, e, k) == Stored(t, s.disk, k) {
        FindInNothing(k);
      }
    }
  }

  lemma NewEntryIsStored(s: State, t: Tree, key: string, value: string)
    requires Readable(s.disk)
    requires forall k :: Find(InOrder(t), k) == if k == key then Some(Record(key, value, 0)) else Find(InOrder(s.tree), k)
    ensures StoredNow(s, s.(tree := t), key, value)
  {}

  lemma CachedKeepsSound(s: State, a: State, key: string, value: string)
    requires Sound(s)
    requires SoundTree(a.tree) && Size(a.tree) < MAX_C0_SIZE && SoundDisk(a.disk) && a.cache == s.cache
    requires StoredNow(s, a, key, value) || (a == s && ValueOf(Stored(s.tree, s.disk, key)) == Some(value))
    ensures Sound(Cached(a, key, value))
  {
    LruCache.PutMeaning(s.cache, key, value);
    CachedAgrees(s, a, key, value);
  }

  lemma CachedAgrees(s: State, a: State, key: string, value: string)
    requires Readable(s.disk) && Readable(a.disk) && CacheAgrees(s) && a.cache == s.cache
    requires LruCache.Distinct(s.cache) && |s.cache| <= LruCache.CACHE_SIZE
    requires StoredNow(s, a, key, value) || (a == s && ValueOf(Stored(s.tree, s.disk, key)) == Some(value))
    ensures CacheAgrees(Cached(a, key, value))
  {
    LruCache.PutMeaning(s.cache, key, value);
    forall k | LruCache.Lookup(Cached(a, key, value).cache, k).Some?
      ensures LruCache.Lookup(Cached(a, key, value).cache, k) == ValueOf(Stored(a.tree, a.disk, k))
    {
      if k != key {
        assert LruCache.Lookup(s.cache, k).Some?;
      }
    }
  }

  lemma TouchedKeepsSound(s: State, key: string)
    requires Sound(s)
    ensures Sound(s.(cache := LruCache.Touched(s.cache, key)))
  {
    LruCache.TouchedKeeps(s.cache, key);
  }

  // ---------------------------------------------------------------- steps

  /** GET answers with the stored value, wherever it is found, and gives up on a key without one. */
  lemma GetMeaning(s: State, key: string)
    requires Sound(s) && WellKeyed(key)
    ensures match Stored(s.tree, s.disk, key)
      case Some(r) =>
        var o := Get(s, key, REPAIRED);
        o.Next? && o.reply == Value(r.value) && Sound(o.state) && o.state.tree == s.tree && o.state.disk == s.disk
      case None => Get(s, key, REPAIRED) == Down
  {
    SearchIsFind(s.tree, key);
    if LruCache.Lookup(s.cache, key).Some? {
      TouchedKeepsSound(s, key);
    } else if Stored(s.tree, s.disk, key).Some? {
      CachedKeepsSound(s, s, key, Stored(s.tree, s.disk, key).value.value);
    }
  }

  lemma PutStores(s: State, key: string, value: string)
    requires Sound(s) && WellKeyed(key)
    ensures var o := Put(s, key, value, REPAIRED);
      o.Next? && o.reply == Success && Sound(o.state) && StoredNow(s, o.state, key, value)
  {
    SearchIsFind(s.tree, key);
    if Find(InOrder(s.tree), key).Some? {
      UpdateMeaning(s.tree, key, value);
      CachedKeepsSound(s, s.(tree := Update(s.tree, key, value, 0)), key, value);
    } else {
      AddMeaning(s, key, value);
      CachedKeepsSound(s, Add(s, key, value, REPAIRED).value, key, value);
    }
  }

  lemma InsertStores(s: State, key: string, value: string)
    requires Sound(s) && WellKeyed(key)
    ensures var o := InsertNew(s, key, value, REPAIRED);
      && o.Next? && Sound(o.state)
      && match o.reply
         case Success => StoredNow(s, o.state, key, value)
         case Duplicate => o.state.tree == s.tree && o.state.disk == s.disk && Stored(s.tree, s.disk, key).Some?
         case _ => false
  {
    SearchIsFind(s.tree, key);
    if LruCache.Lookup(s.cache, key).Some? {
      TouchedKeepsSound(s, key);
    } else if Find(InOrder(s.tree), key).None? {
      AddMeaning(s, key, value);
      CachedKeepsSound(s, Add(s, key, value, REPAIRED).value, key, value);
    }
  }

  lemma TimerKeepsAll(s: State)
    requires Sound(s)
    ensures var o := OnTimer(s, REPAIRED);
      && o.Next? && o.reply == NoReply && Sound(o.state)
      && forall k :: Stored(o.state.tree, o.state.disk, k) == Stored(s.tree, s.disk, k)
  {
    DumpMeaning(s.disk, s.tree);
    forall k { FindInNothing(k); }
  }

  // ---------------------------------------------------------------- what requests do to the cache

  ghost predicate CacheOk(c: LruCache.Recency) {
    LruCache.Distinct(c) && |c| <= LruCache.CACHE_SIZE
  }

  /** The key is cached first, with this value; all others are as before, except the one it pushes out
      of a full cache. */
  ghost predicate Remembers(before: LruCache.Recency, after: LruCache.Recency, key: string, value: string) {
    && CacheOk(after) && after != [] && after[0] == LruCache.Entry(key, value)
    && forall q :: q != key ==>
         LruCache.Lookup(after, q) == if LruCache.Evicted(before, key) == Some(q) then None else LruCache.Lookup(before, q)
  }

  /** The same values, perhaps in another order. */
  ghost predicate SameCached(before: LruCache.Recency, after: LruCache.Recency) {
    CacheOk(after) && forall q :: LruCache.Lookup(after, q) == LruCache.Lookup(before, q)
  }

  lemma PutRemembers(c: LruCache.Recency, key: string, value: string)
    requires CacheOk(c)
    ensures Remembers(c, LruCache.WithPut(c, key, value), key, value)
  {
    LruCache.PutMeaning(c, key, value);
  }

  lemma HitRemembers(c: LruCache.Recency, key: string)
    requires CacheOk(c) && LruCache.Lookup(c, key).Some?
    ensures Remembers(c, LruCache.Touched(c, key), key, LruCache.Lookup(c, key).value) && SameCached(c, LruCache.Touched(c, key))
  {
    var t := LruCache.Touched(c, key);
    LruCache.TouchedKeeps(c, key);
    LruCache.IndexIs(t, key, 0);
  }

  /** A lookup, a PUT and an INSERT that succeeds leave the key in front of the cache with the value of
      the reply or the request; an INSERT that is rejected and the timer change no cached value.  This
      is so for the repaired store and for the source. */
  lemma StepCaches(s: State, r: Request, v: Variant)
    requires Sane(s) && ValidRequest(r) && CacheOk(s.cache) && Step(s, r, v).Next?
    ensures var o := Step(s, r, v);
      match r
      case GetRequest(key) => o.reply.Value? && Remembers(s.cache, o.state.cache, key, o.reply.value) && o.state == s.(cache := o.state.cache)
      case PutRequest(key, value) => o.reply == Success && Remembers(s.cache, o.state.cache, key, value)
      case InsertRequest(key, value) =>
        if o.reply == Success then Remembers(s.cache, o.state.cache, key, value)
        else o.reply == Duplicate && SameCached(s.cache, o.state.cache)
      case Timer => o.reply == NoReply && o.state.cache == s.cache
  {
    if !r.Timer? {
      if LruCache.Lookup(s.cache, r.key).Some? {
        HitRemembers(s.cache, r.key);
      }
      if r.GetRequest? {
        GetRemembers(s, r.key, v);
      } else {
        PutRemembers(s.cache, r.key, r.value);
        if Add(s, r.key, r.value, v).Some? {
          AddKeepsCache(s, r.key, r.value, v);
        }
      }
    }
  }

  lemma AddKeepsCache(s: State, key: string, value: string, v: Variant)
    requires Sane(s) && WellKeyed(key) && Add(s, key, value, v).Some?
    ensures Add(s, key, value, v).value.cache == s.cache
  {}

  lemma GetRemembers(s: State, key: string, v: Variant)
    requires Sane(s) && WellKeyed(key) && CacheOk(s.cache) && Get(s, key, v).Next?
    ensures var o := Get(s, key, v);
      o.reply.Value? && Remembers(s.cache, o.state.cache, key, o.reply.value) && o.state == s.(cache := o.state.cache)
  {
    if LruCache.Lookup(s.cache, key).Some? {
      HitRemembers(s.cache, key);
    } else {
      PutRemembers(s.cache, key, Get(s, key, v).reply.value);
    }
  }

  /** What a lookup has answered, the next lookup answers from the cache, and an INSERT of the key is
      rejected. */
  lemma LookedUpIsCached(s: State, key: string, value: string, v: Variant)
    requires Sane(s) && WellKeyed(key) && CacheOk(s.cache) && Get(s, key, v).Next?
    ensures var o := Get(s, key, v);
      && Get(o.state, key, v) == o
      && InsertNew(o.state, key, value, v) == Next(o.state, Duplicate)
  {
    GetRemembers(s, key, v);
    FrontStays(Get(s, key, v).state.cache, key);
  }

  lemma FrontStays(c: LruCache.Recency, key: string)
    requires c != [] && c[0].name == key
    ensures LruCache.Lookup(c, key) == Some(c[0].defn) && LruCache.Touched(c, key) == c
  {
    LruCache.IndexIs(c, key, 0);
    assert LruCache.ToFront(c, 0) == c;
  }

  // ---------------------------------------------------------------- runs

  ghost predicate ValidRequests(reqs: seq<Request>) {
    forall i :: 0 <= i < |reqs| ==> ValidRequest(reqs[i])
  }

  /** The state after a run, if the server is still up. */
  ghost function Run(reqs: seq<Request>, v: Variant): (r: Option<State>)
    requires ValidRequests(reqs)
    ensures r.Some? ==> Sane(r.value)
  {
    if reqs == [] then Some(EmptyStore())
    else
      var n := |reqs| - 1;
      var before := Run(reqs[..n], v);
      if before.None? then None
      else
        var o := Step(before.value, reqs[n], v);
        if o.Down? then None else Some(o.state)
  }

  /** The cache stays within its size, without duplicates, in every run of every variant. */
  lemma {:induction false} RunKeepsCacheOk(reqs: seq<Request>, v: Variant)
    requires ValidRequests(reqs) && Run(reqs, v).Some?
    ensures CacheOk(Run(reqs, v).value.cache)
  {
    if reqs != [] {
      var n := |reqs| - 1;
      RunKeepsCacheOk(reqs[..n], v);
      StepCaches(Run(reqs[..n], v).value, reqs[n], v);
    }
  }

  /** What a request does to the cache: lookups and insertions look for their key, and what has been
      found or written is stored. */
  function UsesOf(r: Request, reply: Reply): seq<LruCache.Use> {
    match r
    case GetRequest(key) => [LruCache.Look(key)] + if reply.Value? then [LruCache.Store(key, reply.value)] else []
    case PutRequest(key, value) => [LruCache.Store(key, value)]
    case InsertRequest(key, value) => [LruCache.Look(key)] + if reply == Success then [LruCache.Store(key, value)] else []
    case Timer => []
  }

  ghost function AllUses(reqs: seq<Request>, v: Variant): seq<LruCache.Use>
    requires ValidRequests(reqs)
  {
    if reqs == [] || Run(reqs[..|reqs| - 1], v).None? then []
    else
      var n := |reqs| - 1;
      var o := Step(Run(reqs[..n], v).value, reqs[n], v);
      AllUses(reqs[..n], v) + if o.Next? then UsesOf(reqs[n], o.reply) else []
  }

  lemma StepUsesCache(s: State, r: Request, v: Variant, uses: seq<LruCache.Use>)
    requires Sane(s) && ValidRequest(r) && Step(s, r, v).Next? && s.cache == LruCache.After(uses)
    ensures Step(s, r, v).state.cache == LruCache.After(uses + UsesOf(r, Step(s, r, v).reply))
  {
    match r
    case GetRequest(key) => GetUsesCache(s, key, v, uses);
    case PutRequest(key, value) => PutUsesCache(s, key, value, v, uses);
    case InsertRequest(key, value) => InsertUsesCache(s, key, value, v, uses);
    case Timer => assert uses + [] == uses;
  }

  lemma TwoUses(uses: seq<LruCache.Use>, a: LruCache.Use, b: LruCache.Use)
    ensures LruCache.After(uses + ([a] + [b])) == LruCache.Used(LruCache.Used(LruCache.After(uses), a), b)
  {
    LruCache.AfterOneMore(uses, a);
    LruCache.AfterOneMore(uses + [a], b);
    assert uses + [a] + [b] == uses + ([a] + [b]);
  }

  /** Looking for a key that is not there changes nothing; storing what is there and in front neither. */
  lemma UselessUses(c: LruCache.Recency, key: string)
    ensures LruCache.Lookup(c, key).None? ==> LruCache.Touched(c, key) == c
    ensures LruCache.Lookup(c, key).Some? ==>
      LruCache.WithPut(LruCache.Touched(c, key), key, LruCache.Lookup(c, key).value) == LruCache.Touched(c, key)
  {
    if LruCache.Lookup(c, key).Some? {
      var t := LruCache.Touched(c, key);
      LruCache.IndexIs(t, key, 0);
      assert LruCache.ToFront(t, 0) == t && t[0] == LruCache.Entry(key, LruCache.Lookup(c, key).value);
    }
  }

  lemma GetUsesCache(s: State, key: string, v: Variant, uses: seq<LruCache.Use>)
    requires Sane(s) && WellKeyed(key) && Get(s, key, v).Next? && s.cache == LruCache.After(uses)
    ensures var o := Get(s, key, v);
      o.state.cache == LruCache.After(uses + UsesOf(GetRequest(key), o.reply))
  {
    UselessUses(s.cache, key);
    TwoUses(uses, LruCache.Look(key), LruCache.Store(key, Get(s, key, v).reply.value));
  }

  lemma InsertUsesCache(s: State, key: string, value: string, v: Variant, uses: seq<LruCache.Use>)
    requires Sane(s) && WellKeyed(key) && InsertNew(s, key, value, v).Next? && s.cache == LruCache.After(uses)
    ensures var o := InsertNew(s, key, value, v);
      o.state.cache == LruCache.After(uses + UsesOf(InsertRequest(key, value), o.reply))
  {
    UselessUses(s.cache, key);
    TwoUses(uses, LruCache.Look(key), LruCache.Store(key, value));
    LruCache.AfterOneMore(uses, LruCache.Look(key));
    assert [LruCache.Look(key)] + [] == [LruCache.Look(key)];
    if Add(s, key, value, v).Some? {
      AddKeepsCache(s, key, value, v);
    }
  }

  lemma PutUsesCache(s: State, key: string, value: string, v: Variant, uses: seq<LruCache.Use>)
    requires Sane(s) && WellKeyed(key) && Put(s, key, value, v).Next? && s.cache == LruCache.After(uses)
    ensures var o := Put(s, key, value, v); o.state.cache == LruCache.After(uses + UsesOf(PutRequest(key, value), o.reply))
  {
    LruCache.AfterOneMore(uses, LruCache.Store(key, value));
    if Add(s, key, value, v).Some? {
      AddKeepsCache(s, key, value, v);
    }
  }

  /** After every run, of the repaired store and of the source, the cache is what its uses make of it:
      the most recently used keys in the order of their last use, as many as fit. */
  lemma {:induction false} RunUsesCache(reqs: seq<Request>, v: Variant)
    requires ValidRequests(reqs) && Run(reqs, v).Some?
    ensures var c, uses := Run(reqs, v).value.cache, AllUses(reqs, v);
      c == LruCache.After(uses) && LruCache.KeysOf(c) == LruCache.First(LruCache.ByUse(uses), LruCache.CACHE_SIZE)
  {
    if reqs != [] {
      var n := |reqs| - 1;
      RunUsesCache(reqs[..n], v);
      StepUsesCache(Run(reqs[..n], v).value, reqs[n], v, AllUses(reqs[..n], v));
    }
    LruCache.HoldsMostRecent(AllUses(reqs, v));
  }

  /** The latest written value of every key: a PUT always writes, an INSERT when it succeeds. */
  ghost function Latest(reqs: seq<Request>, v: Variant): map<string, string>
    requires ValidRequests(reqs)
  {
    if reqs == [] then map[]
    else
      var n := |reqs| - 1;
      var m, before := Latest(reqs[..n], v), Run(reqs[..n], v);
      if before.None? then m
      else
        var o := Step(before.value, reqs[n], v);
        if o.Next? && o.reply == Success then m[reqs[n].key := reqs[n].value] else m
  }

  ghost function Entry(m: map<string, string>, k: string): Option<string> {
    if k in m then Some(m[k]) else None
  }

  /** The layers together hold exactly the map. */
  ghost predicate Holds(s: State, m: map<string, string>)
    requires Readable(s.disk)
  {
    forall k :: ValueOf(Stored(s.tree, s.disk, k)) == Entry(m, k)
  }

  /** The memtable, the file and the cache together are a map from keys to their latest written
      values, after every run of puts, insertions, lookups and flushes. */
  lemma {:induction false} StoreRefinesMap(reqs: seq<Request>)
    requires ValidRequests(reqs) && Run(reqs, REPAIRED).Some?
    ensures var s := Run(reqs, REPAIRED).value; Sound(s) && Holds(s, Latest(reqs, REPAIRED))
  {
    if reqs == [] {
      EmptyIsSound();
    } else {
      var n := |reqs| - 1;
      StoreRefinesMap(reqs[..n]);
      StepRefines(Run(reqs[..n], REPAIRED).value, reqs[n], Latest(reqs[..n], REPAIRED));
    }
  }

  lemma EmptyIsSound()
    ensures Sound(EmptyStore()) && Holds(EmptyStore(), map[])
  {
    var s := EmptyStore();
    forall k ensures Stored(s.tree, s.disk, k) == None && LruCache.Lookup([], k) == None {
      FindInNothing(k);
    }
  }

  /** One step keeps the correspondence; only a lookup of a key never written brings the server down. */
  lemma StepRefines(s: State, r: Request, m: map<string, string>)
    requires Sound(s) && ValidRequest(r) && Holds(s, m)
    ensures var o := Step(s, r, REPAIRED);
      && (o.Down? <==> r.GetRequest? && r.key !in m)
      && (r.GetRequest? && r.key in m ==> o.reply == Value(m[r.key]))
      && (o.Next? && o.reply == Duplicate ==> r.key in m)
      && (o.Next? ==> Sound(o.state) && Holds(o.state, if o.reply == Success then m[r.key := r.value] else m))
  {
    match r
    case GetRequest(key) => GetMeaning(s, key);
    case PutRequest(key, value) => PutStores(s, key, value);
    case InsertRequest(key, value) => InsertStores(s, key, value);
    case Timer => TimerKeepsAll(s);
  }

  /** GET of a written key returns its latest value, from whichever layer has it; a GET of any other
      key is the one request that fails. */
  lemma GetReturnsLatest(reqs: seq<Request>, key: string)
    requires ValidRequests(reqs) && Run(reqs, REPAIRED).Some? && WellKeyed(key)
    ensures var m, o := Latest(reqs, REPAIRED), Get(Run(reqs, REPAIRED).value, key, REPAIRED);
      if key in m then o.Next? && o.reply == Value(m[key]) else o == Down
  {
    StoreRefinesMap(reqs);
    StepRefines(Run(reqs, REPAIRED).value, GetRequest(key), Latest(reqs, REPAIRED));
  }

  /** Every key looked up in a run has been written before. */
  ghost predicate OnlyWrittenKeysRead(reqs: seq<Request>)
    requires ValidRequests(reqs)
  {
    reqs == [] ||
    var n := |reqs| - 1;
    OnlyWrittenKeysRead(reqs[..n]) && (reqs[n].GetRequest? ==> reqs[n].key in Latest(reqs[..n], REPAIRED))
  }

  /** The server stays up exactly as long as only written keys are looked up. */
  lemma {:induction false} StaysUpIff(reqs: seq<Request>)
    requires ValidRequests(reqs)
    ensures Run(reqs, REPAIRED).Some? <==> OnlyWrittenKeysRead(reqs)
  {
    if reqs != [] {
      var n := |reqs| - 1;
      var before := reqs[..n];
      StaysUpIff(before);
      if Run(before, REPAIRED).Some? {
        StoreRefinesMap(before);
        StepRefines(Run(before, REPAIRED).value, reqs[n], Latest(before, REPAIRED));
      }
    }
  }

  // ---------------------------------------------------------------- the source as coded

  const CODED := Variant(false, AS_CODED, -1)

  /** As coded, a PUT that does not fill the memtable takes effect exactly when its key is new there or
      at the root. */
  lemma CodedPutTakesEffectIff(s: State, key: string, value: string)
    requires Sane(s) && IsAvl(s.tree) && WellKeyed(key) && Size(s.tree) < MAX_C0_SIZE
    requires HasKey(InOrder(s.tree), key) || Size(s.tree) + 1 < MAX_C0_SIZE
    ensures var o := Put(s, key, value, CODED);
      && o.Next? && o.state.disk == s.disk && o.state.cache == LruCache.WithPut(s.cache, key, value)
      && Find(InOrder(o.state.tree), key) ==
         if !HasKey(InOrder(s.tree), key) || (s.tree.Node? && s.tree.key == key)
         then Some(Record(key, value, 0)) else Find(InOrder(s.tree), key)
  {
    GetIsRightIff(s.tree, key);
    FindIsLookup(InOrder(s.tree), key);
    InsertIsAvl(s.tree, key, value, 0);
    InsertSize(s.tree, key, value, 0);
    UpdateIsAvl(s.tree, key, value, 0);
    if s.tree.Node? {
      StrCmpEqual(key, s.tree.key);
    }
  }

  /** As coded, the cache agrees with the layers below it after a PUT exactly when the key was new in
      the memtable, or at its root, or had that value already. */
  lemma CodedPutKeepsCacheRightIff(s: State, key: string, value: string)
    requires Sound(s) && WellKeyed(key) && (HasKey(InOrder(s.tree), key) || Size(s.tree) + 1 < MAX_C0_SIZE)
    ensures var o := Put(s, key, value, CODED);
      && o.Next?
      && (LruCache.Lookup(o.state.cache, key) == ValueOf(Stored(o.state.tree, o.state.disk, key)) <==>
          !HasKey(InOrder(s.tree), key) || (s.tree.Node? && s.tree.key == key) || ValueOf(Find(InOrder(s.tree), key)) == Some(value))
  {
    CodedPutTakesEffectIff(s, key, value);
    LruCache.PutMeaning(s.cache, key, value);
    FindIsLookup(InOrder(s.tree), key);
  }

  /** As coded, a lookup is right exactly for a cached key, for one that is at the root of the memtable
      or not in it at all, and for one whose value in the file is the same. */
  lemma CodedGetIsRightIff(s: State, key: string)
    requires Sound(s) && WellKeyed(key)
    ensures var o, r, t := Get(s, key, CODED), Stored(s.tree, s.disk, key), InOrder(s.tree);
      (if r.Some? then o.Next? && o.reply == Value(r.value.value) else o == Down) <==>
        || LruCache.Lookup(s.cache, key).Some?
        || !HasKey(t, key) || (s.tree.Node? && s.tree.key == key)
        || ValueOf(Find(Current(s.disk), key)) == ValueOf(Find(t, key))
  {
    var t := InOrder(s.tree);
    GetIsRightIff(s.tree, key);
    FindIsLookup(t, key);
    CodedFileLookup(s.disk, key);
    CodedLookupIsRoot(s.tree, key);
  }

  lemma CodedLookupIsRoot(t: Tree, key: string)
    requires Ordered(t)
    ensures C0Lookup(t, key, CODED) == if t.Node? && t.key == key then Some(Rec(t)) else None
  {
    if t.Node? {
      StrCmpEqual(key, t.key);
    }
  }

  lemma CodedFileLookup(d: Disk, key: string)
    requires SoundDisk(d) && WellKeyed(key)
    ensures C1Lookup(d, key, CODED) == ValueOf(Find(Current(d), key))
  {
    assert C1Lookup(d, key, CODED) == C1Lookup(d, key, REPAIRED);
  }

  /** As coded, an INSERT is rejected exactly for a key that is cached or at the root of the memtable.
      For any other key of the memtable it reports success, and only the cache takes the value. */
  lemma CodedInsertTakesEffectIff(s: State, key: string, value: string)
    requires Sane(s) && IsAvl(s.tree) && WellKeyed(key) && Size(s.tree) < MAX_C0_SIZE
    requires HasKey(InOrder(s.tree), key) || Size(s.tree) + 1 < MAX_C0_SIZE
    ensures var o, t := InsertNew(s, key, value, CODED), InOrder(s.tree);
      && o.Next? && o.state.disk == s.disk
      && (o.reply == Duplicate <==> LruCache.Lookup(s.cache, key).Some? || (s.tree.Node? && s.tree.key == key))
      && (o.reply == Duplicate ==> o.state.tree == s.tree)
      && (o.reply != Duplicate ==> o.reply == Success && o.state.cache == LruCache.WithPut(s.cache, key, value))
      && (o.reply != Duplicate ==> InOrder(o.state.tree) == PutIfAbsent(t, Record(key, value, 0)))
  {
    GetIsRightIff(s.tree, key);
    FindIsLookup(InOrder(s.tree), key);
    InsertOrder(s.tree, key, value, 0);
    InsertSize(s.tree, key, value, 0);
    if s.tree.Node? {
      StrCmpEqual(key, s.tree.key);
    }
  }

  /** The file a PUT of the source leaves when it fills and flushes the memtable. */
  lemma CodedFlush(d: Disk, t: Tree)
    requires Live(d) && SoundTree(t) && t.Node?
    ensures var batch := InOrder(t);
      && batch != []
      && (Dump(d, t, CODED).Some? <==> d.counter < 0 || (Current(d) != [] && !Lt(LastKey(Current(d)), LastKey(batch))))
      && (Dump(d, t, CODED).Some? ==>
            Current(Dump(d, t, CODED).value) == if d.counter < 0 then batch else MergeRecords(batch, Current(d), false))
  {
    var batch := InOrder(t);
    RecsOfLines(batch);
    if d.counter >= 0 {
      MergedFileCleanIff(batch, Current(d), false);
    }
    if Dump(d, t, CODED).Some? {
      FlushedKeys(d, batch, AS_CODED);
    }
  }

  /** As coded, a PUT that fills the memtable leaves the server up exactly when the merge leaves no
      blank line, and then the file has the newest value of every key exactly when memtable and old
      file agree on the keys they share. */
  lemma CodedFillingPutIff(s: State, key: string, value: string)
    requires Sane(s) && SoundTree(s.tree) && Live(s.disk) && WellKeyed(key)
    requires !HasKey(InOrder(s.tree), key) && Size(s.tree) + 1 == MAX_C0_SIZE
    ensures var batch, former, o := InOrder(Insert(s.tree, key, value, 0)), Current(s.disk), Put(s, key, value, CODED);
      && batch != []
      && (o.Next? <==> s.disk.counter < 0 || (former != [] && !Lt(LastKey(former), LastKey(batch))))
      && (o.Next? ==> o.state.tree == Null && (HasNewest(Current(o.state.disk), batch, former) <==> AgreeOnShared(batch, former)))
  {
    var t := Insert(s.tree, key, value, 0);
    FindIsLookup(InOrder(s.tree), key);
    GetIsRightIff(s.tree, key);
    InsertMeaning(s.tree, key, value);
    CodedFlush(s.disk, t);
    if s.disk.counter >= 0 {
      MergeKeepsNewestIff(InOrder(t), Current(s.disk));
    } else {
      forall k { FindInNothing(k); }
    }
  }

  lemma RunOneMore(reqs: seq<Request>, r: Request, v: Variant, s: State)
    requires ValidRequests(reqs) && ValidRequest(r) && Run(reqs, v) == Some(s) && Step(s, r, v).Next?
    ensures ValidRequests(reqs + [r]) && Run(reqs + [r], v) == Some(Step(s, r, v).state)
  {
    assert (reqs + [r])[..|reqs|] == reqs;
  }

  /** A run of three PUTs after which the cache and the memtable of the source disagree. */
  lemma CodedPutLosesAValue()
    ensures var reqs := [PutRequest("b", "1"), PutRequest("a", "1"), PutRequest("a", "2")];
      && ValidRequests(reqs) && Run(reqs, CODED).Some?
      && var s := Run(reqs, CODED).value;
         LruCache.Lookup(s.cache, "a") == Some("2") && Search(s.tree, "a") == Some(Record("a", "1", 0))
  {
    var r := [PutRequest("b", "1"), PutRequest("a", "1"), PutRequest("a", "2")];
    var b, a := LruCache.Entry("b", "1"), LruCache.Entry("a", "1");
    var t1 := Node("b", "1", 0, Null, Null, 0);
    var t2 := Node("b", "1", 0, Node("a", "1", 0, Null, Null, 0), Null, 1);
    RunOneMore([], r[0], CODED, EmptyStore());
    var s1 := Step(EmptyStore(), r[0], CODED).state;
    assert s1 == State(t1, EmptyDisk(), [b]);
    assert [] + [r[0]] == [r[0]];
    var s2 := Step(s1, r[1], CODED).state;
    assert s2 == State(t2, EmptyDisk(), [a, b]);
    RunOneMore([r[0]], r[1], CODED, s1);
    assert [r[0]] + [r[1]] == [r[0], r[1]];
    var s3 := Step(s2, r[2], CODED).state;
    assert s3.tree == t2;
    RunOneMore([r[0], r[1]], r[2], CODED, s2);
    assert [r[0], r[1]] + [r[2]] == r;
  }
}
