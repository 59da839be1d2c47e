/** The request functions of server-part1.c: the memtable, the files and the cache on the heap. */
module Server {
  import opened Wrappers
  import opened Records
  import opened SparseIndex
  import opened Avl
  import opened AvlOrder
  import opened Memtable
  import opened Generations
  import opened Store
  import LruCache

  /** The memtable lookup; `Memtable.GetNode` with the results of the recursion returned. */
  method SearchNode(t: C0Node?, key: string) returns (r: C0Node?)
    requires Ok(t)
    ensures match Search(TreeOf(t), key)
      case Some(rec) => r != null && NodeRecord(r) == rec
      case None => r == null
    decreases TreeOf(t)
  {
    if t == null {
      return null;
    }
    assert Open(t);
    if StrCmp(key, t.key) == 0 {
      return t;
    } else if StrCmp(key, t.key) < 0 {
      r := SearchNode(t.left, key);
    } else {
      r := SearchNode(t.right, key);
    }
  }

  class StorageServer {
    const v: Variant
    var root: C0Node?
    const disk: SortedFiles
    const cache: LruCache.Cache

    ghost predicate Valid()
      reads this, root, ReprOf(root), disk, disk.ssindex, cache, cache.nodes
    {
      TreeOk() && disk.Valid() && cache.Valid() && disk.fix == v.merge
    }

    ghost predicate TreeOk()
      reads this, root, ReprOf(root)
    {
      Ok(root) && IsAvl(TreeOf(root)) && AllWellKeyed(InOrder(TreeOf(root)))
    }

    ghost function State(): Store.State
      reads this, root, disk, disk.ssindex, cache, cache.nodes
    {
      Store.State(TreeOf(root), disk.State(), cache.Contents())
    }

    constructor (v: Variant)
      ensures Valid() && State() == EmptyStore() && this.v == v
    {
      this.v := v;
      root := null;
      disk := new SortedFiles(v.merge);
      cache := new LruCache.Cache();
    }

    method LookupC0(key: string) returns (r: C0Node?)
      requires TreeOk()
      ensures match C0Lookup(TreeOf(root), key, v)
        case Some(rec) => r != null && NodeRecord(r) == rec
        case None => r == null
    {
      if v.searches {
        r := SearchNode(root, key);
      } else {
        r := GetNode(root, key);
      }
    }

    method LookupC1(key: string) returns (r: Option<string>)
      requires disk.Valid() && WellKeyed(key)
      ensures r == C1Lookup(disk.State(), key, v)
    {
      if disk.fileCounter < 0 {
        return None;
      }
      r := C1Get(Recs(disk.files[disk.fileCounter]), disk.ssindex[..], v.beyond, key);
    }

    /** The memtable is handed to the files and starts over empty. */
    method DumpC0() returns (ok: bool)
      requires TreeOk() && disk.Valid() && disk.fix == v.merge
      modifies this`root, disk, disk.ssindex
      ensures root == null && (ok <==> Dump(old(disk.State()), old(TreeOf(root)), v).Some?)
      ensures ok ==> disk.Valid() && disk.State() == Dump(old(disk.State()), old(TreeOf(root)), v).value
    {
      var batch := root;
      root := null;
      ok := disk.C0Dump(batch, InOrder(TreeOf(batch)));
    }

    method InsertC0(key: string, value: string)
      requires TreeOk() && WellKeyed(key)
      modifies this`root, ReprOf(root)
      ensures TreeOk() && TreeOf(root) == Insert(old(TreeOf(root)), key, value, 0)
      ensures fresh(ReprOf(root) - old(ReprOf(root)))
    {
      InsertKeepsKeys(TreeOf(root), key, value);
      InsertIsAvl(TreeOf(root), key, value, 0);
      root := InsertNode(root, key, value, 0);
    }

    method UpdateC0(key: string, value: string)
      requires TreeOk() && WellKeyed(key)
      modifies ReprOf(root)
      ensures TreeOk() && TreeOf(root) == Update(old(TreeOf(root)), key, value, 0)
      ensures ReprOf(root) == old(ReprOf(root))
    {
      UpdateKeepsKeys(TreeOf(root), key, value);
      UpdateIsAvl(TreeOf(root), key, value, 0);
      var dropped := UpdateNode(root, key, value, 0);
    }

    /** Inserts a new entry and flushes the memtable when that makes it full. */
    method AddEntry(key: string, value: string, ghost c: LruCache.Recency) returns (ok: bool)
      requires TreeOk() && disk.Valid() && disk.fix == v.merge && WellKeyed(key)
      requires Sane(Store.State(TreeOf(root), disk.State(), c))
      modifies this`root, ReprOf(root), disk, disk.ssindex
      ensures var a := Add(Store.State(old(TreeOf(root)), old(disk.State()), c), key, value, v);
        && (ok <==> a.Some?)
        && (ok ==> TreeOk() && disk.Valid() && Store.State(TreeOf(root), disk.State(), c) == a.value)
    {
      InsertC0(key, value);
      var size := C0Size(root);
      ok := true;
      if size == MAX_C0_SIZE {
        ok := DumpC0();
      }
    }

    /** `AddEntry` leaves the cache alone. */
    method AddToState(key: string, value: string) returns (ok: bool)
      requires Valid() && WellKeyed(key)
      modifies this`root, ReprOf(root), disk, disk.ssindex
      ensures ok <==> Add(old(State()), key, value, v).Some?
      ensures ok ==> Valid() && State() == Add(old(State()), key, value, v).value
    {
      ok := AddEntry(key, value, cache.Contents());
    }

    method UpdateState(key: string, value: string)
      requires Valid() && WellKeyed(key)
      modifies ReprOf(root)
      ensures Valid() && State() == old(State()).(tree := Update(old(State()).tree, key, value, 0))
    {
      UpdateC0(key, value);
    }

    /** The cache part of a GET or an INSERT. */
    method CachedValue(key: string) returns (hit: Option<string>)
      requires Valid()
      modifies cache, cache.nodes
      ensures Valid() && State() == old(State()).(cache := LruCache.Touched(old(State()).cache, key))
      ensures hit == LruCache.Lookup(old(State()).cache, key)
      ensures hit.None? ==> State() == old(State()) && cache.nodes == old(cache.nodes)
    {
      ghost var l := cache.Contents();
      hit := CacheGet(cache, key);
      assert hit.None? ==> LruCache.Touched(l, key) == l;
    }

    static method CacheGet(cache: LruCache.Cache, key: string) returns (hit: Option<string>)
      requires cache.Valid()
      modifies cache, cache.nodes
      ensures cache.Valid() && cache.Contents() == LruCache.Touched(old(cache.Contents()), key)
      ensures hit == LruCache.Lookup(old(cache.Contents()), key)
      ensures hit.None? ==> cache.nodes == old(cache.nodes)
    {
      var node := cache.Get(key);
      hit := if node == null then None else Some(node.defn);
    }

    method Remember(key: string, value: string)
      requires Valid()
      modifies cache, cache.nodes
      ensures Valid() && State() == Cached(old(State()), key, value)
    {
      cache.Put(key, value);
    }

    /** What a request leaves: the next state and the reply, or nothing when the server goes down. */
    ghost predicate Leaves(reply: Option<Reply>, o: Outcome)
      reads this, root, ReprOf(root), disk, disk.ssindex, cache, cache.nodes
    {
      match o
      case Next(s, r) => Valid() && State() == s && reply == Some(r)
      case Down => reply == None
    }

    /** Everything of a PUT but the cache. */
    method StoreEntry(key: string, value: string) returns (ok: bool)
      requires Valid() && WellKeyed(key)
      modifies this`root, ReprOf(root), disk, disk.ssindex
      ensures ok <==> Put(old(State()), key, value, v).Next?
      ensures ok ==> Valid() && Next(Cached(State(), key, value), Success) == Put(old(State()), key, value, v)
    {
      var r := LookupC0(key);
      if r != null {
        UpdateState(key, value);
        ok := true;
      } else {
        ok := AddToState(key, value);
      }
    }

    /** `server_1_put_request`. */
    method PutRequest(key: string, value: string) returns (reply: Option<Reply>)
      requires Valid() && WellKeyed(key)
      modifies this`root, ReprOf(root), disk, disk.ssindex, cache, cache.nodes
      ensures Leaves(reply, Put(old(State()), key, value, v))
    {
      var ok := StoreEntry(key, value);
      if !ok {
        return None;
      }
      Remember(key, value);
      reply := Some(Success);
    }

    /** `server_1_insert_request`. */
    method InsertRequest(key: string, value: string) returns (reply: Option<Reply>)
      requires Valid() && WellKeyed(key)
      modifies this`root, ReprOf(root), disk, disk.ssindex, cache, cache.nodes
      ensures Leaves(reply, InsertNew(old(State()), key, value, v))
    {
      var hit := CachedValue(key);
      if hit.Some? {
        return Some(Duplicate);
      }
      var r := LookupC0(key);
      if r != null {
        return Some(Duplicate);
      }
      var ok := AddToState(key, value);
      if !ok {
        return None;
      }
      Remember(key, value);
      reply := Some(Success);
    }

    /** `server_1_get_request`: cache, then memtable, then file.  Without a value the server goes down. */
    method GetRequest(key: string) returns (reply: Option<Reply>)
      requires Valid() && WellKeyed(key)
      modifies cache, cache.nodes
      ensures Leaves(reply, Store.Get(old(State()), key, v))
    {
      var hit := CachedValue(key);
      if hit.Some? {
        return Some(Value(hit.value));
      }
      var found := LookupLayers(key);
      if found.None? {
        return None;
      }
      Remember(key, found.value);
      reply := Some(Value(found.value));
    }

    /** Memtable, then file. */
    method LookupLayers(key: string) returns (found: Option<string>)
      requires Valid() && WellKeyed(key)
      ensures var r := C0Lookup(State().tree, key, v);
        found == if r.Some? then Some(r.value.value) else C1Lookup(State().disk, key, v)
    {
      var r := LookupC0(key);
      if r != null {
        found := Some(r.value);
      } else {
        found := LookupC1(key);
      }
    }

    /** `my_timer_handler`. */
    method OnTimer() returns (reply: Option<Reply>)
      requires Valid()
      modifies this`root, disk, disk.ssindex
      ensures Leaves(reply, Store.OnTimer(old(State()), v))
    {
      var ok := DumpC0();
      reply := if ok then Some(NoReply) else None;
    }
  }
}
