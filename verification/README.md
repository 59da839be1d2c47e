# A replicated LSM key-value store: model and proofs

The repository is a key-value server written in C.  Each node keeps an LRU cache, an AVL memtable
(`c0`) and sorted files on disk (`c1`); writes go to a journal first.  Nodes agree on the order of
writes either with Lamport's distributed lock or with ABD quorums.  This project models those parts in
Dafny and proves properties of the model.

The model follows the C code branch by branch, including where the code misses its own purpose.  Where
it does, the code is kept as it is, a lemma exhibits an input on which the property fails, and another
lemma gives the exact condition under which it holds.  Results about a repaired variant say so through
an explicit parameter (`Merge.Repairs`, `Store.Variant`, `Abd.Variant`).

## Modules

- `LockQueue` (pqueue.c): the circular sorted queue, on an array, against a sorted sequence.
- `LockProtocol`, `LockChannels`, `LockInvariant`, `LockStepsLocal`, `LockStepsOrder`,
  `LockStepsDeliver`, `LockTheorems`, `LockLiveness`, `LockFairness`, `LockClocks`,
  `LockDroppedWrite` (blocking_node.c): the lock as a transition system over any number of nodes up to the queue capacity,
  its invariant, one lemma per kind of step, the theorems about all runs, the clocks, and a run that drops
  a write.
  `BlockingNode` holds the functions of one node on its mutable globals, each proved to do what the
  handler of the transition system does.
- `Records`: keys in `strcmp` order and sorted sequences of records.
- `Avl`, `AvlOrder`, `Memtable` (c0.c): the AVL tree as a value, what its operations do to the records,
  and the heap version that relinks nodes in place.
- `Merge`, `SparseIndex`, `Generations` (c1.c): merging sorted files, the first-character index, and the
  numbered generations of files with their flushes.
- `LruCache` (cache.c): the doubly linked list against a recency list.
- `Store`, `Server` (server-part1.c): the layered store on values, and the request functions on the heap.
- `Bytes`, `Wire` (blocking_node.c): the peer message format.
- `Journal`, `Recovery` (journal.c): the log format, and crash recovery of the whole server.
- `Abd`, `AbdRuns` (client.c, abd.c, server-part1.c): the ABD register under arbitrary delays, its
  invariant, and runs that break it.  `AbdShared`: the semaphores as coded.  `AbdValues`: what happens to
  the values when clients read the tags of replies.  `AbdCoded`, `AbdCodedValues`, `AbdNumbers`: clients
  that parse tags as coded, and the numbers they read.  `AbdRecovery`: the journal of a server that stores tagged values.
- `Counting`, `Wrappers`: sizes of sets, and `Option`.

## Modelling decisions

Lock.  Clock bump, enqueue and broadcast of a request are one step.  Each node has one outstanding
request.  A request waits for the replies of all other nodes, as the comment at blocking_node.c:308
says.  `requests[]` is keyed by node id.  Channels are FIFO, one per ordered pair of nodes.  The history
part of a state (`History`, `Packet.about`) is never read by a handler.

Memtable.  `Get` as coded drops what its recursion finds and is modelled so (`Avl.Get`,
`Memtable.GetNode`); `Avl.Search` is what its callers expect.  `Update` does write at any depth.
`Delete` copies key and value of the successor, but not its flag.  Strings are values, so that the
aliasing of the caller's string by `Update` does not arise.

Merge.  `merge` is called with the new file as file 1 and keeps file 2's record on equal keys.  When
file 2 ends first, both copies at its end run and a blank line is written.  `Merge.Repairs` says for each
of the two whether it is repaired; `Merge.AS_CODED` repairs nothing.

Index.  `ssindex` keeps entries of buckets that have disappeared; what lies behind its end, which `c1_get`
reads for keys that start with `z`, is the parameter `beyond`.

Store.  `Store.REPAIRED` has a memtable lookup that returns what it finds, a merge that keeps the newer
record with exclusive copies, and -1 behind the index.  The index itself is not repaired: without
deletions no bucket disappears.  A GET of a key that was never written copies from a null pointer; the
model calls that `Down`.

Recovery.  A write is logged and then carried out, in two steps under different mutexes; lookups and the
timer may come in between.  Writers take turns, so that at most one write is logged and not yet carried
out.  A flush removes the whole log, including the record of such a write.  A crash may come at any
moment between two events; a torn last record is the subject of `Journal`.  The replay runs before the
metadata of the files is loaded (server-main.c:20-60, server-part1.c:485-521), so that a replay that fills
the memtable fails.  The list that the replay put into the cache is cut off when the server starts.

ABD.  In the source all three `strtok_r` of a reply start at its beginning, so that both halves of the tag
are the number of the value (client.c:287-296).  `Abd.Client` has a flag for each of: the client takes a
value only with its tag, the client reads the tag of the reply; `Abd.CODED_CLIENT` has neither.
`Abd.Variant` adds: the server keeps the incoming value, and how many answers an operation waits for.
`Own(r, w)` are `r` replies to its query and `w` acknowledgements of its update; `Shared` is the source,
whose semaphores are never reset, so that an operation waits until all posts so far, its own and older
ones, are a majority.  Theorems say which flags they need; `tagFromReply` is a repair.  `Abd.Atoi` is
`atoi` converted to 32 bits, with the low 32 bits of a number that does not fit.  The tags of writes are
arbitrary unless a theorem says otherwise.

## Model

| member | source | states |
|---|---|---|
| LockQueue.CompareDecidesOrder | pqueue.c:42-56 | the comparison decides (timestamp, node id) order, a total order on distinct entries |
| LockQueue.SortedInsertIsStableInsert | pqueue.c:58-88 | enqueueing keeps a queue sorted, adds exactly the new entry, and puts it behind equal ones |
| LockQueue.HeadIsLeast | pqueue.c:90-105 | no entry of a sorted queue precedes its head |
| LockQueue.MakeRoom | pqueue.c:69-77 | the shifting loop moves exactly the later entries one slot on, with wraparound, and overwrites no live slot |
| LockQueue.Ring.Reset | pqueue.c:18-21 | the ring is empty afterwards |
| LockQueue.Ring.Empty | pqueue.c:23-28 | true exactly for the empty queue |
| LockQueue.Ring.Full | pqueue.c:30-40 | true exactly at capacity |
| LockQueue.Ring.Enqueue | pqueue.c:58-88 | the contents become the stable sorted insert, or stay at exactly the capacity and report failure |
| LockQueue.Ring.Dequeue | pqueue.c:90-105 | the least entry is returned and removed; an empty queue yields nothing |
| LockQueue.Ring.Peek | pqueue.c:126-136 | the least entry, or nothing, without a change |
| LockTheorems.StepKeepsInv | blocking_node.c:270-474 | every step of every node keeps the protocol invariant |
| LockTheorems.MutualExclusion | blocking_node.c:270-425 | in every run at most one node is between a completed lock and its unlock |
| LockTheorems.BlindDequeueIsSafe | blocking_node.c:404-410 | critical sections end in (timestamp, node id) order; what a node has popped is a prefix of them, as long as the number of releases it has seen, and nothing unreleased is ever popped |
| LockTheorems.HolderIsAtItsHead | blocking_node.c:319-342 | the holder's request stays at the head of its own queue and precedes every other open request |
| LockTheorems.NoOvertaking | blocking_node.c:319-342 | whatever has completed precedes whatever is open; every open request is its node's current one |
| LockTheorems.LaterRequestSortsLater | blocking_node.c:270-287 | a request made after a node has queued an answered one sorts behind it |
| LockTheorems.QueuesNeverUnderflowOrOverflow | blocking_node.c:381-447 | no queue overflows, every RELEASE pops a completed entry, and the head test of SERVER_WRITE never meets an empty queue |
| LockTheorems.LockAlwaysEnqueues | blocking_node.c:283-287 | a request is never refused by a full queue |
| LockTheorems.WriteAcceptedIff | blocking_node.c:427-447 | a SERVER_WRITE takes effect exactly when the receiver has popped every completed section or the oldest it has not popped is the sender's |
| LockDroppedWrite.AWriteIsDropped | blocking_node.c:427-447 | a reachable state of three nodes in which the write of the lock's holder arrives before the previous holder's RELEASE and is dropped |
| LockTheorems.OneReplyPerRequest | blocking_node.c:383-425 | an unanswered request is in exactly one place, travelling, deferred or being answered; an answered one is in none |
| LockTheorems.RepliesCountPeers | blocking_node.c:300-314 | the counter equals the number of distinct peers that answered the current request, and is zero outside the reply loop |
| LockTheorems.LeastHasAllReplies | blocking_node.c:381-425 | with empty channels the waiting node with the least request has all N-1 replies |
| LockTheorems.LeastIsAtItsHead | blocking_node.c:319-328 | with empty channels that node is at the head of its own queue |
| LockTheorems.LeastCanProceed | blocking_node.c:306-328 | so in every reachable state with empty channels that node can take its next step |
| LockTheorems.NoDeadlock | blocking_node.c:270-425 | while a request is open, some step that finishes existing work is possible |
| LockLiveness.FinishingIsProgress | blocking_node.c:270-425 | every step other than a new request or a write decreases a measure of the outstanding work |
| LockLiveness.FinishingRunsAreBounded | blocking_node.c:270-425 | runs without new requests and writes are no longer than that measure |
| LockLiveness.StuckMeansServed | blocking_node.c:270-425 | when nothing is left to finish, every request made has been granted and released |
| LockLiveness.EveryRequestCanBeServed | blocking_node.c:270-425 | from every reachable state some schedule serves all requests made so far |
| LockFairness.BoundedOvertaking | blocking_node.c:270-425 | from any reachable state on and for any further requests, every other node completes at most two critical sections while a request is open |
| LockFairness.NoStarvation | blocking_node.c:270-425 | in every run, whatever is requested meanwhile, all nodes together complete at most 2(n - 1) critical sections while a request is open |
| LockClocks.DeliveryClock | blocking_node.c:373-480 | after any message the clock is the larger of clock and stamp, one more exactly if the node answers, and the answer carries it; a node answers a request unless its own open one is older, a reply if it had deferred the sender, and nothing else |
| LockClocks.DeliveryFrame | blocking_node.c:373-452 | what each kind of message changes besides the clock, and that it changes nothing else |
| LockClocks.OwnEventClock | blocking_node.c:270-371 | a lock, a write and an unlock move the clock by one, and their broadcast carries it |
| LockClocks.StampsIncrease | blocking_node.c:270-480 | in every run, whatever a node sends carries a greater stamp than every message it has sent or received before |
| BlockingNode.Server.UpdateTimestamp | blocking_node.c:476-480 | the clock becomes the larger of the two and nothing else changes |
| BlockingNode.Server.SendRequests | blocking_node.c:291-304 | the loop writes to every other node and marks exactly those as asked, with the current stamp |
| BlockingNode.Server.DistributedLock | blocking_node.c:270-304 | the globals become what the lock step says, and the broadcast is the one it says |
| BlockingNode.Server.PollReplies | blocking_node.c:306-315 | passes exactly with the replies of all peers and resets the counter |
| BlockingNode.Server.PollHead | blocking_node.c:319-328 | passes exactly when the own request is at the head |
| BlockingNode.Server.DistributedUnlock | blocking_node.c:334-371 | pops the head and broadcasts the release, as the unlock step says |
| BlockingNode.Server.HandleRequestLock | blocking_node.c:454-474 | bumps the clock and answers with it |
| BlockingNode.Server.OnRequest | blocking_node.c:383-402 | queues the request and defers or answers it as the transition system does |
| BlockingNode.Server.OnReply | blocking_node.c:412-425 | answers a deferred request, clears the mark and counts the reply |
| BlockingNode.Server.HandlePeerMessage | blocking_node.c:373-452 | every message changes the globals and answers exactly as the transition system's handler |
| BlockingNode.PeersAreTheOthers | blocking_node.c:291-294 | the broadcast loop reaches every node but its own, once |
| Avl.InsertKeepsBalance | c0.c:10-44 | insertion keeps stored heights right and balance within one; the rotation chosen by comparing keys is the right one |
| Avl.DeleteKeepsBalance | c0.c:46-89 | deletion keeps them too, with rebalancing on the way up, also in the successor case |
| Avl.StoredHeightIsTrue | c0.c:120-139 | the stored height of a balanced tree is its real height |
| Avl.SizeBound | c0.c:120-139 | a tree of stored height h has at least Fib(h + 3) - 1 nodes |
| Avl.DepthIsLogarithmic | c0.c:91-104 | so the depth of a lookup is logarithmic in the number of nodes |
| AvlOrder.InsertOrder | c0.c:10-44 | in order, insertion adds the new record at its place, and nothing for a present key |
| AvlOrder.InsertIsAvl | c0.c:10-44 | the result is again a search tree, balanced, and finds exactly the old records and the new one |
| AvlOrder.InsertSize | c0.c:286-292 | the size grows by one exactly for a new key |
| AvlOrder.DeleteOrder | c0.c:46-89 | in order, the key's record goes and flags are carried along the successor path |
| AvlOrder.DeleteIsAvl | c0.c:46-89 | the result is again a search tree, balanced, without the key and with every other key and its value |
| AvlOrder.DeleteMeaning | c0.c:46-89 | a lookup after a deletion finds nothing for the key and the old value for every other |
| AvlOrder.DeleteKeepsFlagsIff | c0.c:73-74 | flags survive a deletion exactly when all flags along the carried stretch are equal |
| AvlOrder.DeleteCanChangeAFlag | c0.c:73-74 | a tree of two records in which a deletion revives a deleted one |
| AvlOrder.SearchIsFind | c0.c:91-104 | the intended lookup finds exactly the record of a key |
| AvlOrder.GetIsRightIff | c0.c:91-104 | the lookup as coded is right exactly for absent keys and the key of the root |
| AvlOrder.UpdateOrder | c0.c:105-118 | an update replaces exactly the record of a present key, at any depth |
| AvlOrder.UpdateIsAvl | c0.c:105-118 | and keeps order, heights and balance |
| Memtable.RotateRightAt | c0.c:141-149 | the pointer surgery of a right rotation yields the rotated tree over the same nodes |
| Memtable.RotateLeftAt | c0.c:151-160 | the same to the left |
| Memtable.LRAt | c0.c:172-177 | the double rotation left-right, in place |
| Memtable.RLAt | c0.c:179-183 | the double rotation right-left, in place |
| Memtable.InsertNode | c0.c:10-44 | insertion in place yields the inserted tree, over the old nodes and at most fresh ones |
| Memtable.DeleteNode | c0.c:46-89 | deletion in place yields the tree without the key, over old nodes only |
| Memtable.ReplaceBySuccessor | c0.c:66-76 | a node with a right child takes over its successor, which is deleted below |
| Memtable.UpdateNode | c0.c:105-118 | the record is overwritten in place; only a match at the root is returned |
| Memtable.GetNode | c0.c:91-104 | returns the root for its own key and nothing for any other, as coded |
| Memtable.C0Size | c0.c:286-292 | the number of nodes |
| Memtable.DumpToArray | c0.c:219-235 | fills exactly the next size-many places of the array, in increasing key order |
| Records.KeyOrder | c0.c:22-31 | `strcmp` is a strict total order on keys |
| Records.LtIsLexicographic | c0.c:22-31 | the order is lexicographic: behind a common prefix the smaller string ends or has the smaller character |
| Merge.MergeFiles | c1.c:125-251 | the loop ends and writes exactly the merged file, blank line included |
| Merge.CopyTails | c1.c:200-240 | the two copies at the end, which both happen when file 2 runs out |
| Merge.MergeKeepsSorted | c1.c:145-198 | the merge of strictly sorted files is strictly sorted |
| Merge.MergeMeaning | c1.c:160-193 | a shared key keeps file 2's record iff that is live; any other record survives iff it is live or its key exceeds every key of the other file |
| Merge.MergedFileCleanIff | c1.c:200-229 | the output has no blank line exactly when both files have lines and the last new key is not after the last old one |
| Merge.MergedFileHoldsMerge | c1.c:200-240 | blank lines apart the merged file holds exactly the merge, and at most one line is blank |
| Merge.NewWinsKeepsNewest | c1.c:77-92 | with the new file preferred, merging live files keeps the newest record of every key |
| Merge.MergeKeepsNewestIff | c1.c:181-192 | as coded it does so exactly when the files agree on the keys they share |
| Merge.MergeCanKeepTheOldValue | c1.c:181-192 | two files of one record for which the new value is lost |
| SparseIndex.CharToIdxIsPosition | c1.c:443-450 | the bucket number is the position in the character set |
| SparseIndex.BucketMonotone | c1.c:443-450 | bucket numbers follow the `strcmp` order of keys |
| SparseIndex.UpdateSstable | c1.c:410-441 | the index array becomes the rebuilt index: first offsets of present buckets, -1 for offset 0, stale entries kept |
| SparseIndex.SearchIsFindInWindow | c1.c:372-399 | binary search finds a key exactly when its line lies in the window |
| SparseIndex.TruncDivRemainder | c1.c:253-291 | offsets are divided as in C, toward zero |
| SparseIndex.GetInBucket | c1.c:253-291 | a lookup through the index is right exactly when the key is absent or in front of the computed end line |
| SparseIndex.IndexAgreesWithScanIff | c1.c:276-288 | all lookups agree with a linear scan exactly when no stale entry, nor what lies behind the array, cuts a bucket short |
| SparseIndex.FreshIndexAgrees | c1.c:410-441 | if no bucket ever disappears and -1 lies behind the array, every lookup agrees with the scan, after every rebuild |
| Generations.GenerationsMeaning | c1.c:20-123 | after k flushes the file number is 2(k - 1) and the file holds the k-fold merge of the batches, strictly sorted |
| Generations.RepairedRunsNeverSpoil | c1.c:200-229 | with exclusive copies every run of flushes leaves a file |
| Generations.CodedRunsSpoilIff | c1.c:200-229 | as coded a run of flushes of live records leaves a readable file exactly when no later batch has a key beyond the greatest of the first |
| Generations.GrowingKeysSpoilTheFile | c1.c:200-229 | two flushes of one record each that spoil the file |
| Generations.StaleEntryHidesAKey | c1.c:433-437 | two flushes of the source after which a key that is in the file is not found, because the entry of a bucket that has disappeared cuts its bucket short |
| Generations.FlushKeepsLive | c1.c:62-116 | a flush of live records keeps the file sorted and live and the index fresh, and lookups agree with the scan |
| Generations.FlushWritesFiles | c1.c:20-123 | a flush writes the file of the batch, then the merged file unless it is the first, and changes no other file |
| Generations.SortedFiles.BatchInsert | c1.c:20-123 | counter and files become what one flush of the dumped batch says; it succeeds exactly when the file has no blank line, and then the index is rebuilt too |
| Generations.SortedFiles.C0Dump | c0.c:237-251 | an empty memtable leaves the disk alone; any other is flushed in key order, and succeeds exactly when the flush does |
| LruCache.TouchedKeeps | cache.c:8-37 | a lookup changes nothing but the order, and a hit comes first |
| LruCache.HoldsMostRecent | cache.c:8-73 | after any sequence of lookups and puts the cache holds the most recently used keys, in the order of their last use, as many as fit |
| LruCache.PutMeaning | cache.c:39-73 | after a put the key comes first with its value, all others keep theirs, and only the least recently used of a full cache is lost |
| LruCache.RemovedMeaning | cache.c:75-90 | invalidation removes exactly the key |
| LruCache.Relink | cache.c:16-30 | the relinking of a hit keeps next and prev mutually inverse and returns the new last node |
| LruCache.Cache.Get | cache.c:8-37 | the list becomes the recency list after the lookup; the hit is its head |
| LruCache.Cache.Put | cache.c:39-73 | the list becomes the recency list after the put, truncated at the cache size |
| LruCache.Cache.LinkFront | cache.c:43-54 | a new node is linked in front |
| LruCache.Cache.EvictOrCount | cache.c:55-67 | a full cache drops its last node, any other counts one more |
| LruCache.Cache.UnlinkHead | cache.c:78-84 | the head is unlinked; with the last entry gone `tail` is left dangling |
| LruCache.Cache.Invalidate | cache.c:75-90 | the list becomes the recency list without the key |
| Store.GetMeaning | server-part1.c:37-85 | GET answers with the stored value from whichever layer has it, and goes down on a key without one |
| Store.StepCaches | server-part1.c:37-184 | repaired or as coded: a lookup, a PUT and a successful INSERT leave the key in front of the cache with that value, and every other key as it was but the one pushed out; a rejected INSERT and the timer change no cached value |
| Store.RunUsesCache | server-part1.c:37-184 | after every run, repaired or as coded, the cache holds the keys that lookups, PUTs and INSERTs have used last, in the order of their last use, as many as fit |
| Store.LookedUpIsCached | server-part1.c:67-79 | what a lookup has answered, the next one answers from the cache, and an INSERT of the key is rejected |
| Store.RunKeepsCacheOk | cache.c:39-73 | the cache stays within its size and without duplicates in every run |
| Store.PutStores | server-part1.c:87-113 | PUT stores the value and changes no other key, also when it flushes |
| Store.InsertStores | server-part1.c:145-184 | INSERT stores a value, or is rejected for a key that has one |
| Store.TimerKeepsAll | server-part1.c:19-33 | a flush by the timer loses nothing |
| Store.DumpMeaning | server-part1.c:95-100 | after a flush the file alone holds what memtable and file held |
| Store.StoreRefinesMap | server-part1.c:19-184 | after every run, memtable and file together are the map of latest written values, and every cached value agrees with them |
| Store.GetReturnsLatest | server-part1.c:37-85 | GET of a written key returns its latest value after every run; any other GET fails |
| Store.StaysUpIff | server-part1.c:75-77 | the server stays up exactly as long as only written keys are looked up |
| Store.CodedPutTakesEffectIff | server-part1.c:87-95 | as coded a PUT that does not fill the memtable reaches it exactly when its key is new there or at the root |
| Store.CodedPutKeepsCacheRightIff | server-part1.c:87-111 | as coded the cache agrees with the layers after such a PUT exactly then, or if the value is the stored one |
| Store.CodedFillingPutIff | server-part1.c:95-100 | as coded a PUT that fills the memtable leaves the server up exactly when it is the first flush or no key is beyond the file's last, and then the file has the newest record of every key exactly when memtable and old file agree on shared keys |
| Store.CodedGetIsRightIff | server-part1.c:37-85 | as coded a GET is right exactly for a cached key, one at the root of the memtable or not in it, and one with the same value in the file |
| Store.CodedInsertTakesEffectIff | server-part1.c:145-184 | as coded an INSERT is rejected exactly for a key that is cached or at the root; for any other key of the memtable it reports success and only the cache takes the value |
| Store.CodedPutLosesAValue | server-part1.c:87-111 | three PUTs after which cache and memtable disagree |
| Server.SearchNode | c0.c:91-104 | the repaired lookup on the heap finds the node of a key |
| Server.StorageServer.GetRequest | server-part1.c:37-85 | tree, files, cache and answer are as the store says, for every key; no answer exactly when the store goes down |
| Server.StorageServer.PutRequest | server-part1.c:87-113 | the same for PUT, including the flush at 100 entries; no answer exactly when that flush spoils the file |
| Server.StorageServer.InsertRequest | server-part1.c:145-184 | the same for INSERT |
| Server.StorageServer.OnTimer | server-part1.c:19-33 | the same for the timer |
| Bytes.IntRoundTrip | blocking_node.c:484-491 | a 32-bit integer survives its four bytes |
| Bytes.IntBytesAreLittleEndian | blocking_node.c:484-491 | least significant byte first |
| Bytes.StrtokTakesWord | blocking_node.c:516-521 | a word in front of a space or the terminator is the next token, and the rest is what follows |
| Bytes.StrtokStartsOver | client.c:289-293 | started again on the same buffer, the tokenizer finds the same token once more and nothing behind it |
| Bytes.StrtokSkipsSpaces | blocking_node.c:516-521 | leading spaces change nothing about token and rest |
| Bytes.StrtokFindsNone | blocking_node.c:516-521 | at the terminator there is no token and nothing is consumed |
| Wire.MarshallPm | blocking_node.c:482-502 | the buffer starts with the encoded message and is otherwise unchanged; the count is its length |
| Wire.SendPeerMessage | blocking_node.c:529-537 | the bytes sent are the zero-padded message of fixed size |
| Wire.MessageLayout | blocking_node.c:482-502 | where each field is in what is sent, and that zeros follow |
| Wire.HeaderArrives | blocking_node.c:504-514 | the four integers of every legal message arrive |
| Wire.NoValueArrivesEmpty | blocking_node.c:516-525 | an empty value arrives as no value at all |
| Wire.RoundTripIff | blocking_node.c:482-527 | all six fields of a message that fits arrive exactly when key and value are non-empty and free of spaces |
| Journal.RecordRoundTrip | journal.c:185-215 | a logged record is decoded to its transaction |
| Journal.RecordLayout | journal.c:31-168 | where each field is in a record, and that zeros follow |
| Journal.UnmarshallReads | journal.c:185-215 | what is read of any record, intact or not; there is a result exactly if the length field stays inside the record |
| Journal.RecoveryDecodesLog | journal.c:331-401 | recovery decodes exactly the logged transactions, in order, before any incomplete tail |
| Journal.LineRoundTrip | journal.c:354-356 | a logged line is taken apart into its three words |
| Journal.WriteLinesParse | journal.c:357-371 | and replayed as the request it names |
| Journal.LinesParse | journal.c:354-377 | a line is replayed as the request its first word starts with: lookup and deletion whatever follows the key, the writes with the next word if there is one; and not at all if it starts with none of the four names |
| Journal.KeylessLineIsIgnored | journal.c:357-358 | nor is a line without a key |
| Journal.LoggedIsReplayed | journal.c:331-377 | a logged transaction is replayed in its place if it is valid and its line is a request, and not otherwise |
| Journal.TaggedLineParses | journal.c:354-371 | a request with a tag behind its value is replayed without the tag |
| Journal.LogFile.LogTransaction | journal.c:13-183 | appends exactly the record, or the prefix of it that was written when the process died |
| Journal.LogFile.Recover | journal.c:309-424 | succeeds exactly when every whole record can be decoded, and then replays the recognised requests of the valid transactions in order and removes the log |
| Journal.CrashedLogIsRecovered | journal.c:331-401 | a crash within a record loses that record and no other |
| Recovery.RecoveredIsFoldOverFile | journal.c:309-424 | recovery succeeds exactly when the log writes fewer than 100 keys, and then gives the file with the values of the log put over it: the last PUT, or an INSERT without an earlier write |
| Recovery.CarryOutCoveredIff | server-part1.c:369-378 | if the log covers the server, it still does after the next write is carried out exactly when that filled the memtable, or is replayed as it was carried out, or, with its record lost to a flush, changed nothing |
| Recovery.RecoveryRestoresMap | journal.c:309-424 | in every run in which no write lost its record to a flush and no INSERT was rejected for the cache alone, a crash at any moment is recovered with every latest written value |
| Recovery.PendingWriteIsRecoveredIff | server-part1.c:375-376 | a write that was logged but not carried out when the server crashed is recovered as well, exactly when it does not fill the memtable; if it does, recovery fails |
| Recovery.LoggedPutSurvivesIff | server-part1.c:19-33 | with any lookups and timer flushes between record and execution, a crash after a PUT keeps all values exactly when the timer did not flush a non-empty memtable in between, or the value was stored before |
| Recovery.FlushedRecordLosesAWrite | server-part1.c:19-33 | two PUTs with a flush between record and execution of the second: it was acknowledged, and is lost by a crash |
| Recovery.RejectedInsertIsReplayed | journal.c:367-369 | PUT, flush, INSERT of the same key: the INSERT was rejected, and recovery carries it out |
| Recovery.FullLogIsNotRecovered | server-main.c:20-60 | a run of a hundred PUTs, crashed before the last is carried out, whose log cannot be recovered |
| Recovery.SecondCrashKeepsAllIff | journal.c:419-423 | after any run, a second crash right after recovery loses nothing exactly when the file has, for every key of the log, the value the log ends with |
| Recovery.SecondCrashLosesAPut | journal.c:419-423 | one PUT that a first crash keeps and a second loses |
| Recovery.LogFileReplaysRequests | journal.c:331-371 | the bytes of the log, with any incomplete tail, replay exactly the logged requests |
| Abd.TagOrder | abd.c:7-15 | tags are totally ordered: the timestamp decides, and on equal timestamps the client id |
| Counting.SetsMeet | client.c:322-324 | two sets of servers that are together more than all have one in common, as two majorities do |
| Abd.StepKeepsInv | client.c:242-411 | if the answers to a query and to an update overlap, and what a query that ends has seen in its replies is not behind them, every step keeps the invariant of the register |
| Abd.ReadsNeverGoBack | client.c:242-411 | with clients that read the tags of replies: a read that starts after an operation has finished returns a tag at least as large, under any delays |
| AbdRuns.ReadsNeverGoBackIff | client.c:306-396 | with such clients, reads never go back in all runs over n servers exactly when the answers that a query and an update wait for are together more than n |
| AbdRuns.LeftoverPostsAreHarmlessIff | client.c:320-327 | with such clients and the same posts left over for every operation, that holds exactly when there are none, or one in all and n is even |
| AbdShared.SharedRunsNeverGoBackIff | client.c:320-393 | with such clients and semaphores as coded, whose posts accumulate: over any number of servers, reads never go back in all runs with given reads and writes exactly when the only read comes first, or right behind the first write |
| AbdShared.SharedSemaphoresGoBack | client.c:320-327 | as coded, for any number of servers: a read, a write and a read of one client in which a read goes back |
| AbdCoded.ParsedReadsNeverGoBackIff | client.c:289-296 | with tags parsed as coded, values that follow them, servers that keep incoming values, and overlapping answers: with cells from a given set reads never go back in all runs exactly when no cell has a tag beyond the number of its value (or that of a query), or a phase cannot end |
| AbdCoded.CodedReadsNeverGoBackIff | client.c:242-411 | with client and server as coded but answers of its own for every operation: over given servers, and writes with given tags, reads never go back in any run exactly when no write is beyond the greatest number a server starts with and fewer servers than a query waits for start behind it, or a phase cannot end |
| AbdNumbers.AtoiReadsNumber | client.c:292-293 | a number below 2^32 in decimal notation, behind any blanks, is read as itself up to the first other character; with `+` too, and with `-` as its negative in 32 bits |
| AbdNumbers.AtoiWithoutDigit | client.c:292-293 | without a digit behind blanks and sign the number is 0 |
| AbdCoded.CodedGather | client.c:287-296 | as coded a query ends with the value of the last reply and the greatest number of any value as both halves of its tag |
| AbdCoded.CodedQueryIsRightIff | client.c:287-296 | as coded a query returns one of the latest replies exactly when one of them has the last reply's value and that number for a tag; and the value its tag names exactly when the last reply has the value named by that number's tag |
| AbdCoded.QuietQueryIsRightIff | client.c:287-296 | if all servers hold the same cell, a query as coded returns it exactly when its tag is made of the number of its value |
| AbdCoded.OneReplyIsMisread | client.c:292-293 | a single reply whose tag is lost |
| AbdCoded.StaleReplyLast | client.c:289-296 | two replies after which the old value carries the tag of an empty register, or, if tags are read, the new tag |
| AbdValues.LastValueIsRightIff | client.c:290 | if only tags are read right, a query returns the value its tag names exactly when some reply that no other exceeds has the value of the reply that came last |
| AbdCoded.CodedRunsChangeServersIff | client.c:401-429 | with tags parsed as coded: reads, and writes as `abd_write` makes them, ever change a server exactly when some server starts behind the greatest number of a value, or behind the tag of a query |
| AbdCodedValues.ReadMakesATag | client.c:401-411 | a read that writes back a tag no server had |
| AbdCodedValues.ParsedEqualTagsEqualValuesIff | client.c:401-411 | with parsed tags that values follow: operations with equal tags have equal values in all runs with cells from a given set exactly when the cells and what reads make of them have one value for each tag |
| AbdValues.EqualTagsEqualValues | client.c:401-411 | with a repaired client: if each tag names one value, operations with equal tags have equal values |
| AbdValues.EqualTagsEqualValuesIff | client.c:313-314 | for arbitrary servers, in all runs, exactly when the tag that a query starts with names the empty value, or fewer servers start below it than a query waits for |
| AbdValues.CodedServersNeverChangeTheirValue | server-part1.c:131-138 | as coded no run ever changes the value of a server |
| AbdValues.ZeroWritesTakeEffectIff | client.c:419-429 | with a repaired client: writes with the tag `abd_write` uses can leave something new on a server exactly when some server starts below that tag |
| Abd.AbdArg.OnReply | client.c:287-299 | one reply changes the shared tag and value as the model says, with the tag of the reply or of its value, and posts once |
| Abd.AbdArg.ReadQuery | client.c:306-329 | the query waits for exactly the answers that the semaphore lacks of a majority, and ends with what these add up to |
| Abd.Replica.PutRequestAbd | server-part1.c:115-143 | a tagged PUT changes the stored cell as the model says, and the tag never falls; without an entry for the key the server goes down |
| AbdRecovery.TaggedReplayIff | server-part1.c:299-304 | recovery brings back every value exactly when the last logged PUT of every key has the value the server had: as coded the one before them all, with incoming values kept that of the first PUT with the greatest tag; and every tag exactly when nothing was logged |
| AbdRecovery.RefusedPutIsReplayed | journal.c:364-366 | a PUT that was refused for its tag is carried out by recovery |

## Left out

- Sockets, connection set-up, signals, timers as devices, argument parsing: I/O; a timer is an event of the store.
- Races between threads on `timestamp`, `requests[]`, the queue and the locks of cache and memtable: the code is not free of them; the stated steps are atomic.
- More than one outstanding lock request per node, and a reply quorum smaller than all other nodes.
- MutualExclusion: stated, like the other lock theorems, for at most 50 nodes, the capacity of the queue; beyond it a full queue drops requests.  The source allows 10 peers.
- Convergence of replicas through SERVER_WRITE: it does not hold; `LockTheorems.WriteAcceptedIff` says when a write is dropped.
- Logging of writes that arrive through SERVER_WRITE: the code applies them without a log entry.
- DELETE and the visibility of tombstones: neither lookup checks the flag, so that the store theorems are about runs without deletions; the flags are modelled in tree, merge and dump.
- RecoveryRestoresMap: one direction for whole runs, which then restore every value; a run that was disturbed once may or may not make its values agree again by later writes.  `Recovery.CarryOutCoveredIff` is exact for each write.
- The count of cache entries, which the start of the server does not reset after a recovery although it drops the list: until it ends, a recovered server caches 101 entries less the number of keys in the log, at least two.  The recovery theorems are about the state right after recovery, with an empty list.
- LeftoverPostsAreHarmlessIff: the same posts are left over for every operation; `AbdShared.SharedRunsNeverGoBackIff` is about posts that accumulate.
- Clients that parse tags and copy every value, together with servers that keep incoming values: half repaired, and neither of the two theorems on parsed tags covers it.
- INSERT and DELETE with tags.
- LogTransaction: the error paths, which truncate the log after a failed write.
- A crash between the end of a flush and the removal of the log, and a crash in the middle of a flush.
- `remove_transaction`: it looks for lines, but records are of fixed size and padded with zeros.
- `malloc` and `free`, and the missing terminators of `unmarshall_pm`.
- Wrap-around of 32-bit timestamps: timestamps are naturals.
- The text format of records in files, the tagged values "value timestamp client" of ABD, and `snprintf` limits: records and tagged values are data.
- The value of `data_len` beyond the record, which `unmarshall_journal_entry` reads blindly: `Journal.Unmarshall` has no result for it.
- Keys that do not start with a letter or a digit: the index is read and written outside its array for them.
- The unsynchronised `node_id` field through which `abd_read_query` tells its threads their server.
- `marshall_metadata` and `unmarshall_metadata`, the metadata file, workload generators, `client17.c`, `blocking_client.c`: nothing hard to state.
