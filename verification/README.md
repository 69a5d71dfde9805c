# Verified models of the locking exercises and the caching proxy

This project models, in Dafny, the concurrent parts of the repository and proves what they
promise, for any number of threads and any interleaving:

* **The hand-over-hand list** (`2/2.3`). Counters and swappers walk one linked list and lock it
  node by node. `HandOverHand.dfy` is the program as a step system: each lock, unlock, pointer
  read, comparison and each of the three pointer writes of a swap is one step, under mutexes or
  under read/write locks. `HandOverHandSteps.dfy` proves the invariant, `HandOverHandTheorems.dfy`
  draws the conclusions, `HandOverHandChoices.dfy` ties the list to the coin flips of the run. `PassSpec.dfy` says what one pass does alone; `HeapPass.dfy` proves the
  loops on real links against it. The central invariant: what each pass has read, followed by the
  rest of the list, is the list that the pass before it leaves.
* **The cache of the HTTP proxy** (`caching_http_proxy`). `UrlHash.dfy`, `Chunks.dfy` and
  `HttpCache.dfy` are the data structures as classes with pointers: hash (`UrlHashValues.dfy` gives
  known values), chunk list, hash buckets and LRU list. `ProxyCache.dfy` is the protocol of the workers that share entries and of
  the collector that frees them; `ProxyCacheInv.dfy` (references and streams) and
  `ProxyCacheTable.dfy` (buckets, LRU list, uniqueness) prove its invariants,
  `ProxyCacheTheorems.dfy` what holds in every reachable state. `ProxyCacheHistory.dfy` ties requests,
  answers, streams and times to what the run received, `ProxyCacheOutcomes.dfy` says how requests and
  entries end and why, `ProxyCacheProgress.dfy` that they can always be brought to their ends and
  that nothing leaks. `TruncatedAnswer.dfy` is the run of
  the finding below.
* **The thread pool's client tables** (`caching_http_proxy/threading`). `WorkerTable.dfy` is the
  pair of arrays that the acceptor appends to while the worker works on a copy, `ThreadPool.dfy`
  the choice of a worker, `Acceptor.dfy` both together.
* **The blocking primitives**: the futex mutex (`FutexMutex.dfy`), the bounded queue with condition
  variables (`CondvarQueue.dfy`) and with semaphores (`SemaphoreQueue.dfy`), and the linked list
  inside the queues (`LinkedQueue.dfy`).

`Basics.dfy`, `Sums.dfy` and `Filters.dfy` hold the little theory of options, distinct sequences,
sums and filters that the others use.

## How to read the theorems

A run is a sequence of states, each reached from the one before by a step of one thread (`IsRun`
in each module). Everything the environment decides is a free choice of the step: the scheduler,
the swappers' coin flips, spurious wakeups, which sleeper a signal wakes, timeouts, the results of
sockets, the clock. The theorems of the History, Outcomes and Choices files speak of these choices
themselves. Theorems about the list that take `Inv(mode, init, s)` hold in every state of
every run, because `ReachableInv` proves that invariant for all of them. Its auxiliary fields (the list
order, the record of the passes, each thread's position and rank) are kept by the steps for the
proofs; no step takes a decision by them. The clock of the proxy never runs backwards.

* The three swap counters are one number, their total; any number of threads of each kind may run.
  `comps` exists under both lock kinds although only the mutex program has it.
* A counter update is one step together with the cursor move beside it.
* In the proxy, a mutex is held by the thread whose program point lies between its lock and unlock
  calls; whoever wants a mutex that is held cannot step. Under an entry's lock a change of data or
  state and the broadcast about it are two steps, a reader's look at the entry and its wait are
  two, a lookup takes the reference in one step and moves the entry in the LRU list in the next,
  and the collector unlinks an entry in one step and takes it out of the LRU list in the next.
  Other critical sections under an entry's lock, and those under the LRU lock, are one step. `Key`
  stands for a URL and its bucket; the code's key is the path of the request, without the host.
* A request that is answered without the cache (connection or parse failure, a status other than
  200 or 304) is one step from `Fetch` back to `Idle`.

## Model

| member | source | states |
|---|---|---|
| HandOverHandSteps.StepKeepsInv | 2/2.3/mutex/main.c:89-218 | every step of every counter and swapper, under either kind of lock, keeps the list whole, the passes in order and each pass reading the list its predecessor leaves |
| HandOverHandSteps.ReachableInv | 2/2.3/mutex/main.c:302-347 | the invariant holds in every state of every run from a freshly built list, whatever the numbers of counters and swappers |
| HandOverHandTheorems.EveryRunIsSerial | 2/2.3/mutex/main.c:89-118 | serializability: a finished pass read end to end exactly the list left by the passes that locked the first node before it; the list in memory is what the recorded decisions of the passes make of it one pass at a time |
| HandOverHandChoices.CoinsMakeTheList | 2/2.3/mutex/main.c:196-214 | the coins decide: the decisions of a finished pass are the coin flips that the run offered to it, all of them and in order; whenever no pass is under way the links in memory form the list that the coin flips make of the initial one, pass after pass |
| HandOverHandChoices.CoinsDecide | 2/2.3/mutex/main.c:204-214 | at any time the coin flips offered to a pass are the decisions it has recorded and the one it has taken but not yet recorded |
| HandOverHandChoices.PassesStart | 2/2.3/mutex/main.c:89-95 | the passes are those of the threads that locked the first node, in the order of these locks |
| HandOverHandChoices.WaitsExactly | 2/2.3/rwlock/main.c:79-107 | a thread waits exactly while a conflicting thread holds the node it wants: under read/write locks a counter for swappers only, a swapper for anybody; under mutexes everybody for anybody |
| HandOverHandChoices.PassesCanEnd | 2/2.3/mutex/main.c:96-113 | from every reachable state the run can go on until every pass under way has ended |
| HandOverHandTheorems.SerialPermutes | 2/2.3/mutex/main.c:204-209 | no sequence of passes loses, repeats or adds a node or moves the first one |
| HandOverHandTheorems.FinishKeeps | 2/2.3/mutex/main.c:204-209 | letting the threads that are between the writes of a swap make the writes that are left changes neither the list order nor the passes and keeps the invariant |
| HandOverHandTheorems.ListStaysWhole | 2/2.3/mutex/main.c:189-216 | in every reachable state, also between the three writes: once the swaps in flight are finished, the links in memory form a list from the unchanged first node to NULL that is a permutation of the initial nodes; every link not under repair is already the one of that list |
| HandOverHandTheorems.EachNodeOnce | 2/2.3/mutex/main.c:97-114 | what a pass has read are exactly the nodes now before its cursor, each once; a finished pass has read every node once |
| HandOverHandTheorems.NoOvertaking | 2/2.3/rwlock/main.c:86-107 | conflicting passes never overtake: the one that locked the first node later stays strictly behind and finishes later; readers may pass readers only |
| HandOverHandTheorems.CountersAgree | 2/2.3/rwlock/main.c:79-107 | under read/write locks counter passes with no swapper between them in first-lock order read identical sequences |
| HandOverHandTheorems.CountersSum | 2/2.3/rwlock/main.c:79-165 | three such passes, one of each kind, find N - 1 pairs together |
| HandOverHandTheorems.HeldExclusively | 2/2.3/rwlock/main.c:167-206 | two threads hold the same node only under read/write locks and only if both are counters |
| HandOverHandTheorems.StepWritesOnly | 2/2.3/mutex/main.c:204-209 | a step changes no link but the one that Writes names for its program point |
| HandOverHandTheorems.StepReadsOnly | 2/2.3/mutex/main.c:100-109 | a step's effect depends on no link but those that Touches names for its program point |
| HandOverHandTheorems.NoDataRace | 2/2.3/mutex/main.c:204-209 | every read or write of a node's next is by a holder of that node's lock, and nobody else touches a link that is being written |
| HandOverHandTheorems.WaiterHoldsPredecessor | 2/2.3/mutex/main.c:96-113 | a thread waiting for a node other than the first holds that node's predecessor in the current list |
| HandOverHandTheorems.FrontmostCanStep | 2/2.3/mutex/main.c:189-216 | the pass under way that locked the first node first is never blocked |
| HandOverHandTheorems.NeverStuck | 2/2.3/mutex/main.c:89-218 | deadlock freedom in every reachable state; while a pass is under way, one that is under way can step |
| HandOverHandTheorems.StepShortens | 2/2.3/mutex/main.c:97-112 | every step of a pass lowers its measure, although the list is being reordered |
| HandOverHandTheorems.RunsAreBounded | 2/2.3/mutex/main.c:96-113 | a stretch of a run takes at most the work under way at its start plus 13 N + 1 steps for each pass begun in it |
| HandOverHandTheorems.PassesEnd | 2/2.3/mutex/main.c:96-113 | termination: a run from a freshly built list has at most 13 N + 1 steps for each pass begun in it |
| HandOverHandTheorems.PassesAreShort | 2/2.3/mutex/main.c:189-217 | a pass makes at most N - 1 decisions, and between passes a thread holds no lock |
| HandOverHandTheorems.StatisticsAddUp | 2/2.3/mutex/main.c:97-114 | in every state comp_count is (N - 1) times the finished counter passes plus the comparisons of unfinished ones; the string counts are those of the serial passes; the swap counts are the completed exchanges |
| PassSpec.SwapPassPermutes | 2/2.3/mutex/main.c:189-216 | one swapper pass permutes the list and keeps the first node |
| PassSpec.SwappedDisjoint | 2/2.3/mutex/main.c:189-216 | the pairs exchanged by one pass do not overlap and never include the first node |
| PassSpec.SwapPassAt | 2/2.3/mutex/main.c:189-216 | which node ends at each position: every node moves by at most one |
| PassSpec.SwapPassInvolution | 2/2.3/mutex/main.c:189-216 | repeating a pass with the same decisions restores the list |
| PassSpec.CountsSum | 2/2.3/mutex/main.c:106-106 | every pair of neighbours is counted by exactly one of the three counters |
| PassSpec.CountsExactly | 2/2.3/mutex/main.c:106-106 | the three counters count the places where the next string is longer, shorter, as long |
| PassSpec.SortedCounts | 2/2.3/mutex/main.c:106-106 | count_asc finds N - 1 pairs exactly on a strictly increasing list, count_desc exactly on a strictly decreasing one |
| HeapPass.Build | 2/2.3/mutex/storage.c:20-38 | the built list is well formed and holds the nodes in reverse order of creation |
| PassSpec.KeepOne | 2/2.3/mutex/main.c:211-214 | a round without exchange moves the cursor by one and changes nothing |
| PassSpec.SwapOne | 2/2.3/mutex/main.c:204-214 | a round with exchange leaves the pair behind the cursor in the other order and moves the cursor by two |
| HeapPass.Push | 2/2.3/mutex/storage.c:24-34 | a new node before a well-formed list gives a well-formed list |
| HeapPass.SwapBehind | 2/2.3/mutex/main.c:204-209 | the three writes exchange two neighbours and keep a well-formed list |
| HeapPass.SwapperPass | 2/2.3/mutex/main.c:182-216 | the swapper's loop, run alone on any list, ends, and leaves the list that the specified pass leaves for its decisions |
| HeapPass.CounterPass | 2/2.3/mutex/main.c:92-114 | the counter's loop counts exactly the related neighbours and makes N - 1 comparisons |
| FutexMutex.ReachableInv | 2/2.4/mutex.c:49-86 | in every state of every run the lock word, the critical sections, the counter and the sleepers fit together |
| FutexMutex.MutualExclusion | 2/2.4/mutex.c:49-72 | no two threads are in the critical section, and the lock word then says locked |
| FutexMutex.NoLostWakeup | 2/2.4/mutex.c:49-72 | while a thread sleeps, an awake thread that holds the lock, owes a wake or is about to look at the lock word exists and can step |
| FutexMutex.FinalCounter | 2/2.4/mutex.c:74-86 | with the increment split into load and store the final counter is threads times iterations |
| FutexMutex.ContenderSleeps | 2/2.4/mutex.c:49-60 | a thread that finds the lock taken, at the compare-and-swap and again at FUTEX_WAIT, sleeps |
| FutexMutex.CanFinish | 2/2.4/mutex.c:49-86 | no livelock: from every reachable state the threads can go on, without a spurious wakeup, until all have finished and the counter is threads times iterations |
| CondvarQueue.ReachableInv | 2/2.2/condvar/queue.c:95-146 | in every state of every run the mutex has at most one holder, the queue respects its bounds, and for both roles everything available to sleepers is spoken for |
| CondvarQueue.Conservation | 2/2.2/condvar/queue.c:95-146 | the values brought by the calls of queue_add, in the order of their list changes, are those delivered followed by the queue's contents; m list changes by queue_get have delivered the first m of them; the queue never holds more than max_count |
| CondvarQueue.SleepersAreCovered | 2/2.2/condvar/queue.c:97-143 | no lost wakeup: when the mutex is free and a getter sleeps, at least as many getters are woken as there are values; dually for adders and free places |
| CondvarQueue.NeverAllAsleep | 2/2.2/condvar/queue.c:95-146 | with max_count > 0 and both roles present some thread that is not asleep can always step |
| CondvarQueue.WaitsExactly | 2/2.2/condvar/queue.c:97-99 | at its condition a thread sleeps and releases the mutex exactly if the queue is full, respectively empty |
| CondvarQueue.AnotherIsGot | 2/2.2/condvar/queue.c:95-146 | no livelock: with max_count > 0 and both roles present the threads can go on from every reachable state, without a spurious wakeup, until one more value has been got |
| SemaphoreQueue.ReachableInv | 2/2.2/semaphor/queue.c:87-142 | in every state of every run mutex, tokens and contents fit together |
| SemaphoreQueue.TokensConserved | 2/2.2/semaphor/queue.c:87-142 | both semaphore balances against count and the tokens in hand; 0 <= count <= max_count, so the unlocked asserts hold; a dequeuing reader finds a first node; order is kept |
| SemaphoreQueue.FirstIsThere | 2/2.2/semaphor/queue.c:126-135 | first is not NULL when it is dereferenced |
| SemaphoreQueue.NeverStuck | 2/2.2/semaphor/queue.c:87-142 | with max_count > 0 and both roles present some thread can always step |
| SemaphoreQueue.ReaderSeesOrder | 2/2.2/semaphor/queue-threads.c:35-75 | with one writer and one reader the reader's check of the expected value never fails and it gets 0, 1, 2, ... |
| SemaphoreQueue.Conservation | 2/2.2/semaphor/queue.c:87-142 | the numbers brought by the writers, in the order of their list changes, are those delivered followed by the queue's contents; m list changes by readers have delivered the first m |
| SemaphoreQueue.WriterCounts | 2/2.2/semaphor/queue-threads.c:62-71 | each writer brings 0, 1, 2, ..., one number in each round |
| SemaphoreQueue.ErrorsAreSurprises | 2/2.2/semaphor/queue-threads.c:44-53 | for any number of writers and readers the errors reported are exactly the values that do not follow the one the same reader got before |
| SemaphoreQueue.AnotherIsGot | 2/2.2/semaphor/queue.c:87-142 | no livelock: with max_count > 0 and both roles present the threads can go on from every reachable state until one more value has been got |
| LinkedQueue.Queue.Enqueue | 2/2.2/condvar/queue.c:108-118 | the value becomes the last one; list and count stay consistent |
| LinkedQueue.Queue.Dequeue | 2/2.2/condvar/queue.c:133-138 | the oldest value is returned and removed; the rest keeps its order |
| LinkedQueue.Queue.Destroy | 2/2.2/condvar/queue.c:81-87 | the loop frees every node of the queue exactly once |
| UrlHash.HashUrl | caching_http_proxy/caching/httpcache.c:17-24 | the loop computes the 32-bit FNV-1a hash |
| UrlHashValues.KnownHashes | caching_http_proxy/caching/httpcache.c:17-24 | the hash of "/" is 705468254, bucket 862, that of "/a" is 1892816941, bucket 45 |
| UrlHash.MixInjective | caching_http_proxy/caching/httpcache.c:20-21 | a round with the same byte keeps different bucket numbers different |
| UrlHash.MixSeparates | caching_http_proxy/caching/httpcache.c:20-21 | rounds with different bytes from the same bucket number give different bucket numbers |
| UrlHash.OneByteSeparates | caching_http_proxy/caching/httpcache.c:17-24 | URLs of the same length that differ in exactly one byte never share one of the 1024 buckets |
| Chunks.Body.Append | caching_http_proxy/caching/httpcache.c:243-282 | refused exactly when the entry is cancelled; otherwise the block is the new end of the stream |
| Chunks.Body.Seek | caching_http_proxy/caching/httpcache.c:316-321 | finds the chunk that holds the offset and the offset within it |
| Chunks.Body.CopyOut | caching_http_proxy/caching/httpcache.c:323-335 | copies consecutive bytes of the stream across chunks, until the size or the end of the stream is reached |
| Chunks.Body.CopyIn | caching_http_proxy/caching/httpcache.c:331-331 | memcpy changes exactly its target range |
| Chunks.Body.Read | caching_http_proxy/caching/httpcache.c:309-339 | -1 for a cancelled entry, otherwise exactly the slice of the concatenated chunks at the offset, and nothing else in the buffer changes |
| HttpCache.Cache.LruRemove | caching_http_proxy/caching/httpcache.c:27-39 | the doubly linked list stays well formed and loses exactly that entry |
| HttpCache.Cache.LruAddHead | caching_http_proxy/caching/httpcache.c:41-51 | the doubly linked list stays well formed and gains the entry at its head |
| HttpCache.Cache.Find | caching_http_proxy/caching/httpcache.c:156-177 | the first live entry of the URL in its bucket; NULL exactly when the whole cache has no live entry for the URL |
| HttpCache.Cache.Lookup | caching_http_proxy/caching/httpcache.c:149-182 | a hit takes one reference, refreshes the access time and moves that entry to the front of the LRU list; a miss changes nothing; no other reference count changes; with a clock that does not run backwards the list stays sorted by last access |
| HttpCache.Cache.MoveToFront | caching_http_proxy/caching/httpcache.c:169-172 | lru_remove and lru_add_head together are move-to-front on the list |
| HttpCache.Cache.Touch | caching_http_proxy/caching/httpcache.c:166-172 | the access times along the list become the new time followed by the others |
| HttpCache.Cache.LinkFirst | caching_http_proxy/caching/httpcache.c:228-232 | the entry becomes the first of its bucket, all buckets stay well formed |
| HttpCache.Cache.LinkLru | caching_http_proxy/caching/httpcache.c:234-237 | adding the linked entry to the LRU list makes both structures hold the same entries again |
| HttpCache.Cache.Insert | caching_http_proxy/caching/httpcache.c:184-240 | the new entry is first in the bucket of its URL and first in the LRU list, with one reference and no data; all links stay well formed and the list sorted by last access |
| HttpCache.Cache.UnlinkBucket | caching_http_proxy/caching/httpcache.c:386-394 | the entry leaves its chain through the head or its predecessor, all buckets stay well formed |
| HttpCache.Cache.Unlink | caching_http_proxy/caching/httpcache.c:386-399 | the entry leaves bucket and LRU list, which hold the same entries again; the list stays sorted by last access |
| HttpCache.Cache.CleanBucket | caching_http_proxy/caching/httpcache.c:377-421 | one bucket loses exactly its dead entries, other buckets nothing |
| HttpCache.Cache.CleanOne | caching_http_proxy/caching/httpcache.c:382-418 | each round of the walk keeps buckets and LRU list well formed and in agreement and takes out at most one dead entry |
| HttpCache.Cache.Cleanup | caching_http_proxy/caching/httpcache.c:374-424 | every bucket and the LRU list become their order-preserving filters without the cancelled entries that have no references; the LRU list stays sorted by last access |
| ProxyCacheInv.WorkerLife | caching_http_proxy/proxy/proxy.c:281-511 | every step of every worker keeps references, counts, streams and wakeups; only the creator of an entry changes its contents and state |
| ProxyCacheInv.CollectorLife | caching_http_proxy/caching/httpcache.c:374-424 | so does every step of the collector |
| ProxyCacheInv.ReadLife | caching_http_proxy/caching/httpcache.c:294-339 | what cache_entry_read finds at the loop condition: up to 8192 bytes that continue what was sent, all there are if fewer, unless the entry is cancelled; or the wait at the end of an incomplete stream; or the end of a complete one |
| ProxyCacheInv.AwakeKept | caching_http_proxy/caching/httpcache.c:294-307 | because a change is followed by a broadcast and nobody stands between look and wait meanwhile, every step keeps: whoever sleeps has nothing to read or the broadcast is pending |
| ProxyCacheInv.ReleaseLife | caching_http_proxy/caching/httpcache.c:352-360 | a release settles exactly the debt of its worker |
| ProxyCacheInv.SettleLife | caching_http_proxy/caching/httpcache.c:341-371 | completing or cancelling under the entry's lock, up to the broadcast: an incomplete entry gets its final state and nothing else of it changes |
| ProxyCacheInv.AppendLife | caching_http_proxy/caching/httpcache.c:244-278 | an append under the entry's lock, up to the broadcast: the received block becomes the end of the stream and nothing else of the entry changes |
| ProxyCacheInv.BroadcastLife | caching_http_proxy/caching/httpcache.c:279-280 | the broadcast before the unlock wakes every sleeper of the entry and keeps everything else |
| ProxyCacheInv.NobodyLeft | caching_http_proxy/caching/httpcache.c:383-406 | an entry that the collector finds cancelled, without references and unlocked is one that no worker has a pointer to |
| ProxyCacheInv.FreeLife | caching_http_proxy/caching/httpcache.c:408-412 | freeing an entry that no worker has a pointer to leaves no pointer dangling |
| ProxyCacheTable.WalkedAll | caching_http_proxy/caching/httpcache.c:156-181 | a lookup that reaches the end of its bucket knows that no live entry of the URL exists anywhere |
| ProxyCacheTable.TouchTable | caching_http_proxy/caching/httpcache.c:169-172 | moving the entry to the front restores the order by last access, with the collector at work in other buckets |
| ProxyCacheTable.HitTable | caching_http_proxy/caching/httpcache.c:166-167 | a hit makes the entry the newest one; only its own place in the LRU list is then out of order |
| ProxyCacheTable.FetchTable | caching_http_proxy/caching/httpcache.c:197-226 | creating an entry under the search mutex keeps one live entry per URL |
| ProxyCacheTable.LinkTable | caching_http_proxy/caching/httpcache.c:228-232 | linking the new entry keeps all chains well formed, with the collector in other buckets |
| ProxyCacheTable.LinkLruTable | caching_http_proxy/caching/httpcache.c:234-237 | adding it to the LRU list keeps the order by last access |
| ProxyCacheTable.UnlinkTable | caching_http_proxy/caching/httpcache.c:385-394 | the collector's unlinking keeps all chains well formed and what a search has established |
| ProxyCacheTheorems.ReachableGood | caching_http_proxy/proxy/proxy.c:281-511 | both invariants hold in every reachable state of any number of workers and the collector |
| ProxyCacheTheorems.RefcountIsOwed | caching_http_proxy/proxy/proxy.c:283-294 | an entry's refcount is at all times the number of connections that still owe it a release, in the release-then-cancel and the cancel-then-release paths alike |
| ProxyCacheTheorems.NothingFreedIsReferenced | caching_http_proxy/caching/httpcache.c:352-419 | no worker, no bucket and no place in the LRU list refers to a freed entry |
| ProxyCacheTheorems.FreeingIsSafe | caching_http_proxy/caching/httpcache.c:408-412 | when the collector is about to free an entry nobody holds it and nothing leads to it |
| ProxyCacheTheorems.OneEntryPerUrl | caching_http_proxy/proxy/proxy.c:281-402 | at most one entry of each URL is not cancelled |
| ProxyCacheTheorems.BucketsAndLruAgree | caching_http_proxy/caching/httpcache.c:149-240 | buckets and LRU list hold the same entries, each once, up to the one insertion and the one removal in flight; every live entry is in its bucket once it is linked, and an entry leaves its bucket only to be freed |
| ProxyCacheTheorems.MostRecentFirst | caching_http_proxy/caching/httpcache.c:166-172 | the LRU list is sorted by last access but for an entry whose move to the front is in flight |
| ProxyCacheTheorems.PrefixSent | caching_http_proxy/proxy/proxy.c:159-178 | what a client has got from the cache is always a prefix of the entry's stream |
| ProxyCacheTheorems.AnsweredInFull | caching_http_proxy/proxy/proxy.c:159-178 | when handle_cached_request returns 0 the entry is complete and the client has its whole stream; that is everything received from the origin if and only if the origin announced a length or sent no block after the first; with a length it is at least the length computed from the announcement |
| ProxyCacheHistory.AnsweredAsAnnounced | caching_http_proxy/proxy/proxy.c:159-178 | the same from outside: the client has got the concatenation of all blocks that the run received for the entry if and only if the answer that created it announced a content length or no second block came; with an announced length n it has got at least header_len + n bytes |
| ProxyCacheHistory.Created | caching_http_proxy/proxy/proxy.c:372-402 | the step that creates an entry is a fetch that got a block; the entry has the key asked for, that block, the time, and header_len + content_len as its length if and only if one was announced |
| ProxyCacheHistory.OriginIs | caching_http_proxy/proxy/proxy.c:428-509 | what an entry is compared with is the concatenation of the blocks that its creator received, and their number |
| ProxyCacheHistory.SentIsGot | caching_http_proxy/proxy/proxy.c:159-178 | what a client has been sent is the concatenation of what the sends of its request delivered |
| ProxyCacheHistory.FirstClientGetsAll | caching_http_proxy/proxy/proxy.c:403-509 | the client whose request created the entry gets what comes from the origin as it comes: all of it before the next block is received, and the whole answer when the entry is completed, with and without an announced length |
| ProxyCacheHistory.AnswersTheRequest | caching_http_proxy/proxy/proxy.c:281-511 | whatever entry a worker serves or fills is one of the URL that it was asked for last |
| ProxyCacheHistory.AccessTimes | caching_http_proxy/caching/httpcache.c:166-166 | last_access is the time of the last lookup that found the entry, or of its creation |
| ProxyCacheOutcomes.WokenGoesOn | caching_http_proxy/caching/httpcache.c:294-307 | a woken reader locks the entry and looks at it again if and only if its wait did not time out and the entry is not cancelled; otherwise handle_cached_request returns -1 |
| ProxyCacheOutcomes.WokenBy | caching_http_proxy/caching/httpcache.c:294-296 | a reader is woken by its timeout, spuriously, or by a worker that is about to broadcast about its entry, and by nothing else |
| ProxyCacheOutcomes.GivesUp | caching_http_proxy/proxy/proxy.c:159-178 | handle_cached_request returns -1 only because the entry was cancelled, the wait for data timed out, or sending to the client failed |
| ProxyCacheOutcomes.LooksAgain | caching_http_proxy/caching/httpcache.c:294-313 | at the loop condition a reader waits, goes on sending, ends with 0 or with -1 exactly according to what it has sent and the entry's data and state |
| ProxyCacheOutcomes.RequestEnds | caching_http_proxy/proxy/proxy.c:281-511 | a request is over only when the client was served from the cache, the origin could not be asked, or the entry made for it has been completed or cancelled |
| ProxyCacheOutcomes.WaitsForMutexes | caching_http_proxy/caching/httpcache.c:149-419 | a worker or the collector waits only for a mutex and only while somebody holds it |
| ProxyCacheOutcomes.ChangesAlone | caching_http_proxy/caching/httpcache.c:243-372 | no entry's reference count, state, data or access time changes while somebody else holds its mutex |
| ProxyCacheOutcomes.IncompleteIsHeld | caching_http_proxy/proxy/proxy.c:413-505 | an incomplete entry is referenced, except between release and cancel where the code releases first, which it does only with an announced length or after the first block could not be sent |
| ProxyCacheOutcomes.SettledExactly | caching_http_proxy/proxy/proxy.c:413-505 | a settled entry is complete exactly if all announced bytes came or, without a length, the origin closed; it is cancelled exactly if the creator's client was lost, receiving failed, or the origin closed before the announced length |
| TruncatedAnswer.HalfAnAnswer | caching_http_proxy/proxy/proxy.c:473-509 | for any two blocks of a response without Content-Length, a run in which the first client gets both blocks, the second client gets the first block only and handle_cached_request returns 0 for it |
| ProxyCacheTheorems.AppendOnly | caching_http_proxy/caching/httpcache.c:243-282 | over any stretch of a run a stream only grows, and not at all once the entry is complete or cancelled |
| ProxyCacheTheorems.EntryLockExcludes | caching_http_proxy/caching/httpcache.c:244-339 | at most one thread, collector included, holds an entry's lock |
| ProxyCacheTheorems.StillFilled | caching_http_proxy/proxy/proxy.c:398-509 | exactly one worker fills an entry that is neither complete nor cancelled, and that worker is not asleep |
| ProxyCacheTheorems.SleepersHaveAll | caching_http_proxy/caching/httpcache.c:294-307 | a reader asleep on data_ready without a pending wakeup has sent all there is of an incomplete entry that a worker still fills, or else the one holder of the entry's lock is about to broadcast |
| ProxyCacheTheorems.HolderGoesOn | caching_http_proxy/proxy/proxy.c:281-402 | the holder of the search mutex can step, or the collector inside a bucket can, or a worker that holds an entry's lock can |
| ProxyCacheTheorems.NeverStuck | caching_http_proxy/proxy/proxy.c:281-511 | deadlock freedom without timeouts: in every reachable state some worker that is not asleep can step, or the collector inside a bucket can |
| ProxyCacheTheorems.CollectorAdvances | caching_http_proxy/caching/httpcache.c:382-419 | inside a bucket every step of the collector lowers its remaining work and no worker's step raises it |
| ProxyCacheTheorems.CollectorIsShort | caching_http_proxy/caching/httpcache.c:382-419 | while it stays inside a bucket the collector takes no more steps than the work it started with, 3 for each entry and at most 3 more |
| ProxyCacheProgress.CollectorReclaims | caching_http_proxy/caching/httpcache.c:382-419 | an entry that is cancelled and unreferenced when the collector enters its bucket has been freed when the collector has left it |
| ProxyCacheProgress.RoundAndRound | caching_http_proxy/caching/httpcache.c:376-419 | the collector visits one bucket after the other, round and round |
| ProxyCacheProgress.StepMoves | caching_http_proxy/proxy/proxy.c:281-511 | no step of a worker leaves it where it was |
| ProxyCacheProgress.WindsDown | caching_http_proxy/proxy/proxy.c:281-511 | no livelock: from every reachable state all requests under way can be brought to their ends without any timeout, even if every connection fails; then no entry is incomplete and none is referenced |
| ProxyCacheProgress.CleansUp | caching_http_proxy/caching/httpcache.c:376-419 | nothing leaks: from every reachable state the requests can end and the collector can go round once; then exactly the complete entries are in the buckets and every other one has been freed |
| ThreadPool.PickWorker | caching_http_proxy/threading/threadpool.c:119-142 | the first worker in the rotation among those with the least sampled load |
| ThreadPool.FirstLeastUnique | caching_http_proxy/threading/threadpool.c:122-136 | load and rotation determine the picked worker |
| ThreadPool.RoundRobin | caching_http_proxy/threading/threadpool.c:119-191 | while no client leaves, the k-th one goes to worker (k + 1) mod 8 and is refused exactly when 512 are in |
| ThreadPool.Balanced | caching_http_proxy/threading/threadpool.c:119-191 | in such runs two loads never differ by more than one, none exceeds 64, and they add up to the clients taken |
| Acceptor.Acceptor.constructor | caching_http_proxy/threading/threadpool.c:193-228 | the pool starts with eight workers of their own tables, without clients |
| Acceptor.Acceptor.HandOver | caching_http_proxy/threading/threadpool.c:188-190 | the picked worker takes the client as the last line of its table unless it is full, and no other table changes |
| Acceptor.Acceptor.AddClient | caching_http_proxy/threading/threadpool.c:178-191 | the client goes to the first least loaded worker of the sample; a refusal means that every worker was sampled at 64; with the current loads as the sample this is an arrival of an add-only run |
| Acceptor.Acceptor.AcceptAll | caching_http_proxy/proxy/proxy.c:584-601 | the accept loop from the empty pool on, while no client leaves, goes through such a run and takes exactly the first 512 clients |
| WorkerTable.ShiftDown | caching_http_proxy/threading/threadpool.c:86-87 | memmove moves the later elements down by one and changes nothing else |
| WorkerTable.Worker.AddClient | caching_http_proxy/threading/threadpool.c:145-176 | refused exactly when 64 clients are in; otherwise both arrays get the client at the same new index |
| WorkerTable.Worker.RemoveAt | caching_http_proxy/threading/threadpool.c:85-88 | the two memmoves take out one line and keep the arrays aligned |
| WorkerTable.Worker.Compact | caching_http_proxy/threading/threadpool.c:81-91 | the in-place loop leaves the order-preserving filter of the lines that are still connected |
| WorkerTable.Worker.ExactlyTheOpen | caching_http_proxy/threading/threadpool.c:81-91 | that filter holds exactly the connected lines, each once |
| WorkerTable.Worker.WriteBack | caching_http_proxy/threading/threadpool.c:77-79 | copying back changes only the lines of the snapshot |
| WorkerTable.Handled | caching_http_proxy/threading/threadpool.c:49-71 | a descriptor stays open, and then stays the same, exactly if it was open, neither an error nor an invalid descriptor was reported, the request, if any, kept it open, and a hangup was reported only together with data |
| WorkerTable.Worker.HandleAll | caching_http_proxy/threading/threadpool.c:39-76 | while the snapshot is handled, clients that arrive before, between and after its clients stay behind its lines, as many as there is room for |
| WorkerTable.Worker.Serve | caching_http_proxy/threading/threadpool.c:29-79 | snapshot, handling and write-back: the table holds the lines of the snapshot with what poll reported, followed by the newly added ones, all distinct |
| WorkerTable.Worker.Round | caching_http_proxy/threading/threadpool.c:29-92 | a whole round with clients arriving at any point up to the write-back: afterwards the table holds, in their order and each once, the connected ones of the old lines and of the newly added ones; an old client is still there exactly if its descriptor was open, no error and no invalid descriptor was reported, its request, if readable, kept it open, and a hangup came only with data, and then its descriptor is the old one |

## Findings

* A response without Content-Length is cached only up to the end of its first block, because the
  loop of proxy.c:474-509 forwards the later blocks without appending them, and it is reported
  complete when the origin closes the connection (proxy.c:483-487). A later client of the same URL
  then gets the first block only, and handle_cached_request returns 0 for it.
  `TruncatedAnswer.HalfAnAnswer` gives such a run for any two blocks;
  `ProxyCacheHistory.AnsweredAsAnnounced` proves exactly when the promise of the whole response is
  kept: if and only if the origin announced a length or sent no block after the first. The first
  client gets everything in either case (`ProxyCacheHistory.FirstClientGetsAll`).

## Left out

* Sockets, DNS, polling, signals, logging, CPU pinning and printing: their results are free choices of the steps.
* Eviction by capacity (`evict_lru_entries`, `remove_entry`): nothing calls it.
* `current_size`: inserts and appends no longer increase it while the collector subtracts from it, so no balance holds.
* Shutdown of the thread pool and of the cache: the flag is set and the signal sent without the worker's lock (threadpool.c:232-235), so no guaranteed exit could be claimed.
* A poll that fails or reports nothing (threadpool.c:40-47): the worker then changes nothing.
* Failed allocations, overflow of counters, aborts on interrupted calls, and the values of timers (a timeout is a free choice).
* URLs of 2048 bytes and more, which the code cuts off when it stores them.
* The spinlock variants, `2/2.1`, the other queues of `2/2.2` and the programs under `1`: the same or easier protocols, or demonstrations of interfaces.
* The generator behind the swappers' decisions: every decision is an arbitrary boolean.
* ProxyCache: entries, chains and the LRU list are values there, and an entry's number stands for its address, never used again after free; the pointers are in HttpCache, without concurrency.
* HttpCache.Cache.Cleanup: states the collector's effect with nobody else at work; ProxyCacheTheorems covers it beside running workers.
