/**
  The protocol by which the proxy's workers share cache entries, and the collector that
  frees them: any number of workers, any interleaving, any results of sockets.

  A lock is held by the thread whose program point lies between its lock and unlock call.
  A change of an entry and the broadcast about it are two steps under the entry's lock, and so
  are a reader's look at the entry and its wait. Entries are numbered in the order of their
  creation; numbers are never used again.
 */
module ProxyCache {
  import opened Basics
  import opened Filters
  import opened UrlHash
  import opened Chunks

  /** A URL and the bucket that its hash selects. */
  datatype Key = Key(name: nat, bucket: nat)

  /**
    An entry. need is header_len + content_len when the origin announced a length; origin is
    everything received from the origin server for it so far, so that what the creating worker
    keeps in its local `remaining` is need less the length of origin; blocks counts the blocks.
   */
  datatype Rec = Rec(key: Key, state: EntryState, refcount: int, lastAccess: int, data: seq<Byte>,
                     need: Option<nat>, origin: seq<Byte>, blocks: nat, freed: bool)

  /** Program points of process_request; S, B and E mark where the search, a bucket and an entry's mutex are held. */
  datatype PC =
    | Idle
    | Search(key: Key)                       // S: before locking the bucket
    | Walk(key: Key, i: nat)                 // S B: about to look at entry i of the chain
    | Touched(b: nat, e: nat)                // S B E: reference taken, LRU move to come
    | HitBucket(b: nat, e: nat)              // S B: before unlocking the bucket
    | HitSearch(e: nat)                      // S: before unlocking the search mutex
    | Serve(e: nat)                          // before cache_entry_read
    | Deciding(e: nat)                       // E: at the loop condition
    | Waiting(e: nat)                        // E: before pthread_cond_timedwait
    | Sleep(e: nat)                          // waiting on data_ready, the lock released
    | Woken(e: nat, timedOut: bool)          // woken, before locking the entry again
    | Send(e: nat, bytes: seq<Byte>)         // bytes read, before sending them
    | HitDone(e: nat, ok: bool)              // before cache_entry_release
    | MissBucket(key: Key)                   // S B: nothing found, before unlocking the bucket
    | Fetch(key: Key)                        // S: asking the origin server
    | Link(e: nat)                           // S: entry allocated, before linking it into its bucket
    | LinkLru(e: nat)                        // S: before adding it to the LRU list
    | MissSearch(e: nat)                     // S: before unlocking the search mutex
    | Append(e: nat, block: seq<Byte>, first: bool)
    | Appended(e: nat, block: seq<Byte>, first: bool)  // E: before the broadcast about new data
    | Forward(e: nat, block: seq<Byte>, first: bool)   // before sending the block to the own client
    | Receive(e: nat)
    | ReleaseFirst(e: nat) | CancelLast(e: nat)
    | CancelFirst(e: nat) | CompleteFirst(e: nat) | ReleaseLast(e: nat)
    | Settled(e: nat, last: bool)            // E: before the broadcast about the new state

  /** sent is what the client of the current request got, from the cache or as it came from the origin. */
  datatype Worker = Worker(pc: PC, offset: nat, sent: seq<Byte>)

  datatype CollectorPC =
    | Between(b: nat)                        // before locking bucket b
    | Visit(b: nat, i: nat)                  // B: about to lock entry i and look at it
    | Unlinked(b: nat, i: nat, e: nat)       // B E: e is out of its chain, before lru_remove
    | Freeing(b: nat, i: nat, e: nat)        // B: e is out of the LRU list, before free

  datatype Sys = Sys(heap: seq<Rec>, chains: seq<seq<nat>>, lru: seq<nat>, clock: int,
                     workers: seq<Worker>, collector: CollectorPC)

  /** What the environment decides in a step. */
  datatype Received = Block(bytes: seq<Byte>) | Closed | Failed

  datatype Choice = Choice(key: Key, now: int, ok: bool, partial: nat, received: Received,
                           header: nat, contentLength: Option<nat>)

  const BUFFER: nat := 8192

  // ----- locks -----

  predicate HoldsSearch(pc: PC) {
    pc.Search? || pc.Walk? || pc.Touched? || pc.HitBucket? || pc.HitSearch? || pc.MissBucket? ||
    pc.Fetch? || pc.Link? || pc.LinkLru? || pc.MissSearch?
  }

  function HoldsBucket(pc: PC): Option<nat> {
    match pc
    case Walk(key, _) => Some(key.bucket)
    case Touched(b, _) => Some(b)
    case HitBucket(b, _) => Some(b)
    case MissBucket(key) => Some(key.bucket)
    case _ => None
  }

  function HoldsEntry(pc: PC): Option<nat> {
    match pc
    case Touched(_, e) => Some(e)
    case Deciding(e) => Some(e)
    case Waiting(e) => Some(e)
    case Appended(e, _, _) => Some(e)
    case Settled(e, _) => Some(e)
    case _ => None
  }

  predicate SearchFree(s: Sys) {
    forall t :: 0 <= t < |s.workers| ==> !HoldsSearch(s.workers[t].pc)
  }

  predicate BucketFree(s: Sys, b: nat) {
    (s.collector.Between? || s.collector.b != b) &&
    forall t :: 0 <= t < |s.workers| ==> HoldsBucket(s.workers[t].pc) != Some(b)
  }

  predicate EntryFree(s: Sys, e: nat) {
    !(s.collector.Unlinked? && s.collector.e == e) &&
    forall t :: 0 <= t < |s.workers| ==> HoldsEntry(s.workers[t].pc) != Some(e)
  }

  // ----- helpers -----

  function SetPC(s: Sys, t: nat, pc: PC): Sys
    requires t < |s.workers|
  {
    s.(workers := s.workers[t := s.workers[t].(pc := pc)])
  }

  function SetRec(s: Sys, e: nat, r: Rec): Sys {
    if e < |s.heap| then s.(heap := s.heap[e := r]) else s
  }

  function Entry(s: Sys, e: nat): Rec {
    if e < |s.heap| then s.heap[e] else Rec(Key(0, 0), Cancelled, 0, 0, [], None, [], 0, true)
  }

  function Chain(s: Sys, b: nat): seq<nat> {
    if b < |s.chains| then s.chains[b] else []
  }

  function SetChain(s: Sys, b: nat, c: seq<nat>): Sys {
    if b < |s.chains| then s.(chains := s.chains[b := c]) else s
  }

  function Wake(w: Worker, e: nat): Worker {
    if w.pc == Sleep(e) then w.(pc := Woken(e, false)) else w
  }

  /** pthread_cond_broadcast on the entry's condition variable. */
  function WakeAll(ws: seq<Worker>, e: nat): (r: seq<Worker>)
    ensures |r| == |ws| && forall u :: 0 <= u < |ws| ==> r[u] == Wake(ws[u], e)
  {
    seq(|ws|, u requires 0 <= u < |ws| => Wake(ws[u], e))
  }

  // ----- steps of a worker -----

  /** process_request under the search mutex up to the result of cache_lookup. */
  function LookupStep(s: Sys, t: nat, c: Choice): Sys
    requires t < |s.workers|
  {
    match s.workers[t].pc
    case Idle => s.(workers := s.workers[t := Worker(Search(c.key), 0, [])])
    case Search(key) => SetPC(s, t, Walk(key, 0))
    case Walk(key, i) =>
      var chain := Chain(s, key.bucket);
      if i >= |chain| then SetPC(s, t, MissBucket(key))
      else
        var r := Entry(s, chain[i]);
        if r.key == key && r.state != Cancelled then
          var s1 := SetRec(s, chain[i], r.(refcount := r.refcount + 1, lastAccess := c.now));
          SetPC(s1.(clock := c.now), t, Touched(key.bucket, chain[i]))
        else SetPC(s, t, Walk(key, i + 1))
    case Touched(b, e) => SetPC(s.(lru := [e] + FilterOut(s.lru, {e})), t, HitBucket(b, e))
    case HitBucket(b, e) => SetPC(s, t, HitSearch(e))
    case HitSearch(e) => SetPC(s, t, Serve(e))
    case MissBucket(key) => SetPC(s, t, Fetch(key))
    case _ => s
  }

  /** cache_entry_read at the loop condition. */
  function ReadOrWait(s: Sys, t: nat, e: nat): Sys
    requires t < |s.workers|
  {
    var r, w := Entry(s, e), s.workers[t];
    if w.offset >= |r.data| && r.state == Incomplete then SetPC(s, t, Waiting(e))
    else if r.state == Cancelled then SetPC(s, t, HitDone(e, false))
    else
      var bytes := Slice(r.data, w.offset, BUFFER);
      SetPC(s, t, if bytes == [] then HitDone(e, true) else Send(e, bytes))
  }

  /** The part of the bytes that gets to the client: all of them, or some when sending fails. */
  function Delivered(bytes: seq<Byte>, c: Choice): seq<Byte> {
    if c.ok || c.partial >= |bytes| then bytes else bytes[..c.partial]
  }

  /** handle_cached_request. */
  function ServeStep(s: Sys, t: nat, c: Choice): Sys
    requires t < |s.workers|
  {
    var w := s.workers[t];
    match w.pc
    case Serve(e) => SetPC(s, t, Deciding(e))
    case Deciding(e) => ReadOrWait(s, t, e)
    case Waiting(e) => SetPC(s, t, Sleep(e))
    case Sleep(e) => SetPC(s, t, Woken(e, !c.ok))
    case Woken(e, timedOut) =>
      SetPC(s, t, if Entry(s, e).state == Cancelled || timedOut then HitDone(e, false) else Deciding(e))
    case Send(e, bytes) =>
      if c.ok then
        s.(workers := s.workers[t := Worker(Serve(e), w.offset + |bytes|, w.sent + Delivered(bytes, c))])
      else
        s.(workers := s.workers[t := Worker(HitDone(e, false), w.offset, w.sent + Delivered(bytes, c))])
    case HitDone(e, _) =>
      SetPC(SetRec(s, e, Entry(s, e).(refcount := Entry(s, e).refcount - 1)), t, Idle)
    case _ => s
  }

  /** From the miss to the unlock of the search mutex after cache_insert. */
  function CreateStep(s: Sys, t: nat, c: Choice): Sys
    requires t < |s.workers|
  {
    match s.workers[t].pc
    case Fetch(key) =>
      if !c.ok || !c.received.Block? then SetPC(s, t, Idle)
      else
        var need := if c.contentLength.Some? then Some(c.header + c.contentLength.value) else None;
        var r := Rec(key, Incomplete, 1, c.now, [], need, c.received.bytes, 1, false);
        SetPC(s.(heap := s.heap + [r], clock := c.now), t, Link(|s.heap|))
    case Link(e) =>
      var b := Entry(s, e).key.bucket;
      SetPC(SetChain(s, b, [e] + Chain(s, b)), t, LinkLru(e))
    case LinkLru(e) => SetPC(s.(lru := [e] + s.lru), t, MissSearch(e))
    case MissSearch(e) => SetPC(s, t, Append(e, Entry(s, e).origin, true))
    case _ => s
  }

  /** The number of bytes still to come before the announced length is reached. */
  function Outstanding(r: Rec): int {
    if r.need.Some? then r.need.value - |r.origin| else 0
  }

  /** Streaming by the worker that created the entry: the first block, then one block after the other. */
  function FillStep(s: Sys, t: nat, c: Choice): Sys
    requires t < |s.workers|
  {
    match s.workers[t].pc
    case Append(e, block, first) =>
      var r := Entry(s, e);
      if r.state == Cancelled then SetPC(s, t, Forward(e, block, first))
      else
        SetPC(SetRec(s, e, r.(data := r.data + block)), t, Appended(e, block, first))
    case Appended(e, block, first) => SetPC(s.(workers := WakeAll(s.workers, e)), t, Forward(e, block, first))
    case Forward(e, block, first) =>
      var r := Entry(s, e);
      var pc' :=
        if !c.ok then (if first || r.need.Some? then ReleaseFirst(e) else CancelFirst(e))
        else if r.need.Some? && Outstanding(r) <= 0 then CompleteFirst(e)
        else Receive(e);
      s.(workers := s.workers[t := Worker(pc', 0, s.workers[t].sent + Delivered(block, c))])
    case Receive(e) =>
      var r := Entry(s, e);
      (match c.received
       case Block(bytes) =>
         var s1 := SetRec(s, e, r.(origin := r.origin + bytes, blocks := r.blocks + 1));
         SetPC(s1, t, if r.need.Some? then Append(e, bytes, false) else Forward(e, bytes, false))
       case Closed => SetPC(s, t, if r.need.Some? then ReleaseFirst(e) else CompleteFirst(e))
       case Failed => SetPC(s, t, if r.need.Some? then ReleaseFirst(e) else CancelFirst(e)))
    case _ => s
  }

  /** Release, cancel and complete by the creator, in both orders. */
  function CloseStep(s: Sys, t: nat): Sys
    requires t < |s.workers|
  {
    match s.workers[t].pc
    case ReleaseFirst(e) =>
      SetPC(SetRec(s, e, Entry(s, e).(refcount := Entry(s, e).refcount - 1)), t, CancelLast(e))
    case CancelLast(e) => SetPC(SetRec(s, e, Entry(s, e).(state := Cancelled)), t, Settled(e, true))
    case CancelFirst(e) => SetPC(SetRec(s, e, Entry(s, e).(state := Cancelled)), t, Settled(e, false))
    case CompleteFirst(e) => SetPC(SetRec(s, e, Entry(s, e).(state := Complete)), t, Settled(e, false))
    case Settled(e, last) =>
      SetPC(s.(workers := WakeAll(s.workers, e)), t, if last then Idle else ReleaseLast(e))
    case ReleaseLast(e) =>
      SetPC(SetRec(s, e, Entry(s, e).(refcount := Entry(s, e).refcount - 1)), t, Idle)
    case _ => s
  }

  predicate IsLookup(pc: PC) {
    pc.Idle? || pc.Search? || pc.Walk? || pc.Touched? || pc.HitBucket? || pc.HitSearch? || pc.MissBucket?
  }

  predicate IsServe(pc: PC) {
    pc.Serve? || pc.Deciding? || pc.Waiting? || pc.Sleep? || pc.Woken? || pc.Send? || pc.HitDone?
  }

  predicate IsCreate(pc: PC) {
    pc.Fetch? || pc.Link? || pc.LinkLru? || pc.MissSearch?
  }

  predicate IsFill(pc: PC) {
    pc.Append? || pc.Appended? || pc.Forward? || pc.Receive?
  }

  predicate IsClose(pc: PC) {
    pc.ReleaseFirst? || pc.CancelLast? || pc.CancelFirst? || pc.CompleteFirst? || pc.ReleaseLast? ||
    pc.Settled?
  }

  function WorkerStep(s: Sys, t: nat, c: Choice): Sys
    requires t < |s.workers|
  {
    var pc := s.workers[t].pc;
    if IsLookup(pc) then LookupStep(s, t, c)
    else if IsServe(pc) then ServeStep(s, t, c)
    else if IsCreate(pc) then CreateStep(s, t, c)
    else if IsFill(pc) then FillStep(s, t, c)
    else CloseStep(s, t)
  }

  /** The entry whose mutex the next step locks. */
  function LocksEntry(s: Sys, pc: PC): Option<nat> {
    match pc
    case Walk(key, i) =>
      var chain := Chain(s, key.bucket);
      if i < |chain| && Entry(s, chain[i]).key == key then Some(chain[i]) else None
    case Serve(e) => Some(e)
    case Woken(e, _) => Some(e)
    case HitDone(e, _) => Some(e)
    case Append(e, _, _) => Some(e)
    case ReleaseFirst(e) => Some(e)
    case CancelLast(e) => Some(e)
    case CancelFirst(e) => Some(e)
    case CompleteFirst(e) => Some(e)
    case ReleaseLast(e) => Some(e)
    case _ => None
  }

  /** A thread waits only for a mutex; clocks do not run backwards; received blocks are not empty. */
  predicate WorkerCanStep(s: Sys, t: nat, c: Choice) {
    t < |s.workers| && c.now >= s.clock && c.key.bucket < MAX_BUCKETS &&
    (c.received.Block? ==> c.received.bytes != []) &&
    var pc := s.workers[t].pc;
    (pc.Idle? ==> SearchFree(s)) &&
    (pc.Search? ==> BucketFree(s, pc.key.bucket)) &&
    (pc.Link? ==> BucketFree(s, Entry(s, pc.e).key.bucket)) &&
    (LocksEntry(s, pc).Some? ==> EntryFree(s, LocksEntry(s, pc).value))
  }

  // ----- steps of the collector -----

  predicate CollectorCanStep(s: Sys) {
    match s.collector
    case Between(b) => BucketFree(s, b)
    case Visit(b, i) => i < |Chain(s, b)| ==> EntryFree(s, Chain(s, b)[i])
    case _ => true
  }

  function CollectorStep(s: Sys): Sys {
    match s.collector
    case Between(b) => s.(collector := Visit(b, 0))
    case Visit(b, i) =>
      var chain := Chain(s, b);
      if i >= |chain| then s.(collector := Between((b + 1) % MAX_BUCKETS))
      else
        var r := Entry(s, chain[i]);
        if r.state == Cancelled && r.refcount == 0 then
          SetChain(s, b, Without(chain, i)).(collector := Unlinked(b, i, chain[i]))
        else s.(collector := Visit(b, i + 1))
    case Unlinked(b, i, e) => s.(lru := FilterOut(s.lru, {e}), collector := Freeing(b, i, e))
    case Freeing(b, i, e) => SetRec(s, e, Entry(s, e).(freed := true)).(collector := Visit(b, i))
  }

  function Init(n: nat): Sys {
    Sys([], seq(MAX_BUCKETS, _ => []), [], 0, seq(n, _ => Worker(Idle, 0, [])), Between(0))
  }
}
