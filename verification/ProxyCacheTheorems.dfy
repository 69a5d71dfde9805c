/** What holds in every reachable state of the proxy's cache, for any number of workers. */
module ProxyCacheTheorems {
  import opened Basics
  import opened UrlHash
  import opened Chunks
  import opened Sums
  import opened ProxyCache
  import opened ProxyCacheInv
  import opened ProxyCacheTable

  // ----- every step keeps the structure -----

  /** A step of the holder that changes nothing but its program point. */
  lemma PlainMove(s: Sys, s': Sys, t: nat, pc': PC)
    requires OnlyHolder(s, t) && t < |s.workers| && HoldsSearch(s.workers[t].pc) && TableInv(s, s.workers[t].pc)
    requires s' == SetPC(s, t, pc') && Plain(s.workers[t].pc)
    requires Plain(pc') && (HoldsSearch(pc') ==> HolderOk(s', pc'))
    ensures OnlyHolder(s', t) && TableInv(s', HolderPC(s', t))
  {
    QuietTable(s, s', s.workers[t].pc, HolderPC(s', t));
  }

  lemma SearchTable(s: Sys, s': Sys, t: nat, c: Choice)
    requires OnlyHolder(s, t) && t < |s.workers| && c.now >= s.clock && s' == LookupStep(s, t, c)
    requires IsLookup(s.workers[t].pc) && HoldsSearch(s.workers[t].pc) && TableInv(s, s.workers[t].pc)
    requires s.workers[t].pc.Search? ==> Away(s, s.workers[t].pc.key.bucket)
    ensures OnlyHolder(s', t) && TableInv(s', HolderPC(s', t))
  {
    match s.workers[t].pc {
      case Search(key) => PlainMove(s, s', t, Walk(key, 0));
      case Walk(key, i) => WalkTable(s, s', t, c, key, i);
      case Touched(b, e) => TouchTable(s, s', b, e);
      case HitBucket(_, e) => PlainMove(s, s', t, HitSearch(e));
      case HitSearch(e) => PlainMove(s, s', t, Serve(e));
      case MissBucket(key) => PlainMove(s, s', t, Fetch(key));
    }
  }

  lemma WalkTable(s: Sys, s': Sys, t: nat, c: Choice, key: Key, i: nat)
    requires OnlyHolder(s, t) && t < |s.workers| && c.now >= s.clock && s' == LookupStep(s, t, c)
    requires s.workers[t].pc == Walk(key, i) && TableInv(s, Walk(key, i))
    ensures OnlyHolder(s', t) && TableInv(s', HolderPC(s', t))
  {
    var chain := Chain(s, key.bucket);
    if i >= |chain| {
      WalkedAll(s, key);
      PlainMove(s, s', t, MissBucket(key));
    } else if Fits(Entry(s, chain[i]), key) {
      assert ChainOk(s, key.bucket);
      HitTable(s, s', Walk(key, i), chain[i], s'.heap[chain[i]]);
    } else {
      PlainMove(s, s', t, Walk(key, i + 1));
    }
  }

  lemma FetchedTable(s: Sys, s': Sys, t: nat, c: Choice, key: Key)
    requires OnlyHolder(s, t) && t < |s.workers| && c.now >= s.clock && s' == CreateStep(s, t, c)
    requires s.workers[t].pc == Fetch(key) && TableInv(s, Fetch(key))
    ensures OnlyHolder(s', t) && TableInv(s', HolderPC(s', t))
  {
    if c.ok && c.received.Block? {
      FetchTable(s, s', s'.heap[|s.heap|]);
    } else {
      PlainMove(s, s', t, Idle);
    }
  }

  lemma CreateTable(s: Sys, s': Sys, t: nat, c: Choice)
    requires RefOk(s, t) && OnlyHolder(s, t) && c.now >= s.clock && s' == CreateStep(s, t, c)
    requires IsCreate(s.workers[t].pc) && TableInv(s, s.workers[t].pc)
    requires s.workers[t].pc.Link? ==> Away(s, Entry(s, s.workers[t].pc.e).key.bucket)
    ensures OnlyHolder(s', t) && TableInv(s', HolderPC(s', t))
  {
    match s.workers[t].pc {
      case Fetch(key) => FetchedTable(s, s', t, c, key);
      case Link(e) => LinkTable(s, s', e, s.heap[e].key.bucket);
      case LinkLru(e) => LinkLruTable(s, s', e);
      case MissSearch(e) => PlainMove(s, s', t, s'.workers[t].pc);
    }
  }

  // ----- steps outside the search mutex -----

  ghost predicate Outside(s: Sys, s': Sys) {
    Quiet(s, s') && |s'.workers| == |s.workers| &&
    forall u :: 0 <= u < |s.workers| ==> HolderPC(s', u) == HolderPC(s, u)
  }

  /** A step that changes one entry, or none, and may wake the sleepers of an entry. */
  lemma EntryQuiet(s: Sys, s': Sys, t: nat, w': Worker, e: nat, r': Rec)
    requires t < |s.workers| && e < |s.heap| && RecQuiet(s.heap[e], r')
    requires s'.heap == s.heap[e := r'] && s'.chains == s.chains && s'.lru == s.lru
    requires s'.clock == s.clock && s'.collector == s.collector
    requires s'.workers == s.workers[t := w'] || s'.workers == WakeAll(s.workers, e)[t := w']
    requires !HoldsSearch(s.workers[t].pc) && !HoldsSearch(w'.pc)
    ensures Outside(s, s')
  {
  }

  lemma ServeQuiet(s: Sys, s': Sys, t: nat, c: Choice)
    requires RefOk(s, t) && IsServe(s.workers[t].pc) && s' == ServeStep(s, t, c)
    ensures Outside(s, s')
  {
    EntryQuiet(s, s', t, s'.workers[t], s.workers[t].pc.e, s'.heap[s.workers[t].pc.e]);
  }

  lemma FillQuiet(s: Sys, s': Sys, t: nat, c: Choice)
    requires RefOk(s, t) && IsFill(s.workers[t].pc) && s' == FillStep(s, t, c)
    ensures Outside(s, s')
  {
    EntryQuiet(s, s', t, s'.workers[t], s.workers[t].pc.e, s'.heap[s.workers[t].pc.e]);
  }

  lemma CloseQuiet(s: Sys, s': Sys, t: nat)
    requires RefOk(s, t) && IsClose(s.workers[t].pc) && s' == CloseStep(s, t)
    ensures Outside(s, s')
  {
    EntryQuiet(s, s', t, s'.workers[t], s.workers[t].pc.e, s'.heap[s.workers[t].pc.e]);
  }

  lemma OutsideTable(s: Sys, s': Sys, h: nat)
    requires OnlyHolder(s, h) && TableInv(s, HolderPC(s, h)) && Outside(s, s')
    ensures OnlyHolder(s', h) && TableInv(s', HolderPC(s', h))
  {
    QuietTable(s, s', HolderPC(s, h), HolderPC(s, h));
    forall t | 0 <= t < |s.workers| && t != h ensures !HoldsSearch(s'.workers[t].pc) {
      assert HolderPC(s', t) == HolderPC(s, t);
    }
  }

  lemma WorkerTable(s: Sys, s': Sys, t: nat, c: Choice, h: nat) returns (h': nat)
    requires LifeInv(s) && OnlyHolder(s, h) && TableInv(s, HolderPC(s, h))
    requires WorkerCanStep(s, t, c) && s' == WorkerStep(s, t, c)
    ensures OnlyHolder(s', h') && TableInv(s', HolderPC(s', h'))
  {
    var pc := s.workers[t].pc;
    assert RefOk(s, t);
    h' := if HoldsSearch(pc) || pc.Idle? then t else h;
    if IsLookup(pc) {
      if pc.Idle? {
        QuietTable(s, s', Idle, Search(c.key));
      } else {
        SearchTable(s, s', t, c);
      }
    } else if IsServe(pc) {
      ServeQuiet(s, s', t, c);
      OutsideTable(s, s', h);
    } else if IsCreate(pc) {
      CreateTable(s, s', t, c);
    } else if IsFill(pc) {
      FillQuiet(s, s', t, c);
      OutsideTable(s, s', h);
    } else {
      CloseQuiet(s, s', t);
      OutsideTable(s, s', h);
    }
  }

  lemma CollectorTable(s: Sys, s': Sys, h: nat)
    requires LifeInv(s) && OnlyHolder(s, h) && TableInv(s, HolderPC(s, h))
    requires CollectorCanStep(s) && s' == CollectorStep(s)
    ensures OnlyHolder(s', h) && TableInv(s', HolderPC(s', h))
  {
    var p := HolderPC(s, h);
    if h < |s.workers| { assert RefOk(s, h); }
    match s.collector {
      case Between(_) => MoveOn(s, s', p);
      case Visit(b, i) =>
        assert ChainOk(s, b);
        var chain := Chain(s, b);
        if i < |chain| && Entry(s, chain[i]).state == Cancelled && Entry(s, chain[i]).refcount == 0 {
          UnlinkTable(s, s', p, b, i);
        } else {
          MoveOn(s, s', p);
        }
      case Unlinked(b, i, e) => UnlinkLruTable(s, s', p, b, i, e);
      case Freeing(b, i, e) => FreeTable(s, s', p, b, i, e);
    }
  }

  // ----- runs -----

  /** Who steps, and what the environment decides. */
  datatype Move = Work(t: nat, c: Choice) | Collect

  predicate Moves(s: Sys, m: Move, s': Sys) {
    match m
    case Work(t, c) => WorkerCanStep(s, t, c) && s' == WorkerStep(s, t, c)
    case Collect => CollectorCanStep(s) && s' == CollectorStep(s)
  }

  ghost predicate StepAt(tr: seq<Sys>, ms: seq<Move>, i: nat) {
    i < |ms| && i + 1 < |tr| && Moves(tr[i], ms[i], tr[i + 1])
  }

  /** A run of n workers and the collector. */
  ghost predicate IsRun(tr: seq<Sys>, ms: seq<Move>, n: nat) {
    |tr| == |ms| + 1 && tr[0] == Init(n) && forall i :: 0 <= i < |ms| ==> StepAt(tr, ms, i)
  }

  ghost predicate Good(s: Sys) {
    LifeInv(s) && FilledInv(s) && exists h: nat :: OnlyHolder(s, h) && TableInv(s, HolderPC(s, h))
  }

  lemma InitGood(n: nat)
    ensures Good(Init(n)) && |Init(n).workers| == n
  {
    var s := Init(n);
    assert OnlyHolder(s, 0);
    forall b | 0 <= b < MAX_BUCKETS ensures ChainOk(s, b) {
    }
    assert TableInv(s, HolderPC(s, 0));
  }

  lemma NextGood(tr: seq<Sys>, ms: seq<Move>, n: nat, i: nat)
    requires IsRun(tr, ms, n) && i + 1 < |tr| && Good(tr[i])
    ensures Good(tr[i + 1]) && |tr[i + 1].workers| == |tr[i].workers|
  {
    var s, s' := tr[i], tr[i + 1];
    assert StepAt(tr, ms, i);
    var h: nat :| OnlyHolder(s, h) && TableInv(s, HolderPC(s, h));
    if ms[i].Work? {
      var t, c := ms[i].t, ms[i].c;
      WorkerLife(s, s', t, c);
      FilledKept(s, s', t, c);
      var h' := WorkerTable(s, s', t, c, h);
    } else {
      CollectorLife(s, s');
      CollectorFilled(s, s');
      CollectorTable(s, s', h);
    }
  }

  lemma {:induction false} ReachableGood(tr: seq<Sys>, ms: seq<Move>, n: nat, i: nat)
    requires IsRun(tr, ms, n) && i < |tr|
    ensures Good(tr[i]) && |tr[i].workers| == n
  {
    if i == 0 {
      InitGood(n);
    } else {
      ReachableGood(tr, ms, n, i - 1);
      NextGood(tr, ms, n, i - 1);
    }
  }

  // ----- what holds in every reachable state -----

  /** The reference count of an entry is the number of connections that still owe it a release. */
  lemma RefcountIsOwed(tr: seq<Sys>, ms: seq<Move>, n: nat, i: nat, e: nat)
    requires IsRun(tr, ms, n) && i < |tr| && e < |tr[i].heap|
    ensures tr[i].heap[e].refcount == Sum(tr[i].workers, Owing(e))
  {
    ReachableGood(tr, ms, n, i);
    assert CountOk(tr[i], e);
  }

  /** No worker, no bucket and no place in the LRU list refers to an entry that has been freed. */
  lemma NothingFreedIsReferenced(tr: seq<Sys>, ms: seq<Move>, n: nat, i: nat, e: nat)
    requires IsRun(tr, ms, n) && i < |tr| && e < |tr[i].heap| && tr[i].heap[e].freed
    ensures forall t :: 0 <= t < |tr[i].workers| ==> Ref(tr[i].workers[t].pc) != Some(e)
    ensures forall b :: 0 <= b < |tr[i].chains| ==> e !in tr[i].chains[b]
    ensures e !in tr[i].lru
  {
    ReachableGood(tr, ms, n, i);
    var s := tr[i];
    forall t | 0 <= t < |s.workers| ensures Ref(s.workers[t].pc) != Some(e) {
      assert RefOk(s, t);
    }
    forall b | 0 <= b < |s.chains| ensures e !in s.chains[b] {
      assert ChainOk(s, b);
    }
    var h: nat :| OnlyHolder(s, h) && TableInv(s, HolderPC(s, h));
    assert AgreeAt(s, HolderPC(s, h), e) && ChainOk(s, s.heap[e].key.bucket) by {
      assert DoneOk(s.heap[e]);
    }
  }

  /** When the collector is about to free an entry, nobody holds it and nothing leads to it. */
  lemma FreeingIsSafe(tr: seq<Sys>, ms: seq<Move>, n: nat, i: nat)
    requires IsRun(tr, ms, n) && i < |tr| && tr[i].collector.Freeing?
    ensures var e := tr[i].collector.e;
      e !in tr[i].lru && (forall b :: 0 <= b < |tr[i].chains| ==> e !in tr[i].chains[b]) &&
      forall t :: 0 <= t < |tr[i].workers| ==> Ref(tr[i].workers[t].pc) != Some(e)
  {
    ReachableGood(tr, ms, n, i);
    var s, e := tr[i], tr[i].collector.e;
    assert CountOk(s, e);
    forall t | 0 <= t < |s.workers| ensures Ref(s.workers[t].pc) != Some(e) {
      assert RefOk(s, t);
      SumAtLeast(s.workers, t, Owing(e));
    }
    var h: nat :| OnlyHolder(s, h) && TableInv(s, HolderPC(s, h));
    assert AgreeAt(s, HolderPC(s, h), e);
    forall b | 0 <= b < |s.chains| ensures e !in s.chains[b] {
      assert ChainOk(s, b);
    }
  }

  /** At most one entry of a URL is not cancelled. */
  lemma OneEntryPerUrl(tr: seq<Sys>, ms: seq<Move>, n: nat, i: nat, e: nat, f: nat)
    requires IsRun(tr, ms, n) && i < |tr| && e < |tr[i].heap| && f < |tr[i].heap|
    requires tr[i].heap[e].state != Cancelled && tr[i].heap[f].state != Cancelled
    requires tr[i].heap[e].key == tr[i].heap[f].key
    ensures e == f
  {
    ReachableGood(tr, ms, n, i);
  }

  /** Bucket chains and LRU list hold the same entries, up to the one insertion and the one removal in flight. */
  lemma BucketsAndLruAgree(tr: seq<Sys>, ms: seq<Move>, n: nat, i: nat, e: nat)
    requires IsRun(tr, ms, n) && i < |tr| && e < |tr[i].heap|
    ensures e in tr[i].lru <==>
      (InChain(tr[i], e) && forall t :: 0 <= t < |tr[i].workers| ==> tr[i].workers[t].pc != LinkLru(e)) ||
      (tr[i].collector.Unlinked? && tr[i].collector.e == e)
    ensures tr[i].heap[e].state != Cancelled ==>
      InChain(tr[i], e) || exists t :: 0 <= t < |tr[i].workers| && tr[i].workers[t].pc == Link(e)
    ensures !tr[i].heap[e].freed ==>
      InChain(tr[i], e) || TakenOut(tr[i], e) ||
      exists t :: 0 <= t < |tr[i].workers| && tr[i].workers[t].pc == Link(e)
    ensures Distinct(tr[i].lru) && forall b :: 0 <= b < |tr[i].chains| ==> Distinct(tr[i].chains[b])
  {
    ReachableGood(tr, ms, n, i);
    var s := tr[i];
    var h: nat :| OnlyHolder(s, h) && TableInv(s, HolderPC(s, h));
    assert AgreeAt(s, HolderPC(s, h), e) && LinkedAt(s, HolderPC(s, h), e);
    forall b | 0 <= b < |s.chains| ensures Distinct(s.chains[b]) {
      assert ChainOk(s, b);
    }
  }

  /** The LRU list is sorted by last access, but for an entry whose move to the front is in flight. */
  lemma MostRecentFirst(tr: seq<Sys>, ms: seq<Move>, n: nat, i: nat, j: nat, k: nat)
    requires IsRun(tr, ms, n) && i < |tr| && j < k < |tr[i].lru|
    ensures LastAccess(tr[i].heap, tr[i].lru[j]) >= LastAccess(tr[i].heap, tr[i].lru[k]) ||
      exists t :: 0 <= t < |tr[i].workers| && tr[i].workers[t].pc.Touched? && tr[i].workers[t].pc.e == tr[i].lru[k]
  {
    ReachableGood(tr, ms, n, i);
    var h: nat :| OnlyHolder(tr[i], h) && TableInv(tr[i], HolderPC(tr[i], h));
  }

  // ----- streaming -----

  /** What a client has got from the cache is always a prefix of the entry's stream. */
  lemma PrefixSent(tr: seq<Sys>, ms: seq<Move>, n: nat, i: nat, t: nat)
    requires IsRun(tr, ms, n) && i < |tr| && t < |tr[i].workers| && IsServe(tr[i].workers[t].pc)
    ensures tr[i].workers[t].pc.e < |tr[i].heap|
    ensures tr[i].workers[t].sent <= tr[i].heap[tr[i].workers[t].pc.e].data
  {
    ReachableGood(tr, ms, n, i);
    assert RefOk(tr[i], t) && StreamOk(tr[i], tr[i].workers[t]);
  }

  /**
    When handle_cached_request returns 0 the entry is complete and the client has got all of its
    stream. That is everything received from the origin if and only if the origin announced a
    length or sent no block after the first one; with a length, it is at least as long as announced.
   */
  lemma AnsweredInFull(tr: seq<Sys>, ms: seq<Move>, n: nat, i: nat, t: nat, e: nat)
    requires IsRun(tr, ms, n) && i < |tr| && t < |tr[i].workers| && tr[i].workers[t].pc == HitDone(e, true)
    ensures e < |tr[i].heap| && tr[i].heap[e].state == Complete && tr[i].workers[t].sent == tr[i].heap[e].data
    ensures tr[i].workers[t].sent == tr[i].heap[e].origin <==> tr[i].heap[e].need.Some? || tr[i].heap[e].blocks == 1
    ensures tr[i].heap[e].need.Some? ==> |tr[i].workers[t].sent| >= tr[i].heap[e].need.value
  {
    ReachableGood(tr, ms, n, i);
    assert RefOk(tr[i], t) && StreamOk(tr[i], tr[i].workers[t]) && DoneOk(tr[i].heap[e]);
  }

  /** Worker u alone holds the lock of entry e and its next step is the broadcast about e. */
  ghost predicate AboutToSignal(s: Sys, u: nat, e: nat) {
    u < |s.workers| && Signals(s.workers[u].pc, e) && HoldsEntry(s.workers[u].pc) == Some(e) && Alone(s, u, e)
  }

  lemma SignallerAlone(s: Sys, u: nat, e: nat)
    requires HoldInv(s) && u < |s.workers| && Signals(s.workers[u].pc, e)
    ensures AboutToSignal(s, u, e)
  {
    forall v | 0 <= v < |s.workers| && v != u ensures HoldsEntry(s.workers[v].pc) != Some(e) {
      assert OneHolder(s, u, v);
    }
  }

  /** Exactly one worker fills an entry that is neither complete nor cancelled, and it is not asleep. */
  lemma StillFilled(tr: seq<Sys>, ms: seq<Move>, n: nat, i: nat, e: nat) returns (t: nat)
    requires IsRun(tr, ms, n) && i < |tr| && e < |tr[i].heap| && tr[i].heap[e].state == Incomplete
    ensures t < |tr[i].workers| && Creates(tr[i].workers[t].pc, e) && !tr[i].workers[t].pc.Sleep?
    ensures forall u :: 0 <= u < |tr[i].workers| && u != t ==> !Creates(tr[i].workers[u].pc, e)
  {
    ReachableGood(tr, ms, n, i);
    assert FilledAt(tr[i], e);
    t :| 0 <= t < |tr[i].workers| && Creates(tr[i].workers[t].pc, e);
    forall u | 0 <= u < |tr[i].workers| && u != t ensures !Creates(tr[i].workers[u].pc, e) {
      assert OneCreator(tr[i], t, u);
    }
  }

  /**
    A reader that is asleep without a pending wakeup has sent all there is of an incomplete
    entry that another worker still fills, or else the one holder of the entry's lock is about
    to broadcast.
   */
  lemma SleepersHaveAll(tr: seq<Sys>, ms: seq<Move>, n: nat, i: nat, t: nat, e: nat)
    requires IsRun(tr, ms, n) && i < |tr| && t < |tr[i].workers| && tr[i].workers[t].pc == Sleep(e)
    ensures e < |tr[i].heap| &&
      ((tr[i].heap[e].state == Incomplete && tr[i].workers[t].offset == |tr[i].heap[e].data| &&
        tr[i].workers[t].sent == tr[i].heap[e].data && HasCreator(tr[i], e)) ||
       exists u :: AboutToSignal(tr[i], u, e))
  {
    ReachableGood(tr, ms, n, i);
    var s := tr[i];
    assert RefOk(s, t) && StreamOk(s, s.workers[t]) && AwakeAt(s, t) && FilledAt(s, e);
    if Signalled(s, e) {
      var u :| 0 <= u < |s.workers| && Signals(s.workers[u].pc, e);
      SignallerAlone(s, u, e);
    }
  }

  /** The lock of an entry is held by one thread at a time, collector included. */
  lemma EntryLockExcludes(tr: seq<Sys>, ms: seq<Move>, n: nat, i: nat, t: nat, e: nat)
    requires IsRun(tr, ms, n) && i < |tr| && t < |tr[i].workers| && HoldsEntry(tr[i].workers[t].pc) == Some(e)
    ensures Alone(tr[i], t, e) && !(tr[i].collector.Unlinked? && tr[i].collector.e == e)
  {
    ReachableGood(tr, ms, n, i);
    forall u | 0 <= u < |tr[i].workers| && u != t ensures HoldsEntry(tr[i].workers[u].pc) != Some(e) {
      assert OneHolder(tr[i], t, u);
    }
  }

  /** Streams only grow, and not at all once the entry is complete or cancelled. */
  ghost predicate Grown(r: Rec, r': Rec) {
    r.data <= r'.data && r'.key == r.key && r'.need == r.need && (r.freed ==> r'.freed) &&
    (r.state != Incomplete ==> r'.data == r.data && r'.state == r.state)
  }

  lemma GrownTwice(r: Rec, r': Rec, r'': Rec)
    requires Grown(r, r') && Grown(r', r'')
    ensures Grown(r, r'')
  {
  }

  lemma RunGrows(tr: seq<Sys>, ms: seq<Move>, n: nat, j: nat, e: nat)
    requires IsRun(tr, ms, n) && j + 1 < |tr| && e < |tr[j].heap|
    ensures e < |tr[j + 1].heap| && Grown(tr[j].heap[e], tr[j + 1].heap[e])
  {
    ReachableGood(tr, ms, n, j);
    var s, s' := tr[j], tr[j + 1];
    assert StepAt(tr, ms, j);
    var h: nat :| OnlyHolder(s, h) && TableInv(s, HolderPC(s, h));
    if ms[j].Work? {
      var t, c := ms[j].t, ms[j].c;
      WorkerLife(s, s', t, c);
      assert RefOk(s, t) && RecKept(s.heap[e], s'.heap[e], Creates(s.workers[t].pc, e));
    }
  }

  lemma {:induction false} AppendOnly(tr: seq<Sys>, ms: seq<Move>, n: nat, i: nat, j: nat, e: nat)
    requires IsRun(tr, ms, n) && i <= j < |tr| && e < |tr[i].heap|
    ensures e < |tr[j].heap| && Grown(tr[i].heap[e], tr[j].heap[e])
  {
    if i < j {
      AppendOnly(tr, ms, n, i, j - 1, e);
      RunGrows(tr, ms, n, j - 1, e);
      GrownTwice(tr[i].heap[e], tr[j - 1].heap[e], tr[j].heap[e]);
    }
  }

  // ----- the mutexes -----

  ghost predicate Offered(s: Sys, c: Choice) {
    c.now >= s.clock && c.key.bucket < MAX_BUCKETS && (c.received.Block? ==> c.received.bytes != [])
  }

  /**
    The holder of the search mutex waits for nobody who waits: it can step, or the collector
    inside a bucket can, or a worker that holds an entry's lock can.
   */
  lemma HolderGoesOn(tr: seq<Sys>, ms: seq<Move>, n: nat, i: nat, t: nat, c: Choice)
    requires IsRun(tr, ms, n) && i < |tr| && t < |tr[i].workers| && HoldsSearch(tr[i].workers[t].pc)
    requires Offered(tr[i], c)
    ensures WorkerCanStep(tr[i], t, c) || (!tr[i].collector.Between? && CollectorCanStep(tr[i])) ||
      exists u :: 0 <= u < |tr[i].workers| && HoldsEntry(tr[i].workers[u].pc).Some? && WorkerCanStep(tr[i], u, c)
  {
    ReachableGood(tr, ms, n, i);
    var s := tr[i];
    if u :| 0 <= u < |s.workers| && HoldsEntry(s.workers[u].pc).Some? {
      assert WorkerCanStep(s, u, c);
    } else {
      var h: nat :| OnlyHolder(s, h) && TableInv(s, HolderPC(s, h));
      assert h == t;
      forall u, b | 0 <= u < |s.workers| && (s.workers[t].pc.Search? || s.workers[t].pc.Link?)
        ensures HoldsBucket(s.workers[u].pc) != Some(b)
      {
      }
    }
  }

  /**
    Deadlock freedom: in every reachable state some worker that is not asleep can step, or the
    collector inside a bucket can. So no timeout is needed to go on.
   */
  lemma NeverStuck(tr: seq<Sys>, ms: seq<Move>, n: nat, i: nat, c: Choice)
    requires IsRun(tr, ms, n) && i < |tr| && n > 0 && Offered(tr[i], c)
    ensures (exists t: nat :: WorkerCanStep(tr[i], t, c) && !tr[i].workers[t].pc.Sleep?) ||
      (!tr[i].collector.Between? && CollectorCanStep(tr[i]))
  {
    ReachableGood(tr, ms, n, i);
    var s := tr[i];
    if u :| 0 <= u < |s.workers| && HoldsSearch(s.workers[u].pc) {
      HolderGoesOn(tr, ms, n, i, u, c);
    } else if u :| 0 <= u < |s.workers| && HoldsEntry(s.workers[u].pc).Some? {
      assert WorkerCanStep(s, u, c);
    } else if !s.collector.Unlinked? {
      var t := Busy(tr, ms, n, i);
      assert WorkerCanStep(s, t, c);
    }
  }

  /** Some worker is not asleep: a sleeper waits for one that fills the entry or is about to broadcast. */
  lemma Busy(tr: seq<Sys>, ms: seq<Move>, n: nat, i: nat) returns (t: nat)
    requires IsRun(tr, ms, n) && i < |tr| && n > 0
    ensures t < |tr[i].workers| && !tr[i].workers[t].pc.Sleep?
  {
    ReachableGood(tr, ms, n, i);
    t := 0;
    if tr[i].workers[0].pc.Sleep? {
      var e := tr[i].workers[0].pc.e;
      SleepersHaveAll(tr, ms, n, i, 0, e);
      if u: nat :| AboutToSignal(tr[i], u, e) {
        t := u;
      } else {
        t :| 0 <= t < |tr[i].workers| && Creates(tr[i].workers[t].pc, e);
      }
    }
  }

  /** The steps that the collector still has to take in the bucket it is in. */
  function CollectorWork(s: Sys): int {
    match s.collector
    case Between(_) => 0
    case Visit(b, i) => 3 * (|Chain(s, b)| - i) + 1
    case Freeing(b, i, _) => 3 * (|Chain(s, b)| - i) + 2
    case Unlinked(b, i, _) => 3 * (|Chain(s, b)| - i) + 3
  }

  /** Inside a bucket every step of the collector uses up work, and no worker makes more of it. */
  lemma CollectorAdvances(s: Sys, m: Move, s': Sys)
    requires Good(s) && Moves(s, m, s') && !s.collector.Between?
    ensures CollectorWork(s') >= 0
    ensures if s'.collector == s.collector then CollectorWork(s') == CollectorWork(s)
            else CollectorWork(s') < CollectorWork(s)
  {
    var h: nat :| OnlyHolder(s, h) && TableInv(s, HolderPC(s, h));
    if m.Work? {
      var t, c := m.t, m.c;
      WorkerLeavesBucket(s, s', t, c, s.collector.b);
    }
  }

  lemma WorkerLeavesBucket(s: Sys, s': Sys, t: nat, c: Choice, b: nat)
    requires WorkerCanStep(s, t, c) && s' == WorkerStep(s, t, c) && !s.collector.Between? && b == s.collector.b
    ensures s'.collector == s.collector && Chain(s', b) == Chain(s, b)
  {
  }

  /** How many steps the collector takes between the states i and j of the run. */
  ghost function CollectorSteps(tr: seq<Sys>, i: nat, j: nat): nat
    requires i <= j < |tr|
  {
    if i == j then 0
    else CollectorSteps(tr, i, j - 1) + (if tr[j - 1].collector != tr[j].collector then 1 else 0)
  }

  /** While it is inside a bucket of k entries the collector takes at most 3 k + 3 steps. */
  lemma {:induction false} CollectorIsShort(tr: seq<Sys>, ms: seq<Move>, n: nat, i: nat, j: nat)
    requires IsRun(tr, ms, n) && i <= j < |tr| && forall k :: i <= k < j ==> !tr[k].collector.Between?
    ensures CollectorSteps(tr, i, j) + CollectorWork(tr[j]) <= CollectorWork(tr[i])
    ensures CollectorWork(tr[j]) >= 0
  {
    if i < j {
      CollectorIsShort(tr, ms, n, i, j - 1);
      ReachableGood(tr, ms, n, j - 1);
      assert StepAt(tr, ms, j - 1);
      CollectorAdvances(tr[j - 1], ms[j - 1], tr[j]);
    } else {
      ReachableGood(tr, ms, n, i);
      var h: nat :| OnlyHolder(tr[i], h) && TableInv(tr[i], HolderPC(tr[i], h));
    }
  }
}
