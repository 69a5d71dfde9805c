/**
  A run in which a client gets only a part of a response and is told that this is all: the
  origin announces no length and sends its response in two blocks.
 */
module TruncatedAnswer {
  import opened Basics
  import opened Filters
  import opened UrlHash
  import opened Chunks
  import opened ProxyCache
  import opened ProxyCacheTheorems

  const KEY: Key := Key(0, 0)
  const IDLE: Worker := Worker(Idle, 0, [])

  function Buckets(chain: seq<nat>): seq<seq<nat>> {
    seq(MAX_BUCKETS, b => if b == 0 then chain else [])
  }

  /** The entry with the given state and references, and what has come from the origin. */
  function Response(state: EntryState, refcount: int, data: seq<Byte>, origin: seq<Byte>, blocks: nat): Rec {
    Rec(KEY, state, refcount, 0, data, None, origin, blocks, false)
  }

  function Asked(a: seq<Byte>): Rec {
    Response(Incomplete, 1, [], a, 1)
  }

  function Begun(a: seq<Byte>): Rec {
    Response(Incomplete, 1, a, a, 1)
  }

  function Ended(a: seq<Byte>, b: seq<Byte>): Rec {
    Response(Incomplete, 1, a, a + b, 2)
  }

  function Completed(a: seq<Byte>, b: seq<Byte>): Rec {
    Response(Complete, 1, a, a + b, 2)
  }

  function Free(a: seq<Byte>, b: seq<Byte>): Rec {
    Response(Complete, 0, a, a + b, 2)
  }

  /** Two workers and at most one entry, which is in its bucket and in the LRU list. */
  function At(heap: seq<Rec>, linked: seq<nat>, v: Worker, w: Worker): Sys {
    Sys(heap, Buckets(linked), linked, 0, [v, w], Between(0))
  }

  function Fresh(pc: PC): Worker {
    Worker(pc, 0, [])
  }

  function Receives(r: Received): Choice {
    Choice(KEY, 0, true, 0, r, 0, None)
  }

  const QUIET: Choice := Receives(Closed)

  ghost predicate EndsAt(tr: seq<Sys>, ms: seq<Move>, s: Sys) {
    IsRun(tr, ms, 2) && tr[|ms|] == s
  }

  ghost predicate Reached(s: Sys) {
    exists tr, ms :: EndsAt(tr, ms, s)
  }

  lemma Go(s: Sys, t: nat, c: Choice, s': Sys)
    requires Reached(s) && WorkerCanStep(s, t, c) && s' == WorkerStep(s, t, c)
    ensures Reached(s')
  {
    var tr, ms :| EndsAt(tr, ms, s);
    var tr', ms' := tr + [s'], ms + [Work(t, c)];
    forall i | 0 <= i < |ms'| ensures StepAt(tr', ms', i) {
      if i < |ms| { assert StepAt(tr, ms, i); }
    }
    assert EndsAt(tr', ms', s');
  }

  /** A step of worker t that moves on and may change the heap. */
  lemma Advance(heap: seq<Rec>, heap': seq<Rec>, linked: seq<nat>, v: Worker, w: Worker, t: nat, pc: PC, c: Choice)
    requires t < 2 && Reached(At(heap, linked, v, w)) && WorkerCanStep(At(heap, linked, v, w), t, c)
    requires WorkerStep(At(heap, linked, v, w), t, c) == SetPC(At(heap', linked, v, w), t, pc)
    ensures Reached(if t == 0 then At(heap', linked, v.(pc := pc), w) else At(heap', linked, v, w.(pc := pc)))
  {
    var s' := SetPC(At(heap', linked, v, w), t, pc);
    assert s' == if t == 0 then At(heap', linked, v.(pc := pc), w) else At(heap', linked, v, w.(pc := pc));
    Go(At(heap, linked, v, w), t, c, s');
  }

  lemma Starts()
    ensures Reached(At([], [], IDLE, IDLE))
  {
    assert Init(2) == At([], [], IDLE, IDLE);
    assert EndsAt([Init(2)], [], Init(2));
  }

  /** Worker 0 looks the URL up ... */
  lemma Walks()
    ensures Reached(At([], [], Fresh(Walk(KEY, 0)), IDLE))
  {
    Starts();
    Advance([], [], [], IDLE, IDLE, 0, Search(KEY), QUIET);
    Advance([], [], [], Fresh(Search(KEY)), IDLE, 0, Walk(KEY, 0), QUIET);
  }

  /** ... and finds nothing in the cache. */
  lemma Misses()
    ensures Reached(At([], [], Fresh(Fetch(KEY)), IDLE))
  {
    Walks();
    Advance([], [], [], Fresh(Walk(KEY, 0)), IDLE, 0, MissBucket(KEY), QUIET);
    Advance([], [], [], Fresh(MissBucket(KEY)), IDLE, 0, Fetch(KEY), QUIET);
  }

  /** The entry is in its bucket and not yet in the LRU list. */
  function Half(a: seq<Byte>): Sys {
    Sys([Asked(a)], Buckets([0]), [], 0, [Fresh(LinkLru(0)), IDLE], Between(0))
  }

  /** It asks the origin, which sends a first block whose header gives no length, and makes an entry. */
  lemma Links(a: seq<Byte>)
    requires a != []
    ensures Reached(Half(a))
  {
    Misses();
    Advance([], [Asked(a)], [], Fresh(Fetch(KEY)), IDLE, 0, Link(0), Receives(Block(a)));
    var s := At([Asked(a)], [], Fresh(Link(0)), IDLE);
    assert [0] + Buckets([])[0] == [0];
    assert Buckets([])[0 := [0]] == Buckets([0]);
    assert s.workers[0 := Fresh(LinkLru(0))] == Half(a).workers;
    Go(s, 0, QUIET, Half(a));
  }

  lemma LinksLru(a: seq<Byte>)
    requires a != []
    ensures Reached(At([Asked(a)], [0], Fresh(MissSearch(0)), IDLE))
  {
    Links(a);
    var s' := At([Asked(a)], [0], Fresh(MissSearch(0)), IDLE);
    assert s'.workers == Half(a).workers[0 := Fresh(MissSearch(0))];
    assert [0] + [] == [0];
    Go(Half(a), 0, QUIET, s');
  }

  /** The first block goes into the entry ... */
  lemma Appends(a: seq<Byte>)
    requires a != []
    ensures Reached(At([Begun(a)], [0], Fresh(Appended(0, a, true)), IDLE))
  {
    LinksLru(a);
    Advance([Asked(a)], [Asked(a)], [0], Fresh(MissSearch(0)), IDLE, 0, Append(0, a, true), QUIET);
    assert [Asked(a)][0 := Begun(a)] == [Begun(a)] && [] + a == a;
    Advance([Asked(a)], [Begun(a)], [0], Fresh(Append(0, a, true)), IDLE, 0, Appended(0, a, true), QUIET);
  }

  /** Sending a block on changes what the own client has got. */
  lemma ForwardsBlock(r: Rec, block: seq<Byte>, first: bool, sent: seq<Byte>)
    requires r.need.None? && Reached(At([r], [0], Worker(Forward(0, block, first), 0, sent), IDLE))
    ensures Reached(At([r], [0], Worker(Receive(0), 0, sent + block), IDLE))
  {
    var s := At([r], [0], Worker(Forward(0, block, first), 0, sent), IDLE);
    var s' := At([r], [0], Worker(Receive(0), 0, sent + block), IDLE);
    assert s'.workers == s.workers[0 := Worker(Receive(0), 0, sent + block)];
    Go(s, 0, QUIET, s');
  }

  lemma Forwards(a: seq<Byte>)
    requires a != []
    ensures Reached(At([Begun(a)], [0], Worker(Receive(0), 0, a), IDLE))
  {
    Appends(a);
    assert WakeAll([Fresh(Appended(0, a, true)), IDLE], 0) == [Fresh(Appended(0, a, true)), IDLE];
    Advance([Begun(a)], [Begun(a)], [0], Fresh(Appended(0, a, true)), IDLE, 0, Forward(0, a, true), QUIET);
    ForwardsBlock(Begun(a), a, true, []);
    assert [] + a == a;
  }

  /** ... the second one past it, and the origin closes the connection. */
  lemma Ends(a: seq<Byte>, b: seq<Byte>)
    requires a != [] && b != []
    ensures Reached(At([Ended(a, b)], [0], Worker(CompleteFirst(0), 0, a + b), IDLE))
  {
    Forwards(a);
    var r, v := Ended(a, b), Worker(Receive(0), 0, a);
    assert [Begun(a)][0 := r] == [r];
    Advance([Begun(a)], [r], [0], v, IDLE, 0, Forward(0, b, false), Receives(Block(b)));
    ForwardsBlock(r, b, false, a);
    Advance([r], [r], [0], Worker(Receive(0), 0, a + b), IDLE, 0, CompleteFirst(0), QUIET);
  }

  /** The entry is reported complete. */
  lemma Completes(a: seq<Byte>, b: seq<Byte>)
    requires a != [] && b != []
    ensures Reached(At([Completed(a, b)], [0], Worker(Settled(0, false), 0, a + b), IDLE))
  {
    Ends(a, b);
    var v := Worker(CompleteFirst(0), 0, a + b);
    assert [Ended(a, b)][0 := Completed(a, b)] == [Completed(a, b)];
    Advance([Ended(a, b)], [Completed(a, b)], [0], v, IDLE, 0, Settled(0, false), QUIET);
  }

  /** The first client has got everything. */
  function Served(a: seq<Byte>, b: seq<Byte>): Worker {
    Worker(Idle, 0, a + b)
  }

  lemma Releases(a: seq<Byte>, b: seq<Byte>)
    requires a != [] && b != []
    ensures Reached(At([Free(a, b)], [0], Served(a, b), IDLE))
  {
    Completes(a, b);
    var r, v := Completed(a, b), Worker(Settled(0, false), 0, a + b);
    assert [r][0 := Free(a, b)] == [Free(a, b)];
    assert WakeAll([v, IDLE], 0) == [v, IDLE];
    Advance([r], [r], [0], v, IDLE, 0, ReleaseLast(0), QUIET);
    Advance([r], [Free(a, b)], [0], v.(pc := ReleaseLast(0)), IDLE, 0, Idle, QUIET);
  }

  /** Worker 1 finds the entry. */
  lemma Finds(a: seq<Byte>, b: seq<Byte>)
    requires a != [] && b != []
    ensures Reached(At([Completed(a, b)], [0], Served(a, b), Fresh(Touched(0, 0))))
  {
    Releases(a, b);
    Advance([Free(a, b)], [Free(a, b)], [0], Served(a, b), IDLE, 1, Search(KEY), QUIET);
    Advance([Free(a, b)], [Free(a, b)], [0], Served(a, b), Fresh(Search(KEY)), 1, Walk(KEY, 0), QUIET);
    var s' := At([Completed(a, b)], [0], Served(a, b), Fresh(Touched(0, 0)));
    assert s'.workers == [Served(a, b), Fresh(Walk(KEY, 0))][1 := Fresh(Touched(0, 0))];
    assert [Free(a, b)][0 := Completed(a, b)] == [Completed(a, b)];
    Go(At([Free(a, b)], [0], Served(a, b), Fresh(Walk(KEY, 0))), 1, QUIET, s');
  }

  lemma Reads(a: seq<Byte>, b: seq<Byte>)
    requires a != [] && b != []
    ensures Reached(At([Completed(a, b)], [0], Served(a, b), Fresh(Deciding(0))))
  {
    Finds(a, b);
    assert [0] + FilterOut([0], {0}) == [0];
    var r, v := Completed(a, b), Served(a, b);
    Advance([r], [r], [0], v, Fresh(Touched(0, 0)), 1, HitBucket(0, 0), QUIET);
    Advance([Completed(a, b)], [Completed(a, b)], [0], Served(a, b), Fresh(HitBucket(0, 0)), 1, HitSearch(0), QUIET);
    Advance([Completed(a, b)], [Completed(a, b)], [0], Served(a, b), Fresh(HitSearch(0)), 1, Serve(0), QUIET);
    Advance([Completed(a, b)], [Completed(a, b)], [0], Served(a, b), Fresh(Serve(0)), 1, Deciding(0), QUIET);
  }

  lemma Sends(a: seq<Byte>, b: seq<Byte>)
    requires a != [] && b != [] && |a| <= BUFFER
    ensures Reached(At([Completed(a, b)], [0], Served(a, b), Worker(Serve(0), |a|, a)))
  {
    Reads(a, b);
    assert Slice(a, 0, BUFFER) == a && [] + a == a;
    Advance([Completed(a, b)], [Completed(a, b)], [0], Served(a, b), Fresh(Deciding(0)), 1, Send(0, a), QUIET);
    var s' := At([Completed(a, b)], [0], Served(a, b), Worker(Serve(0), |a|, a));
    assert s'.workers == [Served(a, b), Fresh(Send(0, a))][1 := Worker(Serve(0), |a|, a)];
    Go(At([Completed(a, b)], [0], Served(a, b), Fresh(Send(0, a))), 1, QUIET, s');
  }

  /**
    Whatever the two blocks are (the first one begins with the header): the first client gets
    both of them, but the second client gets the first one only and handle_cached_request returns 0 for it: the promise of the whole
    response fails.
   */
  lemma HalfAnAnswer(a: seq<Byte>, b: seq<Byte>) returns (tr: seq<Sys>, ms: seq<Move>, i: nat)
    requires a != [] && b != [] && |a| <= BUFFER
    ensures IsRun(tr, ms, 2) && i < |tr| && |tr[i].workers| == 2 && |tr[i].heap| == 1
    ensures tr[i].workers[1].pc == HitDone(0, true) && tr[i].heap[0].state == Complete
    ensures tr[i].workers[0].sent == a + b && tr[i].workers[1].sent == a && tr[i].heap[0].origin == a + b
    ensures tr[i].heap[0].need.None? && tr[i].heap[0].blocks == 2
  {
    Sends(a, b);
    var r := Completed(a, b);
    Advance([r], [r], [0], Served(a, b), Worker(Serve(0), |a|, a), 1, Deciding(0), QUIET);
    Advance([r], [r], [0], Served(a, b), Worker(Deciding(0), |a|, a), 1, HitDone(0, true), QUIET);
    tr, ms :| EndsAt(tr, ms, At([r], [0], Served(a, b), Worker(HitDone(0, true), |a|, a)));
    i := |tr| - 1;
  }
}
