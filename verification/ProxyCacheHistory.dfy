/**
  What a run of the proxy's cache owes to what came in from outside: the requests, the origin's
  answers, the clock and the failures.
 */
module ProxyCacheHistory {
  import opened Basics
  import opened UrlHash
  import opened Chunks
  import opened ProxyCache
  import opened ProxyCacheInv
  import opened ProxyCacheTable
  import opened ProxyCacheTheorems

  // ----- one step of a run -----

  /** Only marks of freed entries may differ. */
  ghost predicate OnlyFreed(s: Sys, s': Sys) {
    s'.workers == s.workers && |s'.heap| == |s.heap| &&
    forall e :: 0 <= e < |s.heap| ==> s'.heap[e] == s.heap[e].(freed := s'.heap[e].freed)
  }

  lemma CollectorOnlyFrees(s: Sys, s': Sys)
    requires s' == CollectorStep(s)
    ensures OnlyFreed(s, s')
  {
  }

  lemma RunStep(tr: seq<Sys>, ms: seq<Move>, n: nat, i: nat)
    requires IsRun(tr, ms, n) && i < |ms|
    ensures Moves(tr[i], ms[i], tr[i + 1]) && RefInv(tr[i]) && RefInv(tr[i + 1]) && StreamInv(tr[i])
    ensures |tr[i].workers| == |tr[i + 1].workers| == n
    ensures ms[i].Work? ==> Guarantee(tr[i], tr[i + 1], ms[i].t)
    ensures ms[i].Collect? ==> OnlyFreed(tr[i], tr[i + 1])
  {
    ReachableGood(tr, ms, n, i);
    ReachableGood(tr, ms, n, i + 1);
    assert StepAt(tr, ms, i);
    if ms[i].Work? {
      var h: nat :| OnlyHolder(tr[i], h) && TableInv(tr[i], HolderPC(tr[i], h));
      WorkerLife(tr[i], tr[i + 1], ms[i].t, ms[i].c);
    } else {
      CollectorOnlyFrees(tr[i], tr[i + 1]);
    }
  }

  lemma WorkerCount(tr: seq<Sys>, ms: seq<Move>, n: nat, i: nat)
    requires IsRun(tr, ms, n) && i < |tr|
    ensures |tr[i].workers| == n
  {
    ReachableGood(tr, ms, n, i);
  }

  /** A step of another worker leaves a worker alone, unless it wakes it. */
  lemma OthersStay(tr: seq<Sys>, ms: seq<Move>, n: nat, i: nat, u: nat)
    requires IsRun(tr, ms, n) && i < |ms| && u < n && !(ms[i].Work? && ms[i].t == u)
    ensures |tr[i].workers| == |tr[i + 1].workers| == n
    ensures var w, w' := tr[i].workers[u], tr[i + 1].workers[u];
      w' == w || (w.pc.Sleep? && w' == w.(pc := Woken(w.pc.e, false)))
  {
    RunStep(tr, ms, n, i);
    if ms[i].Work? { assert OtherKept(tr[i], tr[i + 1], u); }
  }

  // ----- the creation of an entry -----

  /** Step j creates entry e. */
  ghost predicate CreatedAt(tr: seq<Sys>, j: nat, e: nat) {
    j + 1 < |tr| && |tr[j].heap| == e < |tr[j + 1].heap|
  }

  lemma {:induction false} Creation(tr: seq<Sys>, ms: seq<Move>, n: nat, i: nat, e: nat) returns (j: nat)
    requires IsRun(tr, ms, n) && i < |tr| && e < |tr[i].heap|
    ensures j < i && CreatedAt(tr, j, e)
  {
    j := i - 1;
    RunStep(tr, ms, n, j);
    if e < |tr[j].heap| { j := Creation(tr, ms, n, j, e); }
  }

  /** What the creating step makes of the request and of the origin's first block. */
  lemma Created(tr: seq<Sys>, ms: seq<Move>, n: nat, j: nat, e: nat)
    requires IsRun(tr, ms, n) && CreatedAt(tr, j, e)
    ensures ms[j].Work? && ms[j].t < |tr[j].workers| && tr[j].workers[ms[j].t].pc.Fetch?
    ensures ms[j].c.ok && ms[j].c.received.Block?
    ensures var c, r := ms[j].c, tr[j + 1].heap[e];
      r.key == tr[j].workers[ms[j].t].pc.key && r.lastAccess == c.now && r.blocks == 1 && r.state == Incomplete &&
      r.origin == c.received.bytes && |tr[j + 1].heap| == e + 1 &&
      r.need == if c.contentLength.Some? then Some(c.header + c.contentLength.value) else None
  {
    RunStep(tr, ms, n, j);
    if ms[j].Work? { CreationStep(tr[j], tr[j + 1], ms[j].t, ms[j].c); }
  }

  lemma CreationStep(s: Sys, s': Sys, t: nat, c: Choice)
    requires WorkerCanStep(s, t, c) && s' == WorkerStep(s, t, c) && |s'.heap| > |s.heap|
    ensures s.workers[t].pc.Fetch? && s' == CreateStep(s, t, c)
  {
  }

  // ----- what came from the origin -----

  /** The bytes that a step brings from the origin for entry e. */
  ghost function Brings(s: Sys, m: Move, s': Sys, e: nat): seq<Byte> {
    if m.Work? && m.t < |s.workers| && m.c.received.Block? &&
       (s.workers[m.t].pc == Receive(e) || (|s.heap| == e < |s'.heap|))
    then m.c.received.bytes
    else []
  }

  /** All bytes that the first i steps have brought from the origin for entry e. */
  ghost function FromOrigin(tr: seq<Sys>, ms: seq<Move>, e: nat, i: nat): seq<Byte>
    requires i <= |ms| < |tr|
  {
    if i == 0 then [] else FromOrigin(tr, ms, e, i - 1) + Brings(tr[i - 1], ms[i - 1], tr[i], e)
  }

  /** The number of blocks in which they came. */
  ghost function BlocksFrom(tr: seq<Sys>, ms: seq<Move>, e: nat, i: nat): nat
    requires i <= |ms| < |tr|
  {
    if i == 0 then 0
    else BlocksFrom(tr, ms, e, i - 1) + (if Brings(tr[i - 1], ms[i - 1], tr[i], e) == [] then 0 else 1)
  }

  lemma BringsStep(s: Sys, s': Sys, t: nat, c: Choice, e: nat)
    requires RefInv(s) && WorkerCanStep(s, t, c) && s' == WorkerStep(s, t, c) && e < |s'.heap|
    ensures s'.heap[e].origin == (if e < |s.heap| then s.heap[e].origin else []) + Brings(s, Work(t, c), s', e)
    ensures s'.heap[e].blocks ==
      (if e < |s.heap| then s.heap[e].blocks else 0) + (if Brings(s, Work(t, c), s', e) == [] then 0 else 1)
  {
    var pc := s.workers[t].pc;
    assert RefOk(s, t);
    if IsLookup(pc) {
    } else if IsServe(pc) {
    } else if IsCreate(pc) {
    } else if IsFill(pc) {
    } else {
    }
  }

  ghost predicate Adds(s: Sys, s': Sys, e: nat, bytes: seq<Byte>) {
    Origin(s', e) == Origin(s, e) + bytes && Blocks(s', e) == Blocks(s, e) + (if bytes == [] then 0 else 1)
  }

  ghost predicate AddsAt(tr: seq<Sys>, ms: seq<Move>, k: nat, e: nat) {
    k < |ms| && k + 1 < |tr| && Adds(tr[k], tr[k + 1], e, Brings(tr[k], ms[k], tr[k + 1], e))
  }

  lemma OneMore(l: seq<Byte>, b: nat, s: Sys, s': Sys, e: nat, bytes: seq<Byte>)
    requires Adds(s, s', e, bytes) && l == Origin(s, e) && b == Blocks(s, e)
    ensures l + bytes == Origin(s', e) && b + (if bytes == [] then 0 else 1) == Blocks(s', e)
  {
  }

  lemma {:induction false} OriginSums(tr: seq<Sys>, ms: seq<Move>, e: nat, i: nat)
    requires i <= |ms| < |tr| && Origin(tr[0], e) == [] && Blocks(tr[0], e) == 0
    requires forall k :: 0 <= k < i ==> AddsAt(tr, ms, k, e)
    ensures FromOrigin(tr, ms, e, i) == Origin(tr[i], e) && BlocksFrom(tr, ms, e, i) == Blocks(tr[i], e)
  {
    if i > 0 {
      OriginSums(tr, ms, e, i - 1);
      var bytes := Brings(tr[i - 1], ms[i - 1], tr[i], e);
      assert Adds(tr[i - 1], tr[i], e, bytes) by { assert AddsAt(tr, ms, i - 1, e); }
      OneMore(FromOrigin(tr, ms, e, i - 1), BlocksFrom(tr, ms, e, i - 1), tr[i - 1], tr[i], e, bytes);
    }
  }

  lemma OriginIs(tr: seq<Sys>, ms: seq<Move>, n: nat, i: nat, e: nat)
    requires IsRun(tr, ms, n) && i < |tr|
    ensures FromOrigin(tr, ms, e, i) == Origin(tr[i], e) && BlocksFrom(tr, ms, e, i) == Blocks(tr[i], e)
  {
    forall k | 0 <= k < i ensures AddsAt(tr, ms, k, e) {
      NextOrigin(tr, ms, n, k, e);
    }
    OriginSums(tr, ms, e, i);
  }

  /** What has come for the entry so far; nothing before it is created. */
  function Origin(s: Sys, e: nat): seq<Byte> {
    if e < |s.heap| then s.heap[e].origin else []
  }

  function Blocks(s: Sys, e: nat): nat {
    if e < |s.heap| then s.heap[e].blocks else 0
  }

  lemma NextOrigin(tr: seq<Sys>, ms: seq<Move>, n: nat, i: nat, e: nat)
    requires IsRun(tr, ms, n) && i < |ms|
    ensures AddsAt(tr, ms, i, e)
  {
    RunStep(tr, ms, n, i);
    if ms[i].Work? {
      if e < |tr[i + 1].heap| {
        BringsStep(tr[i], tr[i + 1], ms[i].t, ms[i].c, e);
      } else {
        assert RefOk(tr[i], ms[i].t);
      }
    }
  }

  /**
    The promise of the whole answer, from outside. Entry e was created at step j from the
    origin's first answer. When handle_cached_request returns 0 for it, the client has got
    everything that the run has received for it from the origin if and only if that answer
    announced a length or was the only block; with an announced length it has got at least the
    header and that many bytes.
   */
  lemma AnsweredAsAnnounced(tr: seq<Sys>, ms: seq<Move>, n: nat, i: nat, t: nat, e: nat) returns (j: nat)
    requires IsRun(tr, ms, n) && i < |tr| && t < |tr[i].workers| && tr[i].workers[t].pc == HitDone(e, true)
    ensures e < |tr[i].heap| && j < i && CreatedAt(tr, j, e) && ms[j].Work?
    ensures tr[i].workers[t].sent == FromOrigin(tr, ms, e, i) <==>
      ms[j].c.contentLength.Some? || BlocksFrom(tr, ms, e, i) == 1
    ensures ms[j].c.contentLength.Some? ==> |tr[i].workers[t].sent| >= ms[j].c.header + ms[j].c.contentLength.value
  {
    AnsweredInFull(tr, ms, n, i, t, e);
    j := Creation(tr, ms, n, i, e);
    Created(tr, ms, n, j, e);
    AppendOnly(tr, ms, n, j + 1, i, e);
    OriginIs(tr, ms, n, i, e);
  }

  // ----- what the clients get -----

  /** What the last step sent to the client of worker t: all of the bytes, or some when sending fails. */
  ghost function Part(bytes: seq<Byte>, c: Choice): seq<Byte> {
    if c.ok || |bytes| <= c.partial then bytes else bytes[..c.partial]
  }

  /** What the client of the current request of worker t has got in the first i steps. */
  ghost function Got(tr: seq<Sys>, ms: seq<Move>, t: nat, i: nat): seq<Byte>
    requires i <= |ms| < |tr|
  {
    if i == 0 then []
    else
      var m := ms[i - 1];
      if !m.Work? || m.t != t || t >= |tr[i - 1].workers| then Got(tr, ms, t, i - 1)
      else
        match tr[i - 1].workers[t].pc
        case Idle => []
        case Send(_, bytes) => Got(tr, ms, t, i - 1) + Part(bytes, m.c)
        case Forward(_, block, _) => Got(tr, ms, t, i - 1) + Part(block, m.c)
        case _ => Got(tr, ms, t, i - 1)
  }

  lemma OwnSent(s: Sys, s': Sys, t: nat, c: Choice)
    requires WorkerCanStep(s, t, c) && s' == WorkerStep(s, t, c)
    ensures t < |s'.workers|
    ensures s'.workers[t].sent == match s.workers[t].pc
      case Idle => []
      case Send(_, bytes) => s.workers[t].sent + Part(bytes, c)
      case Forward(_, block, _) => s.workers[t].sent + Part(block, c)
      case _ => s.workers[t].sent
  {
    if IsLookup(s.workers[t].pc) {
    } else if IsServe(s.workers[t].pc) {
    } else if IsCreate(s.workers[t].pc) {
    } else if IsFill(s.workers[t].pc) {
    } else {
    }
  }

  lemma {:induction false} SentIsGot(tr: seq<Sys>, ms: seq<Move>, n: nat, i: nat, t: nat)
    requires IsRun(tr, ms, n) && i < |tr| && t < n
    ensures |tr[i].workers| == n && tr[i].workers[t].sent == Got(tr, ms, t, i)
  {
    if i > 0 {
      SentIsGot(tr, ms, n, i - 1, t);
      if ms[i - 1].Work? && ms[i - 1].t == t {
        RunStep(tr, ms, n, i - 1);
        OwnSent(tr[i - 1], tr[i], t, ms[i - 1].c);
      } else {
        OthersStay(tr, ms, n, i - 1, t);
      }
    }
  }

  /**
    The client whose request had the entry created gets what comes from the origin as it
    comes: always a beginning of it, before the next block is received all of it, and when the
    entry has been completed the whole answer, with and without an announced length.
   */
  lemma FirstClientGetsAll(tr: seq<Sys>, ms: seq<Move>, n: nat, i: nat, t: nat, e: nat)
    requires IsRun(tr, ms, n) && i < |tr| && t < |tr[i].workers| && e < |tr[i].heap|
    requires var pc := tr[i].workers[t].pc; Creates(pc, e) || pc == ReleaseLast(e) || (pc.Settled? && pc.e == e)
    ensures Got(tr, ms, t, i) <= FromOrigin(tr, ms, e, i)
    ensures tr[i].workers[t].pc == Receive(e) || tr[i].heap[e].state == Complete ==>
      Got(tr, ms, t, i) == FromOrigin(tr, ms, e, i)
  {
    WorkerCount(tr, ms, n, i);
    SentIsGot(tr, ms, n, i, t);
    OriginIs(tr, ms, n, i, e);
    CreatorHas(tr, ms, n, i, t, e);
  }

  lemma CreatorHas(tr: seq<Sys>, ms: seq<Move>, n: nat, i: nat, t: nat, e: nat)
    requires IsRun(tr, ms, n) && i < |tr| && t < |tr[i].workers| && e < |tr[i].heap|
    requires var pc := tr[i].workers[t].pc; Creates(pc, e) || pc == ReleaseLast(e) || (pc.Settled? && pc.e == e)
    ensures tr[i].workers[t].sent <= tr[i].heap[e].origin
    ensures tr[i].workers[t].pc == Receive(e) || tr[i].heap[e].state == Complete ==>
      tr[i].workers[t].sent == tr[i].heap[e].origin
  {
    ReachableGood(tr, ms, n, i);
    assert RefOk(tr[i], t) && StreamOk(tr[i], tr[i].workers[t]);
  }

  // ----- the request -----

  /** The key that worker t was asked for last. */
  ghost function Asked(tr: seq<Sys>, ms: seq<Move>, t: nat, i: nat): Option<Key>
    requires i <= |ms| < |tr|
  {
    if i == 0 then None
    else if ms[i - 1].Work? && ms[i - 1].t == t && t < |tr[i - 1].workers| && tr[i - 1].workers[t].pc.Idle?
    then Some(ms[i - 1].c.key)
    else Asked(tr, ms, t, i - 1)
  }

  /** The worker is busy with the key. */
  ghost predicate BusyWith(s: Sys, pc: PC, key: Option<Key>) {
    match pc
    case Idle => true
    case Search(k) => key == Some(k)
    case Walk(k, _) => key == Some(k)
    case MissBucket(k) => key == Some(k)
    case Fetch(k) => key == Some(k)
    case _ => Ref(pc).Some? && key == Some(Entry(s, Ref(pc).value).key)
  }

  lemma LookupKey(s: Sys, s': Sys, t: nat, c: Choice, key: Option<Key>)
    requires RefOk(s, t) && IsLookup(s.workers[t].pc) && s' == LookupStep(s, t, c)
    requires BusyWith(s, s.workers[t].pc, key)
    ensures t < |s'.workers| && BusyWith(s', s'.workers[t].pc, if s.workers[t].pc.Idle? then Some(c.key) else key)
  {
  }

  lemma CreateKey(s: Sys, s': Sys, t: nat, c: Choice, key: Option<Key>)
    requires RefOk(s, t) && IsCreate(s.workers[t].pc) && s' == CreateStep(s, t, c)
    requires BusyWith(s, s.workers[t].pc, key)
    ensures t < |s'.workers| && BusyWith(s', s'.workers[t].pc, key)
  {
  }

  /** While it serves or fills an entry a worker stays with it. */
  lemma SameKey(s: Sys, s': Sys, t: nat, c: Choice, key: Option<Key>)
    requires RefOk(s, t) && Ref(s.workers[t].pc).Some? && Guarantee(s, s', t)
    requires s'.workers[t].pc.Idle? || Ref(s'.workers[t].pc) == Ref(s.workers[t].pc)
    requires BusyWith(s, s.workers[t].pc, key)
    ensures BusyWith(s', s'.workers[t].pc, key)
  {
    var e := Ref(s.workers[t].pc).value;
    assert RecKept(s.heap[e], s'.heap[e], Creates(s.workers[t].pc, e));
  }

  lemma StaysWith(s: Sys, s': Sys, t: nat, c: Choice)
    requires RefOk(s, t) && s' == WorkerStep(s, t, c)
    requires IsServe(s.workers[t].pc) || IsFill(s.workers[t].pc) || IsClose(s.workers[t].pc)
    ensures t < |s'.workers| && (s'.workers[t].pc.Idle? || Ref(s'.workers[t].pc) == Ref(s.workers[t].pc))
  {
  }

  lemma OwnKey(s: Sys, s': Sys, t: nat, c: Choice, key: Option<Key>)
    requires RefOk(s, t) && WorkerCanStep(s, t, c) && s' == WorkerStep(s, t, c) && BusyWith(s, s.workers[t].pc, key)
    requires Guarantee(s, s', t)
    ensures BusyWith(s', s'.workers[t].pc, if s.workers[t].pc.Idle? then Some(c.key) else key)
  {
    var pc := s.workers[t].pc;
    if IsLookup(pc) {
      LookupKey(s, s', t, c, key);
    } else if IsCreate(pc) {
      CreateKey(s, s', t, c, key);
    } else {
      StaysWith(s, s', t, c);
      SameKey(s, s', t, c, key);
    }
  }

  /** Every worker serves, and every creator fills, an entry of the URL that it was asked for. */
  lemma {:induction false} AnswersTheRequest(tr: seq<Sys>, ms: seq<Move>, n: nat, i: nat, t: nat)
    requires IsRun(tr, ms, n) && i < |tr| && t < n
    ensures |tr[i].workers| == n && BusyWith(tr[i], tr[i].workers[t].pc, Asked(tr, ms, t, i))
  {
    WorkerCount(tr, ms, n, i);
    if i > 0 {
      AnswersTheRequest(tr, ms, n, i - 1, t);
      if ms[i - 1].Work? && ms[i - 1].t == t {
        AnswersNext(tr, ms, n, i - 1, t, Asked(tr, ms, t, i - 1));
      } else {
        OthersKey(tr, ms, n, i - 1, t, Asked(tr, ms, t, i - 1));
      }
    }
  }

  lemma AnswersNext(tr: seq<Sys>, ms: seq<Move>, n: nat, i: nat, t: nat, key: Option<Key>)
    requires IsRun(tr, ms, n) && i < |ms| && t < n == |tr[i].workers| && ms[i].Work? && ms[i].t == t
    requires BusyWith(tr[i], tr[i].workers[t].pc, key)
    ensures |tr[i + 1].workers| == n
    ensures BusyWith(tr[i + 1], tr[i + 1].workers[t].pc, if tr[i].workers[t].pc.Idle? then Some(ms[i].c.key) else key)
  {
    RunStep(tr, ms, n, i);
    assert RefOk(tr[i], t);
    OwnKey(tr[i], tr[i + 1], t, ms[i].c, key);
  }

  lemma OthersKey(tr: seq<Sys>, ms: seq<Move>, n: nat, i: nat, t: nat, key: Option<Key>)
    requires IsRun(tr, ms, n) && i < |ms| && t < n == |tr[i].workers| && !(ms[i].Work? && ms[i].t == t)
    requires BusyWith(tr[i], tr[i].workers[t].pc, key)
    ensures |tr[i + 1].workers| == n && BusyWith(tr[i + 1], tr[i + 1].workers[t].pc, key)
  {
    OthersStay(tr, ms, n, i, t);
    RefersTo(tr, ms, n, i, t);
    if Ref(tr[i].workers[t].pc).Some? { RunGrows(tr, ms, n, i, Ref(tr[i].workers[t].pc).value); }
  }

  lemma RefersTo(tr: seq<Sys>, ms: seq<Move>, n: nat, i: nat, t: nat)
    requires IsRun(tr, ms, n) && i < |tr| && t < |tr[i].workers|
    ensures Ref(tr[i].workers[t].pc).Some? ==> Ref(tr[i].workers[t].pc).value < |tr[i].heap|
  {
    ReachableGood(tr, ms, n, i);
    assert RefOk(tr[i], t);
  }

  // ----- the clock -----

  /** The step uses entry e: a lookup finds it, or it is created. */
  ghost predicate Uses(s: Sys, m: Move, s': Sys, e: nat) {
    m.Work? && m.t < |s.workers| && m.t < |s'.workers| &&
    ((s.workers[m.t].pc.Walk? && s'.workers[m.t].pc.Touched? && s'.workers[m.t].pc.e == e) ||
     |s.heap| == e < |s'.heap|)
  }

  /** The time of the last use of entry e in the first i steps. */
  ghost function LastUse(tr: seq<Sys>, ms: seq<Move>, e: nat, i: nat): int
    requires i <= |ms| < |tr|
  {
    if i == 0 then 0
    else if Uses(tr[i - 1], ms[i - 1], tr[i], e) then ms[i - 1].c.now
    else LastUse(tr, ms, e, i - 1)
  }

  lemma UseStep(s: Sys, s': Sys, t: nat, c: Choice, e: nat)
    requires RefInv(s) && WorkerCanStep(s, t, c) && s' == WorkerStep(s, t, c) && e < |s'.heap|
    ensures s'.heap[e].lastAccess ==
      if Uses(s, Work(t, c), s', e) then c.now else if e < |s.heap| then s.heap[e].lastAccess else s'.heap[e].lastAccess
  {
    var pc := s.workers[t].pc;
    assert RefOk(s, t);
    if IsLookup(pc) {
    } else if IsServe(pc) {
    } else if IsCreate(pc) {
    } else if IsFill(pc) {
    } else {
    }
  }

  /** last_access_time, by which the LRU list is sorted, is the time of the last lookup or of the creation. */
  lemma {:induction false} AccessTimes(tr: seq<Sys>, ms: seq<Move>, n: nat, i: nat, e: nat)
    requires IsRun(tr, ms, n) && i < |tr| && e < |tr[i].heap|
    ensures tr[i].heap[e].lastAccess == LastUse(tr, ms, e, i)
  {
    RunStep(tr, ms, n, i - 1);
    if e < |tr[i - 1].heap| { AccessTimes(tr, ms, n, i - 1, e); }
    if ms[i - 1].Work? { UseStep(tr[i - 1], tr[i], ms[i - 1].t, ms[i - 1].c, e); }
  }
}
