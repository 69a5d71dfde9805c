/** How requests and entries end in a run of the proxy's cache, and for which reasons only. */
module ProxyCacheOutcomes {
  import opened Basics
  import opened UrlHash
  import opened Chunks
  import opened Sums
  import opened ProxyCache
  import opened ProxyCacheInv
  import opened ProxyCacheTheorems
  import opened ProxyCacheHistory

  // ----- readers -----

  /** Worker t has not moved since step j, which took it out of its sleep on entry e. */
  ghost predicate AwakeSince(tr: seq<Sys>, j: nat, i: nat, t: nat, e: nat) {
    j < i < |tr| && (forall k :: j <= k <= i ==> t < |tr[k].workers|) && tr[j].workers[t].pc == Sleep(e) &&
    forall k :: j < k <= i ==> tr[k].workers[t] == tr[i].workers[t]
  }

  lemma AwakeLonger(tr: seq<Sys>, j: nat, i: nat, t: nat, e: nat)
    requires i < |tr| && j < i - 1 && AwakeSince(tr, j, i - 1, t, e)
    requires t < |tr[i].workers| && tr[i].workers[t] == tr[i - 1].workers[t]
    ensures AwakeSince(tr, j, i, t, e)
  {
  }

  /** The wait of worker t ended at step j by its timeout. */
  ghost predicate TimedOut(tr: seq<Sys>, ms: seq<Move>, j: nat, i: nat, t: nat, e: nat) {
    AwakeSince(tr, j, i, t, e) && j < |ms| && ms[j].Work? && ms[j].t == t && !ms[j].c.ok
  }

  lemma OwnAwakening(s: Sys, s': Sys, t: nat, c: Choice, e: nat, timedOut: bool)
    requires WorkerCanStep(s, t, c) && s' == WorkerStep(s, t, c) && t < |s'.workers|
    requires s'.workers[t].pc == Woken(e, timedOut)
    ensures s.workers[t].pc == Sleep(e) && timedOut == !c.ok
  {
  }

  /** Nobody but who is about to broadcast about the entry wakes a sleeper. */
  lemma WakerSignals(s: Sys, s': Sys, u: nat, c: Choice, t: nat)
    requires WorkerCanStep(s, u, c) && s' == WorkerStep(s, u, c) && t < |s.workers| == |s'.workers| && t != u
    requires s.workers[t].pc.Sleep? && s'.workers[t] != s.workers[t]
    ensures Signals(s.workers[u].pc, s.workers[t].pc.e)
  {
    if IsLookup(s.workers[u].pc) {
    } else if IsServe(s.workers[u].pc) {
    } else if IsCreate(s.workers[u].pc) {
    } else if IsFill(s.workers[u].pc) {
    } else {
    }
  }

  /** Why a reader is awake: its timeout, a spurious wakeup, or a broadcast about its entry. */
  lemma {:induction false} WokenBy(tr: seq<Sys>, ms: seq<Move>, n: nat, i: nat, t: nat, e: nat, timedOut: bool)
    returns (j: nat)
    requires IsRun(tr, ms, n) && i < |tr| && t < |tr[i].workers| && tr[i].workers[t].pc == Woken(e, timedOut)
    ensures AwakeSince(tr, j, i, t, e) && ms[j].Work?
    ensures timedOut <==> ms[j].t == t && !ms[j].c.ok
    ensures ms[j].t != t ==> ms[j].t < |tr[j].workers| && Signals(tr[j].workers[ms[j].t].pc, e)
  {
    WorkerCount(tr, ms, n, i);
    assert i > 0;
    WorkerCount(tr, ms, n, i - 1);
    if tr[i - 1].workers[t] == tr[i].workers[t] {
      j := WokenBy(tr, ms, n, i - 1, t, e, timedOut);
      AwakeLonger(tr, j, i, t, e);
    } else {
      j := i - 1;
      Awakening(tr, ms, n, j, t, e, timedOut);
    }
  }

  lemma Awakening(tr: seq<Sys>, ms: seq<Move>, n: nat, j: nat, t: nat, e: nat, timedOut: bool)
    requires IsRun(tr, ms, n) && j < |ms| && t < |tr[j].workers| && t < |tr[j + 1].workers|
    requires tr[j + 1].workers[t].pc == Woken(e, timedOut) && tr[j].workers[t] != tr[j + 1].workers[t]
    ensures tr[j].workers[t].pc == Sleep(e) && ms[j].Work?
    ensures timedOut <==> ms[j].t == t && !ms[j].c.ok
    ensures ms[j].t != t ==> ms[j].t < |tr[j].workers| && Signals(tr[j].workers[ms[j].t].pc, e)
  {
    RunStep(tr, ms, n, j);
    if ms[j].Work? && ms[j].t == t {
      OwnAwakening(tr[j], tr[j + 1], t, ms[j].c, e, timedOut);
    } else {
      OthersStay(tr, ms, n, j, t);
      WakerSignals(tr[j], tr[j + 1], ms[j].t, ms[j].c, t);
    }
  }

  lemma OwnGivingUp(s: Sys, s': Sys, t: nat, c: Choice, e: nat)
    requires WorkerCanStep(s, t, c) && s' == WorkerStep(s, t, c) && t < |s'.workers|
    requires s'.workers[t].pc == HitDone(e, false)
    ensures (s.workers[t].pc.Send? && !c.ok) || Entry(s, e).state == Cancelled || s.workers[t].pc == Woken(e, true)
  {
  }

  /**
    handle_cached_request returns -1 for three reasons only: the entry has been cancelled, the
    wait for data has timed out, or sending to the client has failed.
   */
  lemma GivesUp(tr: seq<Sys>, ms: seq<Move>, n: nat, i: nat, t: nat, e: nat)
    requires IsRun(tr, ms, n) && i < |ms| && t < |tr[i].workers| && t < |tr[i + 1].workers|
    requires tr[i + 1].workers[t].pc == HitDone(e, false) && tr[i].workers[t].pc != HitDone(e, false)
    ensures e < |tr[i].heap|
    ensures tr[i].heap[e].state == Cancelled ||
      (tr[i].workers[t].pc.Send? && tr[i].workers[t].pc.e == e && ms[i].Work? && ms[i].t == t && !ms[i].c.ok) ||
      exists j :: TimedOut(tr, ms, j, i, t, e)
  {
    RunStep(tr, ms, n, i);
    if !(ms[i].Work? && ms[i].t == t) {
      OthersStay(tr, ms, n, i, t);
      assert false;
    }
    assert RefOk(tr[i], t) && RefOk(tr[i + 1], t);
    OwnGivingUp(tr[i], tr[i + 1], t, ms[i].c, e);
    SameEntry(tr[i], tr[i + 1], t, ms[i].c, e);
    if tr[i].workers[t].pc == Woken(e, true) {
      var j := WokenBy(tr, ms, n, i, t, e, true);
      assert TimedOut(tr, ms, j, i, t, e);
    }
  }

  lemma SameEntry(s: Sys, s': Sys, t: nat, c: Choice, e: nat)
    requires WorkerCanStep(s, t, c) && s' == WorkerStep(s, t, c) && t < |s'.workers| && RefOk(s, t)
    requires s'.workers[t].pc == HitDone(e, false)
    ensures Ref(s.workers[t].pc) == Some(e)
  {
  }

  /**
    A woken reader locks the entry again and looks at it once more, unless its wait timed out
    or the entry has been cancelled: then handle_cached_request returns -1.
   */
  lemma WokenGoesOn(tr: seq<Sys>, ms: seq<Move>, n: nat, i: nat, t: nat, e: nat, timedOut: bool)
    requires IsRun(tr, ms, n) && i < |ms| && ms[i].Work? && ms[i].t == t && t < |tr[i].workers|
    requires tr[i].workers[t].pc == Woken(e, timedOut)
    ensures e < |tr[i].heap| && t < |tr[i + 1].workers|
    ensures tr[i + 1].workers[t].pc == Deciding(e) <==> !timedOut && tr[i].heap[e].state != Cancelled
    ensures tr[i + 1].workers[t].pc == HitDone(e, false) <==> timedOut || tr[i].heap[e].state == Cancelled
  {
    RunStep(tr, ms, n, i);
    assert RefOk(tr[i], t);
  }

  /** What a reader at the loop condition goes on to do is decided by the entry's data and state. */
  lemma LooksAgain(tr: seq<Sys>, ms: seq<Move>, n: nat, i: nat, t: nat, e: nat)
    requires IsRun(tr, ms, n) && i < |ms| && ms[i].Work? && ms[i].t == t && t < |tr[i].workers|
    requires tr[i].workers[t].pc == Deciding(e)
    ensures e < |tr[i].heap| && t < |tr[i + 1].workers|
    ensures var w, r, pc' := tr[i].workers[t], tr[i].heap[e], tr[i + 1].workers[t].pc;
      (pc' == Waiting(e) <==> w.sent == r.data && r.state == Incomplete) &&
      (pc' == HitDone(e, true) <==> w.sent == r.data && r.state == Complete) &&
      (pc' == HitDone(e, false) <==> r.state == Cancelled) &&
      (pc'.Send? <==> w.sent < r.data && w.sent != r.data && r.state != Cancelled)
  {
    RunStep(tr, ms, n, i);
    assert RefOk(tr[i], t) && StreamOk(tr[i], tr[i].workers[t]);
    ReadLife(tr[i], tr[i + 1], t, e);
  }

  /**
    A request is over only when the client has been served from the cache, or the origin could
    not be asked, or the entry made for it has been completed or cancelled.
   */
  lemma RequestEnds(tr: seq<Sys>, ms: seq<Move>, n: nat, i: nat, t: nat)
    requires IsRun(tr, ms, n) && i < |ms| && t < |tr[i].workers| && t < |tr[i + 1].workers|
    requires tr[i + 1].workers[t].pc.Idle? && !tr[i].workers[t].pc.Idle?
    ensures ms[i].Work? && ms[i].t == t
    ensures var pc := tr[i].workers[t].pc;
      pc.HitDone? || (pc.Fetch? && !(ms[i].c.ok && ms[i].c.received.Block?)) ||
      ((pc.Settled? || pc.ReleaseLast?) && pc.e < |tr[i].heap| && tr[i].heap[pc.e].state != Incomplete)
  {
    RunStep(tr, ms, n, i);
    if !(ms[i].Work? && ms[i].t == t) {
      OthersStay(tr, ms, n, i, t);
      assert false;
    }
    assert RefOk(tr[i], t) && StreamOk(tr[i], tr[i].workers[t]);
    RequestStep(tr[i], tr[i + 1], t, ms[i].c);
  }

  lemma RequestStep(s: Sys, s': Sys, t: nat, c: Choice)
    requires WorkerCanStep(s, t, c) && s' == WorkerStep(s, t, c) && t < |s'.workers| && s'.workers[t].pc.Idle?
    ensures var pc := s.workers[t].pc;
      pc.HitDone? || (pc.Fetch? && !(c.ok && c.received.Block?)) || pc.Settled? || pc.ReleaseLast?
  {
  }

  // ----- locks -----

  /** A thread waits for mutexes only, and only while somebody else holds the one it wants. */
  lemma WaitsForMutexes(s: Sys, t: nat, c: Choice)
    requires t < |s.workers| && Offered(s, c)
    ensures WorkerCanStep(s, t, c) <==>
      match s.workers[t].pc
      case Idle => forall u :: 0 <= u < |s.workers| ==> !HoldsSearch(s.workers[u].pc)
      case Search(key) => NobodyIn(s, key.bucket)
      case Link(e) => NobodyIn(s, Entry(s, e).key.bucket)
      case Walk(key, i) =>
        (i < |Chain(s, key.bucket)| && Entry(s, Chain(s, key.bucket)[i]).key == key ==>
          NobodyAt(s, Chain(s, key.bucket)[i]))
      case Serve(e) => NobodyAt(s, e)
      case Woken(e, _) => NobodyAt(s, e)
      case HitDone(e, _) => NobodyAt(s, e)
      case Append(e, _, _) => NobodyAt(s, e)
      case ReleaseFirst(e) => NobodyAt(s, e)
      case CancelLast(e) => NobodyAt(s, e)
      case CancelFirst(e) => NobodyAt(s, e)
      case CompleteFirst(e) => NobodyAt(s, e)
      case ReleaseLast(e) => NobodyAt(s, e)
      case _ => true
    ensures CollectorCanStep(s) <==>
      match s.collector
      case Between(b) => forall u :: 0 <= u < |s.workers| ==> HoldsBucket(s.workers[u].pc) != Some(b)
      case Visit(b, i) =>
        (i < |Chain(s, b)| ==>
          forall u :: 0 <= u < |s.workers| ==> HoldsEntry(s.workers[u].pc) != Some(Chain(s, b)[i]))
      case _ => true
  {
  }

  /** Nobody, the collector included, is inside the bucket. */
  ghost predicate NobodyIn(s: Sys, b: nat) {
    (s.collector.Between? || s.collector.b != b) &&
    forall u :: 0 <= u < |s.workers| ==> HoldsBucket(s.workers[u].pc) != Some(b)
  }

  /** Nobody, the collector included, holds the entry's lock. */
  ghost predicate NobodyAt(s: Sys, e: nat) {
    !(s.collector.Unlinked? && s.collector.e == e) &&
    forall u :: 0 <= u < |s.workers| ==> HoldsEntry(s.workers[u].pc) != Some(e)
  }

  /** The fields of an entry that its mutex protects. */
  ghost predicate Unchanged(r: Rec, r': Rec) {
    r'.refcount == r.refcount && r'.state == r.state && r'.data == r.data && r'.lastAccess == r.lastAccess
  }

  lemma WorkerChanges(s: Sys, s': Sys, t: nat, c: Choice, e: nat)
    requires WorkerCanStep(s, t, c) && s' == WorkerStep(s, t, c) && RefOk(s, t) && e < |s.heap|
    ensures e < |s'.heap| && (Unchanged(s.heap[e], s'.heap[e]) || NobodyAt(s, e))
  {
    if IsLookup(s.workers[t].pc) {
    } else if IsServe(s.workers[t].pc) {
    } else if IsCreate(s.workers[t].pc) {
    } else if IsFill(s.workers[t].pc) {
    } else {
    }
  }

  /** No entry changes while somebody else holds its mutex. */
  lemma ChangesAlone(tr: seq<Sys>, ms: seq<Move>, n: nat, i: nat, e: nat)
    requires IsRun(tr, ms, n) && i < |ms| && e < |tr[i].heap|
    ensures e < |tr[i + 1].heap| && (Unchanged(tr[i].heap[e], tr[i + 1].heap[e]) || NobodyAt(tr[i], e))
  {
    RunStep(tr, ms, n, i);
    if ms[i].Work? {
      assert RefOk(tr[i], ms[i].t);
      WorkerChanges(tr[i], tr[i + 1], ms[i].t, ms[i].c, e);
    }
  }

  // ----- entries -----

  /** What has happened to the worker that fills an entry, as far as its answer is concerned. */
  datatype Past = Past(clientLost: bool, closed: bool, failed: bool)

  const NOTHING: Past := Past(false, false, false)

  /** The step is one of the creator of entry e: its client is lost, or the origin closes or fails. */
  ghost function With(p: Past, s: Sys, m: Move, e: nat): Past {
    if !m.Work? || m.t >= |s.workers| then p
    else
      var pc := s.workers[m.t].pc;
      if pc.Forward? && pc.e == e && !m.c.ok then p.(clientLost := true)
      else if pc == Receive(e) && m.c.received.Closed? then p.(closed := true)
      else if pc == Receive(e) && m.c.received.Failed? then p.(failed := true)
      else p
  }

  /** What happened in the first i steps. */
  ghost function PastOf(tr: seq<Sys>, ms: seq<Move>, e: nat, i: nat): Past
    requires i <= |ms| < |tr|
  {
    if i == 0 then NOTHING else With(PastOf(tr, ms, e, i - 1), tr[i - 1], ms[i - 1], e)
  }

  /** The answer has ended as it should: at its announced length or else by the origin's closing. */
  ghost predicate Ended(r: Rec, p: Past) {
    !p.clientLost && !p.failed && if r.need.Some? then !p.closed && |r.origin| >= r.need.value else p.closed
  }

  /** The answer cannot be completed: no client to send it to, a failure, or an end before the announced length. */
  ghost predicate Lost(r: Rec, p: Past) {
    p.clientLost || p.failed || (r.need.Some? && p.closed)
  }

  ghost predicate CreatorFate(pc: PC, r: Rec, p: Past) {
    if pc.CompleteFirst? then Ended(r, p)
    else if pc.ReleaseFirst? || pc.CancelLast? || pc.CancelFirst? then Lost(r, p)
    else p == NOTHING
  }

  ghost predicate CreatorsFate(s: Sys, e: nat, p: Past)
    requires e < |s.heap|
  {
    forall t :: 0 <= t < |s.workers| && Creates(s.workers[t].pc, e) ==> CreatorFate(s.workers[t].pc, s.heap[e], p)
  }

  ghost predicate Fate(s: Sys, e: nat, p: Past) {
    if e >= |s.heap| then p == NOTHING
    else
      CreatorsFate(s, e, p) && (s.heap[e].state == Complete ==> Ended(s.heap[e], p)) &&
      (s.heap[e].state == Cancelled ==> Lost(s.heap[e], p))
  }

  lemma OwnFate(s: Sys, s': Sys, t: nat, c: Choice, e: nat, p: Past)
    requires RefInv(s) && WorkerCanStep(s, t, c) && s' == WorkerStep(s, t, c) && e < |s.heap|
    requires Creates(s.workers[t].pc, e) && CreatorFate(s.workers[t].pc, s.heap[e], p)
    ensures e < |s'.heap| && t < |s'.workers|
    ensures var p', r, pc' := With(p, s, Work(t, c), e), s'.heap[e], s'.workers[t].pc;
      (Creates(pc', e) ==> CreatorFate(pc', r, p')) && (r.state == Complete ==> Ended(r, p')) &&
      (r.state == Cancelled ==> Lost(r, p'))
  {
    assert RefOk(s, t);
    if IsCreate(s.workers[t].pc) {
    } else if IsFill(s.workers[t].pc) {
    } else {
    }
  }

  lemma NotMine(s: Sys, s': Sys, t: nat, c: Choice, e: nat, p: Past)
    requires RefInv(s) && WorkerCanStep(s, t, c) && s' == WorkerStep(s, t, c) && e < |s.heap|
    requires !Creates(s.workers[t].pc, e)
    ensures t < |s'.workers| && !Creates(s'.workers[t].pc, e) && With(p, s, Work(t, c), e) == p
  {
    NoNewCreator(s, s', t, c, e);
  }

  lemma NoNewCreator(s: Sys, s': Sys, t: nat, c: Choice, e: nat)
    requires RefOk(s, t) && s' == WorkerStep(s, t, c) && e < |s.heap| && !Creates(s.workers[t].pc, e)
    ensures t < |s'.workers| && !Creates(s'.workers[t].pc, e)
  {
    if IsLookup(s.workers[t].pc) {
    } else if IsServe(s.workers[t].pc) {
    } else if IsCreate(s.workers[t].pc) {
    } else if IsFill(s.workers[t].pc) {
    } else {
    }
  }

  lemma WorkFate(s: Sys, s': Sys, t: nat, c: Choice, e: nat, p: Past)
    requires RefInv(s) && RefInv(s') && Guarantee(s, s', t) && e < |s.heap| && Fate(s, e, p)
    requires WorkerCanStep(s, t, c) && s' == WorkerStep(s, t, c)
    ensures Fate(s', e, With(p, s, Work(t, c), e))
  {
    var p' := With(p, s, Work(t, c), e);
    assert RecKept(s.heap[e], s'.heap[e], Creates(s.workers[t].pc, e));
    if Creates(s.workers[t].pc, e) { OwnFate(s, s', t, c, e, p); } else { NotMine(s, s', t, c, e, p); }
    forall u | 0 <= u < |s'.workers| && Creates(s'.workers[u].pc, e)
      ensures CreatorFate(s'.workers[u].pc, s'.heap[e], p')
    {
      if u != t {
        assert OtherKept(s, s', u) && OneCreator(s, t, u);
      }
    }
  }

  lemma NewFate(s: Sys, s': Sys, t: nat, c: Choice, e: nat)
    requires RefInv(s) && RefInv(s') && WorkerCanStep(s, t, c) && s' == WorkerStep(s, t, c) && e >= |s.heap|
    requires Guarantee(s, s', t)
    ensures With(NOTHING, s, Work(t, c), e) == NOTHING && Fate(s', e, NOTHING)
  {
    assert RefOk(s, t);
    if e < |s'.heap| {
      CreationStep(s, s', t, c);
      forall u | 0 <= u < |s'.workers| && u != t ensures !Creates(s'.workers[u].pc, e) {
        assert RefOk(s, u) && OtherKept(s, s', u);
      }
    }
  }

  lemma FreedFate(s: Sys, s': Sys, e: nat, p: Past)
    requires OnlyFreed(s, s') && Fate(s, e, p)
    ensures Fate(s', e, p)
  {
  }

  lemma {:induction false} FateHolds(tr: seq<Sys>, ms: seq<Move>, n: nat, i: nat, e: nat)
    requires IsRun(tr, ms, n) && i < |tr|
    ensures Fate(tr[i], e, PastOf(tr, ms, e, i))
  {
    if i > 0 {
      FateHolds(tr, ms, n, i - 1, e);
      RunStep(tr, ms, n, i - 1);
      var s, s', p := tr[i - 1], tr[i], PastOf(tr, ms, e, i - 1);
      if ms[i - 1].Collect? {
        FreedFate(s, s', e, p);
      } else if e < |s.heap| {
        WorkFate(s, s', ms[i - 1].t, ms[i - 1].c, e, p);
      } else {
        NewFate(s, s', ms[i - 1].t, ms[i - 1].c, e);
      }
    }
  }

  /**
    Whoever fills an entry holds a reference to it, but for the moment between release and
    cancel where the code releases first. It does so only when a length was announced or when
    the first block could not be sent on.
   */
  lemma IncompleteIsHeld(tr: seq<Sys>, ms: seq<Move>, n: nat, i: nat, e: nat)
    requires IsRun(tr, ms, n) && i < |tr| && e < |tr[i].heap| && tr[i].heap[e].state == Incomplete
    ensures tr[i].heap[e].refcount >= 1 ||
      (exists t :: 0 <= t < |tr[i].workers| && tr[i].workers[t].pc == CancelLast(e) &&
        (tr[i].heap[e].need.Some? || BlocksFrom(tr, ms, e, i) == 1))
  {
    var s := tr[i];
    var t := StillFilled(tr, ms, n, i, e);
    ReachableGood(tr, ms, n, i);
    OriginIs(tr, ms, n, i, e);
    assert CountOk(s, e) && StreamOk(s, s.workers[t]);
    SumAtLeast(s.workers, t, Owing(e));
  }

  /**
    How an entry ends. Of a settled entry: it is complete exactly when all announced bytes came,
    or, with no length announced, when the origin closed the connection; it is cancelled exactly
    when the creator's client was lost, receiving failed, or the origin closed too early.
   */
  lemma SettledExactly(tr: seq<Sys>, ms: seq<Move>, n: nat, i: nat, e: nat)
    requires IsRun(tr, ms, n) && i < |tr| && e < |tr[i].heap| && tr[i].heap[e].state != Incomplete
    ensures var r, p := tr[i].heap[e], PastOf(tr, ms, e, i);
      (r.state == Complete <==>
        !p.clientLost && !p.failed &&
        if r.need.Some? then !p.closed && |FromOrigin(tr, ms, e, i)| >= r.need.value else p.closed) &&
      (r.state == Cancelled <==> p.clientLost || p.failed || (r.need.Some? && p.closed))
  {
    FateHolds(tr, ms, n, i, e);
    OriginIs(tr, ms, n, i, e);
  }
}
