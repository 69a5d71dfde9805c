/** Entry lifetime and streaming: what every step of every worker and of the collector keeps. */
module ProxyCacheInv {
  import opened Basics
  import opened UrlHash
  import opened Chunks
  import opened Sums
  import opened ProxyCache

  // ----- who refers to what -----

  /** The entry that the program point holds a pointer to. */
  function Ref(pc: PC): Option<nat> {
    match pc
    case Idle | Search(_) | Walk(_, _) | MissBucket(_) | Fetch(_) => None
    case Touched(_, e) => Some(e)
    case HitBucket(_, e) => Some(e)
    case HitSearch(e) => Some(e)
    case Serve(e) => Some(e)
    case Deciding(e) => Some(e)
    case Waiting(e) => Some(e)
    case Sleep(e) => Some(e)
    case Woken(e, _) => Some(e)
    case Send(e, _) => Some(e)
    case HitDone(e, _) => Some(e)
    case Link(e) => Some(e)
    case LinkLru(e) => Some(e)
    case MissSearch(e) => Some(e)
    case Append(e, _, _) => Some(e)
    case Appended(e, _, _) => Some(e)
    case Forward(e, _, _) => Some(e)
    case Receive(e) => Some(e)
    case ReleaseFirst(e) => Some(e)
    case CancelLast(e) => Some(e)
    case CancelFirst(e) => Some(e)
    case CompleteFirst(e) => Some(e)
    case ReleaseLast(e) => Some(e)
    case Settled(e, _) => Some(e)
  }

  /** The worker created the entry and has neither completed nor cancelled it. */
  predicate Creating(pc: PC) {
    pc.Link? || pc.LinkLru? || pc.MissSearch? || pc.Append? || pc.Appended? || pc.Forward? ||
    pc.Receive? || pc.ReleaseFirst? || pc.CancelLast? || pc.CancelFirst? || pc.CompleteFirst?
  }

  predicate Creates(pc: PC, e: nat) {
    Creating(pc) && Ref(pc) == Some(e)
  }

  /** The entry of which the program point still owes a release. */
  function Debt(pc: PC): Option<nat> {
    if pc.CancelLast? || (pc.Settled? && pc.last) then None else Ref(pc)
  }

  ghost function Owing(e: nat): Worker -> nat {
    (w: Worker) => if Debt(w.pc) == Some(e) then 1 else 0
  }

  /** Entry e has been changed and the broadcast about it is the thread's next step. */
  predicate Signals(pc: PC, e: nat) {
    (pc.Appended? || pc.Settled?) && pc.e == e
  }

  // ----- what one worker's step may do to the others -----

  ghost predicate RecKept(r: Rec, r': Rec, mine: bool) {
    r'.key == r.key && r'.need == r.need && r'.freed == r.freed && r.data <= r'.data &&
    (r.state != Incomplete ==> r'.state == r.state) &&
    (!mine ==> r'.state == r.state && r'.data == r.data && r'.origin == r.origin && r'.blocks == r.blocks)
  }

  ghost predicate OtherKept(s: Sys, s': Sys, u: nat)
    requires u < |s.workers| && u < |s'.workers|
  {
    var w, w' := s.workers[u], s'.workers[u];
    (w' == w && (w.pc.Waiting? ==>
      Entry(s', w.pc.e).data == Entry(s, w.pc.e).data && Entry(s', w.pc.e).state == Entry(s, w.pc.e).state)) ||
    (w.pc.Sleep? && w' == w.(pc := Woken(w.pc.e, false)))
  }

  /**
    Only the creator of an entry changes its contents and state, and not while another worker
    stands between its look at the entry and its wait.
   */
  ghost predicate Guarantee(s: Sys, s': Sys, t: nat) {
    t < |s.workers| && |s'.workers| == |s.workers| && |s.heap| <= |s'.heap| <= |s.heap| + 1 &&
    (forall u :: 0 <= u < |s.workers| && u != t ==> OtherKept(s, s', u)) &&
    (forall e :: 0 <= e < |s.heap| ==> RecKept(s.heap[e], s'.heap[e], Creates(s.workers[t].pc, e)))
  }

  // ----- references -----

  ghost predicate RefOk(s: Sys, t: nat) {
    t < |s.workers| &&
    (Ref(s.workers[t].pc).Some? ==>
      var e := Ref(s.workers[t].pc).value;
      e < |s.heap| && !s.heap[e].freed && (Creating(s.workers[t].pc) ==> s.heap[e].state == Incomplete))
  }

  ghost predicate OneCreator(s: Sys, t: nat, u: nat)
    requires t < |s.workers| && u < |s.workers|
  {
    Creating(s.workers[t].pc) && Creating(s.workers[u].pc) ==> Ref(s.workers[t].pc) != Ref(s.workers[u].pc)
  }

  ghost predicate RefInv(s: Sys) {
    (forall t :: 0 <= t < |s.workers| ==> RefOk(s, t)) &&
    forall t, u :: 0 <= t < |s.workers| && 0 <= u < |s.workers| && t != u ==> OneCreator(s, t, u)
  }

  /** refcount is the number of workers that still owe a release. */
  ghost predicate CountOk(s: Sys, e: nat) {
    e < |s.heap| && s.heap[e].refcount == Sum(s.workers, Owing(e))
  }

  ghost predicate CountInv(s: Sys) {
    forall e :: 0 <= e < |s.heap| ==> CountOk(s, e)
  }

  lemma {:induction false} SumSame(ws: seq<Worker>, ws': seq<Worker>, e: nat)
    requires |ws| == |ws'| && forall u :: 0 <= u < |ws| ==> Owing(e)(ws[u]) == Owing(e)(ws'[u])
    ensures Sum(ws, Owing(e)) == Sum(ws', Owing(e))
  {
    if ws != [] { SumSame(ws[..|ws| - 1], ws'[..|ws| - 1], e); }
  }

  /** What worker t's step changes in the count of entry e is what it changes in its own debt. */
  ghost predicate Balanced(s: Sys, s': Sys, t: nat, e: nat)
    requires t < |s.workers| && t < |s'.workers| && e < |s'.heap|
  {
    s'.heap[e].refcount + Owing(e)(s.workers[t]) ==
    (if e < |s.heap| then s.heap[e].refcount else 0) + Owing(e)(s'.workers[t])
  }

  lemma CountsKept(s: Sys, s': Sys, t: nat)
    requires RefInv(s) && CountInv(s) && Guarantee(s, s', t)
    requires forall e :: 0 <= e < |s'.heap| ==> Balanced(s, s', t, e)
    ensures CountInv(s')
  {
    forall e | 0 <= e < |s'.heap| ensures CountOk(s', e) {
      var mid := s.workers[t := s'.workers[t]];
      SumUpdate(s.workers, t, s'.workers[t], Owing(e));
      forall u | 0 <= u < |mid| ensures Owing(e)(mid[u]) == Owing(e)(s'.workers[u]) {
        if u != t { assert OtherKept(s, s', u); }
      }
      SumSame(mid, s'.workers, e);
      assert Balanced(s, s', t, e);
      if e < |s.heap| {
        assert CountOk(s, e);
      } else {
        forall u | 0 <= u < |s.workers| ensures Owing(e)(s.workers[u]) == 0 {
          assert RefOk(s, u);
        }
        SumZero(s.workers, Owing(e));
      }
    }
  }

  lemma RefsKept(s: Sys, s': Sys, t: nat)
    requires RefInv(s) && Guarantee(s, s', t) && RefOk(s', t)
    requires Creating(s'.workers[t].pc) ==>
      Creates(s.workers[t].pc, Ref(s'.workers[t].pc).value) || Ref(s'.workers[t].pc).value >= |s.heap|
    ensures RefInv(s')
  {
    forall u | 0 <= u < |s.workers| ensures RefOk(s', u) {
      if u != t {
        assert RefOk(s, u) && OtherKept(s, s', u) && OneCreator(s, t, u);
      }
    }
    forall a, b | 0 <= a < |s.workers| && 0 <= b < |s.workers| && a != b ensures OneCreator(s', a, b) {
      assert OneCreator(s, a, b) && RefOk(s, a) && RefOk(s, b);
      if a != t { assert OtherKept(s, s', a); }
      if b != t { assert OtherKept(s, s', b); }
    }
  }

  // ----- streaming -----

  /** What the worker's program point says about the bytes of its entry and of its client. */
  ghost predicate StreamOk(s: Sys, w: Worker) {
    var r := Entry(s, if Ref(w.pc).Some? then Ref(w.pc).value else 0);
    match w.pc
    case Search(_) | Walk(_, _) | Touched(_, _) | HitBucket(_, _) | HitSearch(_) => w.offset == 0 && w.sent == []
    case MissBucket(_) | Fetch(_) => w.sent == []
    case Serve(_) | Deciding(_) | Sleep(_) | Woken(_, _) => w.offset <= |r.data| && w.sent == r.data[..w.offset]
    case Waiting(_) => w.offset == |r.data| && w.sent == r.data && r.state == Incomplete
    case Send(_, bytes) =>
      w.offset + |bytes| <= |r.data| && w.sent == r.data[..w.offset] &&
      bytes == r.data[w.offset..w.offset + |bytes|]
    case HitDone(_, ok) => w.sent <= r.data && (ok ==> r.state == Complete && w.sent == r.data)
    case Link(_) | LinkLru(_) | MissSearch(_) => r.data == [] && r.blocks == 1 && w.sent == []
    case Append(_, block, first) =>
      r.origin == w.sent + block && w.sent == r.data && r.blocks >= 1 && (first || r.need.None? ==> r.blocks == 1)
    case Appended(_, block, first) => Whole(r) && r.origin == w.sent + block && (first ==> r.blocks == 1)
    case Forward(_, block, first) => Whole(r) && r.origin == w.sent + block && (first ==> r.blocks == 1)
    case Receive(_) => Whole(r) && w.sent == r.origin && (r.need.Some? ==> |r.origin| < r.need.value)
    case CompleteFirst(_) => Whole(r) && w.sent == r.origin && (r.need.Some? ==> |r.data| >= r.need.value)
    case ReleaseFirst(_) | CancelLast(_) => w.sent <= r.origin && (r.need.Some? || r.blocks == 1)
    case CancelFirst(_) => w.sent <= r.origin && r.need.None?
    case Settled(_, _) | ReleaseLast(_) =>
      w.sent <= r.origin && r.state != Incomplete && (r.state == Complete ==> w.sent == r.origin)
    case _ => true
  }

  /** The entry has all that came from the origin, or just what came before later blocks of unknown total length. */
  ghost predicate Whole(r: Rec) {
    r.blocks >= 1 && if r.need.Some? || r.blocks == 1 then r.data == r.origin else |r.data| < |r.origin|
  }

  ghost predicate DoneOk(r: Rec) {
    (r.state == Complete ==> Whole(r) && (r.need.Some? ==> |r.data| >= r.need.value)) &&
    (r.freed ==> r.state == Cancelled) && r.key.bucket < MAX_BUCKETS
  }

  ghost predicate StreamInv(s: Sys) {
    (forall t :: 0 <= t < |s.workers| ==> StreamOk(s, s.workers[t])) &&
    forall e :: 0 <= e < |s.heap| ==> DoneOk(s.heap[e])
  }

  lemma StreamKept(s: Sys, s': Sys, t: nat, u: nat)
    requires RefInv(s) && Guarantee(s, s', t) && u < |s.workers| && u != t && StreamOk(s, s.workers[u])
    ensures StreamOk(s', s'.workers[u])
  {
    assert RefOk(s, t) && RefOk(s, u) && OtherKept(s, s', u) && OneCreator(s, t, u);
    if Ref(s.workers[u].pc).Some? {
      var e := Ref(s.workers[u].pc).value;
      assert RecKept(s.heap[e], s'.heap[e], Creates(s.workers[t].pc, e));
    }
  }

  lemma StreamsKept(s: Sys, s': Sys, t: nat)
    requires RefInv(s) && StreamInv(s) && Guarantee(s, s', t) && StreamOk(s', s'.workers[t])
    requires forall e :: 0 <= e < |s'.heap| ==> DoneOk(s'.heap[e])
    ensures StreamInv(s')
  {
    forall u | 0 <= u < |s.workers| ensures StreamOk(s', s'.workers[u]) {
      if u != t { StreamKept(s, s', t, u); }
    }
  }

  // ----- the chains -----

  ghost predicate ChainOk(s: Sys, b: nat) {
    b < |s.chains| &&
    Distinct(s.chains[b]) &&
    forall i :: 0 <= i < |s.chains[b]| ==>
      s.chains[b][i] < |s.heap| && s.heap[s.chains[b][i]].key.bucket == b && !s.heap[s.chains[b][i]].freed
  }

  ghost predicate ChainsInv(s: Sys) {
    |s.chains| == MAX_BUCKETS && forall b :: 0 <= b < MAX_BUCKETS ==> ChainOk(s, b)
  }

  // ----- sleeping and waking -----

  ghost predicate Signalled(s: Sys, e: nat) {
    exists u :: 0 <= u < |s.workers| && Signals(s.workers[u].pc, e)
  }

  /** There is nothing more to read yet. */
  ghost predicate Drained(s: Sys, w: Worker, e: nat) {
    e < |s.heap| && s.heap[e].state == Incomplete && w.offset == |s.heap[e].data|
  }

  ghost predicate AwakeAt(s: Sys, t: nat)
    requires t < |s.workers|
  {
    s.workers[t].pc.Sleep? ==> Drained(s, s.workers[t], s.workers[t].pc.e) || Signalled(s, s.workers[t].pc.e)
  }

  /** Whoever sleeps has nothing to read, or the broadcast about it is pending. */
  ghost predicate AwakeInv(s: Sys) {
    forall t :: 0 <= t < |s.workers| ==> AwakeAt(s, t)
  }

  /** A change of an entry is followed by a broadcast, and a broadcast wakes every sleeper of its entry. */
  ghost predicate SignalPart(s: Sys, s': Sys, t: nat)
    requires t < |s.workers| && |s'.workers| == |s.workers| && |s.heap| <= |s'.heap|
  {
    (forall e :: 0 <= e < |s.heap| ==>
      (s'.heap[e].data == s.heap[e].data && s'.heap[e].state == s.heap[e].state) || Signals(s'.workers[t].pc, e)) &&
    (forall e: nat, u :: Signals(s.workers[t].pc, e) && 0 <= u < |s.workers| && u != t ==>
      s'.workers[u].pc != Sleep(e)) &&
    (s'.workers[t].pc.Sleep? ==> Drained(s', s'.workers[t], s'.workers[t].pc.e))
  }

  lemma AwakeKept(s: Sys, s': Sys, t: nat)
    requires RefInv(s) && AwakeInv(s) && Guarantee(s, s', t) && SignalPart(s, s', t)
    ensures AwakeInv(s')
  {
    forall u | 0 <= u < |s.workers| ensures AwakeAt(s', u) {
      if u != t && s'.workers[u].pc.Sleep? {
        assert OtherKept(s, s', u) && AwakeAt(s, u) && RefOk(s, u);
        var e := s'.workers[u].pc.e;
        if Signalled(s, e) {
          var v :| 0 <= v < |s.workers| && Signals(s.workers[v].pc, e);
          assert v != t;
          assert OtherKept(s, s', v);
          assert Signals(s'.workers[v].pc, e);
        } else if Signals(s'.workers[t].pc, e) {
          assert Signalled(s', e);
        }
      }
    }
  }

  // ----- the entries' locks -----

  ghost predicate OneHolder(s: Sys, t: nat, u: nat)
    requires t < |s.workers| && u < |s.workers|
  {
    HoldsEntry(s.workers[t].pc).Some? ==> HoldsEntry(s.workers[u].pc) != HoldsEntry(s.workers[t].pc)
  }

  ghost predicate HoldInv(s: Sys) {
    forall t, u :: 0 <= t < |s.workers| && 0 <= u < |s.workers| && t != u ==> OneHolder(s, t, u)
  }

  /** No other worker holds the entry's lock. */
  ghost predicate Alone(s: Sys, t: nat, e: nat) {
    forall u :: 0 <= u < |s.workers| && u != t ==> HoldsEntry(s.workers[u].pc) != Some(e)
  }

  /** After the step the worker holds a lock only if it held it before or it was free. */
  ghost predicate Locked(s: Sys, s': Sys, t: nat)
    requires t < |s.workers| && t < |s'.workers|
  {
    var h := HoldsEntry(s'.workers[t].pc);
    h.Some? && h != HoldsEntry(s.workers[t].pc) ==> Alone(s, t, h.value)
  }

  lemma HoldKept(s: Sys, s': Sys, t: nat)
    requires HoldInv(s) && Guarantee(s, s', t) && Locked(s, s', t)
    ensures HoldInv(s')
  {
    forall a, b | 0 <= a < |s.workers| && 0 <= b < |s.workers| && a != b ensures OneHolder(s', a, b) {
      assert OneHolder(s, a, b) && OneHolder(s, b, a);
      if a != t { assert OtherKept(s, s', a); }
      if b != t { assert OtherKept(s, s', b); }
    }
  }

  // ----- the steps -----

  /** Everything this file keeps. */
  ghost predicate LifeInv(s: Sys) {
    RefInv(s) && CountInv(s) && StreamInv(s) && AwakeInv(s) && HoldInv(s) && CollectorInv(s)
  }

  /** The entry that the collector has unlinked is cancelled and no worker has a pointer to it. */
  ghost predicate CollectorInv(s: Sys) {
    (s.collector.Unlinked? || s.collector.Freeing?) ==> Forgotten(s, s.collector.e)
  }

  ghost predicate Forgotten(s: Sys, e: nat) {
    e < |s.heap| && s.heap[e].state == Cancelled &&
    forall t :: 0 <= t < |s.workers| ==> Ref(s.workers[t].pc) != Some(e)
  }

  /** A pointer to a new, or a live, entry is all that a step may acquire. */
  ghost predicate Acquired(s: Sys, s': Sys, t: nat)
    requires t < |s.workers| && t < |s'.workers|
  {
    var e := Ref(s'.workers[t].pc);
    e.Some? && e != Ref(s.workers[t].pc) && e.value < |s.heap| ==> s.heap[e.value].state != Cancelled
  }

  /** What a worker's step has to establish for itself; the rest follows. */
  ghost predicate OwnPart(s: Sys, s': Sys, t: nat) {
    Guarantee(s, s', t) && s'.collector == s.collector && RefOk(s', t) &&
    (Creating(s'.workers[t].pc) ==>
      Creates(s.workers[t].pc, Ref(s'.workers[t].pc).value) || Ref(s'.workers[t].pc).value >= |s.heap|) &&
    (forall e :: 0 <= e < |s'.heap| ==> Balanced(s, s', t, e) && DoneOk(s'.heap[e])) &&
    Acquired(s, s', t) && Locked(s, s', t) && SignalPart(s, s', t) && StreamOk(s', s'.workers[t])
  }

  lemma ForgottenKept(s: Sys, s': Sys, t: nat, e: nat)
    requires Forgotten(s, e) && Guarantee(s, s', t) && Acquired(s, s', t)
    ensures Forgotten(s', e)
  {
    assert RecKept(s.heap[e], s'.heap[e], Creates(s.workers[t].pc, e));
    forall u | 0 <= u < |s.workers| ensures Ref(s'.workers[u].pc) != Some(e) {
      if u != t { assert OtherKept(s, s', u); }
    }
  }

  lemma OwnPartSuffices(s: Sys, s': Sys, t: nat)
    requires LifeInv(s) && OwnPart(s, s', t)
    ensures LifeInv(s')
  {
    CountsKept(s, s', t);
    RefsKept(s, s', t);
    StreamsKept(s, s', t);
    AwakeKept(s, s', t);
    HoldKept(s, s', t);
    if s.collector.Unlinked? || s.collector.Freeing? {
      ForgottenKept(s, s', t, s.collector.e);
    }
  }

  /** A step that touches nothing but the worker's own record. */
  lemma OwnStep(s: Sys, s': Sys, t: nat, w': Worker)
    requires RefInv(s) && StreamInv(s) && t < |s.workers| && !s.workers[t].pc.Appended? && !s.workers[t].pc.Settled?
    requires s'.heap == s.heap && s'.collector == s.collector && s'.workers == s.workers[t := w']
    requires Debt(w'.pc) == Debt(s.workers[t].pc)
    requires Ref(w'.pc) == Ref(s.workers[t].pc) && (Creating(w'.pc) ==> Creating(s.workers[t].pc))
    requires Locked(s, s', t) && (w'.pc.Sleep? ==> Drained(s', w', w'.pc.e))
    requires StreamOk(s', w')
    ensures OwnPart(s, s', t)
  {
    assert RefOk(s, t);
    assert StreamOk(s, s.workers[t]);
  }

  /** A step that also changes one entry, under that entry's lock. */
  lemma EntryStep(s: Sys, s': Sys, t: nat, w': Worker, e: nat, r': Rec)
    requires RefInv(s) && StreamInv(s) && t < |s.workers| && e < |s.heap|
    requires !s.workers[t].pc.Appended? && !s.workers[t].pc.Settled?
    requires s'.heap == s.heap[e := r'] && s'.collector == s.collector && s'.workers == s.workers[t := w']
    requires (r'.data == s.heap[e].data && r'.state == s.heap[e].state) || (Signals(w'.pc, e) && Alone(s, t, e))
    requires RecKept(s.heap[e], r', Creates(s.workers[t].pc, e)) && DoneOk(r')
    requires r'.refcount - s.heap[e].refcount ==
      (if Debt(w'.pc) == Some(e) then 1 else 0) - (if Debt(s.workers[t].pc) == Some(e) then 1 else 0)
    requires Debt(s.workers[t].pc) in {None, Some(e)} && Debt(w'.pc) in {None, Some(e)}
    requires Ref(w'.pc) in {None, Some(e)} && (Ref(w'.pc).Some? ==> !s.heap[e].freed)
    requires Acquired(s, s', t) && Locked(s, s', t)
    requires Creating(w'.pc) ==> Creates(s.workers[t].pc, e) && r'.state == Incomplete
    requires !w'.pc.Sleep? && StreamOk(s', w')
    ensures OwnPart(s, s', t)
  {
    EntryGuarantee(s, s', t, w', e, r');
    EntryBalance(s, s', t, w', e, r');
  }

  lemma EntryBalance(s: Sys, s': Sys, t: nat, w': Worker, e: nat, r': Rec)
    requires StreamInv(s) && t < |s.workers| && e < |s.heap| && DoneOk(r')
    requires s'.heap == s.heap[e := r'] && s'.workers == s.workers[t := w']
    requires r'.refcount - s.heap[e].refcount ==
      (if Debt(w'.pc) == Some(e) then 1 else 0) - (if Debt(s.workers[t].pc) == Some(e) then 1 else 0)
    requires Debt(s.workers[t].pc) in {None, Some(e)} && Debt(w'.pc) in {None, Some(e)}
    ensures forall a :: 0 <= a < |s'.heap| ==> Balanced(s, s', t, a) && DoneOk(s'.heap[a])
  {
    forall a | 0 <= a < |s.heap| ensures Balanced(s, s', t, a) && DoneOk(s'.heap[a]) {
      if a != e { assert DoneOk(s.heap[a]); }
    }
  }

  lemma EntryGuarantee(s: Sys, s': Sys, t: nat, w': Worker, e: nat, r': Rec)
    requires t < |s.workers| && e < |s.heap|
    requires s'.heap == s.heap[e := r'] && s'.workers == s.workers[t := w']
    requires (r'.data == s.heap[e].data && r'.state == s.heap[e].state) || Alone(s, t, e)
    requires RecKept(s.heap[e], r', Creates(s.workers[t].pc, e))
    ensures Guarantee(s, s', t)
  {
    forall u | 0 <= u < |s.workers| && u != t ensures OtherKept(s, s', u) {
    }
    forall a | 0 <= a < |s.heap| ensures RecKept(s.heap[a], s'.heap[a], Creates(s.workers[t].pc, a)) {
    }
  }

  /** The broadcast about a changed entry. */
  lemma BroadcastLife(s: Sys, s': Sys, t: nat, e: nat, pc': PC)
    requires RefInv(s) && StreamInv(s) && t < |s.workers| && Signals(s.workers[t].pc, e)
    requires var pc := s.workers[t].pc;
      pc' == if pc.Appended? then Forward(e, pc.block, pc.first) else if pc.last then Idle else ReleaseLast(e)
    requires s' == SetPC(s.(workers := WakeAll(s.workers, e)), t, pc')
    ensures OwnPart(s, s', t)
  {
    BroadcastOwn(s, s', t, e, pc');
    BroadcastWakes(s, s', t, e);
    BroadcastBalance(s, s', t);
  }

  lemma BroadcastOwn(s: Sys, s': Sys, t: nat, e: nat, pc': PC)
    requires RefInv(s) && StreamInv(s) && t < |s.workers| && Signals(s.workers[t].pc, e)
    requires var pc := s.workers[t].pc;
      pc' == if pc.Appended? then Forward(e, pc.block, pc.first) else if pc.last then Idle else ReleaseLast(e)
    requires s'.heap == s.heap && t < |s'.workers| && s'.workers[t] == s.workers[t].(pc := pc')
    ensures RefOk(s', t) && Acquired(s, s', t) && Locked(s, s', t) && StreamOk(s', s'.workers[t])
    ensures Creating(pc') ==> Creates(s.workers[t].pc, Ref(pc').value)
    ensures Debt(pc') == Debt(s.workers[t].pc) && !pc'.Sleep?
  {
    assert RefOk(s, t) && StreamOk(s, s.workers[t]);
  }

  lemma BroadcastBalance(s: Sys, s': Sys, t: nat)
    requires StreamInv(s) && t < |s.workers| && t < |s'.workers| && s'.heap == s.heap
    requires Debt(s'.workers[t].pc) == Debt(s.workers[t].pc)
    ensures forall e :: 0 <= e < |s'.heap| ==> Balanced(s, s', t, e) && DoneOk(s'.heap[e])
  {
  }

  lemma BroadcastWakes(s: Sys, s': Sys, t: nat, e: nat)
    requires t < |s.workers| && s'.heap == s.heap && |s'.workers| == |s.workers|
    requires Signals(s.workers[t].pc, e) && !s'.workers[t].pc.Sleep?
    requires forall u :: 0 <= u < |s.workers| && u != t ==> s'.workers[u] == Wake(s.workers[u], e)
    ensures Guarantee(s, s', t) && SignalPart(s, s', t)
  {
    forall u | 0 <= u < |s.workers| && u != t ensures OtherKept(s, s', u) && s'.workers[u].pc != Sleep(e) {
    }
  }

  /** cache_entry_release. */
  lemma ReleaseLife(s: Sys, s': Sys, t: nat, e: nat, pc': PC)
    requires RefInv(s) && StreamInv(s) && t < |s.workers|
    requires Debt(s.workers[t].pc) == Some(e) && HoldsEntry(s.workers[t].pc) == None
    requires pc' == Idle || (s.workers[t].pc == ReleaseFirst(e) && pc' == CancelLast(e))
    requires s' == SetPC(SetRec(s, e, Entry(s, e).(refcount := Entry(s, e).refcount - 1)), t, pc')
    ensures OwnPart(s, s', t)
  {
    assert RefOk(s, t) && StreamOk(s, s.workers[t]) && DoneOk(s.heap[e]);
    EntryStep(s, s', t, s.workers[t].(pc := pc'), e, s.heap[e].(refcount := s.heap[e].refcount - 1));
  }

  /**
    cache_entry_complete and cache_entry_cancel up to the broadcast, by the creator of the
    entry: it settles an incomplete entry, and nothing but the state changes.
   */
  lemma SettleLife(s: Sys, s': Sys, t: nat, e: nat, state: EntryState, last: bool)
    requires RefInv(s) && StreamInv(s) && t < |s.workers| && Creates(s.workers[t].pc, e) && Alone(s, t, e)
    requires HoldsEntry(s.workers[t].pc) == None
    requires state == Cancelled || (state == Complete && s.workers[t].pc == CompleteFirst(e))
    requires last == s.workers[t].pc.CancelLast?
    requires s' == SetPC(SetRec(s, e, Entry(s, e).(state := state)), t, Settled(e, last))
    ensures OwnPart(s, s', t)
    ensures e < |s.heap| && s.heap[e].state == Incomplete && s'.heap[e] == s.heap[e].(state := state)
  {
    assert RefOk(s, t) && StreamOk(s, s.workers[t]) && DoneOk(s.heap[e]);
    EntryStep(s, s', t, s.workers[t].(pc := Settled(e, last)), e, s.heap[e].(state := state));
  }

  /** A lookup that finds its entry takes a reference. */
  lemma HitLife(s: Sys, s': Sys, t: nat, e: nat, b: nat, now: int)
    requires RefInv(s) && StreamInv(s) && t < |s.workers| && s.workers[t].pc.Walk? && Alone(s, t, e)
    requires e < |s.heap| && s.heap[e].state != Cancelled && !s.heap[e].freed
    requires var r := s.heap[e].(refcount := s.heap[e].refcount + 1, lastAccess := now);
      s' == SetPC(SetRec(s, e, r).(clock := now), t, Touched(b, e))
    ensures OwnPart(s, s', t)
  {
    assert StreamOk(s, s.workers[t]) && DoneOk(s.heap[e]);
    EntryStep(s, s', t, s.workers[t].(pc := Touched(b, e)), e,
      s.heap[e].(refcount := s.heap[e].refcount + 1, lastAccess := now));
  }

  lemma WalkLife(s: Sys, s': Sys, t: nat, c: Choice, key: Key, i: nat)
    requires RefInv(s) && StreamInv(s) && ChainsInv(s) && t < |s.workers| && s.workers[t].pc == Walk(key, i)
    requires i < |Chain(s, key.bucket)| && Entry(s, Chain(s, key.bucket)[i]).key == key ==>
      Alone(s, t, Chain(s, key.bucket)[i])
    requires key.bucket < MAX_BUCKETS && s' == LookupStep(s, t, c)
    ensures OwnPart(s, s', t)
  {
    var chain := Chain(s, key.bucket);
    assert StreamOk(s, s.workers[t]) && ChainOk(s, key.bucket);
    if i < |chain| && Entry(s, chain[i]).key == key && Entry(s, chain[i]).state != Cancelled {
      HitLife(s, s', t, chain[i], key.bucket, c.now);
    } else {
      OwnStep(s, s', t, s'.workers[t]);
    }
  }

  /** The steps of a lookup that lock or unlock and do nothing else. */
  lemma PassLife(s: Sys, s': Sys, t: nat, c: Choice)
    requires RefInv(s) && StreamInv(s) && t < |s.workers| && s' == LookupStep(s, t, c)
    requires var pc := s.workers[t].pc; pc.Search? || pc.HitBucket? || pc.HitSearch? || pc.MissBucket?
    ensures OwnPart(s, s', t)
  {
    assert StreamOk(s, s.workers[t]);
    OwnStep(s, s', t, s'.workers[t]);
  }

  lemma LookupLife(s: Sys, s': Sys, t: nat, c: Choice)
    requires RefInv(s) && StreamInv(s) && ChainsInv(s) && WorkerCanStep(s, t, c) && IsLookup(s.workers[t].pc)
    requires s.workers[t].pc.Walk? ==> s.workers[t].pc.key.bucket < MAX_BUCKETS
    requires s' == LookupStep(s, t, c)
    ensures OwnPart(s, s', t)
  {
    var pc := s.workers[t].pc;
    if pc.Walk? {
      WalkLife(s, s', t, c, pc.key, pc.i);
    } else if pc.Idle? || pc.Touched? {
      assert StreamOk(s, s.workers[t]);
      OwnStep(s, s', t, s'.workers[t]);
    } else {
      PassLife(s, s', t, c);
    }
  }

  /**
    The look at the entry under its lock: the next bytes of the stream, or a wait at the end of
    an incomplete one, or the end of a complete one.
   */
  lemma ReadLife(s: Sys, s': Sys, t: nat, e: nat)
    requires RefInv(s) && StreamInv(s) && t < |s.workers| && s.workers[t].pc == Deciding(e)
    requires s' == ReadOrWait(s, t, e)
    ensures OwnPart(s, s', t)
    ensures match s'.workers[t].pc
      case Send(_, bytes) =>
        bytes != [] && s.workers[t].sent + bytes <= s.heap[e].data && s.heap[e].state != Cancelled &&
        (|bytes| == 8192 || s.workers[t].sent + bytes == s.heap[e].data)
      case Waiting(_) => s.workers[t].sent == s.heap[e].data && s.heap[e].state == Incomplete
      case HitDone(_, ok) => s.heap[e].state == if ok then Complete else Cancelled
      case _ => false
  {
    assert RefOk(s, t) && StreamOk(s, s.workers[t]);
    OwnStep(s, s', t, s'.workers[t]);
  }

  lemma SendLife(s: Sys, s': Sys, t: nat, c: Choice)
    requires RefInv(s) && StreamInv(s) && t < |s.workers| && s.workers[t].pc.Send?
    requires s' == ServeStep(s, t, c)
    ensures OwnPart(s, s', t)
  {
    assert RefOk(s, t) && StreamOk(s, s.workers[t]);
    OwnStep(s, s', t, s'.workers[t]);
  }

  /** Waking up and locking the entry again. */
  lemma WokenLife(s: Sys, s': Sys, t: nat, c: Choice)
    requires RefInv(s) && StreamInv(s) && t < |s.workers| && s' == ServeStep(s, t, c)
    requires s.workers[t].pc.Sleep? || (s.workers[t].pc.Woken? && Alone(s, t, s.workers[t].pc.e))
    ensures OwnPart(s, s', t)
  {
    assert RefOk(s, t) && StreamOk(s, s.workers[t]);
    OwnStep(s, s', t, s'.workers[t]);
  }

  /** Locking the entry and waiting. */
  lemma WaitLife(s: Sys, s': Sys, t: nat, c: Choice)
    requires RefInv(s) && StreamInv(s) && t < |s.workers| && s' == ServeStep(s, t, c)
    requires s.workers[t].pc.Waiting? || (s.workers[t].pc.Serve? && Alone(s, t, s.workers[t].pc.e))
    ensures OwnPart(s, s', t)
  {
    assert RefOk(s, t) && StreamOk(s, s.workers[t]);
    OwnStep(s, s', t, s'.workers[t]);
  }

  lemma ServeLife(s: Sys, s': Sys, t: nat, c: Choice)
    requires RefInv(s) && StreamInv(s) && WorkerCanStep(s, t, c) && IsServe(s.workers[t].pc)
    requires s' == ServeStep(s, t, c)
    ensures OwnPart(s, s', t)
  {
    var pc := s.workers[t].pc;
    if pc.Deciding? {
      ReadLife(s, s', t, pc.e);
    } else if pc.Send? {
      SendLife(s, s', t, c);
    } else if pc.HitDone? {
      ReleaseLife(s, s', t, pc.e, Idle);
    } else if pc.Sleep? || pc.Woken? {
      WokenLife(s, s', t, c);
    } else {
      WaitLife(s, s', t, c);
    }
  }

  /** cache_entry_append_chunk up to the broadcast: the block is the new end of the stream. */
  lemma AppendLife(s: Sys, s': Sys, t: nat, c: Choice)
    requires RefInv(s) && StreamInv(s) && t < |s.workers| && s.workers[t].pc.Append? && Alone(s, t, s.workers[t].pc.e)
    requires s' == FillStep(s, t, c)
    ensures OwnPart(s, s', t)
    ensures var pc := s.workers[t].pc;
      pc.e < |s'.heap| == |s.heap| && s'.heap[pc.e] == s.heap[pc.e].(data := s.heap[pc.e].data + pc.block)
  {
    assert RefOk(s, t) && StreamOk(s, s.workers[t]);
    var e := s.workers[t].pc.e;
    assert DoneOk(s.heap[e]);
    EntryStep(s, s', t, s'.workers[t], e, s.heap[e].(data := s.heap[e].data + s.workers[t].pc.block));
  }

  lemma BlockLife(s: Sys, s': Sys, t: nat, c: Choice)
    requires RefInv(s) && StreamInv(s) && t < |s.workers| && s.workers[t].pc.Receive?
    requires c.received.Block? && c.received.bytes != []
    requires s' == FillStep(s, t, c)
    ensures OwnPart(s, s', t)
  {
    assert RefOk(s, t) && StreamOk(s, s.workers[t]);
    var e := s.workers[t].pc.e;
    assert DoneOk(s.heap[e]);
    EntryStep(s, s', t, s'.workers[t], e,
      s.heap[e].(origin := s.heap[e].origin + c.received.bytes, blocks := s.heap[e].blocks + 1));
  }

  lemma ForwardLife(s: Sys, s': Sys, t: nat, c: Choice)
    requires RefInv(s) && StreamInv(s) && t < |s.workers| && s' == FillStep(s, t, c) && s.workers[t].pc.Forward?
    ensures OwnPart(s, s', t)
  {
    assert RefOk(s, t) && StreamOk(s, s.workers[t]);
    OwnStep(s, s', t, s'.workers[t]);
  }

  lemma EndLife(s: Sys, s': Sys, t: nat, c: Choice)
    requires RefInv(s) && StreamInv(s) && t < |s.workers| && s' == FillStep(s, t, c)
    requires s.workers[t].pc.Receive? && !c.received.Block?
    ensures OwnPart(s, s', t)
  {
    assert RefOk(s, t) && StreamOk(s, s.workers[t]);
    OwnStep(s, s', t, s'.workers[t]);
  }

  lemma FillLife(s: Sys, s': Sys, t: nat, c: Choice)
    requires RefInv(s) && StreamInv(s) && WorkerCanStep(s, t, c) && IsFill(s.workers[t].pc)
    requires s' == FillStep(s, t, c)
    ensures OwnPart(s, s', t)
  {
    var pc := s.workers[t].pc;
    if pc.Append? {
      AppendLife(s, s', t, c);
    } else if pc.Appended? {
      BroadcastLife(s, s', t, pc.e, Forward(pc.e, pc.block, pc.first));
    } else if pc.Receive? && c.received.Block? {
      BlockLife(s, s', t, c);
    } else if pc.Forward? {
      ForwardLife(s, s', t, c);
    } else {
      EndLife(s, s', t, c);
    }
  }

  lemma CloseLife(s: Sys, s': Sys, t: nat, c: Choice)
    requires RefInv(s) && StreamInv(s) && WorkerCanStep(s, t, c) && IsClose(s.workers[t].pc)
    requires s' == CloseStep(s, t)
    ensures OwnPart(s, s', t)
  {
    var pc := s.workers[t].pc;
    if pc.Settled? {
      BroadcastLife(s, s', t, pc.e, s'.workers[t].pc);
    } else if pc.ReleaseFirst? || pc.ReleaseLast? {
      ReleaseLife(s, s', t, pc.e, s'.workers[t].pc);
    } else {
      SettleLife(s, s', t, pc.e, if pc.CompleteFirst? then Complete else Cancelled, pc.CancelLast?);
    }
  }

  /** A new entry gets a number that nothing refers to. */
  lemma FetchLife(s: Sys, s': Sys, t: nat, r: Rec)
    requires RefInv(s) && StreamInv(s) && t < |s.workers| && s.workers[t].pc.Fetch?
    requires s'.heap == s.heap + [r] && s'.workers == s.workers[t := s.workers[t].(pc := Link(|s.heap|))]
    requires s'.collector == s.collector && DoneOk(r) && !r.freed
    requires r.state == Incomplete && r.refcount == 1 && r.data == [] && r.blocks == 1
    ensures OwnPart(s, s', t)
  {
    forall u | 0 <= u < |s.workers| && u != t ensures OtherKept(s, s', u) {
      assert RefOk(s, u);
    }
    forall e | 0 <= e < |s'.heap| ensures Balanced(s, s', t, e) && DoneOk(s'.heap[e]) {
      if e < |s.heap| { assert DoneOk(s.heap[e]); }
    }
  }

  lemma FetchedLife(s: Sys, s': Sys, t: nat, c: Choice)
    requires RefInv(s) && StreamInv(s) && t < |s.workers| && s.workers[t].pc.Fetch? && s' == CreateStep(s, t, c)
    requires s.workers[t].pc.key.bucket < MAX_BUCKETS
    ensures OwnPart(s, s', t)
  {
    if c.ok && c.received.Block? {
      FetchLife(s, s', t, s'.heap[|s.heap|]);
    } else {
      OwnStep(s, s', t, s'.workers[t]);
    }
  }

  lemma CreateLife(s: Sys, s': Sys, t: nat, c: Choice)
    requires RefInv(s) && StreamInv(s) && t < |s.workers| && IsCreate(s.workers[t].pc)
    requires s.workers[t].pc.Fetch? ==> s.workers[t].pc.key.bucket < MAX_BUCKETS
    requires s' == CreateStep(s, t, c)
    ensures OwnPart(s, s', t)
  {
    if s.workers[t].pc.Fetch? {
      FetchedLife(s, s', t, c);
    } else {
      assert RefOk(s, t) && StreamOk(s, s.workers[t]);
      OwnStep(s, s', t, s'.workers[t]);
    }
  }

  // ----- the collector -----

  /**
    An entry that is cancelled, has no references and is not locked is forgotten: who created
    it has at most its broadcast to do, and for that it would hold the lock.
   */
  lemma NobodyLeft(s: Sys, e: nat)
    requires RefInv(s) && CountInv(s) && e < |s.heap| && EntryFree(s, e)
    requires s.heap[e].state == Cancelled && s.heap[e].refcount == 0
    ensures Forgotten(s, e)
  {
    assert CountOk(s, e);
    forall t | 0 <= t < |s.workers| ensures Ref(s.workers[t].pc) != Some(e) {
      assert RefOk(s, t);
      SumAtLeast(s.workers, t, Owing(e));
    }
  }

  /** Freeing a forgotten entry keeps all pointers good. */
  lemma FreeLife(s: Sys, s': Sys, e: nat)
    requires RefInv(s) && CountInv(s) && StreamInv(s) && Forgotten(s, e)
    requires s'.workers == s.workers && s'.heap == s.heap[e := s.heap[e].(freed := true)]
    ensures RefInv(s') && CountInv(s') && StreamInv(s')
  {
    forall t | 0 <= t < |s.workers| ensures RefOk(s', t) && StreamOk(s', s'.workers[t]) {
      assert RefOk(s, t) && StreamOk(s, s.workers[t]);
    }
    forall a | 0 <= a < |s.heap| ensures CountOk(s', a) && DoneOk(s'.heap[a]) {
      assert CountOk(s, a) && DoneOk(s.heap[a]);
    }
    OneCreatorSame(s, s');
  }

  lemma OneCreatorSame(s: Sys, s': Sys)
    requires RefInv(s) && s'.workers == s.workers
    ensures forall t, u :: 0 <= t < |s'.workers| && 0 <= u < |s'.workers| && t != u ==> OneCreator(s', t, u)
  {
    forall t, u | 0 <= t < |s.workers| && 0 <= u < |s.workers| && t != u ensures OneCreator(s', t, u) {
      assert OneCreator(s, t, u);
    }
  }

  lemma SameLife(s: Sys, s': Sys)
    requires RefInv(s) && CountInv(s) && StreamInv(s) && s'.workers == s.workers && s'.heap == s.heap
    ensures RefInv(s') && CountInv(s') && StreamInv(s')
  {
    forall t | 0 <= t < |s.workers| ensures RefOk(s', t) && StreamOk(s', s'.workers[t]) {
      assert RefOk(s, t) && StreamOk(s, s.workers[t]);
    }
    forall e | 0 <= e < |s.heap| ensures CountOk(s', e) {
      assert CountOk(s, e);
    }
    OneCreatorSame(s, s');
  }

  /** The collector neither wakes nor locks out anybody. */
  lemma SameWorkers(s: Sys, s': Sys)
    requires AwakeInv(s) && HoldInv(s) && s'.workers == s.workers && |s'.heap| == |s.heap|
    requires forall e :: 0 <= e < |s.heap| ==>
      s'.heap[e].state == s.heap[e].state && s'.heap[e].data == s.heap[e].data
    ensures AwakeInv(s') && HoldInv(s')
  {
    forall t | 0 <= t < |s.workers| ensures AwakeAt(s', t) {
      assert AwakeAt(s, t);
      if s.workers[t].pc.Sleep? && Signalled(s, s.workers[t].pc.e) {
        assert Signalled(s', s.workers[t].pc.e);
      }
    }
    forall t, u | 0 <= t < |s.workers| && 0 <= u < |s.workers| && t != u ensures OneHolder(s', t, u) {
      assert OneHolder(s, t, u);
    }
  }

  lemma CollectorLife(s: Sys, s': Sys)
    requires LifeInv(s) && ChainsInv(s) && CollectorCanStep(s) && s' == CollectorStep(s)
    requires s.collector.Visit? ==> s.collector.b < MAX_BUCKETS
    ensures LifeInv(s')
  {
    match s.collector {
      case Freeing(_, _, e) => FreeLife(s, s', e);
      case Visit(b, i) =>
        assert ChainOk(s, b);
        SameLife(s, s');
        if i < |Chain(s, b)| && s.heap[Chain(s, b)[i]].state == Cancelled && s.heap[Chain(s, b)[i]].refcount == 0 {
          NobodyLeft(s, Chain(s, b)[i]);
        }
      case _ => SameLife(s, s');
    }
    SameWorkers(s, s');
  }

  lemma WorkerLife(s: Sys, s': Sys, t: nat, c: Choice)
    requires LifeInv(s) && ChainsInv(s) && WorkerCanStep(s, t, c) && s' == WorkerStep(s, t, c)
    requires var pc := s.workers[t].pc; pc.Walk? || pc.Fetch? ==> pc.key.bucket < MAX_BUCKETS
    ensures LifeInv(s') && Guarantee(s, s', t)
  {
    var pc := s.workers[t].pc;
    if IsLookup(pc) {
      LookupLife(s, s', t, c);
    } else if IsServe(pc) {
      ServeLife(s, s', t, c);
    } else if IsCreate(pc) {
      CreateLife(s, s', t, c);
    } else if IsFill(pc) {
      FillLife(s, s', t, c);
    } else {
      CloseLife(s, s', t, c);
    }
    OwnPartSuffices(s, s', t);
  }

  // ----- who fills an incomplete entry -----

  ghost predicate HasCreator(s: Sys, e: nat) {
    exists t :: 0 <= t < |s.workers| && Creates(s.workers[t].pc, e)
  }

  ghost predicate FilledAt(s: Sys, e: nat) {
    e < |s.heap| && (s.heap[e].state == Incomplete ==> HasCreator(s, e))
  }

  /** Every incomplete entry has a worker that still fills it. */
  ghost predicate FilledInv(s: Sys) {
    forall e :: 0 <= e < |s.heap| ==> FilledAt(s, e)
  }

  /** The creator goes on filling the entry until it has settled it. */
  ghost predicate CreatorStays(s: Sys, s': Sys, t: nat, e: nat)
    requires t < |s'.workers| && e < |s'.heap|
  {
    Creates(s'.workers[t].pc, e) || s'.heap[e].state != Incomplete
  }

  lemma LinkStays(s: Sys, s': Sys, t: nat, c: Choice, e: nat)
    requires t < |s.workers| && Creates(s.workers[t].pc, e) && e < |s.heap|
    requires IsCreate(s.workers[t].pc) && s' == CreateStep(s, t, c)
    ensures |s'.workers| == |s.workers| && |s'.heap| == |s.heap| && CreatorStays(s, s', t, e)
  {
  }

  lemma FillStays(s: Sys, s': Sys, t: nat, c: Choice, e: nat)
    requires t < |s.workers| && Creates(s.workers[t].pc, e) && e < |s.heap|
    requires IsFill(s.workers[t].pc) && s' == FillStep(s, t, c)
    ensures |s'.workers| == |s.workers| && |s'.heap| == |s.heap| && CreatorStays(s, s', t, e)
  {
  }

  lemma CloseStays(s: Sys, s': Sys, t: nat, e: nat)
    requires t < |s.workers| && Creates(s.workers[t].pc, e) && e < |s.heap|
    requires IsClose(s.workers[t].pc) && s' == CloseStep(s, t)
    ensures |s'.workers| == |s.workers| && |s'.heap| == |s.heap| && CreatorStays(s, s', t, e)
  {
  }

  /** A new entry is made by the worker that goes on to link it. */
  lemma NewIsFilled(s: Sys, s': Sys, t: nat, c: Choice)
    requires WorkerCanStep(s, t, c) && s' == WorkerStep(s, t, c) && |s'.heap| > |s.heap|
    ensures |s'.heap| == |s.heap| + 1 && t < |s'.workers| && s'.workers[t].pc == Link(|s.heap|)
  {
  }

  lemma FilledKept(s: Sys, s': Sys, t: nat, c: Choice)
    requires RefInv(s) && FilledInv(s) && Guarantee(s, s', t) && WorkerCanStep(s, t, c) && s' == WorkerStep(s, t, c)
    ensures FilledInv(s')
  {
    forall e | 0 <= e < |s'.heap| ensures FilledAt(s', e) {
      if e >= |s.heap| {
        NewIsFilled(s, s', t, c);
        assert Creates(s'.workers[t].pc, e);
      } else if Creates(s.workers[t].pc, e) {
        CreatorKept(s, s', t, c, e);
      } else {
        OthersKept(s, s', t, e);
      }
    }
  }

  lemma CreatorKept(s: Sys, s': Sys, t: nat, c: Choice, e: nat)
    requires WorkerCanStep(s, t, c) && s' == WorkerStep(s, t, c) && Creates(s.workers[t].pc, e) && e < |s.heap|
    ensures FilledAt(s', e)
  {
    if IsCreate(s.workers[t].pc) {
      LinkStays(s, s', t, c, e);
    } else if IsFill(s.workers[t].pc) {
      FillStays(s, s', t, c, e);
    } else {
      CloseStays(s, s', t, e);
    }
    assert CreatorStays(s, s', t, e);
  }

  lemma OthersKept(s: Sys, s': Sys, t: nat, e: nat)
    requires Guarantee(s, s', t) && !Creates(s.workers[t].pc, e) && FilledAt(s, e)
    ensures FilledAt(s', e)
  {
    assert RecKept(s.heap[e], s'.heap[e], false);
    if s.heap[e].state == Incomplete {
      var u :| 0 <= u < |s.workers| && Creates(s.workers[u].pc, e);
      assert OtherKept(s, s', u);
      assert Creates(s'.workers[u].pc, e);
    }
  }

  lemma CollectorFilled(s: Sys, s': Sys)
    requires FilledInv(s) && s' == CollectorStep(s)
    ensures FilledInv(s')
  {
    forall e | 0 <= e < |s'.heap| ensures FilledAt(s', e) {
      assert FilledAt(s, e);
      if HasCreator(s, e) {
        var u :| 0 <= u < |s.workers| && Creates(s.workers[u].pc, e);
        assert Creates(s'.workers[u].pc, e);
      }
    }
  }
}
