/**
  Nothing gets stuck in the proxy's cache: the collector frees the dead entries of the bucket
  that it visits, and the requests under way can always be brought to their ends.
 */
module ProxyCacheProgress {
  import opened Basics
  import opened Filters
  import opened UrlHash
  import opened Chunks
  import opened Sums
  import opened ProxyCache
  import opened ProxyCacheInv
  import opened ProxyCacheTable
  import opened ProxyCacheTheorems
  import opened ProxyCacheHistory

  // ----- the collector frees what is dead -----

  ghost predicate Dead(s: Sys, e: nat) {
    e < |s.heap| && s.heap[e].state == Cancelled && s.heap[e].refcount == 0
  }

  /** The collector has freed the entry, or is freeing it, or will come to it in the bucket it is in. */
  ghost predicate InReach(s: Sys, e: nat) {
    e < |s.heap| && (s.heap[e].freed || (!s.collector.Between? && (TakenOut(s, e) || ComesTo(s, e))))
  }

  ghost predicate ComesTo(s: Sys, e: nat)
    requires !s.collector.Between?
  {
    exists p :: s.collector.i <= p < |Chain(s, s.collector.b)| && Chain(s, s.collector.b)[p] == e
  }

  lemma CollectorReaches(s: Sys, s': Sys, e: nat)
    requires s' == CollectorStep(s) && Dead(s, e) && InReach(s, e)
    ensures Dead(s', e) && InReach(s', e)
  {
    if !s.collector.Between? && ComesTo(s, e) {
      var b, i := s.collector.b, s.collector.i;
      var p :| i <= p < |Chain(s, b)| && Chain(s, b)[p] == e;
      if s.collector.Visit? {
        if p == i {
        } else if s'.collector.Unlinked? {
          assert Chain(s', b)[p - 1] == e;
        } else {
          assert Chain(s', b)[p] == e;
        }
      } else {
        assert Chain(s', b)[p] == e;
      }
    }
  }

  /** A new debt is for a new entry or for one that is not cancelled. */
  lemma NewDebt(s: Sys, s': Sys, t: nat, c: Choice, e: nat)
    requires RefOk(s, t) && s' == WorkerStep(s, t, c) && e < |s.heap| && s.heap[e].state == Cancelled
    requires Debt(s.workers[t].pc) != Some(e)
    ensures t < |s'.workers| && Debt(s'.workers[t].pc) != Some(e)
  {
    if IsLookup(s.workers[t].pc) {
    } else if IsServe(s.workers[t].pc) {
    } else if IsCreate(s.workers[t].pc) {
    } else if IsFill(s.workers[t].pc) {
    } else {
    }
  }

  lemma StaysDead(s: Sys, s': Sys, t: nat, c: Choice, e: nat)
    requires RefInv(s) && CountInv(s) && CountInv(s') && Guarantee(s, s', t)
    requires WorkerCanStep(s, t, c) && s' == WorkerStep(s, t, c) && Dead(s, e)
    ensures Dead(s', e) && s'.heap[e].freed == s.heap[e].freed
  {
    assert RecKept(s.heap[e], s'.heap[e], Creates(s.workers[t].pc, e));
    assert CountOk(s, e) && CountOk(s', e);
    forall u | 0 <= u < |s'.workers| ensures Owing(e)(s'.workers[u]) == 0 {
      SumAtLeast(s.workers, u, Owing(e));
      assert RefOk(s, u);
      if u == t {
        NewDebt(s, s', t, c, e);
      } else {
        assert OtherKept(s, s', u);
      }
    }
    SumZero(s'.workers, Owing(e));
  }

  lemma WorkerReaches(s: Sys, s': Sys, t: nat, c: Choice, e: nat)
    requires RefInv(s) && CountInv(s) && CountInv(s') && Guarantee(s, s', t)
    requires WorkerCanStep(s, t, c) && s' == WorkerStep(s, t, c) && Dead(s, e) && InReach(s, e)
    ensures Dead(s', e) && InReach(s', e)
  {
    StaysDead(s, s', t, c, e);
    if !s.collector.Between? {
      WorkerLeavesBucket(s, s', t, c, s.collector.b);
      if ComesTo(s, e) {
        var p :| s.collector.i <= p < |Chain(s, s.collector.b)| && Chain(s, s.collector.b)[p] == e;
        assert Chain(s', s'.collector.b)[p] == e;
      }
    } else {
      SameCollector(s, s', t, c);
    }
  }

  lemma SameCollector(s: Sys, s': Sys, t: nat, c: Choice)
    requires WorkerCanStep(s, t, c) && s' == WorkerStep(s, t, c)
    ensures s'.collector == s.collector
  {
  }

  lemma {:induction false} StaysInReach(tr: seq<Sys>, ms: seq<Move>, n: nat, i: nat, j: nat, e: nat)
    requires IsRun(tr, ms, n) && i <= j < |tr| && Dead(tr[i], e) && InReach(tr[i], e)
    ensures Dead(tr[j], e) && InReach(tr[j], e)
  {
    if i < j {
      StaysInReach(tr, ms, n, i, j - 1, e);
      NextInReach(tr, ms, n, j - 1, e);
    }
  }

  lemma NextInReach(tr: seq<Sys>, ms: seq<Move>, n: nat, j: nat, e: nat)
    requires IsRun(tr, ms, n) && j < |ms| && Dead(tr[j], e) && InReach(tr[j], e)
    ensures Dead(tr[j + 1], e) && InReach(tr[j + 1], e)
  {
    RunStep(tr, ms, n, j);
    if ms[j].Work? {
      ReachableGood(tr, ms, n, j);
      ReachableGood(tr, ms, n, j + 1);
      WorkerReaches(tr[j], tr[j + 1], ms[j].t, ms[j].c, e);
    } else {
      CollectorReaches(tr[j], tr[j + 1], e);
    }
  }

  /**
    The collector leaves nothing dead behind: an entry of the bucket that is cancelled and
    without references when the collector begins its visit has been freed when the collector
    has left the bucket.
   */
  lemma CollectorReclaims(tr: seq<Sys>, ms: seq<Move>, n: nat, i: nat, j: nat, b: nat, e: nat)
    requires IsRun(tr, ms, n) && i < j < |tr| && tr[i].collector == Visit(b, 0) && e in Chain(tr[i], b)
    requires Dead(tr[i], e) && tr[j].collector.Between?
    ensures e < |tr[j].heap| && tr[j].heap[e].freed
  {
    var p :| 0 <= p < |Chain(tr[i], b)| && Chain(tr[i], b)[p] == e;
    assert ComesTo(tr[i], e);
    StaysInReach(tr, ms, n, i, j, e);
  }

  /** The bucket d places further round. */
  function Around(b: nat, d: nat): nat {
    (b + d) % MAX_BUCKETS
  }

  lemma AroundNext(b: nat, d: nat)
    ensures (Around(b, d) + 1) % MAX_BUCKETS == Around(b, d + 1)
  {
  }

  lemma AroundTo(b: nat, k: nat) returns (d: nat)
    requires b < MAX_BUCKETS && k < MAX_BUCKETS
    ensures d < MAX_BUCKETS && Around(b, d) == k
  {
    d := if k >= b then k - b else k + MAX_BUCKETS - b;
  }

  /** How many buckets the collector has left in the first k steps. */
  ghost function BucketsLeft(tr: seq<Sys>, k: nat): nat
    requires k < |tr|
  {
    if k == 0 then 0
    else BucketsLeft(tr, k - 1) + (if tr[k].collector.Between? && !tr[k - 1].collector.Between? then 1 else 0)
  }

  /** The collector visits one bucket after the other, round and round. */
  lemma {:induction false} RoundAndRound(tr: seq<Sys>, ms: seq<Move>, n: nat, k: nat)
    requires IsRun(tr, ms, n) && k < |tr|
    ensures tr[k].collector.b == Around(0, BucketsLeft(tr, k))
  {
    if k > 0 {
      RoundAndRound(tr, ms, n, k - 1);
      AroundNext(0, BucketsLeft(tr, k - 1));
      assert StepAt(tr, ms, k - 1);
      if ms[k - 1].Work? { SameCollector(tr[k - 1], tr[k], ms[k - 1].t, ms[k - 1].c); }
    }
  }

  // ----- winding down -----

  /** The environment in which everything fails. */
  function Failing(s: Sys): Choice {
    Choice(Key(0, 0), s.clock, false, 0, Failed, 0, None)
  }

  /**
    A bound on what a worker still has to do when everything fails, with n workers and h
    entries. A broadcast may wake all the others, each for three more steps.
   */
  function Rest(n: nat, h: nat, pc: PC): nat {
    var wake := 3 * n + 1;
    match pc
    case Idle => 0
    case Search(_) => 10 + h
    case Walk(_, i) => 9 + (if i <= h then h - i else 0)
    case Touched(_, _) => 8
    case HitBucket(_, _) => 7
    case HitSearch(_) => 6
    case Serve(_) => 5
    case Woken(_, _) => 5
    case Deciding(_) => 4
    case Waiting(_) => 3
    case Sleep(_) => 2
    case Send(_, _) => 2
    case HitDone(_, _) => 1
    case MissBucket(_) => 2
    case Fetch(_) => 1
    case Link(_) => 11 + 2 * wake
    case LinkLru(_) => 10 + 2 * wake
    case MissSearch(_) => 9 + 2 * wake
    case Append(_, _, _) => 8 + 2 * wake
    case Appended(_, _, _) => 7 + 2 * wake
    case Forward(_, _, _) => 6 + wake
    case Receive(_) => 5 + wake
    case ReleaseFirst(_) => 4 + wake
    case CancelLast(_) => 3 + wake
    case CancelFirst(_) => 3 + wake
    case CompleteFirst(_) => 3 + wake
    case Settled(_, _) => 2 + wake
    case ReleaseLast(_) => 1
  }

  ghost function RestOf(n: nat, h: nat): Worker -> nat {
    (w: Worker) => Rest(n, h, w.pc)
  }

  /** A chain names each entry at most once, so it is no longer than the heap. */
  lemma {:induction false} ChainFits(l: seq<nat>, h: nat)
    requires Distinct(l) && forall i :: 0 <= i < |l| ==> l[i] < h
    ensures |l| <= h
    decreases h
  {
    if l != [] {
      assert l[0] < h;
      var last: nat := h - 1;
      var r: seq<nat> := FilterOut(l, {last});
      RemoveMembers(l, last);
      forall i | 0 <= i < |r| ensures r[i] < last {
        assert r[i] in r;
      }
      ChainFits(r, last);
      OneLess(l, last);
    }
  }

  lemma {:induction false} OneLess(l: seq<nat>, e: nat)
    requires Distinct(l)
    ensures |l| <= |FilterOut(l, {e})| + 1 && (e !in l ==> FilterOut(l, {e}) == l)
  {
    if l != [] { OneLess(l[..|l| - 1], e); }
  }

  lemma {:induction false} WakingAdds(ws: seq<Worker>, e: nat, n: nat, h: nat)
    ensures Sum(WakeAll(ws, e), RestOf(n, h)) <= Sum(ws, RestOf(n, h)) + 3 * |ws|
  {
    if ws != [] {
      var front := ws[..|ws| - 1];
      assert WakeAll(ws, e)[..|ws| - 1] == WakeAll(front, e);
      WakingAdds(front, e, n, h);
    }
  }

  /** A step that is not a broadcast changes no other worker and brings its own nearer to its end. */
  lemma OwnRest(s: Sys, t: nat, n: nat)
    requires RefInv(s) && ChainsInv(s) && t < |s.workers| && WorkerCanStep(s, t, Failing(s))
    requires var pc := s.workers[t].pc; !pc.Idle? && !pc.Sleep? && !pc.Appended? && !pc.Settled?
    requires s.workers[t].pc.Walk? ==> s.workers[t].pc.key.bucket < MAX_BUCKETS
    ensures var s', h := WorkerStep(s, t, Failing(s)), |s.heap|;
      |s'.heap| == h && |s'.workers| == |s.workers| && s'.workers == s.workers[t := s'.workers[t]] &&
      Rest(n, h, s'.workers[t].pc) < Rest(n, h, s.workers[t].pc)
  {
    var pc := s.workers[t].pc;
    assert RefOk(s, t);
    if pc.Walk? {
      WalkRest(s, t, n);
    } else if IsLookup(pc) {
    } else if IsServe(pc) {
    } else if IsCreate(pc) {
    } else if IsFill(pc) {
    } else {
    }
  }

  lemma WalkRest(s: Sys, t: nat, n: nat)
    requires ChainsInv(s) && t < |s.workers| && s.workers[t].pc.Walk? && s.workers[t].pc.key.bucket < MAX_BUCKETS
    ensures var s', h := LookupStep(s, t, Failing(s)), |s.heap|;
      |s'.heap| == h && |s'.workers| == |s.workers| && s'.workers == s.workers[t := s'.workers[t]] &&
      Rest(n, h, s'.workers[t].pc) < Rest(n, h, s.workers[t].pc)
  {
    var b := s.workers[t].pc.key.bucket;
    assert ChainOk(s, b);
    ChainFits(s.chains[b], |s.heap|);
  }

  lemma BroadcastEffect(s: Sys, t: nat, n: nat, h: nat)
    requires t < |s.workers| && (s.workers[t].pc.Appended? || s.workers[t].pc.Settled?)
    ensures var s', woken := WorkerStep(s, t, Failing(s)), WakeAll(s.workers, s.workers[t].pc.e);
      |s'.heap| == |s.heap| && |s'.workers| == |s.workers| && s'.workers == woken[t := s'.workers[t]] &&
      RestOf(n, h)(s'.workers[t]) + 3 * n < RestOf(n, h)(woken[t])
  {
  }

  lemma BroadcastRest(s: Sys, t: nat, n: nat)
    requires RefInv(s) && t < |s.workers| == n && (s.workers[t].pc.Appended? || s.workers[t].pc.Settled?)
    ensures var s', h := WorkerStep(s, t, Failing(s)), |s.heap|;
      |s'.heap| == h && |s'.workers| == n &&
      Sum(s'.workers, RestOf(n, h)) < Sum(s.workers, RestOf(n, h))
  {
    var s', h, pc := WorkerStep(s, t, Failing(s)), |s.heap|, s.workers[t].pc;
    BroadcastEffect(s, t, n, h);
    var woken := WakeAll(s.workers, pc.e);
    WakingAdds(s.workers, pc.e, n, h);
    SumUpdate(woken, t, s'.workers[t], RestOf(n, h));
  }

  lemma WorkerRest(s: Sys, t: nat, n: nat)
    requires RefInv(s) && ChainsInv(s) && t < |s.workers| == n && WorkerCanStep(s, t, Failing(s))
    requires !s.workers[t].pc.Idle? && !s.workers[t].pc.Sleep?
    requires s.workers[t].pc.Walk? ==> s.workers[t].pc.key.bucket < MAX_BUCKETS
    ensures var s', h := WorkerStep(s, t, Failing(s)), |s.heap|;
      |s'.heap| == h && |s'.workers| == n &&
      Sum(s'.workers, RestOf(n, h)) < Sum(s.workers, RestOf(n, h))
  {
    if s.workers[t].pc.Appended? || s.workers[t].pc.Settled? {
      BroadcastRest(s, t, n);
    } else {
      OwnRest(s, t, n);
      SumUpdate(s.workers, t, WorkerStep(s, t, Failing(s)).workers[t], RestOf(n, |s.heap|));
    }
  }

  ghost predicate AllIdle(s: Sys) {
    s.collector.Between? && forall t :: 0 <= t < |s.workers| ==> s.workers[t].pc.Idle?
  }

  /** Someone who is neither asleep nor between requests can step, or the collector in a bucket can. */
  lemma SomeoneBusy(tr: seq<Sys>, ms: seq<Move>, n: nat, i: nat, c: Choice) returns (m: Move)
    requires IsRun(tr, ms, n) && i < |tr| && !AllIdle(tr[i]) && Offered(tr[i], c)
    ensures m.Work? ==>
      m.c == c && WorkerCanStep(tr[i], m.t, c) && !tr[i].workers[m.t].pc.Idle? && !tr[i].workers[m.t].pc.Sleep?
    ensures m.Collect? ==> !tr[i].collector.Between? && CollectorCanStep(tr[i])
  {
    var s := tr[i];
    if u :| 0 <= u < |s.workers| && HoldsEntry(s.workers[u].pc).Some? {
      m := Work(u, c);
    } else if u :| 0 <= u < |s.workers| && HoldsSearch(s.workers[u].pc) {
      HolderGoesOn(tr, ms, n, i, u, c);
      m := if WorkerCanStep(s, u, c) then Work(u, c) else Collect;
    } else if !s.collector.Between? {
      m := Collect;
    } else {
      var u := BusyWorker(tr, ms, n, i);
      m := Work(u, c);
    }
  }

  /** With a worker that is not between requests there is one that is not asleep either. */
  lemma BusyWorker(tr: seq<Sys>, ms: seq<Move>, n: nat, i: nat) returns (u: nat)
    requires IsRun(tr, ms, n) && i < |tr| && exists v :: 0 <= v < |tr[i].workers| && !tr[i].workers[v].pc.Idle?
    ensures u < |tr[i].workers| && !tr[i].workers[u].pc.Idle? && !tr[i].workers[u].pc.Sleep?
  {
    var s := tr[i];
    u :| u < |s.workers| && !s.workers[u].pc.Idle?;
    if s.workers[u].pc.Sleep? {
      var e := s.workers[u].pc.e;
      SleepersHaveAll(tr, ms, n, i, u, e);
      if v: nat :| AboutToSignal(s, v, e) {
        u := v;
      } else {
        u :| u < |s.workers| && Creates(s.workers[u].pc, e);
      }
    }
  }

  lemma OneMove(tr: seq<Sys>, ms: seq<Move>, n: nat, m: Move, s': Sys) returns (tr': seq<Sys>, ms': seq<Move>)
    requires IsRun(tr, ms, n) && Moves(tr[|ms|], m, s')
    ensures IsRun(tr', ms', n) && tr <= tr' && ms <= ms' && |ms'| == |ms| + 1 && tr'[|ms'|] == s' && ms'[|ms|] == m
  {
    tr', ms' := tr + [s'], ms + [m];
    forall i | 0 <= i < |ms'| ensures StepAt(tr', ms', i) {
      if i < |ms| { assert StepAt(tr, ms, i); }
    }
  }

  /** None of the steps from k on wakes a sleeper by its timeout or spuriously, or begins a request. */
  ghost predicate OnlyEnds(tr: seq<Sys>, ms: seq<Move>, k: nat) {
    forall i :: k <= i < |ms| && i < |tr| && ms[i].Work? ==>
      ms[i].t < |tr[i].workers| && !tr[i].workers[ms[i].t].pc.Idle? && !tr[i].workers[ms[i].t].pc.Sleep?
  }

  ghost function Left(s: Sys): int {
    Sum(s.workers, RestOf(|s.workers|, |s.heap|)) + CollectorWork(s)
  }

  lemma LeftIsNat(tr: seq<Sys>, ms: seq<Move>, n: nat)
    requires IsRun(tr, ms, n)
    ensures Left(tr[|ms|]) >= 0
  {
    CollectorIsShort(tr, ms, n, |ms|, |ms|);
  }

  lemma LeftShrinks(s: Sys, m: Move, s': Sys)
    requires Good(s) && Moves(s, m, s')
    requires m.Work? ==> m.c == Failing(s) && !s.workers[m.t].pc.Idle? && !s.workers[m.t].pc.Sleep?
    requires m.Collect? ==> !s.collector.Between?
    ensures Left(s') < Left(s)
  {
    var h: nat :| OnlyHolder(s, h) && TableInv(s, HolderPC(s, h));
    if m.Work? {
      SameCollector(s, s', m.t, m.c);
      WorkerRest(s, m.t, |s.workers|);
      if !s.collector.Between? { WorkerLeavesBucket(s, s', m.t, m.c, s.collector.b); }
    } else {
      CollectorAdvances(s, m, s');
      CollectorOnlyFrees(s, s');
    }
  }

  /**
    No request is ever stuck, not even in a loop: from every reachable state the requests under
    way can be brought to their ends, without any timeout and even if everything fails. Then
    every entry is complete or cancelled and no entry has a reference left.
   */
  lemma {:induction false} WindsDown(tr: seq<Sys>, ms: seq<Move>, n: nat, k: nat)
    returns (tr': seq<Sys>, ms': seq<Move>)
    requires IsRun(tr, ms, n) && k <= |ms| && OnlyEnds(tr, ms, k)
    ensures IsRun(tr', ms', n) && tr <= tr' && ms <= ms' && OnlyEnds(tr', ms', k) && AllIdle(tr'[|ms'|])
    ensures forall e :: 0 <= e < |tr'[|ms'|].heap| ==>
      tr'[|ms'|].heap[e].state != Incomplete && tr'[|ms'|].heap[e].refcount == 0
    decreases Left(tr[|ms|])
  {
    tr', ms' := tr, ms;
    if AllIdle(tr[|ms|]) {
      ReachableGood(tr, ms, n, |ms|);
      AtRest(tr[|ms|]);
    } else {
      tr', ms' := Nearer(tr, ms, n, k);
      tr', ms' := WindsDown(tr', ms', n, k);
    }
  }

  /** One step towards the end of the requests. */
  lemma Nearer(tr: seq<Sys>, ms: seq<Move>, n: nat, k: nat) returns (tr': seq<Sys>, ms': seq<Move>)
    requires IsRun(tr, ms, n) && k <= |ms| && OnlyEnds(tr, ms, k) && !AllIdle(tr[|ms|])
    ensures IsRun(tr', ms', n) && tr <= tr' && ms <= ms' && OnlyEnds(tr', ms', k)
    ensures 0 <= Left(tr'[|ms'|]) < Left(tr[|ms|])
  {
    var s := tr[|ms|];
    var m := SomeoneBusy(tr, ms, n, |ms|, Failing(s));
    var s' := if m.Work? then WorkerStep(s, m.t, m.c) else CollectorStep(s);
    tr', ms' := OneEnd(tr, ms, n, k, m, s');
    LeftIsNat(tr', ms', n);
    ReachableGood(tr, ms, n, |ms|);
    LeftShrinks(s, m, s');
  }

  lemma OneEnd(tr: seq<Sys>, ms: seq<Move>, n: nat, k: nat, m: Move, s': Sys)
    returns (tr': seq<Sys>, ms': seq<Move>)
    requires IsRun(tr, ms, n) && Moves(tr[|ms|], m, s') && k <= |ms| && OnlyEnds(tr, ms, k)
    requires m.Work? ==> !tr[|ms|].workers[m.t].pc.Idle? && !tr[|ms|].workers[m.t].pc.Sleep?
    ensures IsRun(tr', ms', n) && tr <= tr' && ms <= ms' && OnlyEnds(tr', ms', k) && tr'[|ms'|] == s'
  {
    tr', ms' := OneMove(tr, ms, n, m, s');
  }

  lemma AtRest(s: Sys)
    requires Good(s) && AllIdle(s)
    ensures forall e :: 0 <= e < |s.heap| ==> s.heap[e].state != Incomplete && s.heap[e].refcount == 0
  {
    forall e | 0 <= e < |s.heap| ensures s.heap[e].state != Incomplete && s.heap[e].refcount == 0 {
      assert FilledAt(s, e) && CountOk(s, e);
      SumZero(s.workers, Owing(e));
    }
  }

  /** Every step of a worker moves it on to another program point. */
  lemma StepMoves(s: Sys, t: nat, c: Choice)
    requires WorkerCanStep(s, t, c) && RefOk(s, t)
    ensures t < |WorkerStep(s, t, c).workers| && WorkerStep(s, t, c).workers[t].pc != s.workers[t].pc
  {
    if IsLookup(s.workers[t].pc) {
    } else if IsServe(s.workers[t].pc) {
    } else if IsCreate(s.workers[t].pc) {
    } else if IsFill(s.workers[t].pc) {
    } else {
    }
  }

  // ----- cleaning up -----

  ghost predicate WorkersIdle(s: Sys) {
    forall t :: 0 <= t < |s.workers| ==> s.workers[t].pc.Idle?
  }

  /** A run that goes on with steps of the collector only. */
  ghost predicate CollectorGoesOn(tr: seq<Sys>, ms: seq<Move>, tr': seq<Sys>, ms': seq<Move>) {
    tr <= tr' && ms <= ms' && |tr| == |ms| + 1 && |tr'| == |ms'| + 1 &&
    (forall i :: |ms| <= i < |ms'| ==> ms'[i].Collect?) && OnlyFreed(tr[|ms|], tr'[|ms'|]) &&
    forall e :: 0 <= e < |tr[|ms|].heap| && tr[|ms|].heap[e].freed ==> tr'[|ms'|].heap[e].freed
  }

  lemma GoesOnTwice(tr: seq<Sys>, ms: seq<Move>, tr': seq<Sys>, ms': seq<Move>, tr'': seq<Sys>, ms'': seq<Move>)
    requires CollectorGoesOn(tr, ms, tr', ms') && CollectorGoesOn(tr', ms', tr'', ms'')
    ensures CollectorGoesOn(tr, ms, tr'', ms'')
  {
    forall i | |ms| <= i < |ms''| ensures ms''[i].Collect? {
      if i < |ms'| { assert ms''[i] == ms'[i]; }
    }
    var s, s', s'' := tr[|ms|], tr'[|ms'|], tr''[|ms''|];
    forall e | 0 <= e < |s.heap| ensures s''.heap[e] == s.heap[e].(freed := s''.heap[e].freed) {
      assert s'.heap[e] == s.heap[e].(freed := s'.heap[e].freed);
    }
  }

  /** While no worker is at work the collector can always step. */
  lemma Collects(tr: seq<Sys>, ms: seq<Move>, n: nat) returns (tr': seq<Sys>, ms': seq<Move>)
    requires IsRun(tr, ms, n) && WorkersIdle(tr[|ms|])
    ensures IsRun(tr', ms', n) && CollectorGoesOn(tr, ms, tr', ms') && |ms'| == |ms| + 1
    ensures tr'[|ms'|] == CollectorStep(tr[|ms|])
  {
    var s := tr[|ms|];
    assert CollectorCanStep(s);
    tr', ms' := OneMove(tr, ms, n, Collect, CollectorStep(s));
    CollectorOnlyFrees(s, CollectorStep(s));
  }

  /** The collector comes to the end of its bucket and goes on to the next one. */
  lemma {:induction false} LeavesBucket(tr: seq<Sys>, ms: seq<Move>, n: nat) returns (tr': seq<Sys>, ms': seq<Move>)
    requires IsRun(tr, ms, n) && WorkersIdle(tr[|ms|]) && !tr[|ms|].collector.Between?
    ensures IsRun(tr', ms', n) && CollectorGoesOn(tr, ms, tr', ms')
    ensures tr'[|ms'|].collector == Between((tr[|ms|].collector.b + 1) % MAX_BUCKETS)
    decreases CollectorWork(tr[|ms|])
  {
    var tr1, ms1 := Collects(tr, ms, n);
    var s, s' := tr[|ms|], tr1[|ms1|];
    ReachableGood(tr, ms, n, |ms|);
    CollectorAdvances(s, Collect, s');
    tr', ms' := tr1, ms1;
    if !s'.collector.Between? {
      CollectorIsShort(tr, ms, n, |ms|, |ms|);
      tr', ms' := LeavesBucket(tr1, ms1, n);
      GoesOnTwice(tr, ms, tr1, ms1, tr', ms');
    }
  }

  /** No cancelled entry of bucket b is left. */
  ghost predicate Swept(s: Sys, b: nat) {
    forall e :: 0 <= e < |s.heap| && s.heap[e].state == Cancelled && s.heap[e].key.bucket == b ==> s.heap[e].freed
  }

  lemma Sweeps(tr: seq<Sys>, ms: seq<Move>, n: nat) returns (tr': seq<Sys>, ms': seq<Move>)
    requires IsRun(tr, ms, n) && AllIdle(tr[|ms|])
    ensures IsRun(tr', ms', n) && CollectorGoesOn(tr, ms, tr', ms') && AllIdle(tr'[|ms'|])
    ensures tr'[|ms'|].collector == Between((tr[|ms|].collector.b + 1) % MAX_BUCKETS)
    ensures Swept(tr'[|ms'|], tr[|ms|].collector.b)
  {
    var s, b := tr[|ms|], tr[|ms|].collector.b;
    var tr1, ms1 := Collects(tr, ms, n);
    tr', ms' := LeavesBucket(tr1, ms1, n);
    GoesOnTwice(tr, ms, tr1, ms1, tr', ms');
    forall e | 0 <= e < |s.heap| && s.heap[e].state == Cancelled && s.heap[e].key.bucket == b && !s.heap[e].freed
      ensures tr'[|ms'|].heap[e].freed
    {
      ReachableGood(tr, ms, n, |ms|);
      AtRest(s);
      BucketsAndLruAgree(tr, ms, n, |ms|, e);
      assert tr1[|ms1|] == tr'[|ms1|];
      CollectorReclaims(tr', ms', n, |ms1|, |ms'|, b, e);
    }
  }

  /** After k buckets those are swept. */
  lemma {:induction false} SweepsMany(tr: seq<Sys>, ms: seq<Move>, n: nat, k: nat)
    returns (tr': seq<Sys>, ms': seq<Move>)
    requires IsRun(tr, ms, n) && AllIdle(tr[|ms|])
    ensures IsRun(tr', ms', n) && CollectorGoesOn(tr, ms, tr', ms') && AllIdle(tr'[|ms'|])
    ensures tr'[|ms'|].collector.b == Around(tr[|ms|].collector.b, k)
    ensures forall d :: 0 <= d < k ==> Swept(tr'[|ms'|], Around(tr[|ms|].collector.b, d))
  {
    RoundAndRound(tr, ms, n, |ms|);
    if k == 0 {
      tr', ms' := tr, ms;
    } else {
      var tr1, ms1 := SweepsMany(tr, ms, n, k - 1);
      tr', ms' := Sweeps(tr1, ms1, n);
      GoesOnTwice(tr, ms, tr1, ms1, tr', ms');
      AroundNext(tr[|ms|].collector.b, k - 1);
      forall d | 0 <= d < k ensures Swept(tr'[|ms'|], Around(tr[|ms|].collector.b, d)) {
        if d < k - 1 { StaysSwept(tr1, ms1, tr', ms', Around(tr[|ms|].collector.b, d)); }
      }
    }
  }

  lemma StaysSwept(tr: seq<Sys>, ms: seq<Move>, tr': seq<Sys>, ms': seq<Move>, b: nat)
    requires CollectorGoesOn(tr, ms, tr', ms') && Swept(tr[|ms|], b)
    ensures Swept(tr'[|ms'|], b)
  {
    forall e | 0 <= e < |tr'[|ms'|].heap| && tr'[|ms'|].heap[e].state == Cancelled && tr'[|ms'|].heap[e].key.bucket == b
      ensures tr'[|ms'|].heap[e].freed
    {
      assert tr'[|ms'|].heap[e] == tr[|ms|].heap[e].(freed := tr'[|ms'|].heap[e].freed);
    }
  }

  /** The entry has no reference; it is complete and in its bucket, or it has been freed. */
  ghost predicate KeptOrFreed(s: Sys, e: nat) {
    e < |s.heap| && s.heap[e].refcount == 0 && (s.heap[e].state == Complete <==> InChain(s, e)) &&
    (s.heap[e].state != Complete <==> s.heap[e].freed)
  }

  /**
    Nothing leaks: from every reachable state the requests under way can be brought to their
    ends and the collector can go round once. Then exactly the complete entries are in the
    buckets, without references, and every other entry has been freed.
   */
  lemma CleansUp(tr: seq<Sys>, ms: seq<Move>, n: nat) returns (tr': seq<Sys>, ms': seq<Move>)
    requires IsRun(tr, ms, n)
    ensures IsRun(tr', ms', n) && tr <= tr' && ms <= ms' && AllIdle(tr'[|ms'|])
    ensures forall e :: 0 <= e < |tr'[|ms'|].heap| ==> KeptOrFreed(tr'[|ms'|], e)
  {
    var tr1, ms1 := WindsDown(tr, ms, n, |ms|);
    tr', ms' := SweepsMany(tr1, ms1, n, MAX_BUCKETS);
    var s, b := tr'[|ms'|], tr1[|ms1|].collector.b;
    ReachableGood(tr', ms', n, |ms'|);
    AtRest(s);
    RoundAndRound(tr1, ms1, n, |ms1|);
    forall e | 0 <= e < |s.heap| ensures KeptOrFreed(s, e) {
      BucketsAndLruAgree(tr', ms', n, |ms'|, e);
      assert DoneOk(s.heap[e]) && ChainOk(s, s.heap[e].key.bucket);
      var d := AroundTo(b, s.heap[e].key.bucket);
      assert Swept(s, Around(b, d));
    }
  }
}
