/**
  The thread pool's choice of a worker for a new client, and what it does to the loads of the
  workers when clients only arrive.
 */
module ThreadPool {
  import opened Sums

  const MAX_WORKERS: nat := 8
  const MAX_CLIENTS: nat := 64

  /** The i-th worker that is looked at after the one picked last. */
  function Turn(last: nat, i: nat): (w: nat)
    ensures w < MAX_WORKERS
  {
    ((last + 1) % MAX_WORKERS + i) % MAX_WORKERS
  }

  /** The worker is the first in the rotation among those with the least load. */
  ghost predicate FirstLeast(loads: seq<nat>, last: nat, best: nat) {
    |loads| == MAX_WORKERS && best < MAX_WORKERS && (forall w :: 0 <= w < MAX_WORKERS ==> loads[best] <= loads[w]) &&
    exists i :: 0 <= i < MAX_WORKERS && Turn(last, i) == best && Before(loads, last, best, i)
  }

  /** Whoever comes in the rotation before turn i has a greater load. */
  ghost predicate Before(loads: seq<nat>, last: nat, best: nat, i: nat)
    requires |loads| == MAX_WORKERS && best < MAX_WORKERS
  {
    forall j :: 0 <= j < i ==> loads[Turn(last, j)] > loads[best]
  }

  /** The rotation reaches every worker. */
  lemma TurnOf(last: nat, w: nat) returns (i: nat)
    requires w < MAX_WORKERS
    ensures i < MAX_WORKERS && Turn(last, i) == w
  {
    i := (w + MAX_WORKERS - (last + 1) % MAX_WORKERS) % MAX_WORKERS;
  }

  /** pick_worker, given what each worker's load was when its lock was held. */
  method PickWorker(loads: seq<nat>, last: nat) returns (best: int)
    requires |loads| == MAX_WORKERS && forall w :: 0 <= w < MAX_WORKERS ==> loads[w] <= MAX_CLIENTS
    ensures best >= 0 && FirstLeast(loads, last, best)
  {
    var start := (last + 1) % MAX_WORKERS;
    var least := 0xFFFF_FFFF;
    best := -1;
    ghost var at: nat := 0;
    for i := 0 to MAX_WORKERS
      invariant i == 0 ==> least == 0xFFFF_FFFF
      invariant i > 0 ==> at < i && 0 <= best < MAX_WORKERS && best == Turn(last, at) && least == loads[best]
      invariant forall j :: 0 <= j < i ==> loads[Turn(last, j)] >= least
      invariant i > 0 ==> forall j :: 0 <= j < at ==> loads[Turn(last, j)] > least
    {
      var current := (start + i) % MAX_WORKERS;
      assert current == Turn(last, i);
      if loads[current] < least {
        least, best, at := loads[current], current, i;
      }
    }
    forall w | 0 <= w < MAX_WORKERS ensures loads[best] <= loads[w] {
      var i := TurnOf(last, w);
    }
  }

  lemma FirstLeastUnique(loads: seq<nat>, last: nat, a: nat, b: nat)
    requires FirstLeast(loads, last, a) && FirstLeast(loads, last, b)
    ensures a == b
  {
  }

  // ----- runs in which clients only arrive -----

  /** The loads of the workers and the worker picked last. */
  datatype Pool = Pool(loads: seq<nat>, last: nat)

  const EMPTY: Pool := Pool([0, 0, 0, 0, 0, 0, 0, 0], 0)

  /** threadpool_add_client: the picked worker takes the client unless it is full. */
  ghost predicate Arrival(p: Pool, p': Pool, accepted: bool) {
    FirstLeast(p.loads, p.last, p'.last) && accepted == (p.loads[p'.last] < MAX_CLIENTS) &&
    p'.loads == if accepted then p.loads[p'.last := p.loads[p'.last] + 1] else p.loads
  }

  ghost predicate ArrivalAt(tr: seq<Pool>, accepted: seq<bool>, k: nat) {
    k + 1 < |tr| && k < |accepted| && Arrival(tr[k], tr[k + 1], accepted[k])
  }

  ghost predicate IsRun(tr: seq<Pool>, accepted: seq<bool>) {
    |tr| == |accepted| + 1 && tr[0] == EMPTY &&
    forall k :: 0 <= k < |accepted| ==> ArrivalAt(tr, accepted, k)
  }

  lemma OneMoreArrival(tr: seq<Pool>, accepted: seq<bool>, p: Pool, ok: bool)
    requires IsRun(tr, accepted) && Arrival(tr[|accepted|], p, ok)
    ensures IsRun(tr + [p], accepted + [ok])
  {
    forall k | 0 <= k < |accepted| + 1 ensures ArrivalAt(tr + [p], accepted + [ok], k) {
      if k < |accepted| { assert ArrivalAt(tr, accepted, k); }
    }
  }

  /** The clients of worker w after k arrivals: worker 1 gets the first, 2 the second, 0 the eighth. */
  function Share(k: nat, w: nat): nat
    requires w < MAX_WORKERS
  {
    (k + (MAX_WORKERS - w) % MAX_WORKERS) / MAX_WORKERS
  }

  const FULL: nat := MAX_WORKERS * MAX_CLIENTS

  ghost predicate Shared(p: Pool, k: nat) {
    |p.loads| == MAX_WORKERS && p.last == k % MAX_WORKERS &&
    forall w :: 0 <= w < MAX_WORKERS ==> p.loads[w] == Share(if k < FULL then k else FULL, w)
  }

  /** After q full rounds and r more clients the workers 1 to r have one client more than the others. */
  lemma ShareAt(q: nat, r: nat, w: nat)
    requires r < MAX_WORKERS && w < MAX_WORKERS
    ensures Share(MAX_WORKERS * q + r, w) == if 1 <= w <= r then q + 1 else q
  {
  }

  /** A worker that is first in the rotation and has the least load is picked. */
  lemma FirstIsPicked(loads: seq<nat>, last: nat, best: nat)
    requires FirstLeast(loads, last, best) && forall w :: 0 <= w < MAX_WORKERS ==> loads[Turn(last, 0)] <= loads[w]
    ensures best == Turn(last, 0)
  {
  }

  lemma TurnAfter(k: nat)
    ensures Turn(k % MAX_WORKERS, 0) == (k + 1) % MAX_WORKERS == (k % MAX_WORKERS + 1) % MAX_WORKERS
  {
  }

  /** What the workers have before the k-th arrival. */
  lemma LoadAt(p: Pool, k: nat, w: nat)
    requires Shared(p, k) && w < MAX_WORKERS
    ensures p.loads[w] ==
      if k >= FULL then MAX_CLIENTS else if 1 <= w <= k % MAX_WORKERS then k / MAX_WORKERS + 1 else k / MAX_WORKERS
  {
    if k < FULL {
      ShareAt(k / MAX_WORKERS, k % MAX_WORKERS, w);
    } else {
      ShareAt(MAX_CLIENTS, 0, w);
    }
  }

  /** It is the turn of the next worker in the rotation, which has a least load. */
  lemma NextPicked(p: Pool, p': Pool, accepted: bool, k: nat)
    requires Shared(p, k) && Arrival(p, p', accepted)
    ensures p'.last == (k + 1) % MAX_WORKERS == (k % MAX_WORKERS + 1) % MAX_WORKERS
  {
    TurnAfter(k);
    LoadAt(p, k, Turn(p.last, 0));
    forall w | 0 <= w < MAX_WORKERS ensures p.loads[Turn(p.last, 0)] <= p.loads[w] {
      LoadAt(p, k, w);
    }
    FirstIsPicked(p.loads, p.last, p'.last);
  }

  lemma NextTurn(p: Pool, p': Pool, accepted: bool, k: nat)
    requires Shared(p, k) && Arrival(p, p', accepted)
    ensures Shared(p', k + 1) && (accepted <==> k < FULL)
  {
    NextPicked(p, p', accepted, k);
    LoadAt(p, k, p'.last);
    if k < FULL {
      forall w | 0 <= w < MAX_WORKERS ensures p'.loads[w] == Share(k + 1, w) {
        LoadAt(p, k, w);
        NextShare(k / MAX_WORKERS, k % MAX_WORKERS, w);
      }
    }
  }

  /** One more client is one more for the worker whose turn it is. */
  lemma NextShare(q: nat, r: nat, w: nat)
    requires r < MAX_WORKERS && w < MAX_WORKERS
    ensures Share(MAX_WORKERS * q + r + 1, w) ==
      (if 1 <= w <= r then q + 1 else q) + (if w == (r + 1) % MAX_WORKERS then 1 else 0)
  {
    if r + 1 < MAX_WORKERS {
      ShareAt(q, r + 1, w);
    } else {
      ShareAt(q + 1, 0, w);
    }
  }

  lemma {:induction false} ReachableShared(tr: seq<Pool>, accepted: seq<bool>, k: nat)
    requires IsRun(tr, accepted) && k < |tr|
    ensures Shared(tr[k], k)
  {
    if k > 0 {
      ReachableShared(tr, accepted, k - 1);
      assert ArrivalAt(tr, accepted, k - 1);
      NextTurn(tr[k - 1], tr[k], accepted[k - 1], k - 1);
    }
  }

  /** While no client leaves, the k-th one goes to worker (k + 1) mod 8, and none is refused before all are full. */
  lemma RoundRobin(tr: seq<Pool>, accepted: seq<bool>, k: nat)
    requires IsRun(tr, accepted) && k < |accepted|
    ensures tr[k + 1].last == (k + 1) % 8 && (accepted[k] <==> k < 512)
  {
    ReachableShared(tr, accepted, k);
    assert ArrivalAt(tr, accepted, k);
    NextTurn(tr[k], tr[k + 1], accepted[k], k);
  }

  /** ... so the loads of any two workers differ by at most one, and all clients taken are somewhere. */
  lemma Balanced(tr: seq<Pool>, accepted: seq<bool>, k: nat, v: nat, w: nat)
    requires IsRun(tr, accepted) && k < |tr| && v < MAX_WORKERS && w < MAX_WORKERS
    ensures |tr[k].loads| == MAX_WORKERS && tr[k].loads[v] <= tr[k].loads[w] + 1 && tr[k].loads[w] <= 64
    ensures Sum(tr[k].loads, (n: nat) => n) == if k < 512 then k else 512
  {
    ReachableShared(tr, accepted, k);
    var n := if k < FULL then k else FULL;
    var q, r := n / MAX_WORKERS, n % MAX_WORKERS;
    forall u | 0 <= u < MAX_WORKERS ensures tr[k].loads[u] == if 1 <= u <= r then q + 1 else q {
      ShareAt(q, r, u);
    }
    EightLoads(tr[k].loads, q, r);
  }

  lemma EightLoads(loads: seq<nat>, q: nat, r: nat)
    requires |loads| == MAX_WORKERS && r < MAX_WORKERS
    requires forall u :: 0 <= u < MAX_WORKERS ==> loads[u] == if 1 <= u <= r then q + 1 else q
    ensures Sum(loads, (n: nat) => n) == MAX_WORKERS * q + r
  {
    PartialLoads(loads, q, r, MAX_WORKERS);
    assert loads[..MAX_WORKERS] == loads;
  }

  lemma {:induction false} PartialLoads(loads: seq<nat>, q: nat, r: nat, m: nat)
    requires |loads| == MAX_WORKERS && r < MAX_WORKERS && m <= MAX_WORKERS
    requires forall u :: 0 <= u < MAX_WORKERS ==> loads[u] == if 1 <= u <= r then q + 1 else q
    ensures Sum(loads[..m], (n: nat) => n) == m * q + (if m == 0 then 0 else if m <= r then m - 1 else r)
  {
    if m > 0 {
      PartialLoads(loads, q, r, m - 1);
      assert loads[..m][..m - 1] == loads[..m - 1];
      assert m * q == (m - 1) * q + q;
    }
  }
}
