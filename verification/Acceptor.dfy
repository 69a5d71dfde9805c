/** The acceptor's side of the pool: choose a worker by load and hand it the client. */
module Acceptor {
  import opened ThreadPool
  import opened WorkerTable

  class Acceptor {
    const workers: seq<Worker>
    var lastWorker: nat
    /** The workers with their tables. */
    ghost const repr: set<object>

    ghost predicate Valid()
      reads repr
    {
      this !in repr && |workers| == MAX_WORKERS && Separate(workers) &&
      forall w <- workers :: w in repr && w.fds in repr && w.connections in repr && w.Valid()
    }

    /** No two workers share a table. */
    static ghost predicate Separate(workers: seq<Worker>) {
      forall v, w :: 0 <= v < w < |workers| ==>
        workers[v] != workers[w] && workers[v].fds != workers[w].fds && workers[v].connections != workers[w].connections
    }

    /** The tables of all workers. */
    ghost function Tables(): (r: seq<seq<Slot>>)
      requires Valid()
      reads repr
      ensures |r| == MAX_WORKERS
    {
      seq(MAX_WORKERS, w requires Valid() && 0 <= w < MAX_WORKERS reads repr => workers[w].Table())
    }

    /** How many clients each worker has. */
    ghost function Loads(): (r: seq<nat>)
      reads workers
      ensures |r| == |workers|
    {
      seq(|workers|, w requires 0 <= w < |workers| reads workers => workers[w].nfds)
    }

    /** threadpool_init: eight workers without clients. */
    constructor ()
      ensures Valid() && lastWorker == 0 && fresh(repr)
      ensures forall w <- workers :: w.Table() == []
      ensures Pool(Loads(), lastWorker) == EMPTY
    {
      var ws: seq<Worker> := [];
      ghost var r: set<object> := {};
      for i := 0 to MAX_WORKERS
        invariant |ws| == i && fresh(r) && Separate(ws)
        invariant forall w <- ws :: w in r && w.fds in r && w.connections in r && w.Valid() && w.Table() == []
      {
        var w := new Worker();
        ws, r := ws + [w], r + {w} + {w.fds} + {w.connections};
      }
      workers, repr := ws, r;
      lastWorker := 0;
      new;
      forall w | 0 <= w < MAX_WORKERS ensures Loads()[w] == 0 {
        assert workers[w] in workers && |workers[w].Table()| == 0;
      }
    }

    /** The picked worker takes the client unless it is full; nobody else is concerned. */
    method HandOver(fd: int, best: nat) returns (ok: bool)
      requires Valid() && best < MAX_WORKERS
      modifies repr
      ensures Valid() && ok == (old(workers[best].nfds) < MAX_CLIENTS)
      ensures Tables() == if ok then old(Tables())[best := Tables()[best]] else old(Tables())
      ensures ok ==> var t := Tables()[best];
        |t| > 0 && t[..|t| - 1] == old(Tables()[best]) &&
        fresh(t[|t| - 1].conn) && t[|t| - 1].conn.sockFd == fd && t[|t| - 1].poll.fd == fd
      ensures Loads() == if ok then old(Loads())[best := old(Loads())[best] + 1] else old(Loads())
    {
      ghost var before := Loads();
      ok := workers[best].AddClient(fd);
      forall w | 0 <= w < MAX_WORKERS ensures Loads()[w] == before[w] + (if ok && w == best then 1 else 0) {
        assert |workers[w].Table()| == Loads()[w];
      }
      Counted(before, Loads(), best, ok);
    }

    /**
      threadpool_add_client. The loads were sampled worker by worker; since then clients may have
      left but, with a single acceptor, none has been added. So a refusal means that every worker
      was sampled full. If no client has left either, this is an arrival of an add-only run.
     */
    method AddClient(fd: int, sampled: seq<nat>) returns (ok: bool)
      requires Valid() && |sampled| == MAX_WORKERS
      requires forall w :: 0 <= w < MAX_WORKERS ==> workers[w].nfds <= sampled[w] <= MAX_CLIENTS
      modifies this, repr
      ensures Valid() && FirstLeast(sampled, old(lastWorker), lastWorker)
      ensures !ok ==> forall w :: 0 <= w < MAX_WORKERS ==> sampled[w] == MAX_CLIENTS
      ensures Tables() == if ok then old(Tables())[lastWorker := Tables()[lastWorker]] else old(Tables())
      ensures ok ==> var t := Tables()[lastWorker];
        |t| > 0 && t[..|t| - 1] == old(Tables())[lastWorker] &&
        fresh(t[|t| - 1].conn) && t[|t| - 1].conn.sockFd == fd && t[|t| - 1].poll.fd == fd
      ensures sampled == old(Loads()) ==> Arrival(old(Pool(Loads(), lastWorker)), Pool(Loads(), lastWorker), ok)
    {
      var best;
      ok, best := Place(fd, sampled);
      lastWorker := best;
    }

    /** What threadpool_add_client does to the workers. */
    method Place(fd: int, sampled: seq<nat>) returns (ok: bool, best: nat)
      requires Valid() && |sampled| == MAX_WORKERS
      requires forall w :: 0 <= w < MAX_WORKERS ==> workers[w].nfds <= sampled[w] <= MAX_CLIENTS
      modifies repr
      ensures Valid() && FirstLeast(sampled, lastWorker, best)
      ensures !ok ==> forall w :: 0 <= w < MAX_WORKERS ==> sampled[w] == MAX_CLIENTS
      ensures Tables() == if ok then old(Tables())[best := Tables()[best]] else old(Tables())
      ensures ok ==> var t := Tables()[best];
        |t| > 0 && t[..|t| - 1] == old(Tables())[best] &&
        fresh(t[|t| - 1].conn) && t[|t| - 1].conn.sockFd == fd && t[|t| - 1].poll.fd == fd
      ensures sampled == old(Loads()) ==> Arrival(old(Pool(Loads(), lastWorker)), Pool(Loads(), best), ok)
    {
      ghost var p := Pool(Loads(), lastWorker);
      best := PickWorker(sampled, lastWorker);
      ok := HandOver(fd, best);
      Picked(sampled, p, Pool(Loads(), best), ok);
    }

    /** The picked worker has the least load of the sample. */
    static lemma Picked(sampled: seq<nat>, p: Pool, p': Pool, ok: bool)
      requires FirstLeast(sampled, p.last, p'.last) && forall w :: 0 <= w < MAX_WORKERS ==> sampled[w] <= MAX_CLIENTS
      requires |p.loads| == MAX_WORKERS && p.loads[p'.last] <= sampled[p'.last]
      requires ok == (p.loads[p'.last] < MAX_CLIENTS)
      requires p'.loads == if ok then p.loads[p'.last := p.loads[p'.last] + 1] else p.loads
      ensures !ok ==> forall w :: 0 <= w < MAX_WORKERS ==> sampled[w] == MAX_CLIENTS
      ensures sampled == p.loads ==> Arrival(p, p', ok)
    {
    }

    static lemma Counted(before: seq<nat>, after: seq<nat>, best: nat, ok: bool)
      requires |before| == |after| == MAX_WORKERS && best < MAX_WORKERS
      requires forall w :: 0 <= w < MAX_WORKERS ==> after[w] == before[w] + (if ok && w == best then 1 else 0)
      ensures after == if ok then before[best := before[best] + 1] else before
    {
    }

    /**
      The accept loop from the empty pool on, while no client leaves: exactly the first 512
      clients are taken, and the loads go through a run of arrivals.
     */
    method AcceptAll(clients: seq<int>) returns (accepted: seq<bool>, ghost tr: seq<Pool>)
      requires Valid() && Pool(Loads(), lastWorker) == EMPTY
      modifies this, repr
      ensures Valid() && |accepted| == |clients| && IsRun(tr, accepted)
      ensures tr[|clients|] == Pool(Loads(), lastWorker)
      ensures forall k :: 0 <= k < |clients| ==> (accepted[k] <==> k < 512)
    {
      accepted, tr := [], [EMPTY];
      for i := 0 to |clients|
        invariant Valid() && |accepted| == i && IsRun(tr, accepted) && tr[i] == Pool(Loads(), lastWorker)
      {
        var sampled := seq(MAX_WORKERS, w requires 0 <= w < |workers| reads workers => workers[w].nfds);
        assert sampled == Loads() && forall w :: 0 <= w < MAX_WORKERS ==> workers[w].Valid();
        var ok := AddClient(clients[i], sampled);
        ghost var p := Pool(Loads(), lastWorker);
        OneMoreArrival(tr, accepted, p, ok);
        accepted, tr := accepted + [ok], tr + [p];
      }
      forall k | 0 <= k < |clients| ensures accepted[k] <==> k < 512 {
        RoundRobin(tr, accepted, k);
      }
    }
  }
}
