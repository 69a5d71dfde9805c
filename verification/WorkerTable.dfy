/**
  A pool worker's table of clients: two parallel arrays that the acceptor appends to while
  the worker polls a copy, and that the worker then writes back and compacts in place.
 */
module WorkerTable {
  import opened Basics
  import opened Filters
  import opened ThreadPool

  class Connection {
    var sockFd: int

    constructor (fd: int)
      ensures sockFd == fd
    {
      sockFd := fd;
    }
  }

  /** What poll reports for a descriptor. */
  datatype Events = Events(err: bool, nval: bool, readable: bool, hup: bool)

  datatype PollFd = PollFd(fd: int, revents: Events)

  const NOTHING: Events := Events(false, false, false, false)

  /** The descriptor after handling what poll reported; a request may keep the connection open. */
  function Handled(fd: int, ev: Events, keep: bool): (r: int)
    ensures r >= 0 <==> fd >= 0 && !ev.err && !ev.nval && (ev.readable ==> keep) && (ev.hup ==> ev.readable)
    ensures r >= 0 ==> r == fd
  {
    if ev.err || ev.nval then -1
    else if ev.readable then (if keep then fd else -1)
    else if ev.hup then -1
    else fd
  }

  /** All arrivals in one sequence. */
  ghost function Concat(arrivals: seq<seq<int>>): seq<int> {
    if arrivals == [] then [] else Concat(arrivals[..|arrivals| - 1]) + arrivals[|arrivals| - 1]
  }

  /** One line of the table. */
  datatype Slot = Slot(poll: PollFd, conn: Connection)

  /** memmove: elements i+1 to n-1 move down by one. */
  method ShiftDown<T>(a: array<T>, i: nat, n: nat)
    requires i < n <= a.Length
    modifies a
    ensures forall j :: 0 <= j < a.Length ==> a[j] == old(a[if i <= j < n - 1 then j + 1 else j])
  {
    forall j | i <= j < n - 1 {
      a[j] := a[j + 1];
    }
  }

  /** The same clients, with what poll reported for each. */
  ghost predicate Reported(t: seq<Slot>, revents: seq<Events>, polled: seq<Slot>) {
    |polled| == |revents| == |t| &&
    forall i :: 0 <= i < |t| ==> polled[i] == Slot(PollFd(t[i].poll.fd, revents[i]), t[i].conn)
  }

  class Worker {
    const fds: array<PollFd>
    const connections: array<Connection?>
    var nfds: nat

    ghost predicate Valid()
      reads this, fds, connections
    {
      fds.Length == MAX_CLIENTS && connections.Length == MAX_CLIENTS && nfds <= MAX_CLIENTS &&
      (forall i :: 0 <= i < nfds ==> connections[i] != null) &&
      forall i, j :: 0 <= i < j < nfds ==> connections[i] != connections[j]
    }

    /** The lines of the table; both arrays are read at the same index. */
    ghost function Table(): (t: seq<Slot>)
      requires Valid()
      reads this, fds, connections
      ensures |t| == nfds
    {
      seq(nfds, i requires Valid() && 0 <= i < nfds reads this, fds, connections => Slot(fds[i], connections[i]))
    }

    constructor ()
      ensures Valid() && Table() == [] && fresh(fds) && fresh(connections)
    {
      fds := new PollFd[MAX_CLIENTS](_ => PollFd(0, NOTHING));
      connections := new Connection?[MAX_CLIENTS](_ => null);
      nfds := 0;
    }

    /** add_client_to_worker: refused exactly when the table is full, else the client becomes the last line. */
    method AddClient(fd: int) returns (ok: bool)
      requires Valid()
      modifies this, fds, connections
      ensures Valid() && ok == (old(nfds) < 64)
      ensures !ok ==> Table() == old(Table())
      ensures ok ==> nfds == old(nfds) + 1 && Table()[..old(nfds)] == old(Table())
      ensures ok ==> var s := Table()[old(nfds)];
        fresh(s.conn) && s.conn.sockFd == fd && s.poll == PollFd(fd, NOTHING)
    {
      if nfds >= MAX_CLIENTS {
        return false;
      }
      var idx := nfds;
      nfds := nfds + 1;
      fds[idx] := PollFd(fd, NOTHING);
      var conn := new Connection(fd);
      connections[idx] := conn;
      return true;
    }

    /** Remove line i by moving the later ones down. */
    method RemoveAt(i: nat)
      requires Valid() && i < nfds
      modifies this, fds, connections
      ensures Valid() && Table() == Without(old(Table()), i)
    {
      ShiftDown(fds, i, nfds);
      ShiftDown(connections, i, nfds);
      nfds := nfds - 1;
    }

    /** The lines whose connection was closed. */
    static ghost function Closed(t: seq<Slot>): set<Slot>
      reads set s | s in t :: s.conn
    {
      set s | s in t && s.conn.sockFd < 0
    }

    /** No client is lost or kept twice: what compaction leaves are the open lines, each once. */
    static lemma ExactlyTheOpen(t: seq<Slot>)
      requires Distinct(t)
      ensures Distinct(FilterOut(t, Closed(t)))
      ensures forall s :: s in FilterOut(t, Closed(t)) <==> s in t && s.conn.sockFd >= 0
    {
      FilterDistinct(t, Closed(t));
      forall i | 0 <= i < |FilterOut(t, Closed(t))|
        ensures FilterOut(t, Closed(t))[i] in t && FilterOut(t, Closed(t))[i].conn.sockFd >= 0
      {
        FilterSound(t, Closed(t), i);
      }
      forall s | s in t && s.conn.sockFd >= 0 ensures s in FilterOut(t, Closed(t)) {
        FilterComplete(t, Closed(t), s);
      }
    }

    /** The clean-up loop: the table keeps exactly the open connections, in their order. */
    method Compact()
      requires Valid()
      modifies this, fds, connections
      ensures Valid() && Table() == FilterOut(old(Table()), old(Closed(Table())))
    {
      ghost var dead := Closed(Table());
      var i: nat := 0;
      while i < nfds
        invariant Valid() && i <= nfds
        invariant FilterOut(Table(), dead) == FilterOut(old(Table()), dead)
        invariant forall s :: s in Table() ==> s in old(Table())
        invariant forall j :: 0 <= j < i ==> Table()[j] !in dead
        decreases nfds - i
      {
        assert Table()[i] in old(Table());
        if connections[i].sockFd < 0 {
          ghost var t := Table();
          FilterWithout(t, i, dead);
          RemoveAt(i);
        } else {
          i := i + 1;
        }
      }
      FilterNone(Table(), dead);
    }

    /** The copies that the worker polls after it has released the lock. */
    method Snapshot() returns (fdsLocal: seq<PollFd>, connLocal: seq<Connection>)
      requires Valid()
      ensures |fdsLocal| == |connLocal| == nfds
      ensures forall i :: 0 <= i < nfds ==> Table()[i] == Slot(fdsLocal[i], connLocal[i])
    {
      fdsLocal := fds[..nfds];
      connLocal := connections[..nfds];
    }

    /** memcpy of the copies back over the first lines; the acceptor may have added lines behind them. */
    method WriteBack(fdsLocal: seq<PollFd>, connLocal: seq<Connection>)
      requires Valid() && |fdsLocal| == |connLocal| <= nfds
      requires forall i :: 0 <= i < |connLocal| ==> connections[i] == connLocal[i]
      modifies fds, connections
      ensures Valid() && |Table()| == |old(Table())|
      ensures forall i :: 0 <= i < nfds ==>
        Table()[i] == if i < |fdsLocal| then Slot(fdsLocal[i], connLocal[i]) else old(Table()[i])
    {
      forall i | 0 <= i < |fdsLocal| {
        fds[i] := fdsLocal[i];
      }
      forall i | 0 <= i < |connLocal| {
        connections[i] := connLocal[i];
      }
    }

    // ----- one round of client_worker_main -----

    /** The lines added for the arrivals: all of them, or as many as there was room for. */
    static ghost predicate Admitted(added: seq<Slot>, arrivals: seq<int>, used: nat)
      reads set s | s in added :: s.conn
    {
      used <= MAX_CLIENTS &&
      |added| == (if used + |arrivals| <= MAX_CLIENTS then |arrivals| else MAX_CLIENTS - used) &&
      forall j :: 0 <= j < |added| ==>
        added[j].poll == PollFd(arrivals[j], NOTHING) && added[j].conn.sockFd == arrivals[j]
    }

    /** Two batches of arrivals, one after the other, are one batch. */
    static lemma AdmittedTwice(a: seq<Slot>, b: seq<Slot>, x: seq<int>, y: seq<int>, used: nat)
      requires Admitted(a, x, used) && used + |a| <= MAX_CLIENTS && Admitted(b, y, used + |a|)
      ensures Admitted(a + b, x + y, used)
    {
    }

    /** One arrival; it is turned away when the table is full. */
    method AddOne(fd: int) returns (ghost added: seq<Slot>)
      requires Valid()
      modifies this, fds, connections
      ensures Valid() && Table() == old(Table()) + added && Admitted(added, [fd], old(nfds))
      ensures forall s <- added :: fresh(s.conn)
    {
      var ok := AddClient(fd);
      added := if ok then [Table()[nfds - 1]] else [];
    }

    /** Clients that the acceptor hands over one after the other; the first ones fit. */
    method AddAll(arrivals: seq<int>) returns (ghost added: seq<Slot>)
      requires Valid()
      modifies this, fds, connections
      ensures Valid() && Table() == old(Table()) + added && Admitted(added, arrivals, old(nfds))
      ensures forall s <- added :: fresh(s.conn)
    {
      added := [];
      for i := 0 to |arrivals|
        invariant Valid() && Table() == old(Table()) + added && Admitted(added, arrivals[..i], old(nfds))
        invariant forall s <- added :: fresh(s.conn)
      {
        ghost var a := AddOne(arrivals[i]);
        assert arrivals[..i + 1] == arrivals[..i] + [arrivals[i]];
        AdmittedTwice(added, a, arrivals[..i], [arrivals[i]], old(nfds));
        added := added + a;
      }
      assert arrivals[..|arrivals|] == arrivals;
    }

    method Handle(conn: Connection, ev: Events, keep: bool)
      modifies conn
      ensures conn.sockFd == Handled(old(conn.sockFd), ev, keep)
    {
      if ev.err || ev.nval {
        conn.sockFd := -1;
      } else if ev.readable {
        if !keep {
          conn.sockFd := -1;
        }
      } else if ev.hup {
        conn.sockFd := -1;
      }
    }

    ghost function Clients(): set<Connection>
      requires Valid()
      reads this, fds, connections
    {
      set s | s in Table() :: s.conn
    }

    /**
      Handle the clients of the snapshot one by one, while the acceptor adds arrivals[i] before
      client i is handled and the last batch after all: its lines stay behind those of the snapshot.
     */
    method HandleAll(connLocal: seq<Connection>, revents: seq<Events>, keeps: seq<bool>, arrivals: seq<seq<int>>)
      returns (ghost added: seq<Slot>)
      requires Valid() && |connLocal| == |revents| == |keeps| == nfds && |arrivals| == nfds + 1
      requires forall i :: 0 <= i < nfds ==> Table()[i].conn == connLocal[i]
      modifies this, fds, connections, Clients()
      ensures Valid() && Table() == old(Table()) + added && Admitted(added, Concat(arrivals), old(nfds))
      ensures forall s <- added :: fresh(s.conn)
      ensures forall i :: 0 <= i < old(nfds) ==>
        connLocal[i].sockFd == Handled(old(connLocal[i].sockFd), revents[i], keeps[i])
    {
      var n := nfds;
      added := HandleEach(connLocal, revents, keeps, arrivals[..n]);
      ghost var a := AddAll(arrivals[n]);
      AdmittedTwice(added, a, Concat(arrivals[..n]), arrivals[n], n);
      added := added + a;
    }

    /** The loop over the snapshot. */
    method HandleEach(connLocal: seq<Connection>, revents: seq<Events>, keeps: seq<bool>, arrivals: seq<seq<int>>)
      returns (ghost added: seq<Slot>)
      requires Valid() && |connLocal| == |revents| == |keeps| == |arrivals| == nfds
      requires forall i :: 0 <= i < nfds ==> Table()[i].conn == connLocal[i]
      modifies this, fds, connections, Clients()
      ensures Valid() && Table() == old(Table()) + added && Admitted(added, Concat(arrivals), old(nfds))
      ensures forall s <- added :: fresh(s.conn)
      ensures forall i :: 0 <= i < old(nfds) ==>
        connLocal[i].sockFd == Handled(old(connLocal[i].sockFd), revents[i], keeps[i])
    {
      added := [];
      var n := nfds;
      for i := 0 to n
        invariant Valid() && Table() == old(Table()) + added && Admitted(added, Concat(arrivals[..i]), n)
        invariant forall s <- added :: fresh(s.conn)
        invariant forall j :: 0 <= j < n ==>
          connLocal[j].sockFd ==
            if j < i then Handled(old(connLocal[j].sockFd), revents[j], keeps[j]) else old(connLocal[j].sockFd)
      {
        ghost var a := AddAll(arrivals[i]);
        assert arrivals[..i + 1][..i] == arrivals[..i];
        AdmittedTwice(added, a, Concat(arrivals[..i]), arrivals[i], n);
        added := added + a;
        Handle(connLocal[i], revents[i], keeps[i]);
      }
      assert arrivals[..n] == arrivals;
    }

    /** The write-back leaves the acceptor's lines alone. */
    method Update(fdsLocal: seq<PollFd>, connLocal: seq<Connection>, ghost added: seq<Slot>)
      returns (ghost polled: seq<Slot>)
      requires Valid() && |fdsLocal| == |connLocal| <= nfds && Table()[|connLocal|..] == added
      requires forall i :: 0 <= i < |connLocal| ==> Table()[i].conn == connLocal[i]
      modifies fds, connections
      ensures Valid() && Table() == polled + added && |polled| == |connLocal|
      ensures forall i :: 0 <= i < |polled| ==> polled[i] == Slot(fdsLocal[i], connLocal[i])
    {
      assert forall i :: 0 <= i < |connLocal| ==> Table()[i].conn == connections[i];
      polled := seq(|connLocal|, i requires 0 <= i < |connLocal| => Slot(fdsLocal[i], connLocal[i]));
      assert forall i :: 0 <= i < |added| ==> added[i] == Table()[|connLocal| + i];
      WriteBack(fdsLocal, connLocal);
      assert Table() == polled + added;
    }

    /** The round up to the clean-up loop: copy the table, handle the copy, write it back. */
    method Serve(revents: seq<Events>, keeps: seq<bool>, arrivals: seq<seq<int>>)
      returns (ghost polled: seq<Slot>, ghost added: seq<Slot>)
      requires Valid() && |revents| == |keeps| == nfds && |arrivals| == nfds + 1
      modifies this, fds, connections, Clients()
      ensures Valid() && Admitted(added, Concat(arrivals), old(nfds))
      ensures Reported(old(Table()), revents, polled)
      ensures forall i :: 0 <= i < |polled| ==>
        polled[i].conn.sockFd == Handled(old(Table()[i].conn.sockFd), revents[i], keeps[i])
      ensures Table() == polled + added && Distinct(polled + added) && forall s <- added :: fresh(s.conn)
    {
      ghost var t := Table();
      var n := nfds;
      var fdsLocal, connLocal := Snapshot();
      fdsLocal := seq(n, i requires 0 <= i < n => PollFd(fdsLocal[i].fd, revents[i]));
      added := HandleAll(connLocal, revents, keeps, arrivals);
      polled := Update(fdsLocal, connLocal, added);
      assert Reported(t, revents, polled);
    }

    /**
      One round of the worker after a poll that reported something: copy the table, handle the
      copy while clients arrive, write the copy back, compact. Afterwards the table holds, in
      their order, exactly the old and the newly added clients that are still connected.
     */
    method Round(revents: seq<Events>, keeps: seq<bool>, arrivals: seq<seq<int>>)
      returns (ghost polled: seq<Slot>, ghost added: seq<Slot>)
      requires Valid() && |revents| == |keeps| == nfds && |arrivals| == nfds + 1
      modifies this, fds, connections, Clients()
      ensures Valid() && Admitted(added, Concat(arrivals), old(nfds))
      ensures Reported(old(Table()), revents, polled)
      ensures forall i :: 0 <= i < |polled| ==>
        polled[i].conn.sockFd == Handled(old(Table()[i].conn.sockFd), revents[i], keeps[i])
      ensures Table() == FilterOut(polled + added, Closed(polled + added))
      ensures Distinct(polled + added) && forall s <- added :: fresh(s.conn)
      ensures forall s :: s in Table() <==> s in polled + added && s.conn.sockFd >= 0
      ensures forall i :: 0 <= i < |polled| ==>
        (polled[i] in Table() <==>
          old(Table()[i].conn.sockFd) >= 0 && !revents[i].err && !revents[i].nval &&
          (revents[i].readable ==> keeps[i]) && (revents[i].hup ==> revents[i].readable))
      ensures forall i :: 0 <= i < |polled| && polled[i] in Table() ==>
        polled[i].conn == old(Table()[i].conn) && polled[i].conn.sockFd == old(Table()[i].conn.sockFd)
    {
      polled, added := Serve(revents, keeps, arrivals);
      Compact();
      ExactlyTheOpen(polled + added);
    }
  }
}
