/** Every step of every thread keeps the invariant of the hand-over-hand list. */
module HandOverHandSteps {
  import opened Basics
  import opened PassSpec
  import opened HandOverHand

  /** Thread t moves on and at most its own record changes; lists and links stay. */
  ghost predicate OwnStep(s: State, s': State, t: nat) {
    t < |s.threads| && !s.threads[t].pc.Idle? && s.threads[t].rank < |s.passes| &&
    s'.first == s.first && |s'.threads| == |s.threads| && s'.threads == s.threads[t := s'.threads[t]] &&
    |s'.passes| == |s.passes| &&
    s'.passes == s.passes[s.threads[t].rank := s'.passes[s.threads[t].rank]] &&
    s'.passes[s.threads[t].rank].tid == t &&
    s'.passes[s.threads[t].rank].kind == s.passes[s.threads[t].rank].kind &&
    s'.threads[t].kind == s.threads[t].kind && s'.threads[t].rank == s.threads[t].rank &&
    s'.threads[t].pos >= s.threads[t].pos
  }

  /** The pass of thread a locked the first node before that of thread b, and their locks conflict. */
  predicate GoesFirst(mode: LockKind, a: Thread, b: Thread) {
    !a.pc.Idle? && Conflict(mode, a.kind, b.kind) && a.rank < b.rank
  }

  /** Nothing that conflicts and started earlier is within the thread's window. */
  ghost predicate RoomAhead(mode: LockKind, s: State, th: Thread, t: nat) {
    forall u :: 0 <= u < |s.threads| && u != t ==>
      (GoesFirst(mode, s.threads[u], th) ==> Ahead(s.threads[u], th))
  }

  lemma OwnStepOrder(mode: LockKind, s: State, s': State, t: nat)
    requires OrderInv(mode, s) && OwnStep(s, s', t)
    requires s'.threads[t].pc.Idle? || RoomAhead(mode, s, s'.threads[t], t)
    ensures OrderInv(mode, s')
  {
    forall a, b | 0 <= a < |s.threads| && 0 <= b < |s.threads| && a != b
      ensures InOrder(mode, s'.threads[a], s'.threads[b])
    {
      assert InOrder(mode, s.threads[a], s.threads[b]);
    }
  }

  lemma OwnStepThreads(mode: LockKind, s: State, s': State, t: nat)
    requires ThreadsInv(s) && OrderInv(mode, s) && OwnStep(s, s', t) && ThreadInv(s', t)
    requires s'.order == s.order
    ensures ThreadsInv(s')
  {
    forall u | 0 <= u < |s.threads| ensures ThreadInv(s', u) {
      if u != t {
        assert ThreadInv(s, u);
        assert InOrder(mode, s.threads[u], s.threads[t]);
      }
    }
  }

  lemma OwnStepHeap(s: State, s': State, t: nat)
    requires HeapInv(s) && OwnStep(s, s', t) && s'.order == s.order && s'.next == s.next
    requires forall i :: Broken(s.threads[t], i) ==> Broken(s'.threads[t], i)
    requires HalfSwapped(s', s'.threads[t])
    ensures HeapInv(s')
  {
    forall i | 0 <= i < |s.order|
      ensures (exists u :: 0 <= u < |s'.threads| && Broken(s'.threads[u], i)) || LinkOk(s', i)
    {
      if LinkOk(s, i) {
        assert LinkOk(s', i);
      } else {
        var u :| 0 <= u < |s.threads| && Broken(s.threads[u], i);
        assert Broken(s'.threads[u], i);
      }
    }
    forall u | 0 <= u < |s.threads| ensures HalfSwapped(s', s'.threads[u]) {
      assert HalfSwapped(s, s.threads[u]);
    }
  }

  lemma OwnStepPasses(mode: LockKind, s: State, s': State, t: nat)
    requires PassesInv(s) && OwnStep(s, s', t) && |s'.order| == |s.order|
    requires PassInv(s', s.threads[t].rank)
    ensures PassesInv(s')
  {
    forall q | 0 <= q < |s.passes| ensures PassInv(s', q) {
      assert PassInv(s, q);
    }
  }

  lemma OwnStepChain(init: seq<Node>, s: State, s': State, t: nat)
    requires ChainInv(init, s) && OwnStep(s, s', t) && s'.order == s.order
    requires var r := s.threads[t].rank;
      Seen(s', s'.passes[r]) == Seen(s, s.passes[r]) && Left(s', s'.passes[r]) == Left(s, s.passes[r])
    ensures ChainInv(init, s')
  {
    forall q | 0 <= q <= |s.passes| ensures Before(init, s', q) == Before(init, s, q) {
    }
    forall q | 0 <= q < |s.passes| ensures Linked(init, s', q) {
      assert Linked(init, s, q);
    }
  }

  /** A conflicting earlier pass that is still under way is strictly ahead, within the list. */
  lemma EarlierIsAhead(mode: LockKind, s: State, q: nat, t: nat)
    requires PassesInv(s) && ThreadsInv(s) && OrderInv(mode, s)
    requires t < |s.threads| && !s.threads[t].pc.Idle? && q < s.threads[t].rank < |s.passes|
    requires !s.passes[q].done && Conflict(mode, s.passes[q].kind, s.threads[t].kind)
    ensures s.threads[t].pos + Width(s.threads[t].pc) + 1 < |s.order|
  {
    assert PassInv(s, q);
    var u := s.passes[q].tid;
    assert ThreadInv(s, u);
    assert InOrder(mode, s.threads[u], s.threads[t]);
  }

  /** A pass that ends stands at the end of the list, so nothing that conflicts is ahead of it. */
  lemma OwnStepDone(mode: LockKind, s: State, s': State, t: nat)
    requires DoneInv(mode, s) && PassesInv(s) && ThreadsInv(s) && OrderInv(mode, s) && OwnStep(s, s', t)
    requires s'.passes[s.threads[t].rank].done ==>
      s.threads[t].pos + Width(s.threads[t].pc) + 1 == |s.order|
    ensures DoneInv(mode, s')
  {
    var r := s.threads[t].rank;
    assert ThreadInv(s, t);
    forall q, k | 0 <= q < k < |s.passes|
      ensures s'.passes[k].done && Conflict(mode, s'.passes[q].kind, s'.passes[k].kind) ==> s'.passes[q].done
    {
      if k == r && Conflict(mode, s.passes[q].kind, s.passes[k].kind) && !s.passes[q].done {
        EarlierIsAhead(mode, s, q, t);
      }
    }
  }

  /** A step that leaves the list order alone keeps the invariant if it keeps the links. */
  lemma AdvanceLinks(mode: LockKind, init: seq<Node>, s: State, s': State, t: nat)
    requires Inv(mode, init, s) && OwnStep(s, s', t)
    requires s'.order == s.order && ListInv(s') && HeapInv(s')
    requires ThreadInv(s', t) && PassInv(s', s.threads[t].rank)
    requires s'.threads[t].pc.Idle? || RoomAhead(mode, s, s'.threads[t], t)
    requires var r := s.threads[t].rank;
      Seen(s', s'.passes[r]) == Seen(s, s.passes[r]) && Left(s', s'.passes[r]) == Left(s, s.passes[r])
    requires s'.passes[s.threads[t].rank].done ==>
      s.threads[t].pos + Width(s.threads[t].pc) + 1 == |s.order|
    ensures Inv(mode, init, s')
  {
    OwnStepOrder(mode, s, s', t);
    OwnStepThreads(mode, s, s', t);
    OwnStepPasses(mode, s, s', t);
    OwnStepChain(init, s, s', t);
    OwnStepDone(mode, s, s', t);
  }

  /** A step that writes no link keeps the invariant. */
  lemma Advance(mode: LockKind, init: seq<Node>, s: State, s': State, t: nat)
    requires Inv(mode, init, s) && OwnStep(s, s', t)
    requires s'.order == s.order && s'.next == s.next
    requires !s.threads[t].pc.SWrite2? && !s.threads[t].pc.SWrite3?
    requires !s'.threads[t].pc.SWrite2? && !s'.threads[t].pc.SWrite3?
    requires ThreadInv(s', t) && PassInv(s', s.threads[t].rank)
    requires s'.threads[t].pc.Idle? || RoomAhead(mode, s, s'.threads[t], t)
    requires var r := s.threads[t].rank;
      Seen(s', s'.passes[r]) == Seen(s, s.passes[r]) && Left(s', s'.passes[r]) == Left(s, s.passes[r])
    requires s'.passes[s.threads[t].rank].done ==>
      s.threads[t].pos + Width(s.threads[t].pc) + 1 == |s.order|
    ensures Inv(mode, init, s')
  {
    OwnStepHeap(s, s', t);
    AdvanceLinks(mode, init, s, s', t);
  }

  // ----- steps that leave the list alone -----

  /** A thread that gets the lock right behind its window has room there. */
  lemma RoomAfterLock(mode: LockKind, s: State, th': Thread, t: nat)
    requires ThreadsInv(s) && OrderInv(mode, s) && CanStep(mode, s, t) && !s.threads[t].pc.Idle?
    requires var th := s.threads[t];
      th'.kind == th.kind && th'.rank == th.rank && th'.pos == th.pos && Width(th'.pc) == Width(th.pc) + 1 &&
      th.pos + Width(th.pc) + 1 < |s.order| && Wants(s, th) == Some(s.order[th.pos + Width(th.pc) + 1])
    ensures RoomAhead(mode, s, th', t)
  {
    var th := s.threads[t];
    forall u | 0 <= u < |s.threads| && u != t && GoesFirst(mode, s.threads[u], th)
      ensures Ahead(s.threads[u], th')
    {
      assert ThreadInv(s, u);
      assert InOrder(mode, s.threads[u], th);
      assert s.order[s.threads[u].pos] in s.threads[u].held;
    }
  }

  lemma RoomKept(mode: LockKind, s: State, th': Thread, t: nat)
    requires OrderInv(mode, s) && t < |s.threads| && !s.threads[t].pc.Idle?
    requires var th := s.threads[t];
      th'.kind == th.kind && th'.rank == th.rank && th'.pos + Width(th'.pc) <= th.pos + Width(th.pc)
    ensures RoomAhead(mode, s, th', t)
  {
    forall u | 0 <= u < |s.threads| && u != t
      ensures GoesFirst(mode, s.threads[u], th') ==> Ahead(s.threads[u], th')
    {
      assert InOrder(mode, s.threads[u], s.threads[t]);
    }
  }

  /** No other thread is in the middle of a swap inside thread t's window. */
  lemma WindowUnbroken(mode: LockKind, s: State, t: nat, i: nat)
    requires OrderInv(mode, s) && ThreadsInv(s) && t < |s.threads| && !s.threads[t].pc.Idle?
    requires s.threads[t].pos <= i <= s.threads[t].pos + Width(s.threads[t].pc)
    ensures forall u :: 0 <= u < |s.threads| && u != t ==> !Broken(s.threads[u], i)
  {
    forall u | 0 <= u < |s.threads| && u != t ensures !Broken(s.threads[u], i) {
      assert ThreadInv(s, u);
      assert InOrder(mode, s.threads[u], s.threads[t]);
      assert InOrder(mode, s.threads[t], s.threads[u]);
    }
  }

  /** A link inside the window of its reader is the link the list order prescribes. */
  lemma ReadLink(mode: LockKind, s: State, t: nat, i: nat)
    requires HeapInv(s) && OrderInv(mode, s) && ThreadsInv(s) && t < |s.threads| && !s.threads[t].pc.Idle?
    requires s.threads[t].pos <= i <= s.threads[t].pos + Width(s.threads[t].pc) && i < |s.order|
    requires !Broken(s.threads[t], i)
    ensures Next(s, s.order[i]) == Follower(s.order, i)
  {
    WindowUnbroken(mode, s, t, i);
    assert LinkOk(s, i);
  }

  /** A step that changes nothing but the stepping thread. */
  ghost predicate QuietStep(s: State, s': State, t: nat) {
    OwnStep(s, s', t) && s'.order == s.order && s'.next == s.next && s'.passes == s.passes &&
    !s'.threads[t].pc.Idle? &&
    !s.threads[t].pc.SWrite2? && !s.threads[t].pc.SWrite3? &&
    !s'.threads[t].pc.SWrite2? && !s'.threads[t].pc.SWrite3?
  }

  lemma QuietAdvance(mode: LockKind, init: seq<Node>, s: State, s': State, t: nat)
    requires Inv(mode, init, s) && QuietStep(s, s', t) && ThreadInv(s', t)
    requires RoomAhead(mode, s, s'.threads[t], t)
    ensures Inv(mode, init, s')
  {
    assert ThreadInv(s, t) && PassInv(s, s.threads[t].rank);
    Advance(mode, init, s, s', t);
  }

  /** The stepping thread's own part of the invariant after a pointer read. */
  lemma ReadThread(s: State, t: nat, flip: bool)
    requires ThreadInv(s, t)
    requires var pc := s.threads[t].pc; pc.CRead? || pc.SRead1? || pc.SRead2?
    requires var i := s.threads[t].pos + Width(s.threads[t].pc); Next(s, s.order[i]) == Follower(s.order, i)
    ensures
      var s' := Step(s, t, flip);
      ThreadInv(s', t) && QuietStep(s, s', t) && s'.threads[t].pos == s.threads[t].pos &&
      Width(s'.threads[t].pc) == Width(s.threads[t].pc)
  {
    var th := s.threads[t];
    var s' := Step(s, t, flip);
    if th.pc.CRead? {
      assert Placed(s.order, s'.threads[t]);
    } else if th.pc.SRead1? {
      assert Placed(s.order, s'.threads[t]);
    } else {
      assert Placed(s.order, s'.threads[t]);
    }
  }

  lemma ReadStep(mode: LockKind, init: seq<Node>, s: State, t: nat, flip: bool)
    requires Inv(mode, init, s) && CanStep(mode, s, t)
    requires var pc := s.threads[t].pc; pc.CRead? || pc.SRead1? || pc.SRead2?
    ensures Inv(mode, init, Step(s, t, flip))
  {
    assert ThreadInv(s, t);
    ReadLink(mode, s, t, s.threads[t].pos + Width(s.threads[t].pc));
    ReadThread(s, t, flip);
    RoomKept(mode, s, Step(s, t, flip).threads[t], t);
    QuietAdvance(mode, init, s, Step(s, t, flip), t);
  }

  lemma LockThread(s: State, t: nat, flip: bool)
    requires ThreadInv(s, t)
    requires var pc := s.threads[t].pc; pc.CLock? || pc.SLock1? || pc.SLock2?
    ensures
      var s' := Step(s, t, flip);
      ThreadInv(s', t) && QuietStep(s, s', t) && s'.threads[t].pos == s.threads[t].pos &&
      Width(s'.threads[t].pc) == Width(s.threads[t].pc) + 1
  {
    var th' := Step(s, t, flip).threads[t];
    assert Placed(s.order, th');
  }

  lemma LockStep(mode: LockKind, init: seq<Node>, s: State, t: nat, flip: bool)
    requires Inv(mode, init, s) && CanStep(mode, s, t)
    requires var pc := s.threads[t].pc; pc.CLock? || pc.SLock1? || pc.SLock2?
    ensures Inv(mode, init, Step(s, t, flip))
  {
    assert ThreadInv(s, t);
    LockThread(s, t, flip);
    RoomAfterLock(mode, s, Step(s, t, flip).threads[t], t);
    QuietAdvance(mode, init, s, Step(s, t, flip), t);
  }

  /** The effect of a quiet step that gets no lock, on the stepping thread. */
  ghost predicate KeepsWindow(s: State, s': State, t: nat) {
    ThreadInv(s', t) && QuietStep(s, s', t) &&
    s'.threads[t].pos + Width(s'.threads[t].pc) <= s.threads[t].pos + Width(s.threads[t].pc)
  }

  lemma PlainThread(s: State, t: nat, flip: bool)
    requires ThreadInv(s, t) && Distinct(s.order) && (s.threads[t].pc.CUnlock? || s.threads[t].pc.SDecide?)
    ensures KeepsWindow(s, Step(s, t, flip), t)
  {
    var th' := Step(s, t, flip).threads[t];
    if s.threads[t].pc.CUnlock? {
      assert Placed(s.order, th');
    } else {
      assert Placed(s.order, th');
    }
  }

  lemma UnlockNextThread(s: State, t: nat, flip: bool)
    requires ThreadInv(s, t) && Distinct(s.order) && s.threads[t].pc.SUnlockNext?
    ensures KeepsWindow(s, Step(s, t, flip), t)
  {
    var th' := Step(s, t, flip).threads[t];
    assert th'.pc == SUnlockPrev(s.threads[t].pc.swapped);
    assert th'.held == HeldNodes(s.order, th');
    assert Placed(s.order, th');
  }

  lemma UnlockPrevThread(s: State, t: nat, flip: bool)
    requires ThreadInv(s, t) && Distinct(s.order) && s.threads[t].pc == SUnlockPrev(true)
    ensures KeepsWindow(s, Step(s, t, flip), t)
  {
    var th' := Step(s, t, flip).threads[t];
    assert th'.held == HeldNodes(s.order, th');
    assert Placed(s.order, th');
  }

  lemma PlainStep(mode: LockKind, init: seq<Node>, s: State, t: nat, flip: bool)
    requires Inv(mode, init, s) && CanStep(mode, s, t)
    requires var pc := s.threads[t].pc; pc.CUnlock? || pc.SDecide? || pc.SUnlockNext? || pc == SUnlockPrev(true)
    ensures Inv(mode, init, Step(s, t, flip))
  {
    assert ThreadInv(s, t);
    if s.threads[t].pc.SUnlockNext? {
      UnlockNextThread(s, t, flip);
    } else if s.threads[t].pc.SUnlockPrev? {
      UnlockPrevThread(s, t, flip);
    } else {
      PlainThread(s, t, flip);
    }
    RoomKept(mode, s, Step(s, t, flip).threads[t], t);
    QuietAdvance(mode, init, s, Step(s, t, flip), t);
  }

  // ----- steps that extend or close the pass's record -----

  /** A pass that reads one more node and leaves it where it is stays coherent. */
  lemma CoherentExtend(p: Pass, x: Node, fs: seq<bool>, n: nat)
    requires Coherent(p, n) && !p.done && |p.input| < n
    requires fs == [] || (fs == [false] && p.kind.Swapper? && Cursor(p.flips) + 1 == |p.input| < n - 1)
    ensures Coherent(Extend(p, [x], [x], fs), n)
  {
    SwapPassAppend(p.input, [x], p.flips);
    if fs == [] {
      assert p.flips + [] == p.flips;
    } else {
      KeepOne(p.input + [x], p.flips, n);
    }
  }

  lemma ComparePass(s: State, t: nat)
    requires ThreadInv(s, t) && s.threads[t].pc.CCompare? && PassInv(s, s.threads[t].rank)
    requires Next(s, s.threads[t].cur) == Some(s.threads[t].nxt)
    ensures ThreadInv(Step(s, t, false), t) && PassInv(Step(s, t, false), s.threads[t].rank)
    ensures var th := s.threads[t];
      Step(s, t, false).passes[th.rank] == Extend(s.passes[th.rank], [th.nxt], [th.nxt], [])
  {
    var th := s.threads[t];
    var s' := Step(s, t, false);
    CoherentExtend(s.passes[th.rank], th.nxt, [], |s.order|);
    assert s'.passes[th.rank] == Extend(s.passes[th.rank], [th.nxt], [th.nxt], []);
    assert Placed(s.order, s'.threads[t]);
  }

  /** A step that records one more node, the next one of the list, keeps the invariant. */
  lemma RecordStep(mode: LockKind, init: seq<Node>, s: State, s': State, t: nat, x: Node, fs: seq<bool>)
    requires Inv(mode, init, s) && OwnStep(s, s', t) && s'.order == s.order && s'.next == s.next
    requires !s.threads[t].pc.SWrite2? && !s.threads[t].pc.SWrite3?
    requires !s'.threads[t].pc.SWrite2? && !s'.threads[t].pc.SWrite3?
    requires ThreadInv(s', t) && PassInv(s', s.threads[t].rank)
    requires s'.threads[t].pos + Width(s'.threads[t].pc) <= s.threads[t].pos + Width(s.threads[t].pc)
    requires var p := s.passes[s.threads[t].rank];
      |p.input| == |p.output| < |s.order| && x == s.order[|p.input|] && !p.done &&
      s'.passes[s.threads[t].rank] == Extend(p, [x], [x], fs)
    ensures Inv(mode, init, s')
  {
    SpliceOne(s.passes[s.threads[t].rank].input, s.order);
    SpliceOne(s.passes[s.threads[t].rank].output, s.order);
    RoomKept(mode, s, s'.threads[t], t);
    Advance(mode, init, s, s', t);
  }

  lemma CompareStep(mode: LockKind, init: seq<Node>, s: State, t: nat, flip: bool)
    requires Inv(mode, init, s) && CanStep(mode, s, t) && s.threads[t].pc.CCompare?
    ensures Inv(mode, init, Step(s, t, flip))
  {
    var th := s.threads[t];
    assert ThreadInv(s, t) && PassInv(s, th.rank);
    ReadLink(mode, s, t, th.pos);
    ComparePass(s, t);
    var s' := Step(s, t, flip);
    assert s' == Step(s, t, false);
    RecordStep(mode, init, s, s', t, th.nxt, []);
  }

  lemma BailPass(s: State, t: nat, flip: bool)
    requires ThreadInv(s, t) && Distinct(s.order) && PassInv(s, s.threads[t].rank)
    requires s.threads[t].pc.SBail?
    ensures ThreadInv(Step(s, t, flip), t) && PassInv(Step(s, t, flip), s.threads[t].rank)
    ensures var p, x := s.passes[s.threads[t].rank], s.order[s.threads[t].pos + 1];
      |p.input| == s.threads[t].pos + 1 &&
      Step(s, t, flip).passes[s.threads[t].rank] == Extend(p, [x], [x], [])
  {
    var th := s.threads[t];
    var p := s.passes[th.rank];
    var s' := Step(s, t, flip);
    CoherentExtend(p, th.cur, [], |s.order|);
    assert p.flips + [] == p.flips;
    assert s'.threads[t].held == HeldNodes(s.order, s'.threads[t]);
    assert Placed(s.order, s'.threads[t]);
  }

  lemma KeepEffect(s: State, t: nat, flip: bool)
    requires t < |s.threads| && s.threads[t].pc == SUnlockPrev(false) && s.threads[t].kind.Swapper?
    requires s.threads[t].rank < |s.passes|
    ensures
      var s', th := Step(s, t, flip), s.threads[t];
      s'.passes == s.passes[th.rank := Extend(s.passes[th.rank], [th.cur], [th.cur], [false])] &&
      s'.comps == s.comps && s'.swaps == s.swaps && s'.iters == s.iters && s'.found == s.found &&
      s'.order == s.order &&
      s'.threads[t] == th.(held := th.held - {th.prev}, prev := th.cur, pos := th.pos + 1, pc := SRead1)
  {
  }

  lemma KeepPass(s: State, t: nat, flip: bool)
    requires ThreadInv(s, t) && Distinct(s.order) && PassInv(s, s.threads[t].rank)
    requires s.threads[t].pc == SUnlockPrev(false)
    ensures ThreadInv(Step(s, t, flip), t) && PassInv(Step(s, t, flip), s.threads[t].rank)
    ensures var p, x := s.passes[s.threads[t].rank], s.order[s.threads[t].pos + 1];
      |p.input| == s.threads[t].pos + 1 &&
      Step(s, t, flip).passes[s.threads[t].rank] == Extend(p, [x], [x], [false])
  {
    KeepEffect(s, t, flip);
    KeptOne(s, Step(s, t, flip), t);
  }

  lemma KeptOne(s: State, s': State, t: nat)
    requires ThreadInv(s, t) && Distinct(s.order) && PassInv(s, s.threads[t].rank) && Frame(s, s', t)
    requires s.threads[t].pc == SUnlockPrev(false) && s'.order == s.order && |s'.passes| == |s.passes|
    requires
      var th := s.threads[t];
      s'.threads[t] == th.(held := th.held - {th.prev}, prev := th.cur, pos := th.pos + 1, pc := SRead1) &&
      s'.passes[th.rank] == Extend(s.passes[th.rank], [th.cur], [th.cur], [false])
    ensures ThreadInv(s', t) && PassInv(s', s.threads[t].rank)
  {
    var th := s.threads[t];
    KeptPass(s.passes[th.rank], s'.passes[th.rank], th.cur, |s.order|);
    KeptPlace(s.order, th, s'.threads[t]);
  }

  lemma KeptPass(p: Pass, p': Pass, x: Node, n: nat)
    requires Coherent(p, n) && !p.done && p.kind.Swapper? && |p.input| == Cursor(p.flips) + 1 < n - 1
    requires p' == Extend(p, [x], [x], [false])
    ensures Coherent(p', n) && Cursor(p'.flips) == Cursor(p.flips) + 1 && |p'.input| == |p.input| + 1
  {
    CoherentExtend(p, x, [false], n);
    KeepOne(p.input + [x], p.flips, n);
  }

  lemma KeptPlace(v: seq<Node>, th: Thread, th': Thread)
    requires Placed(v, th) && Distinct(v) && th.pc == SUnlockPrev(false)
    requires th' == th.(held := th.held - {th.prev}, prev := th.cur, pos := th.pos + 1, pc := SRead1)
    ensures Placed(v, th')
  {
    assert th'.held == HeldNodes(v, th');
  }

  lemma KeepStep(mode: LockKind, init: seq<Node>, s: State, t: nat, flip: bool)
    requires Inv(mode, init, s) && CanStep(mode, s, t)
    requires s.threads[t].pc.SBail? || s.threads[t].pc == SUnlockPrev(false)
    ensures Inv(mode, init, Step(s, t, flip))
  {
    var th := s.threads[t];
    assert ThreadInv(s, t) && PassInv(s, th.rank);
    if th.pc.SBail? { BailPass(s, t, flip); } else { KeepPass(s, t, flip); }
    var s' := Step(s, t, flip);
    var x := s.order[|s.passes[th.rank].input|];
    RecordStep(mode, init, s, s', t, x, if th.pc.SBail? then [] else [false]);
  }

  lemma FinishPass(s: State, t: nat, flip: bool)
    requires ThreadInv(s, t) && PassInv(s, s.threads[t].rank)
    requires s.threads[t].pc.CLast? || s.threads[t].pc.SLast?
    ensures ThreadInv(Step(s, t, flip), t) && PassInv(Step(s, t, flip), s.threads[t].rank)
  {
    var th := s.threads[t];
    var s' := Step(s, t, flip);
    assert s'.passes[th.rank] == s.passes[th.rank].(done := true);
    assert s'.threads[t].held == {};
  }

  lemma FinishStep(mode: LockKind, init: seq<Node>, s: State, t: nat, flip: bool)
    requires Inv(mode, init, s) && CanStep(mode, s, t)
    requires s.threads[t].pc.CLast? || s.threads[t].pc.SLast?
    ensures Inv(mode, init, Step(s, t, flip))
  {
    var th := s.threads[t];
    assert ThreadInv(s, t) && PassInv(s, th.rank);
    FinishPass(s, t, flip);
    var s' := Step(s, t, flip);
    Advance(mode, init, s, s', t);
  }

  // ----- a pass begins -----

  lemma BeginOrder(mode: LockKind, s: State, t: nat)
    requires OrderInv(mode, s) && ThreadsInv(s) && CanStep(mode, s, t) && s.threads[t].pc.Idle?
    requires ListInv(s)
    ensures OrderInv(mode, Begin(s, t))
  {
    var s' := Begin(s, t);
    forall a, b | 0 <= a < |s.threads| && 0 <= b < |s.threads| && a != b
      ensures InOrder(mode, s'.threads[a], s'.threads[b])
    {
      assert InOrder(mode, s.threads[a], s.threads[b]);
      assert ThreadInv(s, a) && ThreadInv(s, b);
      if b == t && !s.threads[a].pc.Idle? {
        assert s.order[s.threads[a].pos] in s.threads[a].held;
      }
    }
  }

  lemma BeginPasses(s: State, t: nat)
    requires PassesInv(s) && ThreadsInv(s) && ListInv(s) && t < |s.threads| && s.threads[t].pc.Idle?
    ensures PassesInv(Begin(s, t)) && ThreadsInv(Begin(s, t))
  {
    var s' := Begin(s, t);
    forall q | 0 <= q < |s'.passes| ensures PassInv(s', q) {
      if q < |s.passes| { assert PassInv(s, q); }
    }
    forall u | 0 <= u < |s.threads| ensures ThreadInv(s', u) {
      assert ThreadInv(s, u);
    }
  }

  lemma BeginChain(init: seq<Node>, s: State, t: nat)
    requires ChainInv(init, s) && ListInv(s) && t < |s.threads|
    ensures ChainInv(init, Begin(s, t))
  {
    var s' := Begin(s, t);
    assert Splice([s.first], s.order) == s.order;
    forall q | 0 <= q < |s'.passes| ensures Linked(init, s', q) {
      assert Before(init, s', q) == Before(init, s, q);
      if q < |s.passes| { assert Linked(init, s, q); }
    }
  }

  lemma BeginStep(mode: LockKind, init: seq<Node>, s: State, t: nat)
    requires Inv(mode, init, s) && CanStep(mode, s, t) && s.threads[t].pc.Idle?
    ensures Inv(mode, init, Begin(s, t))
  {
    var s' := Begin(s, t);
    BeginOrder(mode, s, t);
    BeginPasses(s, t);
    BeginChain(init, s, t);
    BeginHeap(s, s', t);
  }

  /** A thread that begins a pass is not in the middle of a swap, before or after. */
  lemma BeginHeap(s: State, s': State, t: nat)
    requires HeapInv(s) && t < |s.threads| && s.threads[t].pc.Idle?
    requires |s'.threads| == |s.threads| && s'.threads == s.threads[t := s'.threads[t]]
    requires s'.threads[t].pc.SRead1? || s'.threads[t].pc.CRead?
    requires s'.next == s.next && s'.order == s.order
    ensures HeapInv(s')
  {
    forall i | 0 <= i < |s.order|
      ensures (exists u :: 0 <= u < |s'.threads| && Broken(s'.threads[u], i)) || LinkOk(s', i)
    {
      if LinkOk(s, i) {
        assert LinkOk(s', i);
      } else {
        var u :| 0 <= u < |s.threads| && Broken(s.threads[u], i);
        assert Broken(s'.threads[u], i);
      }
    }
    forall u | 0 <= u < |s.threads| ensures HalfSwapped(s', s'.threads[u]) {
      assert HalfSwapped(s, s.threads[u]);
    }
  }

  // ----- the three writes of a swap -----

  /** Repairing the link out of position i keeps all other links. */
  lemma WriteHeap(s: State, s': State, t: nat, i: nat)
    requires ListInv(s) && HeapInv(s) && OwnStep(s, s', t) && s'.order == s.order && i < |s.order|
    requires s'.next == s.next[s.order[i] := Follower(s.order, i)]
    requires forall j :: Broken(s.threads[t], j) && j != i ==> Broken(s'.threads[t], j)
    requires HalfSwapped(s', s'.threads[t])
    requires forall u :: 0 <= u < |s.threads| && u != t ==> !Broken(s.threads[u], i)
    ensures HeapInv(s')
  {
    forall j | 0 <= j < |s.order|
      ensures (exists u :: 0 <= u < |s'.threads| && Broken(s'.threads[u], j)) || LinkOk(s', j)
    {
      if j == i || LinkOk(s, j) {
        assert LinkOk(s', j);
      } else {
        var u :| 0 <= u < |s.threads| && Broken(s.threads[u], j);
        assert Broken(s'.threads[u], j);
      }
    }
    forall u | 0 <= u < |s.threads| ensures HalfSwapped(s', s'.threads[u]) {
      assert HalfSwapped(s, s.threads[u]);
      if u != t && (s.threads[u].pc.SWrite2? || s.threads[u].pc.SWrite3?) {
        assert Broken(s.threads[u], s.threads[u].pos + 1);
      }
    }
  }

  lemma LaterWriteThread(s: State, t: nat, flip: bool)
    requires ThreadInv(s, t) && ListInv(s) && HalfSwapped(s, s.threads[t])
    requires s.threads[t].pc.SWrite2? || s.threads[t].pc.SWrite3?
    ensures ThreadInv(Step(s, t, flip), t)
    ensures var i := if s.threads[t].pc.SWrite2? then s.threads[t].pos + 2 else s.threads[t].pos + 1;
      Step(s, t, flip).next == s.next[s.order[i] := Follower(s.order, i)]
    ensures HalfSwapped(Step(s, t, flip), Step(s, t, flip).threads[t])
  {
    var th := s.threads[t];
    var s' := Step(s, t, flip);
    assert s.order[th.pos + 1] != s.order[th.pos + 2];
    if th.pc.SWrite2? {
      assert Placed(s.order, s'.threads[t]);
    } else {
      assert Placed(s.order, s'.threads[t]);
    }
  }

  lemma LaterWrite(mode: LockKind, init: seq<Node>, s: State, t: nat, flip: bool)
    requires Inv(mode, init, s) && CanStep(mode, s, t)
    requires s.threads[t].pc.SWrite2? || s.threads[t].pc.SWrite3?
    ensures Inv(mode, init, Step(s, t, flip))
  {
    var th := s.threads[t];
    assert ThreadInv(s, t) && PassInv(s, th.rank);
    assert HalfSwapped(s, th);
    LaterWriteThread(s, t, flip);
    var s' := Step(s, t, flip);
    assert s'.passes == s.passes;
    LaterWriteRest(mode, init, s, s', t, if th.pc.SWrite2? then th.pos + 2 else th.pos + 1);
  }

  lemma LaterWriteRest(mode: LockKind, init: seq<Node>, s: State, s': State, t: nat, i: nat)
    requires Inv(mode, init, s) && OwnStep(s, s', t) && s'.order == s.order && s'.passes == s.passes
    requires i < |s.order| && s'.next == s.next[s.order[i] := Follower(s.order, i)]
    requires if s.threads[t].pc.SWrite2? then s'.threads[t].pc.SWrite3? && i == s.threads[t].pos + 2
             else s.threads[t].pc.SWrite3? && s'.threads[t].pc == SUnlockNext(true) && i == s.threads[t].pos + 1
    requires s'.threads[t].pos == s.threads[t].pos && ThreadInv(s', t) && HalfSwapped(s', s'.threads[t])
    ensures Inv(mode, init, s')
  {
    assert ThreadInv(s, t) && PassInv(s, s.threads[t].rank);
    assert PassInv(s', s.threads[t].rank);
    WindowUnbroken(mode, s, t, i);
    WriteHeap(s, s', t, i);
    RoomKept(mode, s, s'.threads[t], t);
    AdvanceLinks(mode, init, s, s', t);
  }

  // ----- the first write: where the list order changes -----

  /** What a thread relies on lies within its window and one node behind it. */
  lemma PlacedStable(v: seq<Node>, w: seq<Node>, th: Thread)
    requires Placed(v, th) && |w| == |v|
    requires forall i :: th.pos <= i <= th.pos + Width(th.pc) + 1 && i < |v| ==> v[i] == w[i]
    ensures Placed(w, th)
  {
  }

  /** The exchange happens outside the window of every other pass. */
  lemma ExchangeOutside(mode: LockKind, s: State, t: nat, u: nat)
    requires OrderInv(mode, s) && ThreadsInv(s) && t < |s.threads| && u < |s.threads| && u != t
    requires s.threads[t].pc.SWrite1? && !s.threads[u].pc.Idle?
    ensures s.threads[u].rank < s.threads[t].rank ==> s.threads[u].pos > s.threads[t].pos + 2
    ensures s.threads[u].rank > s.threads[t].rank ==> s.threads[t].pos > s.threads[u].pos + Width(s.threads[u].pc)
    ensures s.threads[u].rank != s.threads[t].rank
  {
    assert ThreadInv(s, t);
    assert InOrder(mode, s.threads[u], s.threads[t]);
    assert InOrder(mode, s.threads[t], s.threads[u]);
  }

  lemma FirstWritePass(s: State, t: nat, flip: bool)
    requires ThreadInv(s, t) && ListInv(s) && PassInv(s, s.threads[t].rank) && s.threads[t].pc.SWrite1?
    ensures var s' := Step(s, t, flip); ThreadInv(s', t) && PassInv(s', s.threads[t].rank)
    ensures var p, a := s.passes[s.threads[t].rank], s.threads[t].pos + 1;
      a + 1 < |s.order| && |p.input| == a &&
      Step(s, t, flip).order == Exchange(s.order, a) &&
      Step(s, t, flip).next == s.next[s.order[a - 1] := Some(s.order[a + 1])] &&
      Step(s, t, flip).passes[s.threads[t].rank] ==
        Extend(p, [s.order[a], s.order[a + 1]], [s.order[a + 1], s.order[a]], [true])
  {
    var th := s.threads[t];
    var p := s.passes[th.rank];
    var s' := Step(s, t, flip);
    SwapOne(p.input, th.cur, th.nxt, p.flips, |s.order|);
    assert Placed(s'.order, s'.threads[t]);
  }

  /** The state change of the first write, as far as lists and links are concerned. */
  ghost predicate PairExchanged(s: State, s': State, t: nat) {
    OwnStep(s, s', t) && s.threads[t].pc.SWrite1? && s'.threads[t].pc.SWrite2? &&
    s'.threads[t].pos == s.threads[t].pos && s.threads[t].pos + 2 < |s.order| &&
    s'.order == Exchange(s.order, s.threads[t].pos + 1) &&
    s'.next == s.next[s.order[s.threads[t].pos] := Some(s.order[s.threads[t].pos + 2])]
  }

  lemma FirstWriteOther(mode: LockKind, s: State, s': State, t: nat, u: nat)
    requires OrderInv(mode, s) && ThreadsInv(s) && PairExchanged(s, s', t) && u < |s.threads| && u != t
    ensures ThreadInv(s', u)
  {
    assert ThreadInv(s, t) && ThreadInv(s, u);
    if !s.threads[u].pc.Idle? {
      ExchangeOutside(mode, s, t, u);
      PlacedStable(s.order, s'.order, s.threads[u]);
    }
  }

  lemma FirstWriteThreads(mode: LockKind, s: State, s': State, t: nat)
    requires OrderInv(mode, s) && ThreadsInv(s) && PairExchanged(s, s', t) && ThreadInv(s', t)
    ensures ThreadsInv(s') && OrderInv(mode, s')
  {
    forall u | 0 <= u < |s.threads| ensures ThreadInv(s', u) {
      if u != t { FirstWriteOther(mode, s, s', t, u); }
    }
    forall a, b | 0 <= a < |s.threads| && 0 <= b < |s.threads| && a != b
      ensures InOrder(mode, s'.threads[a], s'.threads[b])
    {
      assert InOrder(mode, s.threads[a], s.threads[b]);
    }
  }

  lemma FirstWriteLink(s: State, s': State, t: nat, i: nat)
    requires ListInv(s) && PairExchanged(s, s', t) && LinkOk(s, i)
    requires i != s.threads[t].pos + 1 && i != s.threads[t].pos + 2
    ensures LinkOk(s', i)
  {
    var p := s.threads[t].pos;
    assert i != p ==> s.order[i] != s.order[p];
  }

  lemma FirstWriteHalf(mode: LockKind, s: State, s': State, t: nat, u: nat)
    requires ListInv(s) && HeapInv(s) && OrderInv(mode, s) && ThreadsInv(s) && PairExchanged(s, s', t)
    requires u < |s.threads|
    ensures HalfSwapped(s', s'.threads[u])
  {
    var p := s.threads[t].pos;
    assert HalfSwapped(s, s.threads[u]);
    if u == t {
      ReadLink(mode, s, t, p + 2);
      assert s.order[p] != s.order[p + 2];
    } else if s.threads[u].pc.SWrite2? || s.threads[u].pc.SWrite3? {
      ExchangeOutside(mode, s, t, u);
      assert ThreadInv(s, u);
      assert s.order[s.threads[u].pos + 1] != s.order[p];
    }
  }

  lemma FirstWriteHeap(mode: LockKind, s: State, s': State, t: nat)
    requires ListInv(s) && HeapInv(s) && OrderInv(mode, s) && ThreadsInv(s) && PairExchanged(s, s', t)
    ensures ListInv(s') && HeapInv(s')
  {
    ExchangeMembers(s.order, s.threads[t].pos + 1);
    forall i | 0 <= i < |s.order|
      ensures (exists u :: 0 <= u < |s'.threads| && Broken(s'.threads[u], i)) || LinkOk(s', i)
    {
      if i == s.threads[t].pos + 1 || i == s.threads[t].pos + 2 {
        assert Broken(s'.threads[t], i);
      } else if LinkOk(s, i) {
        FirstWriteLink(s, s', t, i);
      } else {
        var u :| 0 <= u < |s.threads| && Broken(s.threads[u], i);
        assert Broken(s'.threads[u], i);
      }
    }
    forall u | 0 <= u < |s.threads| ensures HalfSwapped(s', s'.threads[u]) {
      FirstWriteHalf(mode, s, s', t, u);
    }
  }

  /** Where the other passes stand when pass r exchanges the pair at a. */
  lemma FirstWriteSides(mode: LockKind, s: State, t: nat, q: nat)
    requires ThreadsInv(s) && OrderInv(mode, s) && PassesInv(s) && DoneInv(mode, s)
    requires t < |s.threads| && s.threads[t].pc.SWrite1? && q < |s.passes| && q != s.threads[t].rank
    ensures var p, a := s.passes[q], s.threads[t].pos + 1;
      |p.input| == |p.output| && |p.input| <= |s.order| &&
      if q < s.threads[t].rank then |p.input| > a + 1 else |p.input| <= a
  {
    assert ThreadInv(s, t) && PassInv(s, q);
    var p := s.passes[q];
    if !p.done {
      assert ThreadInv(s, p.tid);
      ExchangeOutside(mode, s, t, p.tid);
    }
  }

  /** The state change of the first write, as far as the records of the passes are concerned. */
  ghost predicate PairRecorded(s: State, s': State, t: nat) {
    OwnStep(s, s', t) && s.threads[t].pc.SWrite1? &&
    var p, a := s.passes[s.threads[t].rank], s.threads[t].pos + 1;
    a + 1 < |s.order| && |p.input| == a && |p.output| == a && s'.order == Exchange(s.order, a) &&
    s'.passes[s.threads[t].rank] ==
      Extend(p, [s.order[a], s.order[a + 1]], [s.order[a + 1], s.order[a]], [true])
  }

  lemma FirstWriteLinked(mode: LockKind, init: seq<Node>, s: State, s': State, t: nat, q: nat)
    requires ThreadsInv(s) && OrderInv(mode, s) && PassesInv(s) && DoneInv(mode, s) && PairRecorded(s, s', t)
    requires q < |s.passes| && Linked(init, s, q)
    ensures Linked(init, s', q)
  {
    var r, a := s.threads[t].rank, s.threads[t].pos + 1;
    var p := s.passes[r];
    SplicePair(p.input, p.output, s.order);
    if q != r { FirstWriteSides(mode, s, t, q); }
    if 0 < q && q - 1 != r { FirstWriteSides(mode, s, t, q - 1); }
    if q <= r {
      if q < r { SpliceBeyond(s.passes[q].input, s.order, a); }
      if q > 0 { SpliceBeyond(s.passes[q - 1].output, s.order, a); }
    } else {
      SpliceExchange(s.passes[q].input, s.passes[q - 1].output, s.order, a);
    }
  }

  lemma FirstWriteEnd(mode: LockKind, init: seq<Node>, s: State, s': State, t: nat)
    requires ThreadsInv(s) && OrderInv(mode, s) && PassesInv(s) && DoneInv(mode, s) && PairRecorded(s, s', t)
    requires s.order == Left(s, s.passes[|s.passes| - 1])
    ensures s'.order == Left(s', s'.passes[|s.passes| - 1])
  {
    var last, r := |s.passes| - 1, s.threads[t].rank;
    assert Splice([], s.order) == s.order && Splice([], s'.order) == s'.order;
    SpliceExchange([], s.passes[last].output, s.order, s.threads[t].pos + 1) by {
      if last != r { FirstWriteSides(mode, s, t, last); }
    }
    if last == r { SplicePair(s.passes[r].input, s.passes[r].output, s.order); }
  }

  lemma FirstWriteChain(mode: LockKind, init: seq<Node>, s: State, s': State, t: nat)
    requires ThreadsInv(s) && OrderInv(mode, s) && PassesInv(s) && DoneInv(mode, s) && ChainInv(init, s)
    requires PairRecorded(s, s', t)
    ensures ChainInv(init, s')
  {
    forall q | 0 <= q < |s.passes| ensures Linked(init, s', q) {
      FirstWriteLinked(mode, init, s, s', t, q);
    }
    FirstWriteEnd(mode, init, s, s', t);
  }

  lemma FirstWrite(mode: LockKind, init: seq<Node>, s: State, t: nat, flip: bool)
    requires Inv(mode, init, s) && CanStep(mode, s, t) && s.threads[t].pc.SWrite1?
    ensures Inv(mode, init, Step(s, t, flip))
  {
    var s' := Step(s, t, flip);
    assert ThreadInv(s, t) && PassInv(s, s.threads[t].rank);
    FirstWritePass(s, t, flip);
    FirstWriteThreads(mode, s, s', t);
    FirstWriteHeap(mode, s, s', t);
    FirstWriteChain(mode, init, s, s', t);
    OwnStepPasses(mode, s, s', t);
    OwnStepDone(mode, s, s', t);
  }

  // ----- all steps together -----

  /** Every step of every thread keeps the invariant. */
  lemma StepKeepsInv(mode: LockKind, init: seq<Node>, s: State, t: nat, flip: bool)
    requires Inv(mode, init, s) && CanStep(mode, s, t)
    ensures Inv(mode, init, Step(s, t, flip))
  {
    assert ThreadInv(s, t);
    match s.threads[t].pc {
      case Idle => BeginStep(mode, init, s, t);
      case CRead | SRead1 | SRead2 => ReadStep(mode, init, s, t, flip);
      case CLock | SLock1 | SLock2 => LockStep(mode, init, s, t, flip);
      case CCompare => CompareStep(mode, init, s, t, flip);
      case CLast | SLast(_) => FinishStep(mode, init, s, t, flip);
      case CUnlock | SDecide | SUnlockNext(_) => PlainStep(mode, init, s, t, flip);
      case SBail => KeepStep(mode, init, s, t, flip);
      case SUnlockPrev(b) =>
        if b { PlainStep(mode, init, s, t, flip); } else { KeepStep(mode, init, s, t, flip); }
      case SWrite1 => FirstWrite(mode, init, s, t, flip);
      case SWrite2 | SWrite3 => LaterWrite(mode, init, s, t, flip);
    }
  }

  lemma {:induction false} LinksChain(nodes: seq<Node>, k: nat)
    requires Distinct(nodes) && k < |nodes|
    ensures Links(nodes)[nodes[k]] == Follower(nodes, k)
  {
    if k > 0 {
      var rest := nodes[1..];
      assert Distinct(rest);
      LinksChain(rest, k - 1);
      assert nodes[k] == rest[k - 1] && nodes[k] != nodes[0];
    }
  }

  lemma InitInv(mode: LockKind, nodes: seq<Node>, kinds: seq<Kind>)
    requires nodes != [] && Distinct(nodes)
    ensures Inv(mode, nodes, Init(nodes, kinds))
  {
    var s := Init(nodes, kinds);
    forall i | 0 <= i < |nodes| ensures LinkOk(s, i) {
      LinksChain(nodes, i);
    }
  }

  lemma MoveKeepsInv(mode: LockKind, init: seq<Node>, s: State, c: Choice, s': State)
    requires Inv(mode, init, s) && Moves(mode, s, c, s')
    ensures Inv(mode, init, s')
  {
    StepKeepsInv(mode, init, s, c.tid, c.flip);
  }

  lemma {:induction false} RunKeepsInv(mode: LockKind, init: seq<Node>, tr: seq<State>, cs: seq<Choice>, k: nat)
    requires IsRun(mode, tr, cs) && k <= |cs| && Inv(mode, init, tr[0])
    ensures Inv(mode, init, tr[k])
  {
    if k > 0 {
      RunKeepsInv(mode, init, tr, cs, k - 1);
      assert StepAt(mode, tr, cs, k - 1);
      MoveKeepsInv(mode, init, tr[k - 1], cs[k - 1], tr[k]);
    }
  }

  /** Every state of every run from an initial state satisfies the invariant. */
  lemma ReachableInv(mode: LockKind, nodes: seq<Node>, kinds: seq<Kind>, tr: seq<State>, cs: seq<Choice>, k: nat)
    requires nodes != [] && Distinct(nodes) && IsRun(mode, tr, cs) && tr[0] == Init(nodes, kinds) && k <= |cs|
    ensures Inv(mode, nodes, tr[k])
  {
    InitInv(mode, nodes, kinds);
    RunKeepsInv(mode, nodes, tr, cs, k);
  }
}
