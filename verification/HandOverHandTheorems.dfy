/** What the hand-over-hand list guarantees in every run. */
module HandOverHandTheorems {
  import opened Basics
  import opened PassSpec
  import opened HandOverHand
  import opened HandOverHandSteps
  import opened Sums

  // ----- serializability -----

  /** The list after running the given passes one at a time, each to its decisions so far. */
  ghost function Serial(init: seq<Node>, passes: seq<Pass>): (r: seq<Node>)
    ensures |r| == |init|
  {
    if passes == [] then init
    else
      var l := Serial(init, passes[..|passes| - 1]);
      var flips := passes[|passes| - 1].flips;
      if Cursor(flips) < |l| then SwapPass(l, flips) else l
  }

  lemma LeftIsPassOfSeen(s: State, r: nat)
    requires PassesInv(s) && r < |s.passes|
    ensures Cursor(s.passes[r].flips) < |Seen(s, s.passes[r])|
    ensures Left(s, s.passes[r]) == SwapPass(Seen(s, s.passes[r]), s.passes[r].flips)
  {
    assert PassInv(s, r);
    SwapPassAppend(s.passes[r].input, s.order[|s.passes[r].input|..], s.passes[r].flips);
  }

  lemma {:induction false} BeforeIsSerial(init: seq<Node>, s: State, r: nat)
    requires PassesInv(s) && ChainInv(init, s) && r <= |s.passes|
    ensures Before(init, s, r) == Serial(init, s.passes[..r])
  {
    if r > 0 {
      BeforeIsSerial(init, s, r - 1);
      assert s.passes[..r][..r - 1] == s.passes[..r - 1];
      assert Linked(init, s, r - 1);
      LeftIsPassOfSeen(s, r - 1);
    }
  }

  /** The links in memory form exactly the list l, from the first node to NULL. */
  ghost predicate HeapIs(s: State, l: seq<Node>) {
    l != [] && l[0] == s.first && forall i :: 0 <= i < |l| ==> Next(s, l[i]) == Follower(l, i)
  }

  lemma DoneIsSerial(mode: LockKind, init: seq<Node>, s: State, r: nat)
    requires Inv(mode, init, s) && r < |s.passes| && s.passes[r].done
    ensures s.passes[r].input == Serial(init, s.passes[..r])
    ensures s.passes[r].output == Serial(init, s.passes[..r + 1])
    ensures s.passes[r].kind.Swapper? ==> Finished(s.passes[r].flips, |init|)
  {
    assert PassInv(s, r) && Linked(init, s, r);
    BeforeIsSerial(init, s, r);
    BeforeIsSerial(init, s, r + 1);
  }

  /**
    Serializability. In every run the list is what the passes make of it when run one at a
    time in the order in which they locked the first node, and every pass that finished read,
    end to end, exactly the list left by the passes before it.
   */
  lemma EveryRunIsSerial(mode: LockKind, nodes: seq<Node>, kinds: seq<Kind>, tr: seq<State>, cs: seq<Choice>, k: nat)
    requires nodes != [] && Distinct(nodes) && IsRun(mode, tr, cs) && tr[0] == Init(nodes, kinds) && k <= |cs|
    ensures
      var s := tr[k];
      s.order == Serial(nodes, s.passes) &&
      (forall r :: 0 <= r < |s.passes| && s.passes[r].done ==>
        s.passes[r].input == Serial(nodes, s.passes[..r]) &&
        s.passes[r].output == Serial(nodes, s.passes[..r + 1]) &&
        (s.passes[r].kind.Swapper? ==> Finished(s.passes[r].flips, |nodes|))) &&
      ((forall t :: 0 <= t < |s.threads| ==> !MidSwap(s.threads[t])) ==>
        HeapIs(s, Serial(nodes, s.passes)))
  {
    ReachableInv(mode, nodes, kinds, tr, cs, k);
    var s := tr[k];
    assert s.passes[..|s.passes|] == s.passes;
    BeforeIsSerial(nodes, s, |s.passes|);
    forall r | 0 <= r < |s.passes| && s.passes[r].done
      ensures s.passes[r].input == Serial(nodes, s.passes[..r])
      ensures s.passes[r].output == Serial(nodes, s.passes[..r + 1])
      ensures s.passes[r].kind.Swapper? ==> Finished(s.passes[r].flips, |nodes|)
    {
      DoneIsSerial(mode, nodes, s, r);
    }
    if forall t :: 0 <= t < |s.threads| ==> !MidSwap(s.threads[t]) {
      NoSwapInFlight(s);
    }
  }

  /** No pass ever loses, repeats or adds a node, and the first node stays first. */
  lemma {:induction false} SerialPermutes(init: seq<Node>, passes: seq<Pass>)
    requires init != []
    ensures multiset(Serial(init, passes)) == multiset(init) && Serial(init, passes)[0] == init[0]
  {
    if passes != [] {
      SerialPermutes(init, passes[..|passes| - 1]);
      var l := Serial(init, passes[..|passes| - 1]);
      var flips := passes[|passes| - 1].flips;
      if Cursor(flips) < |l| { SwapPassPermutes(l, flips); }
    }
  }

  lemma SameRest(x: seq<Node>, v: seq<Node>)
    requires |x| <= |v| && multiset(Splice(x, v)) == multiset(v)
    ensures multiset(x) == multiset(v[..|x|])
  {
    assert v == v[..|x|] + v[|x|..];
    var m := multiset(v[|x|..]);
    assert multiset(v[..|x|]) + m == multiset(x) + m;
    forall n ensures multiset(x)[n] == multiset(v[..|x|])[n] {
      assert (multiset(v[..|x|]) + m)[n] == (multiset(x) + m)[n];
    }
  }

  predicate MidSwap(th: Thread) {
    th.pc.SWrite2? || th.pc.SWrite3?
  }

  /** Thread t makes the writes that are left of its swap. */
  function Finish(s: State, t: nat): State
    requires t < |s.threads|
  {
    if s.threads[t].pc.SWrite2? then Step(Step(s, t, false), t, false)
    else if s.threads[t].pc.SWrite3? then Step(s, t, false)
    else s
  }

  /** The first k threads finish their swaps. */
  function FinishAll(s: State, k: nat): (r: State)
    requires k <= |s.threads|
    ensures |r.threads| == |s.threads|
  {
    if k == 0 then s else Finish(FinishAll(s, k - 1), k - 1)
  }

  lemma FinishWrite(mode: LockKind, init: seq<Node>, s: State, t: nat)
    requires Inv(mode, init, s) && t < |s.threads| && MidSwap(s.threads[t])
    ensures var r := Step(s, t, false);
      Inv(mode, init, r) && r.order == s.order && r.passes == s.passes &&
      (if s.threads[t].pc.SWrite2? then r.threads[t].pc.SWrite3? else !MidSwap(r.threads[t]))
  {
    assert ThreadInv(s, t);
    StepKeepsInv(mode, init, s, t, false);
  }

  /** From s to r only thread t has moved, to the end of its swap. */
  ghost predicate SwapFinished(s: State, r: State, t: nat) {
    t < |s.threads| == |r.threads| && r.order == s.order && r.passes == s.passes && !MidSwap(r.threads[t]) &&
    forall u :: 0 <= u < |s.threads| && u != t ==> r.threads[u] == s.threads[u]
  }

  /** From s to r the first k threads have finished their swaps and the others have not moved. */
  ghost predicate FinishedTo(s: State, r: State, k: nat) {
    k <= |s.threads| == |r.threads| && r.order == s.order && r.passes == s.passes &&
    (forall t :: 0 <= t < k ==> !MidSwap(r.threads[t])) &&
    forall t :: k <= t < |s.threads| ==> r.threads[t] == s.threads[t]
  }

  lemma OneMoreFinished(s: State, q: State, r: State, k: nat)
    requires FinishedTo(s, q, k) && SwapFinished(q, r, k)
    ensures FinishedTo(s, r, k + 1)
  {
  }

  lemma FinishOne(mode: LockKind, init: seq<Node>, s: State, t: nat)
    requires Inv(mode, init, s) && t < |s.threads|
    ensures Inv(mode, init, Finish(s, t)) && SwapFinished(s, Finish(s, t), t)
  {
    if s.threads[t].pc.SWrite2? {
      FinishWrite(mode, init, s, t);
      FinishWrite(mode, init, Step(s, t, false), t);
    } else if s.threads[t].pc.SWrite3? {
      FinishWrite(mode, init, s, t);
    }
  }

  lemma {:induction false} FinishKeeps(mode: LockKind, init: seq<Node>, s: State, k: nat)
    requires Inv(mode, init, s) && k <= |s.threads|
    ensures Inv(mode, init, FinishAll(s, k)) && FinishedTo(s, FinishAll(s, k), k)
  {
    if k > 0 {
      FinishKeeps(mode, init, s, k - 1);
      var q := FinishAll(s, k - 1);
      FinishOne(mode, init, q, k - 1);
      OneMoreFinished(s, q, Finish(q, k - 1), k - 1);
    }
  }

  lemma NoSwapInFlight(s: State)
    requires ListInv(s) && HeapInv(s) && forall t :: 0 <= t < |s.threads| ==> !MidSwap(s.threads[t])
    ensures HeapIs(s, s.order)
  {
    forall i | 0 <= i < |s.order| ensures Next(s, s.order[i]) == Follower(s.order, i) {
      assert forall t :: 0 <= t < |s.threads| ==> !Broken(s.threads[t], i);
      assert LinkOk(s, i);
    }
  }

  /**
    At all times, also between the three writes of a swap: once the swaps in flight have made
    the writes that are left, the links in memory form a list from the unchanged first node to
    NULL that is a permutation of the initial nodes. Meanwhile every link that is not under
    repair is the one of that list.
   */
  lemma ListStaysWhole(mode: LockKind, init: seq<Node>, s: State)
    requires Inv(mode, init, s) && init != []
    ensures multiset(s.order) == multiset(init) && s.order[0] == init[0] == s.first && Distinct(s.order)
    ensures HeapIs(FinishAll(s, |s.threads|), s.order)
    ensures forall i | 0 <= i < |s.order| && (forall t :: 0 <= t < |s.threads| ==> !Broken(s.threads[t], i)) ::
      Next(s, s.order[i]) == Follower(s.order, i)
  {
    assert s.passes[..|s.passes|] == s.passes;
    BeforeIsSerial(init, s, |s.passes|);
    SerialPermutes(init, s.passes);
    FinishKeeps(mode, init, s, |s.threads|);
    NoSwapInFlight(FinishAll(s, |s.threads|));
    UnbrokenLinks(s);
  }

  lemma UnbrokenLinks(s: State)
    requires HeapInv(s)
    ensures forall i | 0 <= i < |s.order| && (forall t :: 0 <= t < |s.threads| ==> !Broken(s.threads[t], i)) ::
      Next(s, s.order[i]) == Follower(s.order, i)
  {
    forall i | 0 <= i < |s.order| && (forall t :: 0 <= t < |s.threads| ==> !Broken(s.threads[t], i))
      ensures Next(s, s.order[i]) == Follower(s.order, i)
    {
      assert LinkOk(s, i);
    }
  }

  /** At any time a pass has read exactly the nodes that are before its frontier now, each once. */
  lemma EachNodeOnce(mode: LockKind, init: seq<Node>, s: State, r: nat)
    requires Inv(mode, init, s) && init != [] && r < |s.passes|
    ensures |s.passes[r].input| <= |s.order|
    ensures multiset(s.passes[r].input) == multiset(s.order[..|s.passes[r].input|])
    ensures s.passes[r].done ==> multiset(s.passes[r].input) == multiset(init)
  {
    assert PassInv(s, r) && Linked(init, s, r);
    assert s.passes[..|s.passes|] == s.passes;
    BeforeIsSerial(init, s, r);
    SerialPermutes(init, s.passes[..r]);
    BeforeIsSerial(init, s, |s.passes|);
    SerialPermutes(init, s.passes);
    SameRest(s.passes[r].input, s.order);
  }

  /**
    Under read/write locks counters may overtake each other, but counters with no swapper
    between them in lock order read identical sequences; three of them, one of each kind,
    therefore find |nodes| - 1 pairs together.
   */
  lemma CountersAgree(mode: LockKind, init: seq<Node>, s: State, q: nat, r: nat)
    requires Inv(mode, init, s) && q <= r < |s.passes|
    requires forall k :: q <= k <= r ==> !s.passes[k].kind.Swapper?
    ensures Seen(s, s.passes[q]) == Seen(s, s.passes[r])
    ensures s.passes[q].done && s.passes[r].done ==> s.passes[q].input == s.passes[r].input
    decreases r
  {
    assert PassInv(s, q) && PassInv(s, r) && Linked(init, s, r);
    assert s.passes[q].done ==> Seen(s, s.passes[q]) == s.passes[q].input;
    assert s.passes[r].done ==> Seen(s, s.passes[r]) == s.passes[r].input;
    if q < r {
      CountersAgree(mode, init, s, q, r - 1);
      assert PassInv(s, r - 1);
      assert s.passes[r - 1].output == s.passes[r - 1].input;
    }
  }

  lemma CountersSum(mode: LockKind, init: seq<Node>, s: State, a: nat, d: nat, e: nat, lo: nat, hi: nat)
    requires Inv(mode, init, s)
    requires lo <= a <= hi && lo <= d <= hi && lo <= e <= hi && hi < |s.passes|
    requires forall k :: lo <= k <= hi ==> !s.passes[k].kind.Swapper?
    requires s.passes[a].done && s.passes[d].done && s.passes[e].done
    ensures Matches(Asc, s.passes[a].input) + Matches(Desc, s.passes[d].input) + Matches(Eq, s.passes[e].input)
      == |init| - 1
  {
    CountersAgree(mode, init, s, lo, a);
    CountersAgree(mode, init, s, lo, d);
    CountersAgree(mode, init, s, lo, e);
    assert PassInv(s, a) && PassInv(s, d) && PassInv(s, e);
    assert forall k :: k == a || k == d || k == e ==> Seen(s, s.passes[k]) == s.passes[k].input;
    CountsSum(s.passes[a].input);
  }

  /**
    Who may overtake whom. Conflicting passes keep their order: the later one is strictly
    behind in the list and finishes later. Under mutexes that holds for any two passes.
   */
  lemma NoOvertaking(mode: LockKind, init: seq<Node>, s: State, q: nat, r: nat)
    requires Inv(mode, init, s) && q < r < |s.passes|
    requires mode.MutexLocks? || s.passes[q].kind.Swapper? || s.passes[r].kind.Swapper?
    ensures s.passes[r].done ==> s.passes[q].done
    ensures s.passes[q].tid < |s.threads| && s.passes[r].tid < |s.threads|
    ensures !s.passes[q].done ==>
      s.threads[s.passes[q].tid].pos >
      s.threads[s.passes[r].tid].pos + Width(s.threads[s.passes[r].tid].pc)
  {
    assert PassInv(s, q) && PassInv(s, r);
    if !s.passes[q].done {
      var t, u := s.passes[q].tid, s.passes[r].tid;
      assert ThreadInv(s, t) && ThreadInv(s, u);
      assert InOrder(mode, s.threads[t], s.threads[u]);
    }
  }

  // ----- every access to a link is by a holder of its lock -----

  /** The nodes whose next field the next step of the thread reads or writes. */
  function Touches(th: Thread): set<Node> {
    match th.pc
    case CRead | CCompare | SRead2 => {th.cur}
    case SRead1 | SWrite1 => {th.prev}
    case SWrite2 => {th.cur, th.nxt}
    case SWrite3 => {th.nxt}
    case _ => {}
  }

  function Writes(th: Thread): set<Node> {
    match th.pc
    case SWrite1 => {th.prev}
    case SWrite2 => {th.cur}
    case SWrite3 => {th.nxt}
    case _ => {}
  }

  /** A step changes no other links than it Writes. */
  lemma StepWritesOnly(s: State, t: nat, flip: bool, n: Node)
    requires t < |s.threads| && n !in Writes(s.threads[t])
    ensures Next(Step(s, t, flip), n) == Next(s, n)
  {
  }

  /** The states differ at most in links that the next step of thread t does not touch. */
  ghost predicate AlikeFor(s: State, r: State, t: nat) {
    t < |s.threads| && r == s.(next := r.next) && forall n <- Touches(s.threads[t]) :: Next(r, n) == Next(s, n)
  }

  lemma CounterReads(s: State, r: State, t: nat)
    requires AlikeFor(s, r, t)
    ensures CounterStep(r, t) == CounterStep(s, t).(next := CounterStep(r, t).next)
  {
    var th := s.threads[t];
    if th.pc.CRead? || th.pc.CCompare? {
      assert th.cur in Touches(th);
    }
  }

  lemma SwapperReads(s: State, r: State, t: nat, flip: bool)
    requires AlikeFor(s, r, t) && SwapperPC(s.threads[t].pc)
    ensures SwapperStep(r, t, flip) == SwapperStep(s, t, flip).(next := SwapperStep(r, t, flip).next)
  {
    var th := s.threads[t];
    match th.pc {
      case SRead1 => assert th.prev in Touches(th);
      case SRead2 => assert th.cur in Touches(th);
      case SWrite1 =>
      case SWrite2 | SWrite3 =>
      case SBail | SUnlockPrev(_) | SLast(_) =>
      case SLock1 | SLock2 | SDecide | SUnlockNext(_) =>
    }
  }

  /** What a step writes depends on the touched links only. */
  lemma WrittenAlike(s: State, r: State, t: nat, flip: bool, n: Node)
    requires AlikeFor(s, r, t) && n in Writes(s.threads[t])
    ensures Next(Step(r, t, flip), n) == Next(Step(s, t, flip), n)
  {
    var th := s.threads[t];
    assert n in Touches(th);
    if th.pc.SWrite2? { assert th.nxt in Touches(th); }
  }

  /** A step depends on no other links than it Touches. */
  lemma StepReadsOnly(s: State, r: State, t: nat, flip: bool)
    requires AlikeFor(s, r, t)
    ensures Step(r, t, flip) == Step(s, t, flip).(next := Step(r, t, flip).next)
    ensures forall n <- Writes(s.threads[t]) :: Next(Step(r, t, flip), n) == Next(Step(s, t, flip), n)
  {
    CounterReads(s, r, t);
    if SwapperPC(s.threads[t].pc) { SwapperReads(s, r, t, flip); }
    forall n | n in Writes(s.threads[t]) ensures Next(Step(r, t, flip), n) == Next(Step(s, t, flip), n) {
      WrittenAlike(s, r, t, flip, n);
    }
  }

  lemma HeldExclusively(mode: LockKind, s: State, t: nat, u: nat, n: Node)
    requires ListInv(s) && ThreadsInv(s) && OrderInv(mode, s)
    requires t < |s.threads| && u < |s.threads| && t != u
    requires n in s.threads[t].held && n in s.threads[u].held
    ensures mode.ReadWriteLocks? && !s.threads[t].kind.Swapper? && !s.threads[u].kind.Swapper?
  {
    assert ThreadInv(s, t) && ThreadInv(s, u);
    assert InOrder(mode, s.threads[t], s.threads[u]);
    assert InOrder(mode, s.threads[u], s.threads[t]);
  }

  /** Whoever touches a link holds that node's lock; nobody else touches a link being written. */
  lemma NoDataRace(mode: LockKind, init: seq<Node>, s: State, t: nat, u: nat)
    requires Inv(mode, init, s) && t < |s.threads| && u < |s.threads| && t != u
    ensures Touches(s.threads[t]) <= s.threads[t].held
    ensures Writes(s.threads[t]) * Touches(s.threads[u]) == {}
  {
    assert ThreadInv(s, t) && ThreadInv(s, u);
    forall n | n in Writes(s.threads[t]) ensures n !in Touches(s.threads[u]) {
      if n in Touches(s.threads[u]) {
        HeldExclusively(mode, s, t, u, n);
      }
    }
  }

  // ----- deadlock freedom and termination -----

  /** A thread waiting for a node other than the first holds that node's predecessor. */
  lemma WaiterHoldsPredecessor(mode: LockKind, init: seq<Node>, s: State, t: nat)
    requires Inv(mode, init, s) && t < |s.threads| && !s.threads[t].pc.Idle?
    requires Wants(s, s.threads[t]).Some?
    ensures
      var th := s.threads[t];
      var i := th.pos + Width(th.pc);
      i + 1 < |s.order| && s.order[i] in th.held && Wants(s, th) == Some(s.order[i + 1])
  {
    assert ThreadInv(s, t);
  }

  /** The pass under way that locked the first node before all others under way. */
  lemma {:induction false} Frontmost(s: State, k: nat) returns (t: nat)
    requires k <= |s.threads| && exists u :: 0 <= u < k && !s.threads[u].pc.Idle?
    ensures t < k && !s.threads[t].pc.Idle?
    ensures forall u :: 0 <= u < k && !s.threads[u].pc.Idle? ==> s.threads[t].rank <= s.threads[u].rank
  {
    if !s.threads[k - 1].pc.Idle? &&
       (forall u :: 0 <= u < k - 1 && !s.threads[u].pc.Idle? ==> s.threads[k - 1].rank <= s.threads[u].rank) {
      t := k - 1;
    } else {
      t := Frontmost(s, k - 1);
    }
  }

  lemma FrontmostCanStep(mode: LockKind, init: seq<Node>, s: State, t: nat)
    requires Inv(mode, init, s) && t < |s.threads| && !s.threads[t].pc.Idle?
    requires forall u :: 0 <= u < |s.threads| && !s.threads[u].pc.Idle? ==> s.threads[t].rank <= s.threads[u].rank
    ensures CanStep(mode, s, t)
  {
    var th := s.threads[t];
    assert ThreadInv(s, t);
    if Wants(s, th).Some? {
      forall u | 0 <= u < |s.threads| && Wants(s, th).value in s.threads[u].held
        ensures u != t && !Conflict(mode, th.kind, s.threads[u].kind)
      {
        assert ThreadInv(s, u);
        if u != t { assert InOrder(mode, th, s.threads[u]); }
      }
    }
  }

  /** Deadlock freedom: some thread can always step, and a started pass never has to wait for an idle thread. */
  lemma NeverStuck(mode: LockKind, init: seq<Node>, s: State) returns (t: nat)
    requires Inv(mode, init, s) && |s.threads| > 0
    ensures CanStep(mode, s, t)
    ensures (exists u :: 0 <= u < |s.threads| && !s.threads[u].pc.Idle?) ==> !s.threads[t].pc.Idle?
  {
    if exists u :: 0 <= u < |s.threads| && !s.threads[u].pc.Idle? {
      t := Frontmost(s, |s.threads|);
      FrontmostCanStep(mode, init, s, t);
    } else {
      t := 0;
      forall u | 0 <= u < |s.threads| ensures s.threads[u].held == {} {
        assert ThreadInv(s, u);
      }
    }
  }

  /** How far a program point is in its loop iteration. */
  function Phase(pc: PC): nat {
    match pc
    case Idle | CRead | SRead1 => 0
    case CLock | SLock1 => 1
    case CCompare | SRead2 => 2
    case CUnlock | SLock2 => 3
    case SDecide => 4
    case SWrite1 => 5
    case SWrite2 => 6
    case SWrite3 => 7
    case SUnlockNext(_) => 8
    case SUnlockPrev(_) => 9
    case SBail => 10
    case CLast | SLast(_) => 12
  }

  /** The steps a pass may still take on a list of n nodes. */
  ghost function Remaining(n: nat): Thread -> nat {
    (th: Thread) => if th.pc.Idle? || th.pos >= n then 0 else (n - th.pos) * 13 - Phase(th.pc)
  }

  ghost function Work(s: State): nat {
    Sum(s.threads, Remaining(|s.order|))
  }

  /** Every step of a pass brings it nearer to its end. */
  lemma StepShortens(s: State, t: nat, flip: bool, n: nat)
    requires t < |s.threads| && !s.threads[t].pc.Idle? && s.threads[t].pos < n
    requires s.threads[t].kind.Swapper? == SwapperPC(s.threads[t].pc)
    requires s.threads[t].pc.CCompare? ==> Next(s, s.threads[t].cur).Some?
    ensures Remaining(n)(Step(s, t, flip).threads[t]) < Remaining(n)(s.threads[t])
  {
    var th, th' := s.threads[t], Step(s, t, flip).threads[t];
    match th.pc {
      case CUnlock => assert th'.pos == th.pos + 1 && th'.pc == CRead;
      case SUnlockPrev(b) => assert th'.pos >= th.pos + 1 && th'.pc == SRead1;
      case CRead | CLock | CCompare | CLast =>
        assert th'.pc.Idle? || (Phase(th'.pc) > Phase(th.pc) && th'.pos == th.pos);
      case SRead1 | SLock1 | SRead2 | SBail | SLast(_) =>
        assert th'.pc.Idle? || (Phase(th'.pc) > Phase(th.pc) && th'.pos == th.pos);
      case SLock2 | SDecide | SWrite1 | SWrite2 | SWrite3 | SUnlockNext(_) =>
        assert Phase(th'.pc) > Phase(th.pc) && th'.pos == th.pos;
    }
  }

  lemma StepUsesWork(mode: LockKind, init: seq<Node>, s: State, t: nat, flip: bool)
    requires Inv(mode, init, s) && CanStep(mode, s, t)
    ensures Inv(mode, init, Step(s, t, flip))
    ensures Work(Step(s, t, flip)) + 1 <= Work(s) + (if s.threads[t].pc.Idle? then 13 * |init| + 1 else 0)
  {
    var s' := Step(s, t, flip);
    var th, th' := s.threads[t], s'.threads[t];
    assert ThreadInv(s, t);
    if th.pc.CCompare? { ReadLink(mode, s, t, th.pos); }
    SumUpdate(s.threads, t, th', Remaining(|s.order|));
    if !th.pc.Idle? { StepShortens(s, t, flip, |s.order|); }
    StepKeepsInv(mode, init, s, t, flip);
  }

  /** b times c, as repeated addition. */
  ghost function Times(b: nat, c: nat): nat {
    if b == 0 then 0 else c + Times(b - 1, c)
  }

  lemma {:induction false} TimesIsProduct(b: nat, c: nat)
    ensures Times(b, c) == b * c
  {
    if b > 0 { TimesIsProduct(b - 1, c); }
  }

  /** How many passes begin in the first k steps of a run. */
  ghost function Begins(tr: seq<State>, cs: seq<Choice>, k: nat): nat
    requires k <= |cs| < |tr|
  {
    if k == 0 then 0 else Begins(tr, cs, k - 1) + (if Starts(tr[k - 1], cs[k - 1]) then 1 else 0)
  }

  predicate Starts(s: State, c: Choice) {
    c.tid < |s.threads| && s.threads[c.tid].pc.Idle?
  }

  lemma {:induction false} WorkIsPaid(tr: seq<State>, cs: seq<Choice>, k: nat, c: nat)
    requires k <= |cs| < |tr|
    requires forall i :: 0 <= i < k ==> Work(tr[i + 1]) + 1 <= Work(tr[i]) + (if Starts(tr[i], cs[i]) then c else 0)
    ensures k + Work(tr[k]) <= Work(tr[0]) + Times(Begins(tr, cs, k), c)
  {
    if k > 0 { WorkIsPaid(tr, cs, k - 1, c); }
  }

  /** Termination: a run is never longer than the passes begun in it allow, 13 |nodes| + 1 steps for each. */
  lemma RunsAreBounded(mode: LockKind, init: seq<Node>, tr: seq<State>, cs: seq<Choice>, k: nat)
    requires IsRun(mode, tr, cs) && k <= |cs| && Inv(mode, init, tr[0])
    ensures k + Work(tr[k]) <= Work(tr[0]) + Begins(tr, cs, k) * (13 * |init| + 1)
  {
    var c := 13 * |init| + 1;
    forall i | 0 <= i < k
      ensures Work(tr[i + 1]) + 1 <= Work(tr[i]) + (if Starts(tr[i], cs[i]) then c else 0)
    {
      RunKeepsInv(mode, init, tr, cs, i);
      assert StepAt(mode, tr, cs, i);
      StepUsesWork(mode, init, tr[i], cs[i].tid, cs[i].flip);
    }
    WorkIsPaid(tr, cs, k, c);
    TimesIsProduct(Begins(tr, cs, k), c);
  }

  lemma {:induction false} NoWorkYet(s: State)
    requires forall t :: 0 <= t < |s.threads| ==> s.threads[t].pc.Idle?
    ensures Work(s) == 0
  {
    SumZero(s.threads, Remaining(|s.order|));
  }

  /** In particular a run from a freshly built list of N nodes has at most 13 N + 1 steps for each pass begun in it. */
  lemma PassesEnd(mode: LockKind, nodes: seq<Node>, kinds: seq<Kind>, tr: seq<State>, cs: seq<Choice>, k: nat)
    requires nodes != [] && Distinct(nodes) && IsRun(mode, tr, cs) && tr[0] == Init(nodes, kinds) && k <= |cs|
    ensures k <= Begins(tr, cs, k) * (13 * |nodes| + 1)
  {
    InitInv(mode, nodes, kinds);
    NoWorkYet(tr[0]);
    RunsAreBounded(mode, nodes, tr, cs, k);
  }

  /** A pass takes at most |nodes| - 1 loop iterations, and a thread between passes holds no lock. */
  lemma PassesAreShort(mode: LockKind, init: seq<Node>, s: State, r: nat, t: nat)
    requires Inv(mode, init, s) && r < |s.passes| && t < |s.threads|
    ensures |s.passes[r].input| <= |init| && |s.passes[r].flips| <= |init| - 1
    ensures s.threads[t].pc.Idle? ==> s.threads[t].held == {}
  {
    assert PassInv(s, r) && ThreadInv(s, t);
    CursorBounds(s.passes[r].flips, |s.order|);
  }

  // ----- statistics -----

  ghost function FoundBy(k: Kind): Pass -> nat {
    (p: Pass) => if p.kind == k then Matches(k, p.input) else 0
  }

  ghost function DoneBy(k: Kind): Pass -> nat {
    (p: Pass) => if p.kind == k && p.done then 1 else 0
  }

  ghost function Compared(): Pass -> nat {
    (p: Pass) => if p.kind.Swapper? || p.input == [] then 0 else |p.input| - 1
  }

  function Trues(flips: seq<bool>): nat {
    if flips == [] then 0 else Trues(flips[..|flips| - 1]) + (if flips[|flips| - 1] then 1 else 0)
  }

  ghost function Exchanges(): Pass -> nat {
    (p: Pass) => Trues(p.flips)
  }

  /** A swap is counted right after its third write. */
  ghost function Uncounted(): Thread -> nat {
    (th: Thread) => if th.pc.SWrite2? || th.pc.SWrite3? then 1 else 0
  }

  ghost predicate StatInv(s: State) {
    s.comps == Sum(s.passes, Compared()) &&
    s.swaps + Sum(s.threads, Uncounted()) == Sum(s.passes, Exchanges()) &&
    forall k: Kind :: !k.Swapper? ==>
      s.iters.Of(k) == Sum(s.passes, DoneBy(k)) && s.found.Of(k) == Sum(s.passes, FoundBy(k))
  }

  /** All pass sums after the record at r changed. */
  lemma RecordSums(ps: seq<Pass>, r: nat, p: Pass)
    requires r < |ps|
    ensures Sum(ps[r := p], Compared()) + Compared()(ps[r]) == Sum(ps, Compared()) + Compared()(p)
    ensures Sum(ps[r := p], Exchanges()) + Exchanges()(ps[r]) == Sum(ps, Exchanges()) + Exchanges()(p)
    ensures forall k :: Sum(ps[r := p], DoneBy(k)) + DoneBy(k)(ps[r]) == Sum(ps, DoneBy(k)) + DoneBy(k)(p)
    ensures forall k :: Sum(ps[r := p], FoundBy(k)) + FoundBy(k)(ps[r]) == Sum(ps, FoundBy(k)) + FoundBy(k)(p)
  {
    SumUpdate(ps, r, p, Compared());
    SumUpdate(ps, r, p, Exchanges());
    forall k ensures Sum(ps[r := p], DoneBy(k)) + DoneBy(k)(ps[r]) == Sum(ps, DoneBy(k)) + DoneBy(k)(p) {
      SumUpdate(ps, r, p, DoneBy(k));
    }
    forall k ensures Sum(ps[r := p], FoundBy(k)) + FoundBy(k)(ps[r]) == Sum(ps, FoundBy(k)) + FoundBy(k)(p) {
      SumUpdate(ps, r, p, FoundBy(k));
    }
  }

  /** A pass that has just begun has done and found nothing. */
  lemma BeginKind(ps: seq<Pass>, p: Pass, k: Kind)
    requires |p.input| == 1 && !p.done
    ensures Sum(ps + [p], DoneBy(k)) == Sum(ps, DoneBy(k)) && Sum(ps + [p], FoundBy(k)) == Sum(ps, FoundBy(k))
  {
    assert DoneBy(k)(p) == 0 && FoundBy(k)(p) == 0;
    SumAppend(ps, p, DoneBy(k));
    SumAppend(ps, p, FoundBy(k));
  }

  lemma BeginSums(ps: seq<Pass>, p: Pass)
    requires |p.input| == 1 && p.flips == [] && !p.done
    ensures Sum(ps + [p], Compared()) == Sum(ps, Compared()) && Sum(ps + [p], Exchanges()) == Sum(ps, Exchanges())
    ensures forall k :: Sum(ps + [p], DoneBy(k)) == Sum(ps, DoneBy(k))
    ensures forall k :: Sum(ps + [p], FoundBy(k)) == Sum(ps, FoundBy(k))
  {
    assert Compared()(p) == 0 && Exchanges()(p) == 0;
    SumAppend(ps, p, Compared());
    SumAppend(ps, p, Exchanges());
    forall k
      ensures Sum(ps + [p], DoneBy(k)) == Sum(ps, DoneBy(k)) && Sum(ps + [p], FoundBy(k)) == Sum(ps, FoundBy(k))
    {
      BeginKind(ps, p, k);
    }
  }

  lemma MatchesOne(k: Kind, l: seq<Node>, n: Node)
    requires l != []
    ensures Matches(k, l + [n]) == Matches(k, l) + (if Related(k, l[|l| - 1], n) then 1 else 0)
  {
    assert (l + [n])[..|l|] == l;
  }

  lemma TruesOne(flips: seq<bool>, b: bool)
    ensures Trues(flips + [b]) == Trues(flips) + (if b then 1 else 0)
  {
    assert (flips + [b])[..|flips|] == flips;
  }

  /** A step that changes the record of one pass keeps the statistics if it counts what changed. */
  lemma RecordStats(s: State, s': State, t: nat, r: nat)
    requires StatInv(s) && Frame(s, s', t) && r < |s.passes| && |s'.passes| == |s.passes|
    requires s'.passes == s.passes[r := s'.passes[r]]
    requires s'.comps + Compared()(s.passes[r]) == s.comps + Compared()(s'.passes[r])
    requires s'.swaps + Uncounted()(s'.threads[t]) + Exchanges()(s.passes[r]) ==
             s.swaps + Uncounted()(s.threads[t]) + Exchanges()(s'.passes[r])
    requires forall k: Kind :: !k.Swapper? ==>
      s'.iters.Of(k) + DoneBy(k)(s.passes[r]) == s.iters.Of(k) + DoneBy(k)(s'.passes[r]) &&
      s'.found.Of(k) + FoundBy(k)(s.passes[r]) == s.found.Of(k) + FoundBy(k)(s'.passes[r])
    ensures StatInv(s')
  {
    SumUpdate(s.threads, t, s'.threads[t], Uncounted());
    RecordSums(s.passes, r, s'.passes[r]);
  }

  /** The same for a swapper, which counts nothing but exchanges. */
  lemma SwapperStats(s: State, s': State, t: nat, r: nat)
    requires StatInv(s) && Frame(s, s', t) && r < |s.passes| && |s'.passes| == |s.passes|
    requires s'.passes == s.passes[r := s'.passes[r]]
    requires s.passes[r].kind.Swapper? && s'.passes[r].kind.Swapper?
    requires s'.comps == s.comps && s'.iters == s.iters && s'.found == s.found
    requires s'.swaps + Uncounted()(s'.threads[t]) + Trues(s.passes[r].flips) ==
             s.swaps + Uncounted()(s.threads[t]) + Trues(s'.passes[r].flips)
    ensures StatInv(s')
  {
    RecordStats(s, s', t, r);
  }

  lemma CompareStats(s: State, t: nat)
    requires ThreadInv(s, t) && s.threads[t].pc.CCompare? && StatInv(s) && PassInv(s, s.threads[t].rank)
    requires Next(s, s.threads[t].cur) == Some(s.threads[t].nxt)
    ensures StatInv(Step(s, t, false))
  {
    var th := s.threads[t];
    var s' := Step(s, t, false);
    var p := s.passes[th.rank];
    MatchesOne(th.kind, p.input, th.nxt);
    assert p.flips + [] == p.flips;
    assert s'.passes[th.rank] == Extend(p, [th.nxt], [th.nxt], []);
    RecordStats(s, s', t, th.rank);
  }

  lemma FinishStats(s: State, t: nat, flip: bool)
    requires ThreadInv(s, t) && StatInv(s) && (s.threads[t].pc.CLast? || s.threads[t].pc.SLast?)
    ensures StatInv(Step(s, t, flip))
  {
    var th := s.threads[t];
    var s' := Step(s, t, flip);
    assert s'.passes[th.rank] == s.passes[th.rank].(done := true);
    RecordStats(s, s', t, th.rank);
  }

  lemma SwapStats(s: State, s': State, t: nat, r: nat, x: Node, y: Node)
    requires StatInv(s) && Frame(s, s', t) && r < |s.passes| && |s'.passes| == |s.passes|
    requires s.threads[t].pc.SWrite1? && s'.threads[t].pc.SWrite2? && s.passes[r].kind.Swapper?
    requires s'.passes == s.passes[r := s'.passes[r]]
    requires s'.passes[r] == Extend(s.passes[r], [x, y], [y, x], [true])
    requires s'.comps == s.comps && s'.swaps == s.swaps && s'.iters == s.iters && s'.found == s.found
    ensures StatInv(s')
  {
    TruesOne(s.passes[r].flips, true);
    SwapperStats(s, s', t, r);
  }

  lemma WriteStats(s: State, t: nat, flip: bool)
    requires ThreadInv(s, t) && StatInv(s) && s.threads[t].pc.SWrite1?
    ensures StatInv(Step(s, t, flip))
  {
    var th := s.threads[t];
    SwapStats(s, Step(s, t, flip), t, th.rank, th.cur, th.nxt);
  }

  lemma BailStats(s: State, t: nat, flip: bool)
    requires ThreadInv(s, t) && StatInv(s) && s.threads[t].pc.SBail?
    ensures StatInv(Step(s, t, flip))
  {
    var th := s.threads[t];
    var s' := Step(s, t, flip);
    var p := s.passes[th.rank];
    assert p.flips + [] == p.flips;
    assert s'.passes[th.rank] == Extend(p, [th.cur], [th.cur], []);
    SwapperStats(s, s', t, th.rank);
  }

  lemma KeepStats(s: State, s': State, t: nat, r: nat, x: Node)
    requires StatInv(s) && Frame(s, s', t) && r < |s.passes| && |s'.passes| == |s.passes|
    requires s.threads[t].pc == SUnlockPrev(false) && s'.threads[t].pc.SRead1?
    requires s.passes[r].kind.Swapper?
    requires s'.passes == s.passes[r := s'.passes[r]]
    requires s'.passes[r] == Extend(s.passes[r], [x], [x], [false])
    requires s'.comps == s.comps && s'.swaps == s.swaps && s'.iters == s.iters && s'.found == s.found
    ensures StatInv(s')
  {
    TruesOne(s.passes[r].flips, false);
    SwapperStats(s, s', t, r);
  }

  /** All other steps count nothing, except that the third write of a swap counts the swap. */
  lemma OtherStats(s: State, t: nat, flip: bool)
    requires ThreadInv(s, t) && StatInv(s)
    requires var pc := s.threads[t].pc;
      !pc.CCompare? && !pc.CLast? && !pc.SBail? && !pc.SWrite1? && pc != SUnlockPrev(false) && !pc.SLast?
    ensures StatInv(Step(s, t, flip))
  {
    var th := s.threads[t];
    var s' := Step(s, t, flip);
    SumUpdate(s.threads, t, s'.threads[t], Uncounted());
    if th.pc.Idle? {
      BeginSums(s.passes, Pass(t, th.kind, [s.first], [s.first], [], false));
    } else if th.pc.SWrite2? || th.pc.SWrite3? {
      assert s'.passes == s.passes;
    } else {
      assert s'.passes == s.passes && s'.swaps == s.swaps && s'.comps == s.comps;
    }
  }

  lemma StepKeepsStats(mode: LockKind, init: seq<Node>, s: State, t: nat, flip: bool)
    requires Inv(mode, init, s) && StatInv(s) && CanStep(mode, s, t)
    ensures StatInv(Step(s, t, flip))
  {
    var th := s.threads[t];
    assert ThreadInv(s, t);
    match th.pc {
      case CCompare =>
        assert PassInv(s, th.rank);
        ReadLink(mode, s, t, th.pos);
        CompareStats(s, t);
      case CLast | SLast(_) => FinishStats(s, t, flip);
      case SWrite1 => WriteStats(s, t, flip);
      case SBail => BailStats(s, t, flip);
      case SUnlockPrev(b) =>
        if b {
          OtherStats(s, t, flip);
        } else {
          KeepEffect(s, t, flip);
          KeepStats(s, Step(s, t, flip), t, th.rank, th.cur);
        }
      case _ => OtherStats(s, t, flip);
    }
  }

  lemma {:induction false} RunKeepsStats(mode: LockKind, init: seq<Node>, tr: seq<State>, cs: seq<Choice>, k: nat)
    requires IsRun(mode, tr, cs) && k <= |cs| && Inv(mode, init, tr[0]) && StatInv(tr[0])
    ensures StatInv(tr[k])
  {
    if k > 0 {
      RunKeepsStats(mode, init, tr, cs, k - 1);
      RunKeepsInv(mode, init, tr, cs, k - 1);
      assert StepAt(mode, tr, cs, k - 1);
      StepKeepsStats(mode, init, tr[k - 1], cs[k - 1].tid, cs[k - 1].flip);
    }
  }

  /** Comparisons made in passes that have not finished. */
  ghost function Unfinished(): Pass -> nat {
    (p: Pass) => if p.done || p.kind.Swapper? || p.input == [] then 0 else |p.input| - 1
  }

  lemma {:induction false} ComparedSplits(ps: seq<Pass>, n: nat)
    requires n >= 1
    requires forall r :: 0 <= r < |ps| && ps[r].done ==> |ps[r].input| == n
    ensures Sum(ps, Compared()) ==
      (n - 1) * (Sum(ps, DoneBy(Asc)) + Sum(ps, DoneBy(Desc)) + Sum(ps, DoneBy(Eq))) + Sum(ps, Unfinished())
  {
    if ps != [] {
      var front, p := ps[..|ps| - 1], ps[|ps| - 1];
      ComparedSplits(front, n);
      var a := Sum(front, DoneBy(Asc)) + Sum(front, DoneBy(Desc)) + Sum(front, DoneBy(Eq));
      var d := DoneBy(Asc)(p) + DoneBy(Desc)(p) + DoneBy(Eq)(p);
      assert (n - 1) * (a + d) == (n - 1) * a + (n - 1) * d;
    }
  }

  lemma InitStats(nodes: seq<Node>, kinds: seq<Kind>)
    requires nodes != []
    ensures StatInv(Init(nodes, kinds))
  {
    SumZero(Init(nodes, kinds).threads, Uncounted());
  }

  lemma ComparedOf(mode: LockKind, init: seq<Node>, s: State)
    requires Inv(mode, init, s) && StatInv(s) && init != []
    ensures s.comps == (|init| - 1) * (s.iters.asc + s.iters.desc + s.iters.eq) + Sum(s.passes, Unfinished())
  {
    forall r | 0 <= r < |s.passes| && s.passes[r].done ensures |s.passes[r].input| == |init| {
      assert PassInv(s, r);
    }
    ComparedSplits(s.passes, |init|);
    assert s.iters.asc == s.iters.Of(Asc) && s.iters.desc == s.iters.Of(Desc) && s.iters.eq == s.iters.Of(Eq);
  }

  /**
    The statistics in every run: comp_count is (N - 1) times the finished counter passes plus
    the comparisons of the unfinished ones, each string count is what the serial passes find,
    and the swap counts are the exchanges that have been completed.
   */
  lemma StatisticsAddUp(mode: LockKind, nodes: seq<Node>, kinds: seq<Kind>, tr: seq<State>, cs: seq<Choice>, k: nat)
    requires nodes != [] && Distinct(nodes) && IsRun(mode, tr, cs) && tr[0] == Init(nodes, kinds) && k <= |cs|
    ensures
      var s := tr[k];
      s.comps == (|nodes| - 1) * (s.iters.asc + s.iters.desc + s.iters.eq) + Sum(s.passes, Unfinished()) &&
      (forall k: Kind :: !k.Swapper? ==>
        s.iters.Of(k) == Sum(s.passes, DoneBy(k)) && s.found.Of(k) == Sum(s.passes, FoundBy(k))) &&
      s.swaps + Sum(s.threads, Uncounted()) == Sum(s.passes, Exchanges())
  {
    InitInv(mode, nodes, kinds);
    InitStats(nodes, kinds);
    ReachableInv(mode, nodes, kinds, tr, cs, k);
    RunKeepsStats(mode, nodes, tr, cs, k);
    ComparedOf(mode, nodes, tr[k]);
  }
}
