/**
  The runs of the hand-over-hand list and what goes into them: the swappers' coin flips and
  the order of the first locks determine the list, and the locks block nobody but who conflicts.
 */
module HandOverHandChoices {
  import opened Basics
  import opened PassSpec
  import opened HandOverHand
  import opened HandOverHandSteps
  import opened HandOverHandTheorems

  // ----- the coin flips -----

  /** The thread that steps stands at its random decision, in pass r. */
  predicate Decides(s: State, c: Choice, r: nat) {
    c.tid < |s.threads| && s.threads[c.tid].pc.SDecide? && s.threads[c.tid].rank == r
  }

  /** The coin flips that the first k steps of the run offer to pass r, in order. */
  ghost function Coins(tr: seq<State>, cs: seq<Choice>, k: nat, r: nat): seq<bool>
    requires k <= |cs| < |tr|
  {
    if k == 0 then []
    else Coins(tr, cs, k - 1, r) + (if Decides(tr[k - 1], cs[k - 1], r) then [cs[k - 1].flip] else [])
  }

  /** The decision that a program point has taken and not yet recorded. */
  function Pending(pc: PC): seq<bool> {
    match pc
    case SWrite1 => [true]
    case SUnlockNext(swapped) => if swapped then [] else [false]
    case SUnlockPrev(swapped) => if swapped then [] else [false]
    case _ => []
  }

  /** The decisions of pass r so far: those recorded, and the one taken but not yet recorded. */
  function Decided(s: State, r: nat): seq<bool> {
    if r >= |s.passes| then []
    else if s.passes[r].done || s.passes[r].tid >= |s.threads| then s.passes[r].flips
    else s.passes[r].flips + Pending(s.threads[s.passes[r].tid].pc)
  }

  /** A step leaves the other passes and their threads alone. */
  lemma OthersDecided(s: State, t: nat, flip: bool, r: nat)
    requires PassInv(s, r) && ThreadInv(s, t)
    requires s.threads[t].pc.Idle? || s.threads[t].rank != r
    ensures Decided(Step(s, t, flip), r) == Decided(s, r)
  {
    OtherRecords(s, t, flip, r);
  }

  lemma OtherRecords(s: State, t: nat, flip: bool, r: nat)
    requires t < |s.threads| && r < |s.passes| && (s.threads[t].pc.Idle? || s.threads[t].rank != r)
    ensures r < |Step(s, t, flip).passes| && Step(s, t, flip).passes[r] == s.passes[r]
  {
    if s.threads[t].pc.Idle? {
    } else if s.threads[t].kind.Swapper? {
      assert r < |SwapperStep(s, t, flip).passes| && SwapperStep(s, t, flip).passes[r] == s.passes[r];
    } else {
      assert r < |CounterStep(s, t).passes| && CounterStep(s, t).passes[r] == s.passes[r];
    }
  }

  lemma CounterDecided(s: State, t: nat, flip: bool)
    requires ThreadInv(s, t) && !s.threads[t].pc.Idle? && !s.threads[t].kind.Swapper?
    ensures Decided(Step(s, t, flip), s.threads[t].rank) == Decided(s, s.threads[t].rank)
  {
    var p := s.passes[s.threads[t].rank];
    assert p.flips + [] == p.flips;
  }

  /** A swapper's step that records nothing. */
  lemma QuietDecided(s: State, t: nat, flip: bool)
    requires ThreadInv(s, t) && s.threads[t].kind.Swapper?
    requires var pc := s.threads[t].pc;
      pc.SRead1? || pc.SLock1? || pc.SRead2? || pc.SLock2? || pc.SDecide? || pc.SWrite2? || pc.SWrite3? ||
      pc.SUnlockNext?
    ensures Decided(Step(s, t, flip), s.threads[t].rank) ==
      Decided(s, s.threads[t].rank) + (if s.threads[t].pc.SDecide? then [flip] else [])
  {
    var p := s.passes[s.threads[t].rank];
    assert p.flips + [] == p.flips && Step(s, t, flip).passes == s.passes;
  }

  /** A swapper's step that records a decision, or none at the end of the list. */
  lemma RecordDecided(s: State, t: nat, flip: bool)
    requires ThreadInv(s, t) && s.threads[t].kind.Swapper?
    requires var pc := s.threads[t].pc; pc.SBail? || pc.SWrite1? || pc.SUnlockPrev? || pc.SLast?
    ensures Decided(Step(s, t, flip), s.threads[t].rank) == Decided(s, s.threads[t].rank)
  {
    var p := s.passes[s.threads[t].rank];
    assert p.flips + [] == p.flips;
  }

  lemma SwapperDecided(s: State, t: nat, flip: bool)
    requires ThreadInv(s, t) && !s.threads[t].pc.Idle? && s.threads[t].kind.Swapper?
    ensures Decided(Step(s, t, flip), s.threads[t].rank) ==
      Decided(s, s.threads[t].rank) + (if s.threads[t].pc.SDecide? then [flip] else [])
  {
    var pc := s.threads[t].pc;
    if pc.SBail? || pc.SWrite1? || pc.SUnlockPrev? || pc.SLast? {
      RecordDecided(s, t, flip);
      assert Decided(s, s.threads[t].rank) + [] == Decided(s, s.threads[t].rank);
    } else {
      QuietDecided(s, t, flip);
    }
  }

  lemma StepDecides(mode: LockKind, init: seq<Node>, s: State, c: Choice, r: nat)
    requires Inv(mode, init, s) && CanStep(mode, s, c.tid)
    ensures Decided(Step(s, c.tid, c.flip), r) == Decided(s, r) + (if Decides(s, c, r) then [c.flip] else [])
  {
    var th := s.threads[c.tid];
    assert ThreadInv(s, c.tid);
    if !th.pc.Idle? && th.rank == r {
      if th.kind.Swapper? {
        SwapperDecided(s, c.tid, c.flip);
      } else {
        CounterDecided(s, c.tid, c.flip);
      }
    } else if r < |s.passes| {
      assert PassInv(s, r);
      OthersDecided(s, c.tid, c.flip, r);
    } else {
      NothingDecided(s, c.tid, c.flip, r);
    }
  }

  lemma NothingDecided(s: State, t: nat, flip: bool, r: nat)
    requires ThreadInv(s, t) && r >= |s.passes|
    ensures Decided(Step(s, t, flip), r) == []
  {
  }

  lemma {:induction false} CoinsDecide(mode: LockKind, nodes: seq<Node>, kinds: seq<Kind>,
                                       tr: seq<State>, cs: seq<Choice>, k: nat, r: nat)
    requires nodes != [] && Distinct(nodes) && IsRun(mode, tr, cs) && tr[0] == Init(nodes, kinds) && k <= |cs|
    ensures Coins(tr, cs, k, r) == Decided(tr[k], r)
  {
    if k > 0 {
      CoinsDecide(mode, nodes, kinds, tr, cs, k - 1, r);
      ReachableInv(mode, nodes, kinds, tr, cs, k - 1);
      assert StepAt(mode, tr, cs, k - 1);
      StepDecides(mode, nodes, tr[k - 1], cs[k - 1], r);
    }
  }

  /** The list after passes that exchange wherever the coins say so, one pass at a time. */
  ghost function AfterCoins(init: seq<Node>, coins: seq<seq<bool>>): (r: seq<Node>)
    ensures |r| == |init|
  {
    if coins == [] then init
    else
      var l, flips := AfterCoins(init, coins[..|coins| - 1]), coins[|coins| - 1];
      if Cursor(flips) < |l| then SwapPass(l, flips) else l
  }

  ghost function CoinsOf(tr: seq<State>, cs: seq<Choice>, k: nat, n: nat): (r: seq<seq<bool>>)
    requires k <= |cs| < |tr|
    ensures |r| == n && forall q :: 0 <= q < n ==> r[q] == Coins(tr, cs, k, q)
  {
    seq(n, q requires 0 <= q < n => Coins(tr, cs, k, q))
  }

  lemma {:induction false} SerialOfCoins(init: seq<Node>, passes: seq<Pass>, coins: seq<seq<bool>>)
    requires |coins| == |passes| && forall r :: 0 <= r < |passes| ==> passes[r].flips == coins[r]
    ensures Serial(init, passes) == AfterCoins(init, coins)
  {
    if passes != [] { SerialOfCoins(init, passes[..|passes| - 1], coins[..|coins| - 1]); }
  }

  /**
    The coins decide. In every run the decisions of a pass are the coin flips it was offered,
    all of them and in their order. Whenever no pass is under way, the links in memory form the
    list that the coin flips make of the initial one, pass after pass in the order of the
    first locks.
   */
  lemma CoinsMakeTheList(mode: LockKind, nodes: seq<Node>, kinds: seq<Kind>,
                         tr: seq<State>, cs: seq<Choice>, k: nat)
    requires nodes != [] && Distinct(nodes) && IsRun(mode, tr, cs) && tr[0] == Init(nodes, kinds) && k <= |cs|
    ensures forall r :: 0 <= r < |tr[k].passes| && tr[k].passes[r].done ==>
      tr[k].passes[r].flips == Coins(tr, cs, k, r)
    ensures (forall t :: 0 <= t < |tr[k].threads| ==> tr[k].threads[t].pc.Idle?) ==>
      HeapIs(tr[k], AfterCoins(nodes, CoinsOf(tr, cs, k, |tr[k].passes|)))
  {
    var s := tr[k];
    ReachableInv(mode, nodes, kinds, tr, cs, k);
    forall r | 0 <= r < |s.passes| && s.passes[r].done ensures s.passes[r].flips == Coins(tr, cs, k, r) {
      CoinsDecide(mode, nodes, kinds, tr, cs, k, r);
    }
    if forall t :: 0 <= t < |s.threads| ==> s.threads[t].pc.Idle? {
      forall r | 0 <= r < |s.passes| ensures s.passes[r].done {
        assert PassInv(s, r);
      }
      SerialOfCoins(nodes, s.passes, CoinsOf(tr, cs, k, |s.passes|));
      EveryRunIsSerial(mode, nodes, kinds, tr, cs, k);
    }
  }

  // ----- the order of the first locks -----

  /** The threads that have locked the first node in the first k steps, in that order. */
  ghost function Starters(tr: seq<State>, cs: seq<Choice>, k: nat): seq<nat>
    requires k <= |cs| < |tr|
  {
    if k == 0 then []
    else Starters(tr, cs, k - 1) + (if Starts(tr[k - 1], cs[k - 1]) then [cs[k - 1].tid] else [])
  }

  ghost predicate SamePasses(ps: seq<Pass>, ps': seq<Pass>) {
    |ps'| == |ps| && forall r :: 0 <= r < |ps| ==> ps'[r].tid == ps[r].tid && ps'[r].kind == ps[r].kind
  }

  lemma CounterKeepsWho(s: State, t: nat)
    requires t < |s.threads|
    ensures SamePasses(s.passes, CounterStep(s, t).passes)
  {
  }

  lemma SwapperKeepsWho(s: State, t: nat, flip: bool)
    requires t < |s.threads|
    ensures SamePasses(s.passes, SwapperStep(s, t, flip).passes)
  {
    var pc := s.threads[t].pc;
    if !pc.SBail? && !pc.SWrite1? && !pc.SUnlockPrev? && !pc.SLast? {
      assert SwapperStep(s, t, flip).passes == s.passes;
    }
  }

  /** A step of a pass changes neither who runs which pass nor how many there are. */
  lemma StepKeepsWho(s: State, t: nat, flip: bool)
    requires ThreadInv(s, t)
    ensures var s' := Step(s, t, flip);
      |s'.passes| == |s.passes| + (if s.threads[t].pc.Idle? then 1 else 0) &&
      (forall r :: 0 <= r < |s.passes| ==>
        s'.passes[r].tid == s.passes[r].tid && s'.passes[r].kind == s.passes[r].kind) &&
      (s.threads[t].pc.Idle? ==>
        s'.passes[|s.passes|].tid == t && s'.passes[|s.passes|].kind == s.threads[t].kind)
  {
    if !s.threads[t].pc.Idle? {
      CounterKeepsWho(s, t);
      SwapperKeepsWho(s, t, flip);
    }
  }

  lemma {:induction false} KindsStay(mode: LockKind, tr: seq<State>, cs: seq<Choice>, k: nat)
    requires IsRun(mode, tr, cs) && k <= |cs|
    ensures |tr[k].threads| == |tr[0].threads|
    ensures forall t :: 0 <= t < |tr[0].threads| ==> tr[k].threads[t].kind == tr[0].threads[t].kind
  {
    if k > 0 {
      KindsStay(mode, tr, cs, k - 1);
      assert StepAt(mode, tr, cs, k - 1);
    }
  }

  /** The passes are those of the threads that locked the first node, in the order in which they did. */
  lemma {:induction false} PassesStart(mode: LockKind, nodes: seq<Node>, kinds: seq<Kind>,
                                       tr: seq<State>, cs: seq<Choice>, k: nat)
    requires nodes != [] && Distinct(nodes) && IsRun(mode, tr, cs) && tr[0] == Init(nodes, kinds) && k <= |cs|
    ensures var l := Starters(tr, cs, k);
      |tr[k].passes| == |l| &&
      forall r :: 0 <= r < |l| ==> tr[k].passes[r].tid == l[r] < |kinds| && tr[k].passes[r].kind == kinds[l[r]]
  {
    if k > 0 {
      PassesStart(mode, nodes, kinds, tr, cs, k - 1);
      KindsStay(mode, tr, cs, k - 1);
      ReachableInv(mode, nodes, kinds, tr, cs, k - 1);
      assert StepAt(mode, tr, cs, k - 1);
      assert ThreadInv(tr[k - 1], cs[k - 1].tid);
      StepKeepsWho(tr[k - 1], cs[k - 1].tid, cs[k - 1].flip);
    }
  }

  // ----- who waits -----

  /**
    A thread waits exactly for conflicting holders: under mutexes for anybody who holds the
    node it wants, under read/write locks a counter for swappers and a swapper for anybody.
   */
  lemma WaitsExactly(mode: LockKind, init: seq<Node>, s: State, t: nat)
    requires Inv(mode, init, s) && t < |s.threads|
    ensures CanStep(mode, s, t) <==>
      forall u ::
        (0 <= u < |s.threads| && Wants(s, s.threads[t]).Some? && Wants(s, s.threads[t]).value in s.threads[u].held) ==>
        mode.ReadWriteLocks? && !s.threads[t].kind.Swapper? && !s.threads[u].kind.Swapper?
  {
    assert ThreadInv(s, t);
  }

  lemma OneStep(mode: LockKind, tr: seq<State>, cs: seq<Choice>, c: Choice)
    returns (tr': seq<State>, cs': seq<Choice>)
    requires IsRun(mode, tr, cs) && CanStep(mode, tr[|cs|], c.tid)
    ensures IsRun(mode, tr', cs') && tr <= tr' && cs <= cs' && |cs'| == |cs| + 1
    ensures tr'[|cs'|] == Step(tr[|cs|], c.tid, c.flip)
  {
    tr', cs' := tr + [Step(tr[|cs|], c.tid, c.flip)], cs + [c];
    forall i | 0 <= i < |cs'| ensures StepAt(mode, tr', cs', i) {
      if i < |cs| { assert StepAt(mode, tr, cs, i); }
    }
  }

  /** Every pass under way can be brought to its end: the run can go on until all threads are between passes. */
  lemma {:induction false} PassesCanEnd(mode: LockKind, init: seq<Node>, tr: seq<State>, cs: seq<Choice>, flip: bool)
    returns (tr': seq<State>, cs': seq<Choice>)
    requires IsRun(mode, tr, cs) && Inv(mode, init, tr[|cs|])
    ensures IsRun(mode, tr', cs') && tr <= tr' && cs <= cs'
    ensures forall t :: 0 <= t < |tr'[|cs'|].threads| ==> tr'[|cs'|].threads[t].pc.Idle?
    decreases Work(tr[|cs|])
  {
    tr', cs' := tr, cs;
    var s := tr[|cs|];
    if exists u :: 0 <= u < |s.threads| && !s.threads[u].pc.Idle? {
      var t := NeverStuck(mode, init, s);
      StepUsesWork(mode, init, s, t, flip);
      tr', cs' := OneStep(mode, tr, cs, Choice(t, flip));
      tr', cs' := PassesCanEnd(mode, init, tr', cs', flip);
    }
  }
}
