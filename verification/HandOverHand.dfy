/**
  The hand-over-hand list: counters and swappers that walk one linked list while
  locking it node by node.

  Every lock, unlock, pointer read, comparison and each of the three pointer writes of a
  swap is one step. The same program runs under mutexes and under read/write locks,
  where counters share a node's lock with each other.
 */
module HandOverHand {
  import opened Basics
  import opened PassSpec

  datatype LockKind = MutexLocks | ReadWriteLocks

  /** Program points; the two swap flags and the bail flag record the branch taken. */
  datatype PC =
    | Idle                              // about to lock the first node
    | CRead | CLock | CCompare | CUnlock | CLast
    | SRead1 | SLock1 | SRead2 | SBail | SLock2 | SDecide
    | SWrite1 | SWrite2 | SWrite3
    | SUnlockNext(swapped: bool) | SUnlockPrev(swapped: bool)
    | SLast(bailed: bool)

  /** A thread: its local pointers, the locks it holds, and (auxiliary) where its pass stands. */
  datatype Thread = Thread(kind: Kind, pc: PC, held: set<Node>,
                           prev: Node, cur: Node, nxt: Node, pos: nat, rank: nat)

  /** Auxiliary record of one pass, in the order in which passes locked the first node. */
  datatype Pass = Pass(tid: nat, kind: Kind, input: seq<Node>, output: seq<Node>,
                       flips: seq<bool>, done: bool)

  datatype Tally = Tally(asc: nat, desc: nat, eq: nat) {
    function Of(k: Kind): nat {
      match k case Asc => asc case Desc => desc case Eq => eq case Swapper => 0
    }

    function Plus(k: Kind, n: nat): Tally {
      match k
      case Asc => this.(asc := asc + n)
      case Desc => this.(desc := desc + n)
      case Eq => this.(eq := eq + n)
      case Swapper => this
    }
  }

  /** `order` and `passes` are auxiliary: no step reads them except to extend them. */
  datatype State = State(first: Node, next: map<Node, Option<Node>>, threads: seq<Thread>,
                         iters: Tally, found: Tally, swaps: nat, comps: nat,
                         order: seq<Node>, passes: seq<Pass>)

  function Next(s: State, n: Node): Option<Node> {
    if n in s.next then s.next[n] else None
  }

  // ----- locks -----

  predicate Conflict(mode: LockKind, a: Kind, b: Kind) {
    mode.MutexLocks? || a.Swapper? || b.Swapper?
  }

  function Wants(s: State, th: Thread): Option<Node> {
    match th.pc
    case Idle => Some(s.first)
    case CLock => Some(th.nxt)
    case SLock1 => Some(th.cur)
    case SLock2 => Some(th.nxt)
    case _ => None
  }

  predicate Blocked(mode: LockKind, s: State, t: nat)
    requires t < |s.threads|
  {
    var w := Wants(s, s.threads[t]);
    w.Some? &&
    exists u :: 0 <= u < |s.threads| && w.value in s.threads[u].held &&
      (u == t || Conflict(mode, s.threads[t].kind, s.threads[u].kind))
  }

  predicate CanStep(mode: LockKind, s: State, t: nat) {
    t < |s.threads| && !Blocked(mode, s, t)
  }

  // ----- steps -----

  function Put(s: State, t: nat, th: Thread): (r: State)
    requires t < |s.threads|
  {
    s.(threads := s.threads[t := th])
  }

  /** The record of the pass that thread th is running. */
  function Log(s: State, r: nat, p: Pass): State {
    if r < |s.passes| then s.(passes := s.passes[r := p]) else s
  }

  function Current(s: State, th: Thread): Pass {
    if th.rank < |s.passes| then s.passes[th.rank] else Pass(0, th.kind, [], [], [], false)
  }

  function Extend(p: Pass, before: seq<Node>, after: seq<Node>, flips: seq<bool>): Pass {
    p.(input := p.input + before, output := p.output + after, flips := p.flips + flips)
  }

  /** Every step leaves the other threads, the first node and the number of nodes alone. */
  ghost predicate Frame(s: State, r: State, t: nat) {
    t < |s.threads| && |r.threads| == |s.threads| && r.threads == s.threads[t := r.threads[t]] &&
    |r.order| == |s.order| && r.first == s.first && r.threads[t].kind == s.threads[t].kind
  }

  function Begin(s: State, t: nat): (r: State)
    requires t < |s.threads|
    ensures Frame(s, r, t)
  {
    var th := s.threads[t];
    var th' := th.(held := th.held + {s.first}, prev := s.first, cur := s.first,
                   pc := if th.kind.Swapper? then SRead1 else CRead, pos := 0, rank := |s.passes|);
    Put(s.(passes := s.passes + [Pass(t, th.kind, [s.first], [s.first], [], false)]), t, th')
  }

  function CounterStep(s: State, t: nat): (r: State)
    requires t < |s.threads|
    ensures Frame(s, r, t)
  {
    var th := s.threads[t];
    match th.pc
    case CRead =>
      var n := Next(s, th.cur);
      Put(s, t, if n.None? then th.(pc := CLast) else th.(nxt := n.value, pc := CLock))
    case CLock => Put(s, t, th.(held := th.held + {th.nxt}, pc := CCompare))
    case CCompare =>
      var n := Next(s, th.cur);
      if n.None? then s else
      var hit := if Related(th.kind, th.cur, th.nxt) then 1 else 0;
      var s1 := s.(found := s.found.Plus(th.kind, hit), comps := s.comps + 1);
      var s2 := Log(s1, th.rank, Extend(Current(s, th), [n.value], [n.value], []));
      Put(s2, t, th.(prev := th.cur, cur := n.value, pc := CUnlock))
    case CUnlock => Put(s, t, th.(held := th.held - {th.prev}, pos := th.pos + 1, pc := CRead))
    case CLast =>
      var s1 := s.(iters := s.iters.Plus(th.kind, 1));
      var s2 := Log(s1, th.rank, Current(s, th).(done := true));
      Put(s2, t, th.(held := th.held - {th.cur}, pc := Idle))
    case _ => s
  }

  function SwapperStep(s: State, t: nat, flip: bool): (r: State)
    requires t < |s.threads|
    ensures Frame(s, r, t)
  {
    var th := s.threads[t];
    match th.pc
    case SRead1 =>
      var n := Next(s, th.prev);
      Put(s, t, if n.None? then th.(pc := SLast(false)) else th.(cur := n.value, pc := SLock1))
    case SLock1 => Put(s, t, th.(held := th.held + {th.cur}, pc := SRead2))
    case SRead2 =>
      var n := Next(s, th.cur);
      Put(s, t, if n.None? then th.(pc := SBail) else th.(nxt := n.value, pc := SLock2))
    case SBail =>
      var s1 := Log(s, th.rank, Extend(Current(s, th), [th.cur], [th.cur], []));
      Put(s1, t, th.(held := th.held - {th.cur}, pc := SLast(true)))
    case SLock2 => Put(s, t, th.(held := th.held + {th.nxt}, pc := SDecide))
    case SDecide => Put(s, t, th.(pc := if flip then SWrite1 else SUnlockNext(false)))
    case SWrite1 =>
      var s1 := s.(next := s.next[th.prev := Some(th.nxt)],
                   order := if th.pos + 2 < |s.order| then Exchange(s.order, th.pos + 1) else s.order);
      var s2 := Log(s1, th.rank, Extend(Current(s, th), [th.cur, th.nxt], [th.nxt, th.cur], [true]));
      Put(s2, t, th.(pc := SWrite2))
    case SWrite2 =>
      Put(s.(next := s.next[th.cur := Next(s, th.nxt)]), t, th.(pc := SWrite3))
    case SWrite3 =>
      Put(s.(next := s.next[th.nxt := Some(th.cur)], swaps := s.swaps + 1), t, th.(pc := SUnlockNext(true)))
    case SUnlockNext(b) => Put(s, t, th.(held := th.held - {th.nxt}, pc := SUnlockPrev(b)))
    case SUnlockPrev(b) =>
      var s1 := if b then s
                else Log(s, th.rank, Extend(Current(s, th), [th.cur], [th.cur], [false]));
      Put(s1, t, th.(held := th.held - {th.prev}, prev := th.cur,
                     pos := th.pos + (if b then 2 else 1), pc := SRead1))
    case SLast(_) =>
      var s1 := Log(s, th.rank, Current(s, th).(done := true));
      Put(s1, t, th.(held := th.held - {th.prev}, pc := Idle))
    case _ => s
  }

  /** One step of thread t; flip is the swapper's random choice. */
  function Step(s: State, t: nat, flip: bool): (r: State)
    requires t < |s.threads|
    ensures Frame(s, r, t)
  {
    var th := s.threads[t];
    if th.pc.Idle? then Begin(s, t)
    else if th.kind.Swapper? then SwapperStep(s, t, flip)
    else CounterStep(s, t)
  }

  // ----- runs -----

  datatype Choice = Choice(tid: nat, flip: bool)

  predicate Moves(mode: LockKind, s: State, c: Choice, s': State) {
    CanStep(mode, s, c.tid) && s' == Step(s, c.tid, c.flip)
  }

  ghost predicate StepAt(mode: LockKind, tr: seq<State>, cs: seq<Choice>, i: nat) {
    i < |cs| && i + 1 < |tr| && Moves(mode, tr[i], cs[i], tr[i + 1])
  }

  /** A run: the states it goes through and the choices that lead from each to the next. */
  ghost predicate IsRun(mode: LockKind, tr: seq<State>, cs: seq<Choice>) {
    |tr| == |cs| + 1 && forall i :: 0 <= i < |cs| ==> StepAt(mode, tr, cs, i)
  }

  function Links(nodes: seq<Node>): (m: map<Node, Option<Node>>)
    ensures forall n :: n in m <==> n in nodes
  {
    if nodes == [] then map[]
    else Links(nodes[1..])[nodes[0] := if |nodes| == 1 then None else Some(nodes[1])]
  }

  function Init(nodes: seq<Node>, kinds: seq<Kind>): State
    requires nodes != []
  {
    var n := nodes[0];
    State(n, Links(nodes),
          seq(|kinds|, i requires 0 <= i < |kinds| => Thread(kinds[i], Idle, {}, n, n, n, 0, 0)),
          Tally(0, 0, 0), Tally(0, 0, 0), 0, 0, nodes, [])
  }

  // ----- the invariant -----

  /** How far behind its rear node a thread's foremost node is. */
  function Width(pc: PC): nat {
    match pc
    case Idle | CRead | CLock | CLast | SRead1 | SLock1 => 0
    case CCompare | CUnlock | SRead2 | SBail | SLock2 => 1
    case SDecide | SWrite1 | SWrite2 | SWrite3 | SUnlockNext(_) => 2
    case SUnlockPrev(b) => if b then 2 else 1
    case SLast(b) => if b then 1 else 0
  }

  ghost function HeldNodes(v: seq<Node>, th: Thread): set<Node>
    requires th.pos + Width(th.pc) < |v|
  {
    match th.pc
    case Idle => {}
    case CRead | CLock | CLast | SRead1 | SLock1 | SLast(_) => {v[th.pos]}
    case CCompare | CUnlock | SRead2 | SBail | SLock2 => {v[th.pos], v[th.pos + 1]}
    case SDecide | SWrite1 | SWrite2 | SWrite3 | SUnlockNext(_) => {v[th.pos], v[th.pos + 1], v[th.pos + 2]}
    case SUnlockPrev(b) => if b then {v[th.pos], v[th.pos + 2]} else {v[th.pos], v[th.pos + 1]}
  }

  ghost predicate Locals(v: seq<Node>, th: Thread)
    requires th.pos + Width(th.pc) < |v|
  {
    var p := th.pos;
    match th.pc
    case Idle => true
    case CRead => th.cur == v[p]
    case CLock => th.cur == v[p] && p + 1 < |v| && th.nxt == v[p + 1]
    case CCompare => th.cur == v[p] && th.nxt == v[p + 1]
    case CUnlock => th.prev == v[p] && th.cur == v[p + 1]
    case CLast => th.cur == v[p] && p + 1 == |v|
    case SRead1 => th.prev == v[p]
    case SLock1 => th.prev == v[p] && p + 1 < |v| && th.cur == v[p + 1]
    case SRead2 => th.prev == v[p] && th.cur == v[p + 1]
    case SBail => th.prev == v[p] && th.cur == v[p + 1] && p + 2 == |v|
    case SLock2 => th.prev == v[p] && th.cur == v[p + 1] && p + 2 < |v| && th.nxt == v[p + 2]
    case SDecide | SWrite1 => th.prev == v[p] && th.cur == v[p + 1] && th.nxt == v[p + 2]
    case SWrite2 | SWrite3 => th.prev == v[p] && th.nxt == v[p + 1] && th.cur == v[p + 2]
    case SUnlockNext(b) =>
      th.prev == v[p] && th.cur == v[p + (if b then 2 else 1)] && th.nxt == v[p + (if b then 1 else 2)]
    case SUnlockPrev(b) => th.prev == v[p] && th.cur == v[p + (if b then 2 else 1)] && (!b ==> p + 2 < |v|)
    case SLast(b) => th.prev == v[p] && p + (if b then 2 else 1) == |v|
  }

  /** How many positions the thread's pass has dealt with. */
  function Frontier(th: Thread): nat {
    match th.pc
    case CUnlock => th.pos + 2
    case SWrite2 | SWrite3 => th.pos + 3
    case SUnlockNext(b) => if b then th.pos + 3 else th.pos + 1
    case SUnlockPrev(b) => if b then th.pos + 3 else th.pos + 1
    case SLast(b) => if b then th.pos + 2 else th.pos + 1
    case _ => th.pos + 1
  }

  predicate SwapperPC(pc: PC) {
    pc.SRead1? || pc.SLock1? || pc.SRead2? || pc.SBail? || pc.SLock2? || pc.SDecide? || pc.SWrite1? ||
    pc.SWrite2? || pc.SWrite3? || pc.SUnlockNext? || pc.SUnlockPrev? || pc.SLast?
  }

  /** The thread holds exactly the nodes its program point says, and its pointers name them. */
  ghost predicate Placed(v: seq<Node>, th: Thread) {
    th.pos + Width(th.pc) < |v| && th.held == HeldNodes(v, th) && Locals(v, th)
  }

  /** Pass p is the one that thread t is running. */
  ghost predicate Running(th: Thread, t: nat, p: Pass) {
    th.kind.Swapper? == SwapperPC(th.pc) &&
    p.tid == t && p.kind == th.kind && !p.done && |p.input| == Frontier(th) &&
    (!th.kind.Swapper? ==> p.input[|p.input| - 1] == th.cur) &&
    (th.kind.Swapper? ==> Cursor(p.flips) == if Frontier(th) == th.pos + 3 then th.pos + 2 else th.pos)
  }

  ghost predicate ThreadInv(s: State, t: nat) {
    t < |s.threads| &&
    Placed(s.order, s.threads[t]) &&
    (!s.threads[t].pc.Idle? ==>
      s.threads[t].rank < |s.passes| && Running(s.threads[t], t, s.passes[s.threads[t].rank]))
  }

  ghost predicate ListInv(s: State) {
    |s.order| >= 1 && Distinct(s.order) && s.order[0] == s.first &&
    (forall n :: n in s.next <==> n in s.order)
  }

  ghost function Follower(v: seq<Node>, i: nat): Option<Node>
    requires i < |v|
  {
    if i + 1 < |v| then Some(v[i + 1]) else None
  }

  /** The link out of position i is part of a swap that has not finished. */
  predicate Broken(th: Thread, i: nat) {
    (th.pc.SWrite2? && (i == th.pos + 1 || i == th.pos + 2)) ||
    (th.pc.SWrite3? && i == th.pos + 1)
  }

  /** The link out of position i is the one the list order prescribes. */
  ghost predicate LinkOk(s: State, i: nat) {
    i < |s.order| && Next(s, s.order[i]) == Follower(s.order, i)
  }

  /** During a swap the exchanged node still points behind the pair. */
  ghost predicate HalfSwapped(s: State, th: Thread) {
    (th.pc.SWrite2? || th.pc.SWrite3?) && th.pos + 2 < |s.order| ==>
      Next(s, s.order[th.pos + 1]) == Follower(s.order, th.pos + 2)
  }

  ghost predicate HeapInv(s: State) {
    (forall i :: 0 <= i < |s.order| ==>
      (exists t :: 0 <= t < |s.threads| && Broken(s.threads[t], i)) || LinkOk(s, i)) &&
    (forall t :: 0 <= t < |s.threads| ==> HalfSwapped(s, s.threads[t]))
  }

  predicate Ahead(a: Thread, b: Thread) {
    a.pos > b.pos + Width(b.pc)
  }

  /** Two passes under way: if their locks conflict, the earlier one is strictly ahead. */
  predicate InOrder(mode: LockKind, a: Thread, b: Thread) {
    !a.pc.Idle? && !b.pc.Idle? ==>
      a.rank != b.rank && (Conflict(mode, a.kind, b.kind) && a.rank < b.rank ==> Ahead(a, b))
  }

  ghost predicate OrderInv(mode: LockKind, s: State) {
    forall t, u :: 0 <= t < |s.threads| && 0 <= u < |s.threads| && t != u ==>
      InOrder(mode, s.threads[t], s.threads[u])
  }

  /** The list as pass p finds it: what it read so far, then what it will find. */
  ghost function Seen(s: State, p: Pass): seq<Node> {
    Splice(p.input, s.order)
  }

  /** The list as pass p leaves it if it exchanges nothing more. */
  ghost function Left(s: State, p: Pass): seq<Node> {
    Splice(p.output, s.order)
  }

  /** What pass p wrote so far is what a pass alone makes of what it read, n nodes in all. */
  ghost predicate Coherent(p: Pass, n: nat) {
    1 <= |p.input| <= n && |p.output| == |p.input| &&
    Legal(p.flips, n) && Cursor(p.flips) < |p.input| &&
    p.output == SwapPass(p.input, p.flips) &&
    (!p.kind.Swapper? ==> p.flips == []) &&
    (p.done ==> |p.input| == n && (p.kind.Swapper? ==> Finished(p.flips, n)))
  }

  ghost predicate PassInv(s: State, r: nat) {
    r < |s.passes| && Coherent(s.passes[r], |s.order|) && s.passes[r].tid < |s.threads| &&
    (!s.passes[r].done ==>
      !s.threads[s.passes[r].tid].pc.Idle? && s.threads[s.passes[r].tid].rank == r)
  }

  /** The list left by the pass before pass r. */
  ghost function Before(init: seq<Node>, s: State, r: nat): seq<Node>
    requires r <= |s.passes|
  {
    if r == 0 then init else Left(s, s.passes[r - 1])
  }

  ghost predicate Linked(init: seq<Node>, s: State, r: nat) {
    r < |s.passes| && Seen(s, s.passes[r]) == Before(init, s, r)
  }

  /** Each pass finds exactly the list that the pass before it leaves. */
  ghost predicate ChainInv(init: seq<Node>, s: State) {
    |init| == |s.order| &&
    (forall r :: 0 <= r < |s.passes| ==> Linked(init, s, r)) &&
    s.order == Before(init, s, |s.passes|)
  }

  /** A pass that has finished had every conflicting earlier pass finish before it. */
  ghost predicate DoneInv(mode: LockKind, s: State) {
    forall q, r :: 0 <= q < r < |s.passes| ==>
      s.passes[r].done && Conflict(mode, s.passes[q].kind, s.passes[r].kind) ==> s.passes[q].done
  }

  ghost predicate ThreadsInv(s: State) {
    forall t :: 0 <= t < |s.threads| ==> ThreadInv(s, t)
  }

  ghost predicate PassesInv(s: State) {
    forall r :: 0 <= r < |s.passes| ==> PassInv(s, r)
  }

  ghost predicate Inv(mode: LockKind, init: seq<Node>, s: State) {
    ListInv(s) && ThreadsInv(s) && HeapInv(s) && OrderInv(mode, s) &&
    PassesInv(s) && ChainInv(init, s) && DoneInv(mode, s)
  }
}
