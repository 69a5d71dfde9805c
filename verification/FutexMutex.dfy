/**
  The futex mutex: any number of threads increment one counter under a lock built from a
  compare-and-swap, FUTEX_WAIT and FUTEX_WAKE. The increment is a load and a store.
 */
module FutexMutex {
  import opened Sums

  datatype PC =
    | Try                 // before the compare-and-swap of mutex_lock
    | Wait                // before the FUTEX_WAIT call
    | Asleep              // inside FUTEX_WAIT
    | Load | Store        // ++counter
    | Unlock              // before the compare-and-swap of mutex_unlock
    | Wake                // before the FUTEX_WAKE call
    | Finished

  datatype Thread = Thread(pc: PC, round: nat, reg: int)

  /** free is STATUS_UNLOCK in the lock word. */
  datatype State = State(free: bool, counter: int, threads: seq<Thread>, rounds: nat)

  function Put(s: State, t: nat, th: Thread): (r: State)
    requires t < |s.threads|
  {
    s.(threads := s.threads[t := th])
  }

  function NextRound(s: State, th: Thread): Thread {
    if th.round + 1 < s.rounds then th.(pc := Try, round := th.round + 1)
    else th.(pc := Finished, round := th.round + 1)
  }

  /** FUTEX_WAKE with count 1 wakes the sleeper w, or nobody when nobody sleeps. */
  predicate WakeChoice(s: State, w: nat) {
    if w < |s.threads| then s.threads[w].pc.Asleep?
    else forall u :: 0 <= u < |s.threads| ==> !s.threads[u].pc.Asleep?
  }

  predicate CanStep(s: State, t: nat, w: nat) {
    t < |s.threads| && !s.threads[t].pc.Finished? && (s.threads[t].pc.Wake? ==> WakeChoice(s, w))
  }

  /** One step of thread t; a sleeping thread's step is a spurious return from FUTEX_WAIT. */
  function Step(s: State, t: nat, w: nat): State
    requires CanStep(s, t, w)
  {
    var th := s.threads[t];
    match th.pc
    case Try => if s.free then Put(s.(free := false), t, th.(pc := Load)) else Put(s, t, th.(pc := Wait))
    case Wait => Put(s, t, th.(pc := if s.free then Try else Asleep))
    case Asleep => Put(s, t, th.(pc := Try))
    case Load => Put(s, t, th.(reg := s.counter, pc := Store))
    case Store => Put(s.(counter := th.reg + 1), t, th.(pc := Unlock))
    case Unlock => if !s.free then Put(s.(free := true), t, th.(pc := Wake)) else Put(s, t, NextRound(s, th))
    case Wake =>
      var s1 := Put(s, t, NextRound(s, th));
      if w < |s.threads| then Put(s1, w, s.threads[w].(pc := Try)) else s1
    case Finished => s
  }

  function Init(n: nat, rounds: nat): State {
    State(true, 0, seq(n, _ => Thread(if rounds == 0 then Finished else Try, 0, 0)), rounds)
  }

  predicate InSection(th: Thread) {
    th.pc.Load? || th.pc.Store? || th.pc.Unlock?
  }

  /** Increments that the thread has stored. */
  ghost function Stored(): Thread -> nat {
    (th: Thread) => if th.pc.Unlock? || th.pc.Wake? then th.round + 1 else th.round
  }

  ghost predicate Local(s: State, th: Thread) {
    (InSection(th) ==> !s.free) && (th.pc.Store? ==> th.reg == s.counter) &&
    (if th.pc.Finished? then th.round == s.rounds else th.round < s.rounds)
  }

  ghost predicate Exclusive(s: State) {
    forall t, u :: 0 <= t < u < |s.threads| ==> !(InSection(s.threads[t]) && InSection(s.threads[u]))
  }

  /** A sleeper is looked after: the lock is held, a wake is pending, or an awake thread will look at the lock. */
  ghost predicate SleepersServed(s: State) {
    forall t :: 0 <= t < |s.threads| && s.threads[t].pc.Asleep? ==>
      exists u :: 0 <= u < |s.threads| && Serves(s.threads[u])
  }

  predicate Serves(th: Thread) {
    InSection(th) || th.pc.Wake? || th.pc.Try? || th.pc.Wait?
  }

  /** The lock word, the critical section and the counter agree. */
  ghost predicate LockInv(s: State) {
    (forall t :: 0 <= t < |s.threads| ==> Local(s, s.threads[t])) && Exclusive(s) &&
    (!s.free ==> exists t :: 0 <= t < |s.threads| && InSection(s.threads[t]))
  }

  ghost predicate Inv(s: State) {
    LockInv(s) && SleepersServed(s) && s.counter == Sum(s.threads, Stored())
  }

  lemma InitInv(n: nat, rounds: nat)
    ensures Inv(Init(n, rounds))
  {
    SumZero(Init(n, rounds).threads, Stored());
  }

  lemma StepKeepsLock(s: State, t: nat, w: nat)
    requires LockInv(s) && CanStep(s, t, w)
    ensures LockInv(Step(s, t, w))
  {
    var s' := Step(s, t, w);
    var th := s.threads[t];
    assert Local(s, th);
    if !s'.free && !InSection(s'.threads[t]) {
      var h :| 0 <= h < |s.threads| && InSection(s.threads[h]);
      assert InSection(s'.threads[h]);
    }
  }

  lemma StepKeepsServed(s: State, t: nat, w: nat)
    requires LockInv(s) && SleepersServed(s) && CanStep(s, t, w)
    ensures SleepersServed(Step(s, t, w))
  {
    var s' := Step(s, t, w);
    var th := s.threads[t];
    assert Local(s, th);
    if th.pc.Wake? && w < |s.threads| {
      assert Serves(s'.threads[w]);
    } else if th.pc.Wait? && !s.free {
      var h :| 0 <= h < |s.threads| && InSection(s.threads[h]);
      assert Serves(s'.threads[h]);
    } else if !th.pc.Wake? {
      assert Serves(s'.threads[t]);
    }
  }

  lemma WakeKeepsCounter(s: State, t: nat, w: nat)
    requires CanStep(s, t, w) && s.threads[t].pc.Wake?
    ensures Sum(Step(s, t, w).threads, Stored()) == Sum(s.threads, Stored())
  {
    var th' := NextRound(s, s.threads[t]);
    var s1 := Put(s, t, th');
    SumUpdate(s.threads, t, th', Stored());
    if w < |s.threads| { SumUpdate(s1.threads, w, s.threads[w].(pc := Try), Stored()); }
  }

  lemma StepKeepsCounter(s: State, t: nat, w: nat)
    requires LockInv(s) && s.counter == Sum(s.threads, Stored()) && CanStep(s, t, w)
    ensures Step(s, t, w).counter == Sum(Step(s, t, w).threads, Stored())
  {
    var s' := Step(s, t, w);
    var th := s.threads[t];
    assert Local(s, th);
    if th.pc.Wake? {
      WakeKeepsCounter(s, t, w);
    } else {
      SumUpdate(s.threads, t, s'.threads[t], Stored());
    }
  }

  datatype Choice = Choice(tid: nat, woken: nat)

  predicate Moves(s: State, c: Choice, s': State) {
    CanStep(s, c.tid, c.woken) && s' == Step(s, c.tid, c.woken)
  }

  ghost predicate StepAt(tr: seq<State>, cs: seq<Choice>, i: nat) {
    i < |cs| && i + 1 < |tr| && Moves(tr[i], cs[i], tr[i + 1])
  }

  /** A run from the initial state of n threads that each increment the counter `rounds` times. */
  ghost predicate IsRun(n: nat, rounds: nat, tr: seq<State>, cs: seq<Choice>) {
    |tr| == |cs| + 1 && tr[0] == Init(n, rounds) && forall i :: 0 <= i < |cs| ==> StepAt(tr, cs, i)
  }

  lemma {:induction false} ReachableInv(n: nat, rounds: nat, tr: seq<State>, cs: seq<Choice>, k: nat)
    requires IsRun(n, rounds, tr, cs) && k <= |cs|
    ensures Inv(tr[k]) && |tr[k].threads| == n && tr[k].rounds == rounds
  {
    if k == 0 {
      InitInv(n, rounds);
    } else {
      ReachableInv(n, rounds, tr, cs, k - 1);
      var s, c := tr[k - 1], cs[k - 1];
      assert StepAt(tr, cs, k - 1);
      StepKeepsLock(s, c.tid, c.woken);
      StepKeepsServed(s, c.tid, c.woken);
      StepKeepsCounter(s, c.tid, c.woken);
    }
  }

  /** Mutual exclusion: at no time are two threads between mutex_lock and the store that unlocks. */
  lemma MutualExclusion(n: nat, rounds: nat, tr: seq<State>, cs: seq<Choice>, k: nat, t: nat, u: nat)
    requires IsRun(n, rounds, tr, cs) && k <= |cs| && t < |tr[k].threads| && u < |tr[k].threads| && t != u
    requires InSection(tr[k].threads[t])
    ensures !InSection(tr[k].threads[u]) && !tr[k].free
  {
    ReachableInv(n, rounds, tr, cs, k);
    assert Local(tr[k], tr[k].threads[t]);
  }

  /**
    No wakeup is lost: while a thread sleeps, the lock is held by an awake thread, or a wake
    is pending, or an awake thread has yet to look at the lock word. So a sleeper is never
    left with a free lock and nobody on the way, and some thread can always step.
   */
  lemma NoLostWakeup(n: nat, rounds: nat, tr: seq<State>, cs: seq<Choice>, k: nat, t: nat)
    requires IsRun(n, rounds, tr, cs) && k <= |cs| && t < |tr[k].threads| && tr[k].threads[t].pc.Asleep?
    ensures exists u, w :: 0 <= u < |tr[k].threads| && Serves(tr[k].threads[u]) && CanStep(tr[k], u, w)
  {
    ReachableInv(n, rounds, tr, cs, k);
    var s := tr[k];
    var u :| 0 <= u < |s.threads| && Serves(s.threads[u]);
    assert WakeChoice(s, t) && CanStep(s, u, t);
  }

  lemma {:induction false} SumConstant(ths: seq<Thread>, c: nat)
    requires forall t :: 0 <= t < |ths| ==> Stored()(ths[t]) == c
    ensures Sum(ths, Stored()) == |ths| * c
  {
    if ths != [] {
      SumConstant(ths[..|ths| - 1], c);
      assert |ths| * c == (|ths| - 1) * c + c;
    }
  }

  /** No increment is lost: when all threads have finished the counter is threads times iterations. */
  lemma FinalCounter(n: nat, rounds: nat, tr: seq<State>, cs: seq<Choice>, k: nat)
    requires IsRun(n, rounds, tr, cs) && k <= |cs|
    requires forall t :: 0 <= t < |tr[k].threads| ==> tr[k].threads[t].pc.Finished?
    ensures tr[k].counter == n * rounds
  {
    ReachableInv(n, rounds, tr, cs, k);
    var s := tr[k];
    forall t | 0 <= t < n ensures Stored()(s.threads[t]) == rounds {
      assert Local(s, s.threads[t]);
    }
    SumConstant(s.threads, rounds);
  }

  // ----- going on -----

  /** What a thread has still to do: six points for each round, and its place in the round. */
  ghost function Ahead(rounds: nat): Thread -> nat {
    (th: Thread) =>
      var place := match th.pc
        case Wait | Asleep => 5
        case Try => 4
        case Load => 3
        case Store => 2
        case Unlock => 1
        case Wake | Finished => 0;
      if th.round < rounds then 6 * (rounds - th.round) + place else 0
  }

  /** None of the steps from k on is a spurious return from FUTEX_WAIT. */
  ghost predicate NoSpurious(tr: seq<State>, cs: seq<Choice>, k: nat) {
    forall i :: k <= i < |cs| && i < |tr| ==> cs[i].tid < |tr[i].threads| && !tr[i].threads[cs[i].tid].pc.Asleep?
  }

  lemma OneStep(n: nat, rounds: nat, tr: seq<State>, cs: seq<Choice>, k: nat, t: nat, w: nat)
    returns (tr': seq<State>, cs': seq<Choice>)
    requires IsRun(n, rounds, tr, cs) && k <= |cs| && NoSpurious(tr, cs, k)
    requires CanStep(tr[|cs|], t, w) && !tr[|cs|].threads[t].pc.Asleep?
    ensures IsRun(n, rounds, tr', cs') && tr <= tr' && cs <= cs' && |cs'| == |cs| + 1 && NoSpurious(tr', cs', k)
    ensures tr'[|cs'|] == Step(tr[|cs|], t, w)
  {
    tr', cs' := tr + [Step(tr[|cs|], t, w)], cs + [Choice(t, w)];
    forall i | 0 <= i < |cs'| ensures StepAt(tr', cs', i) {
      if i < |cs| { assert StepAt(tr, cs, i); }
    }
  }

  /** The next thread to step: one in its section or about to wake somebody, otherwise any other that is awake. */
  lemma Chosen(s: State) returns (t: nat, w: nat)
    requires LockInv(s) && SleepersServed(s) && exists u :: 0 <= u < |s.threads| && !s.threads[u].pc.Finished?
    ensures CanStep(s, t, w) && !s.threads[t].pc.Asleep?
    ensures InSection(s.threads[t]) || s.threads[t].pc.Wake? || s.free
  {
    w := |s.threads|;
    if v :| 0 <= v < |s.threads| && s.threads[v].pc.Asleep? { w := v; }
    if u :| 0 <= u < |s.threads| && (InSection(s.threads[u]) || s.threads[u].pc.Wake?) {
      t := u;
    } else if w < |s.threads| {
      t :| 0 <= t < |s.threads| && Serves(s.threads[t]);
    } else {
      t :| 0 <= t < |s.threads| && !s.threads[t].pc.Finished?;
    }
  }

  lemma WakesAhead(s: State, t: nat, w: nat)
    requires LockInv(s) && CanStep(s, t, w) && s.threads[t].pc.Wake?
    ensures Sum(Step(s, t, w).threads, Ahead(s.rounds)) < Sum(s.threads, Ahead(s.rounds))
  {
    assert Local(s, s.threads[t]);
    var th' := NextRound(s, s.threads[t]);
    SumUpdate(s.threads, t, th', Ahead(s.rounds));
    if w < |s.threads| {
      SumUpdate(Put(s, t, th').threads, w, s.threads[w].(pc := Try), Ahead(s.rounds));
    }
  }

  lemma StepsAhead(s: State, t: nat, w: nat)
    requires LockInv(s) && CanStep(s, t, w) && !s.threads[t].pc.Asleep?
    requires InSection(s.threads[t]) || s.threads[t].pc.Wake? || s.free
    ensures Sum(Step(s, t, w).threads, Ahead(s.rounds)) < Sum(s.threads, Ahead(s.rounds))
  {
    assert Local(s, s.threads[t]);
    if s.threads[t].pc.Wake? {
      WakesAhead(s, t, w);
    } else {
      SumUpdate(s.threads, t, Step(s, t, w).threads[t], Ahead(s.rounds));
    }
  }

  /**
    The program never gets stuck, not even in a loop: from every reachable state it can go
    on, without a spurious wakeup, until all threads have finished with the right counter.
   */
  lemma {:induction false} CanFinish(n: nat, rounds: nat, tr: seq<State>, cs: seq<Choice>, k: nat)
    returns (tr': seq<State>, cs': seq<Choice>)
    requires IsRun(n, rounds, tr, cs) && k <= |cs| && NoSpurious(tr, cs, k)
    ensures IsRun(n, rounds, tr', cs') && tr <= tr' && cs <= cs' && NoSpurious(tr', cs', k)
    ensures forall t :: 0 <= t < |tr'[|cs'|].threads| ==> tr'[|cs'|].threads[t].pc.Finished?
    ensures tr'[|cs'|].counter == n * rounds
    decreases Sum(tr[|cs|].threads, Ahead(rounds))
  {
    tr', cs' := tr, cs;
    ReachableInv(n, rounds, tr, cs, |cs|);
    if u :| 0 <= u < |tr[|cs|].threads| && !tr[|cs|].threads[u].pc.Finished? {
      var t, w := Chosen(tr[|cs|]);
      StepsAhead(tr[|cs|], t, w);
      tr', cs' := OneStep(n, rounds, tr, cs, k, t, w);
      tr', cs' := CanFinish(n, rounds, tr', cs', k);
    } else {
      FinalCounter(n, rounds, tr, cs, |cs|);
    }
  }

  /**
    Who finds the lock taken goes to sleep unless it is released in between: two steps in a
    row of a thread that wants the lock, with the lock taken at both.
   */
  lemma ContenderSleeps(n: nat, rounds: nat, tr: seq<State>, cs: seq<Choice>, i: nat, j: nat, t: nat)
    requires IsRun(n, rounds, tr, cs) && i < j < |cs| && cs[i].tid == cs[j].tid == t
    requires forall k :: i < k < j ==> cs[k].tid != t
    requires t < |tr[i].threads| && tr[i].threads[t].pc.Try? && !tr[i].free && !tr[j].free
    ensures t < |tr[j + 1].threads| && tr[j + 1].threads[t].pc.Asleep?
  {
    StillWaiting(n, rounds, tr, cs, i, j, t);
    assert StepAt(tr, cs, j);
  }

  lemma {:induction false} StillWaiting(n: nat, rounds: nat, tr: seq<State>, cs: seq<Choice>, i: nat, j: nat, t: nat)
    requires IsRun(n, rounds, tr, cs) && i < j <= |cs| && cs[i].tid == t
    requires forall k :: i < k < j ==> cs[k].tid != t
    requires t < |tr[i].threads| && tr[i].threads[t].pc.Try? && !tr[i].free
    ensures t < |tr[j].threads| && tr[j].threads[t].pc.Wait?
  {
    assert StepAt(tr, cs, j - 1);
    if i + 1 < j { StillWaiting(n, rounds, tr, cs, i, j - 1, t); }
  }
}
