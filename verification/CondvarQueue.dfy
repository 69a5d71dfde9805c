/**
  The bounded queue built on one mutex and two condition variables, with any number of
  producers and consumers. A wait releases the mutex and goes to sleep in one step; a
  signalled or spuriously woken thread must lock the mutex again and re-check its condition.
 */
module CondvarQueue {
  import opened Basics
  import opened Sums

  datatype Role = Adder | Getter

  datatype PC =
    | Enter      // before locking the mutex
    | Check      // at the while condition, mutex held
    | Asleep     // in pthread_cond_wait, mutex released
    | Woken      // woken, before locking the mutex again
    | Update     // condition found false, mutex held
    | Signal     // list and count updated, mutex held
    | Leave      // before unlocking the mutex

  datatype Thread = Thread(role: Role, pc: PC)

  /** added and got record, in order, the values that entered and left the queue. */
  datatype State = State(items: seq<int>, max: nat, owner: Option<nat>, threads: seq<Thread>,
                         added: seq<int>, got: seq<int>)

  predicate Holds(pc: PC) {
    pc.Check? || pc.Update? || pc.Signal? || pc.Leave?
  }

  /** A signal for the other role wakes the sleeper w, or nobody when nobody sleeps there. */
  predicate SignalChoice(s: State, role: Role, w: nat) {
    if w < |s.threads| then s.threads[w] == Thread(role, Asleep)
    else forall u :: 0 <= u < |s.threads| ==> s.threads[u] != Thread(role, Asleep)
  }

  function Other(role: Role): Role {
    if role.Adder? then Getter else Adder
  }

  predicate CanStep(s: State, t: nat, w: nat) {
    t < |s.threads| &&
    ((s.threads[t].pc.Enter? || s.threads[t].pc.Woken?) ==> s.owner.None?) &&
    (s.threads[t].pc.Signal? ==> SignalChoice(s, Other(s.threads[t].role), w))
  }

  function Put(s: State, t: nat, pc: PC): State
    requires t < |s.threads|
  {
    s.(threads := s.threads[t := s.threads[t].(pc := pc)])
  }

  predicate MustWait(s: State, role: Role) {
    if role.Adder? then |s.items| == s.max else |s.items| == 0
  }

  /** One step of thread t; val is the value an adder brings, w the thread a signal wakes. */
  function Step(s: State, t: nat, w: nat, val: int): State
    requires CanStep(s, t, w)
  {
    var th := s.threads[t];
    match th.pc
    case Enter => Put(s.(owner := Some(t)), t, Check)
    case Check => if MustWait(s, th.role) then Put(s.(owner := None), t, Asleep) else Put(s, t, Update)
    case Asleep => Put(s, t, Woken)
    case Woken => Put(s.(owner := Some(t)), t, Check)
    case Update =>
      if th.role.Adder? then Put(s.(items := s.items + [val], added := s.added + [val]), t, Signal)
      else if s.items == [] then s
      else Put(s.(items := s.items[1..], got := s.got + [s.items[0]]), t, Signal)
    case Signal => var s1 := Put(s, t, Leave); if w < |s.threads| then Put(s1, w, Woken) else s1
    case Leave => Put(s.(owner := None), t, Enter)
  }

  function Init(max: nat, roles: seq<Role>): State {
    State([], max, None, seq(|roles|, i requires 0 <= i < |roles| => Thread(roles[i], Enter)), [], [])
  }

  // ----- the invariant -----

  /** Threads of the role that are on their way to re-check the condition, or have just passed it. */
  ghost function Coming(role: Role): Thread -> nat {
    (th: Thread) => if th.role == role && (th.pc.Woken? || th.pc.Check? || th.pc.Update?) then 1 else 0
  }

  /** Threads of the role that have changed the queue and not yet signalled. */
  ghost function Signalling(role: Role): Thread -> nat {
    (th: Thread) => if th.role == role && th.pc.Signal? then 1 else 0
  }

  predicate SomeAsleep(s: State, role: Role) {
    exists u :: 0 <= u < |s.threads| && s.threads[u] == Thread(role, Asleep)
  }

  /** What a thread of the role would find: values for a getter, free places for an adder. */
  function Available(s: State, role: Role): int {
    if role.Getter? then |s.items| else s.max - |s.items|
  }

  /** If a thread of the role sleeps, everything available is spoken for. */
  ghost predicate Covered(s: State, role: Role) {
    SomeAsleep(s, role) ==>
      Available(s, role) <= Sum(s.threads, Coming(role)) + Sum(s.threads, Signalling(Other(role)))
  }

  ghost predicate LockInv(s: State) {
    (forall t :: 0 <= t < |s.threads| ==> (Holds(s.threads[t].pc) <==> s.owner == Some(t))) &&
    (s.owner.Some? ==> s.owner.value < |s.threads|)
  }

  ghost predicate QueueInv(s: State) {
    |s.items| <= s.max && s.added == s.got + s.items &&
    forall t :: 0 <= t < |s.threads| && s.threads[t].pc.Update? ==> !MustWait(s, s.threads[t].role)
  }

  ghost predicate Inv(s: State) {
    LockInv(s) && QueueInv(s) && Covered(s, Getter) && Covered(s, Adder)
  }

  lemma InitInv(max: nat, roles: seq<Role>)
    ensures Inv(Init(max, roles))
  {
  }

  lemma StepKeepsQueue(s: State, t: nat, w: nat, val: int)
    requires LockInv(s) && QueueInv(s) && CanStep(s, t, w)
    ensures LockInv(Step(s, t, w, val)) && QueueInv(Step(s, t, w, val))
  {
    var s' := Step(s, t, w, val);
    var th := s.threads[t];
    assert Holds(th.pc) <==> s.owner == Some(t);
    if th.pc.Update? && th.role.Getter? {
      assert s.items == [s.items[0]] + s.items[1..];
    }
  }

  lemma SignalKeepsCovered(s: State, t: nat, w: nat, val: int, role: Role)
    requires LockInv(s) && Covered(s, role) && CanStep(s, t, w) && s.threads[t].pc.Signal?
    ensures Covered(Step(s, t, w, val), role)
  {
    var s' := Step(s, t, w, val);
    if SomeAsleep(s', role) {
      var u :| 0 <= u < |s.threads| && s'.threads[u] == Thread(role, Asleep);
      assert s.threads[u] == Thread(role, Asleep);
      var left := s.threads[t].(pc := Leave);
      SumUpdate(s.threads, t, left, Coming(role));
      SumUpdate(s.threads, t, left, Signalling(Other(role)));
      if w < |s.threads| {
        var woken := s.threads[w].(pc := Woken);
        SumUpdate(s.threads[t := left], w, woken, Coming(role));
        SumUpdate(s.threads[t := left], w, woken, Signalling(Other(role)));
      }
    }
  }

  lemma OwnRoleKept(s: State, t: nat, w: nat, val: int, role: Role)
    requires LockInv(s) && QueueInv(s) && Covered(s, role) && CanStep(s, t, w) && !s.threads[t].pc.Signal?
    requires s.threads[t].role == role
    ensures Covered(Step(s, t, w, val), role)
  {
    var s' := Step(s, t, w, val);
    var th := s.threads[t];
    if SomeAsleep(s', role) {
      var u :| 0 <= u < |s.threads| && s'.threads[u] == Thread(role, Asleep);
      if u != t { assert s.threads[u] == Thread(role, Asleep); }
      SumUpdate(s.threads, t, s'.threads[t], Coming(role));
      SumUpdate(s.threads, t, s'.threads[t], Signalling(Other(role)));
      if u == t { assert th.pc.Check? && Available(s', role) == 0; }
    }
  }

  lemma OtherRoleKept(s: State, t: nat, w: nat, val: int, role: Role)
    requires LockInv(s) && QueueInv(s) && Covered(s, role) && CanStep(s, t, w) && !s.threads[t].pc.Signal?
    requires s.threads[t].role != role
    ensures Covered(Step(s, t, w, val), role)
  {
    var s' := Step(s, t, w, val);
    if SomeAsleep(s', role) {
      var u :| 0 <= u < |s.threads| && s'.threads[u] == Thread(role, Asleep);
      assert s.threads[u] == Thread(role, Asleep);
      SumUpdate(s.threads, t, s'.threads[t], Coming(role));
      SumUpdate(s.threads, t, s'.threads[t], Signalling(Other(role)));
    }
  }

  lemma OtherKeepsCovered(s: State, t: nat, w: nat, val: int, role: Role)
    requires LockInv(s) && QueueInv(s) && Covered(s, role) && CanStep(s, t, w) && !s.threads[t].pc.Signal?
    ensures Covered(Step(s, t, w, val), role)
  {
    if s.threads[t].role == role {
      OwnRoleKept(s, t, w, val, role);
    } else {
      OtherRoleKept(s, t, w, val, role);
    }
  }

  lemma StepKeepsInv(s: State, t: nat, w: nat, val: int)
    requires Inv(s) && CanStep(s, t, w)
    ensures Inv(Step(s, t, w, val))
  {
    StepKeepsQueue(s, t, w, val);
    if s.threads[t].pc.Signal? {
      SignalKeepsCovered(s, t, w, val, Getter);
      SignalKeepsCovered(s, t, w, val, Adder);
    } else {
      OtherKeepsCovered(s, t, w, val, Getter);
      OtherKeepsCovered(s, t, w, val, Adder);
    }
  }

  // ----- runs -----

  ghost predicate SameRoles(s: State, roles: seq<Role>) {
    |s.threads| == |roles| && forall t :: 0 <= t < |roles| ==> s.threads[t].role == roles[t]
  }

  lemma StepKeepsRoles(s: State, t: nat, w: nat, val: int, roles: seq<Role>)
    requires CanStep(s, t, w) && SameRoles(s, roles)
    ensures SameRoles(Step(s, t, w, val), roles) && Step(s, t, w, val).max == s.max
  {
  }

  datatype Choice = Choice(tid: nat, woken: nat, val: int)

  predicate Moves(s: State, c: Choice, s': State) {
    CanStep(s, c.tid, c.woken) && s' == Step(s, c.tid, c.woken, c.val)
  }

  ghost predicate StepAt(tr: seq<State>, cs: seq<Choice>, i: nat) {
    i < |cs| && i + 1 < |tr| && Moves(tr[i], cs[i], tr[i + 1])
  }

  ghost predicate IsRun(max: nat, roles: seq<Role>, tr: seq<State>, cs: seq<Choice>) {
    |tr| == |cs| + 1 && tr[0] == Init(max, roles) && forall i :: 0 <= i < |cs| ==> StepAt(tr, cs, i)
  }

  lemma {:induction false} ReachableInv(max: nat, roles: seq<Role>, tr: seq<State>, cs: seq<Choice>, k: nat)
    requires IsRun(max, roles, tr, cs) && k <= |cs|
    ensures Inv(tr[k]) && tr[k].max == max
    ensures SameRoles(tr[k], roles)
  {
    if k == 0 {
      InitInv(max, roles);
    } else {
      ReachableInv(max, roles, tr, cs, k - 1);
      assert StepAt(tr, cs, k - 1);
      StepKeepsInv(tr[k - 1], cs[k - 1].tid, cs[k - 1].woken, cs[k - 1].val);
      StepKeepsRoles(tr[k - 1], cs[k - 1].tid, cs[k - 1].woken, cs[k - 1].val, roles);
    }
  }

  predicate Changes(s: State, c: Choice, role: Role) {
    c.tid < |s.threads| && s.threads[c.tid] == Thread(role, Update)
  }

  /** The values that the adders of the first k steps have brought, in the order of their list changes. */
  ghost function Brought(tr: seq<State>, cs: seq<Choice>, k: nat): seq<int>
    requires k <= |cs| < |tr|
  {
    if k == 0 then []
    else Brought(tr, cs, k - 1) + (if Changes(tr[k - 1], cs[k - 1], Adder) then [cs[k - 1].val] else [])
  }

  /** How many getters have changed the list in the first k steps. */
  ghost function Taken(tr: seq<State>, cs: seq<Choice>, k: nat): nat
    requires k <= |cs| < |tr|
  {
    if k == 0 then 0 else Taken(tr, cs, k - 1) + (if Changes(tr[k - 1], cs[k - 1], Getter) then 1 else 0)
  }

  /**
    First in, first out, nothing lost, nothing else delivered: with m calls of queue_get that
    have changed the list, these got the first m of the values that were brought, in that
    order, and the queue holds the others, never more than max_count.
   */
  lemma {:induction false} Conservation(max: nat, roles: seq<Role>, tr: seq<State>, cs: seq<Choice>, k: nat)
    requires IsRun(max, roles, tr, cs) && k <= |cs|
    ensures tr[k].added == Brought(tr, cs, k) == tr[k].got + tr[k].items
    ensures |tr[k].got| == Taken(tr, cs, k) && |tr[k].items| <= max
  {
    if k > 0 {
      Conservation(max, roles, tr, cs, k - 1);
      ReachableInv(max, roles, tr, cs, k - 1);
      assert StepAt(tr, cs, k - 1);
    }
    ReachableInv(max, roles, tr, cs, k);
  }

  /** At its condition a thread goes to sleep and releases the mutex exactly if it has to wait. */
  lemma WaitsExactly(max: nat, roles: seq<Role>, tr: seq<State>, cs: seq<Choice>, i: nat)
    requires IsRun(max, roles, tr, cs) && i < |cs| && cs[i].tid < |tr[i].threads|
    requires tr[i].threads[cs[i].tid].pc.Check?
    ensures var t, s, s' := cs[i].tid, tr[i], tr[i + 1];
      t < |s'.threads| && (s'.owner.None? <==> s'.threads[t].pc.Asleep?) &&
      (s'.threads[t].pc.Asleep? <==> if s.threads[t].role.Adder? then |s.items| == max else s.items == [])
  {
    ReachableInv(max, roles, tr, cs, i);
    ReachableInv(max, roles, tr, cs, i + 1);
    assert StepAt(tr, cs, i);
  }

  ghost function WokenOf(role: Role): Thread -> nat {
    (th: Thread) => if th == Thread(role, Woken) then 1 else 0
  }

  lemma {:induction false} OnlyWokenComing(ths: seq<Thread>, role: Role)
    requires forall t :: 0 <= t < |ths| ==> !Holds(ths[t].pc)
    ensures Sum(ths, Coming(role)) == Sum(ths, WokenOf(role)) && Sum(ths, Signalling(Other(role))) == 0
  {
    if ths != [] { OnlyWokenComing(ths[..|ths| - 1], role); }
  }

  /**
    No lost wakeup. Whenever the mutex is free and a getter sleeps, at least as many getters
    have been woken as there are values; the same for adders and free places.
   */
  lemma SleepersAreCovered(max: nat, roles: seq<Role>, tr: seq<State>, cs: seq<Choice>, k: nat, role: Role)
    requires IsRun(max, roles, tr, cs) && k <= |cs| && tr[k].owner.None? && SomeAsleep(tr[k], role)
    ensures Available(tr[k], role) <= Sum(tr[k].threads, WokenOf(role))
  {
    ReachableInv(max, roles, tr, cs, k);
    OnlyWokenComing(tr[k].threads, role);
  }

  /** With room for a value and both roles present, some thread that is not asleep can step. */
  lemma NeverAllAsleep(max: nat, roles: seq<Role>, tr: seq<State>, cs: seq<Choice>, k: nat) returns (t: nat, w: nat)
    requires IsRun(max, roles, tr, cs) && k <= |cs| && max > 0 && Adder in roles && Getter in roles
    ensures CanStep(tr[k], t, w) && !tr[k].threads[t].pc.Asleep?
  {
    ReachableInv(max, roles, tr, cs, k);
    var s := tr[k];
    if s.owner.Some? {
      t := s.owner.value;
      var role := Other(s.threads[t].role);
      if SomeAsleep(s, role) {
        w :| 0 <= w < |s.threads| && s.threads[w] == Thread(role, Asleep);
      } else {
        w := |s.threads|;
      }
    } else if u :| 0 <= u < |s.threads| && !s.threads[u].pc.Asleep? {
      t, w := u, 0;
    } else {
      var a :| 0 <= a < |roles| && roles[a] == Adder;
      var g :| 0 <= g < |roles| && roles[g] == Getter;
      assert s.threads[a] == Thread(Adder, Asleep) && s.threads[g] == Thread(Getter, Asleep);
      SleepersAreCovered(max, roles, tr, cs, k, Adder);
      SleepersAreCovered(max, roles, tr, cs, k, Getter);
      SumZero(s.threads, WokenOf(Adder));
      SumZero(s.threads, WokenOf(Getter));
      assert false;
    }
  }

  // ----- calls -----

  ghost predicate Extends(tr: seq<State>, cs: seq<Choice>, tr': seq<State>, cs': seq<Choice>) {
    tr <= tr' && cs <= cs'
  }

  /** None of the steps from k on is a spurious wakeup. */
  ghost predicate NoSpurious(tr: seq<State>, cs: seq<Choice>, k: nat) {
    forall i :: k <= i < |cs| && i < |tr| ==> cs[i].tid < |tr[i].threads| && !tr[i].threads[cs[i].tid].pc.Asleep?
  }

  lemma OneStep(max: nat, roles: seq<Role>, tr: seq<State>, cs: seq<Choice>, k: nat, t: nat, val: int)
    returns (tr': seq<State>, cs': seq<Choice>, w: nat)
    requires IsRun(max, roles, tr, cs) && k <= |cs| && NoSpurious(tr, cs, k)
    requires t < |tr[|cs|].threads| && !tr[|cs|].threads[t].pc.Asleep?
    requires tr[|cs|].threads[t].pc.Enter? || tr[|cs|].threads[t].pc.Woken? ==> tr[|cs|].owner.None?
    ensures IsRun(max, roles, tr', cs') && Extends(tr, cs, tr', cs') && |cs'| == |cs| + 1 && NoSpurious(tr', cs', k)
    ensures CanStep(tr[|cs|], t, w) && tr'[|cs'|] == Step(tr[|cs|], t, w, val)
  {
    var s := tr[|cs|];
    var role := Other(s.threads[t].role);
    w := |s.threads|;
    if u :| 0 <= u < |s.threads| && s.threads[u] == Thread(role, Asleep) { w := u; }
    var c := Choice(t, w, val);
    tr', cs' := tr + [Step(s, t, w, val)], cs + [c];
    forall i | 0 <= i < |cs'| ensures StepAt(tr', cs', i) {
      if i < |cs| { assert StepAt(tr, cs, i); }
    }
  }

  /** How far the owner is from releasing the mutex. */
  function Phase(s: State): nat {
    if s.owner.None? || s.owner.value >= |s.threads| then 0
    else
      match s.threads[s.owner.value].pc
      case Check => 4
      case Update => 3
      case Signal => 2
      case _ => 1
  }

  /** The owner of the mutex goes on until it releases it. */
  lemma {:induction false} Releases(max: nat, roles: seq<Role>, tr: seq<State>, cs: seq<Choice>, k: nat)
    returns (tr': seq<State>, cs': seq<Choice>)
    requires IsRun(max, roles, tr, cs) && k <= |cs| && NoSpurious(tr, cs, k)
    ensures IsRun(max, roles, tr', cs') && Extends(tr, cs, tr', cs') && NoSpurious(tr', cs', k)
    ensures tr'[|cs'|].owner.None? && |tr'[|cs'|].got| >= |tr[|cs|].got|
    ensures Phase(tr[|cs|]) <= 2 ==> tr'[|cs'|].items == tr[|cs|].items && tr'[|cs'|].got == tr[|cs|].got
    decreases Phase(tr[|cs|])
  {
    tr', cs' := tr, cs;
    ReachableInv(max, roles, tr, cs, |cs|);
    var s := tr[|cs|];
    if s.owner.Some? {
      var w;
      tr', cs', w := OneStep(max, roles, tr, cs, k, s.owner.value, 0);
      tr', cs' := Releases(max, roles, tr', cs', k);
    }
  }

  /** A call of queue_add or queue_get by a thread that does not have to wait. */
  lemma Calls(max: nat, roles: seq<Role>, tr: seq<State>, cs: seq<Choice>, k: nat, t: nat, val: int)
    returns (tr': seq<State>, cs': seq<Choice>)
    requires IsRun(max, roles, tr, cs) && k <= |cs| && NoSpurious(tr, cs, k) && tr[|cs|].owner.None?
    requires t < |tr[|cs|].threads| && !tr[|cs|].threads[t].pc.Asleep?
    requires Available(tr[|cs|], tr[|cs|].threads[t].role) > 0
    ensures IsRun(max, roles, tr', cs') && Extends(tr, cs, tr', cs') && NoSpurious(tr', cs', k)
    ensures tr'[|cs'|].owner.None?
    ensures var s, s' := tr[|cs|], tr'[|cs'|];
      if s.threads[t].role.Adder? then s'.items == s.items + [val] && s'.got == s.got
      else s'.items == s.items[1..] && s'.got == s.got + [s.items[0]]
  {
    ReachableInv(max, roles, tr, cs, |cs|);
    var w;
    tr', cs', w := OneStep(max, roles, tr, cs, k, t, val);
    tr', cs', w := OneStep(max, roles, tr', cs', k, t, val);
    tr', cs', w := OneStep(max, roles, tr', cs', k, t, val);
    assert Phase(tr'[|cs'|]) == 2 by { ReachableInv(max, roles, tr', cs', |cs'|); }
    tr', cs' := Releases(max, roles, tr', cs', k);
  }

  /** With a free mutex and something available for the role, one of its threads is awake. */
  lemma SomeoneAwake(max: nat, roles: seq<Role>, tr: seq<State>, cs: seq<Choice>, k: nat, role: Role) returns (t: nat)
    requires IsRun(max, roles, tr, cs) && k <= |cs| && role in roles
    requires tr[k].owner.None? && Available(tr[k], role) > 0
    ensures t < |tr[k].threads| && tr[k].threads[t].role == role && !tr[k].threads[t].pc.Asleep?
  {
    ReachableInv(max, roles, tr, cs, k);
    t :| 0 <= t < |roles| && roles[t] == role;
    if tr[k].threads[t].pc.Asleep? {
      assert tr[k].threads[t] == Thread(role, Asleep);
      SleepersAreCovered(max, roles, tr, cs, k, role);
      if forall u :: 0 <= u < |tr[k].threads| ==> tr[k].threads[u] != Thread(role, Woken) {
        SumZero(tr[k].threads, WokenOf(role));
      }
      t :| 0 <= t < |tr[k].threads| && tr[k].threads[t] == Thread(role, Woken);
    }
  }

  /**
    The queue never gets stuck, not even in a loop: with room for a value and both roles
    present, from every reachable state the threads can go on, without a spurious wakeup,
    until one more value has been got.
   */
  lemma AnotherIsGot(max: nat, roles: seq<Role>, tr: seq<State>, cs: seq<Choice>)
    returns (tr': seq<State>, cs': seq<Choice>)
    requires IsRun(max, roles, tr, cs) && max > 0 && Adder in roles && Getter in roles
    ensures IsRun(max, roles, tr', cs') && Extends(tr, cs, tr', cs') && NoSpurious(tr', cs', |cs|)
    ensures |tr'[|cs'|].got| > |tr[|cs|].got|
  {
    tr', cs' := Releases(max, roles, tr, cs, |cs|);
    ReachableInv(max, roles, tr', cs', |cs'|);
    if tr'[|cs'|].items == [] {
      var a := SomeoneAwake(max, roles, tr', cs', |cs'|, Adder);
      tr', cs' := Calls(max, roles, tr', cs', |cs|, a, 0);
    }
    var g := SomeoneAwake(max, roles, tr', cs', |cs'|, Getter);
    tr', cs' := Calls(max, roles, tr', cs', |cs|, g, 0);
  }
}
