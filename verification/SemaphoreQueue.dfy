/**
  The bounded queue built on two counting semaphores and a mutex, with the writer and the
  reader that use it: a writer adds 0, 1, 2, ... and a reader checks that it gets the
  successor of the value it got last.
 */
module SemaphoreQueue {
  import opened Basics
  import opened Sums

  datatype Role = Writer | Reader

  datatype PC =
    | Enter    // at the unlocked assert on count
    | Wait     // before sem_wait
    | Lock     // before locking the mutex, token taken
    | Update   // mutex held, before changing the list and count
    | Post     // mutex held, before sem_post
    | Unlock   // before unlocking the mutex
    | Return   // back in the caller

  /** num is the writer's next value or the reader's expected one; val is the value just got. */
  datatype Thread = Thread(role: Role, pc: PC, num: int, val: int)

  datatype State = State(items: seq<int>, max: nat, emptiness: nat, fullness: nat, owner: Option<nat>,
                         threads: seq<Thread>, errors: nat, added: seq<int>, got: seq<int>)

  predicate Holds(pc: PC) {
    pc.Update? || pc.Post? || pc.Unlock?
  }

  predicate CanStep(s: State, t: nat) {
    t < |s.threads| &&
    var th := s.threads[t];
    (th.pc.Wait? ==> if th.role.Writer? then s.emptiness > 0 else s.fullness > 0) &&
    (th.pc.Lock? ==> s.owner.None?)
  }

  function Put(s: State, t: nat, th: Thread): State
    requires t < |s.threads|
  {
    s.(threads := s.threads[t := th])
  }

  function Step(s: State, t: nat): (r: State)
    requires CanStep(s, t)
    ensures |r.threads| == |s.threads| && r.threads == s.threads[t := r.threads[t]] && r.max == s.max
    ensures r.threads[t].role == s.threads[t].role
  {
    var th := s.threads[t];
    match th.pc
    case Enter => Put(s, t, th.(pc := Wait))
    case Wait =>
      var s1 := if th.role.Writer? then s.(emptiness := s.emptiness - 1) else s.(fullness := s.fullness - 1);
      Put(s1, t, th.(pc := Lock))
    case Lock => Put(s.(owner := Some(t)), t, th.(pc := Update))
    case Update =>
      if th.role.Writer? then
        Put(s.(items := s.items + [th.num], added := s.added + [th.num]), t, th.(pc := Post))
      else if s.items == [] then s
      else Put(s.(items := s.items[1..], got := s.got + [s.items[0]]), t, th.(val := s.items[0], pc := Post))
    case Post =>
      var s1 := if th.role.Writer? then s.(fullness := s.fullness + 1) else s.(emptiness := s.emptiness + 1);
      Put(s1, t, th.(pc := Unlock))
    case Unlock => Put(s.(owner := None), t, th.(pc := Return))
    case Return =>
      if th.role.Writer? then Put(s, t, th.(num := th.num + 1, pc := Enter))
      else Put(s.(errors := s.errors + (if th.num != th.val then 1 else 0)), t, th.(num := th.val + 1, pc := Enter))
  }

  function Init(max: nat, roles: seq<Role>): State {
    State([], max, max, 0, None,
          seq(|roles|, i requires 0 <= i < |roles| => Thread(roles[i], Enter, 0, 0)), 0, [], [])
  }

  // ----- the invariant -----

  /** Writers that took an empty place and have not filled it; readers that freed one and have not posted it. */
  ghost function PlacesInHand(): Thread -> nat {
    (th: Thread) =>
      if (th.role.Writer? && (th.pc.Lock? || th.pc.Update?)) || (th.role.Reader? && th.pc.Post?) then 1 else 0
  }

  /** Readers that took a value token and have not dequeued; writers that queued and have not posted. */
  ghost function ValuesInHand(): Thread -> nat {
    (th: Thread) =>
      if (th.role.Reader? && (th.pc.Lock? || th.pc.Update?)) || (th.role.Writer? && th.pc.Post?) then 1 else 0
  }

  ghost predicate TokenInv(s: State) {
    s.emptiness + |s.items| + Sum(s.threads, PlacesInHand()) == s.max &&
    s.fullness + Sum(s.threads, ValuesInHand()) == |s.items|
  }

  ghost predicate LockInv(s: State) {
    (forall t :: 0 <= t < |s.threads| ==> (Holds(s.threads[t].pc) <==> s.owner == Some(t))) &&
    (s.owner.Some? ==> s.owner.value < |s.threads|)
  }

  ghost predicate Inv(s: State) {
    LockInv(s) && TokenInv(s) && s.added == s.got + s.items
  }

  lemma InitInv(max: nat, roles: seq<Role>)
    ensures Inv(Init(max, roles))
  {
    SumZero(Init(max, roles).threads, PlacesInHand());
    SumZero(Init(max, roles).threads, ValuesInHand());
  }

  /** A dequeuing thread always finds a first node. */
  lemma FirstIsThere(s: State, t: nat)
    requires TokenInv(s) && t < |s.threads| && s.threads[t].role.Reader? && s.threads[t].pc.Update?
    ensures s.items != []
  {
    SumAtLeast(s.threads, t, ValuesInHand());
  }

  lemma StepKeepsTokens(s: State, t: nat)
    requires TokenInv(s) && CanStep(s, t)
    ensures TokenInv(Step(s, t))
  {
    if s.threads[t].role.Writer? {
      WriterTokens(s, t);
    } else {
      ReaderTokens(s, t);
    }
  }

  lemma WriterTokens(s: State, t: nat)
    requires TokenInv(s) && CanStep(s, t) && s.threads[t].role.Writer?
    ensures TokenInv(Step(s, t))
  {
    SumUpdate(s.threads, t, Step(s, t).threads[t], PlacesInHand());
    SumUpdate(s.threads, t, Step(s, t).threads[t], ValuesInHand());
  }

  lemma ReaderTokens(s: State, t: nat)
    requires TokenInv(s) && CanStep(s, t) && s.threads[t].role.Reader?
    ensures TokenInv(Step(s, t))
  {
    if s.threads[t].pc.Update? { FirstIsThere(s, t); }
    SumUpdate(s.threads, t, Step(s, t).threads[t], PlacesInHand());
    SumUpdate(s.threads, t, Step(s, t).threads[t], ValuesInHand());
  }

  lemma StepKeepsInv(s: State, t: nat)
    requires Inv(s) && CanStep(s, t)
    ensures Inv(Step(s, t))
  {
    StepKeepsTokens(s, t);
    var th := s.threads[t];
    if th.pc.Update? && th.role.Reader? {
      FirstIsThere(s, t);
      assert s.items == [s.items[0]] + s.items[1..];
    }
  }

  // ----- runs -----

  ghost predicate StepAt(tr: seq<State>, ts: seq<nat>, i: nat) {
    i < |ts| && i + 1 < |tr| && Moves(tr[i], ts[i], tr[i + 1])
  }

  /** ts[i] is the thread that takes step i. */
  ghost predicate IsRun(max: nat, roles: seq<Role>, tr: seq<State>, ts: seq<nat>) {
    |tr| == |ts| + 1 && tr[0] == Init(max, roles) && forall i :: 0 <= i < |ts| ==> StepAt(tr, ts, i)
  }

  predicate Moves(s: State, t: nat, s': State) {
    CanStep(s, t) && s' == Step(s, t)
  }

  ghost predicate SameRoles(s: State, roles: seq<Role>) {
    |s.threads| == |roles| && forall t :: 0 <= t < |roles| ==> s.threads[t].role == roles[t]
  }

  lemma {:induction false} ReachableInv(max: nat, roles: seq<Role>, tr: seq<State>, ts: seq<nat>, k: nat)
    requires IsRun(max, roles, tr, ts) && k <= |ts|
    ensures Inv(tr[k]) && tr[k].max == max && SameRoles(tr[k], roles)
  {
    if k == 0 {
      InitInv(max, roles);
    } else {
      ReachableInv(max, roles, tr, ts, k - 1);
      assert StepAt(tr, ts, k - 1);
      StepKeepsInv(tr[k - 1], ts[k - 1]);
    }
  }

  /**
    Tokens are conserved in every run; hence the two unlocked asserts hold, a reader about
    to dequeue finds a first node, and values leave in the order in which they came.
   */
  lemma TokensConserved(max: nat, roles: seq<Role>, tr: seq<State>, ts: seq<nat>, k: nat)
    requires IsRun(max, roles, tr, ts) && k <= |ts|
    ensures
      var s := tr[k];
      s.emptiness + |s.items| + Sum(s.threads, PlacesInHand()) == max &&
      s.fullness + Sum(s.threads, ValuesInHand()) == |s.items| &&
      0 <= |s.items| <= max && s.added == s.got + s.items &&
      forall t :: 0 <= t < |s.threads| && s.threads[t].role.Reader? && s.threads[t].pc.Update? ==> s.items != []
  {
    ReachableInv(max, roles, tr, ts, k);
    var s := tr[k];
    forall t | 0 <= t < |s.threads| && s.threads[t].role.Reader? && s.threads[t].pc.Update? ensures s.items != [] {
      FirstIsThere(s, t);
    }
  }

  /** With room for a value and both roles present, some thread can always step. */
  lemma NeverStuck(max: nat, roles: seq<Role>, tr: seq<State>, ts: seq<nat>, k: nat) returns (t: nat)
    requires IsRun(max, roles, tr, ts) && k <= |ts| && max > 0 && Writer in roles && Reader in roles
    ensures CanStep(tr[k], t)
  {
    ReachableInv(max, roles, tr, ts, k);
    var s := tr[k];
    if s.owner.Some? {
      t := s.owner.value;
      assert Holds(s.threads[t].pc);
    } else if u :| 0 <= u < |s.threads| && !s.threads[u].pc.Wait? {
      t := u;
      assert !Holds(s.threads[t].pc);
    } else {
      SumZero(s.threads, PlacesInHand());
      SumZero(s.threads, ValuesInHand());
      var w :| 0 <= w < |roles| && roles[w] == Writer;
      var r :| 0 <= r < |roles| && roles[r] == Reader;
      t := if s.emptiness > 0 then w else r;
    }
  }

  // ----- one writer and one reader -----

  /** The single writer is thread w, the single reader thread r. */
  ghost predicate InStep(s: State, w: nat, r: nat) {
    w < |s.threads| && r < |s.threads| &&
    (forall t :: 0 <= t < |s.threads| ==>
      (t == w <==> s.threads[t].role.Writer?) && (t == r <==> s.threads[t].role.Reader?)) &&
    (forall i :: 0 <= i < |s.added| ==> s.added[i] == i) &&
    s.threads[w].num == (if Inserted(s.threads[w].pc) then |s.added| - 1 else |s.added|) &&
    (if Inserted(s.threads[r].pc) then s.threads[r].num == s.threads[r].val == |s.got| - 1
     else s.threads[r].num == |s.got|) &&
    s.errors == 0
  }

  predicate Inserted(pc: PC) {
    pc.Post? || pc.Unlock? || pc.Return?
  }

  lemma StepKeepsInStep(s: State, t: nat, w: nat, r: nat)
    requires Inv(s) && InStep(s, w, r) && CanStep(s, t)
    ensures InStep(Step(s, t), w, r)
  {
    assert t == w || t == r;
    if t == r && s.threads[t].pc.Update? {
      FirstIsThere(s, t);
      assert s.added[|s.got|] == s.items[0];
    }
  }

  /** With a single writer and a single reader the reader never sees a value out of order. */
  lemma {:induction false} ReaderSeesOrder(max: nat, roles: seq<Role>, tr: seq<State>, ts: seq<nat>,
                                           k: nat, w: nat, r: nat)
    requires IsRun(max, roles, tr, ts) && k <= |ts| && |roles| == 2
    requires (w == 0 && r == 1) || (w == 1 && r == 0)
    requires roles[w] == Writer && roles[r] == Reader
    ensures InStep(tr[k], w, r) && tr[k].errors == 0
    ensures forall i :: 0 <= i < |tr[k].got| ==> tr[k].got[i] == i
  {
    if k > 0 {
      ReaderSeesOrder(max, roles, tr, ts, k - 1, w, r);
      ReachableInv(max, roles, tr, ts, k - 1);
      assert StepAt(tr, ts, k - 1);
      StepKeepsInStep(tr[k - 1], ts[k - 1], w, r);
    }
    ReachableInv(max, roles, tr, ts, k);
    assert forall i :: 0 <= i < |tr[k].got| ==> tr[k].got[i] == tr[k].added[i];
  }

  // ----- what the writers bring and what the readers get -----

  predicate Changes(s: State, t: nat, role: Role) {
    t < |s.threads| && s.threads[t].role == role && s.threads[t].pc.Update?
  }

  /** The numbers that writers have brought in the first k steps, in the order of their list changes. */
  ghost function Brought(tr: seq<State>, ts: seq<nat>, k: nat): seq<int>
    requires k <= |ts| < |tr|
  {
    if k == 0 then []
    else
      Brought(tr, ts, k - 1) +
      (if Changes(tr[k - 1], ts[k - 1], Writer) then [tr[k - 1].threads[ts[k - 1]].num] else [])
  }

  /** How many readers have changed the list in the first k steps. */
  ghost function Taken(tr: seq<State>, ts: seq<nat>, k: nat): nat
    requires k <= |ts| < |tr|
  {
    if k == 0 then 0 else Taken(tr, ts, k - 1) + (if Changes(tr[k - 1], ts[k - 1], Reader) then 1 else 0)
  }

  /** With m list changes by readers, these got the first m of the numbers brought and the queue holds the others. */
  lemma {:induction false} Conservation(max: nat, roles: seq<Role>, tr: seq<State>, ts: seq<nat>, k: nat)
    requires IsRun(max, roles, tr, ts) && k <= |ts|
    ensures tr[k].added == Brought(tr, ts, k) == tr[k].got + tr[k].items
    ensures |tr[k].got| == Taken(tr, ts, k)
  {
    if k > 0 {
      Conservation(max, roles, tr, ts, k - 1);
      ReachableInv(max, roles, tr, ts, k - 1);
      assert StepAt(tr, ts, k - 1);
      if Changes(tr[k - 1], ts[k - 1], Reader) { FirstIsThere(tr[k - 1], ts[k - 1]); }
    }
    ReachableInv(max, roles, tr, ts, k);
  }

  /** The rounds that thread t has completed in the first k steps. */
  ghost function Rounds(tr: seq<State>, ts: seq<nat>, k: nat, t: nat): nat
    requires k <= |ts| < |tr|
  {
    if k == 0 then 0
    else
      Rounds(tr, ts, k - 1, t) +
      (if ts[k - 1] == t && t < |tr[k - 1].threads| && tr[k - 1].threads[t].pc.Return? then 1 else 0)
  }

  /** Every writer brings 0, 1, 2, ..., one number in each round. */
  lemma {:induction false} WriterCounts(max: nat, roles: seq<Role>, tr: seq<State>, ts: seq<nat>, k: nat, t: nat)
    requires IsRun(max, roles, tr, ts) && k <= |ts| && t < |roles| && roles[t] == Writer
    ensures t < |tr[k].threads| && tr[k].threads[t].num == Rounds(tr, ts, k, t)
  {
    if k > 0 {
      WriterCounts(max, roles, tr, ts, k - 1, t);
      ReachableInv(max, roles, tr, ts, k - 1);
      assert StepAt(tr, ts, k - 1);
    }
    ReachableInv(max, roles, tr, ts, k);
  }

  /** The values that thread t has taken from the list in the first k steps. */
  ghost function TakenBy(tr: seq<State>, ts: seq<nat>, k: nat, t: nat): seq<int>
    requires k <= |ts| < |tr|
  {
    if k == 0 then []
    else
      TakenBy(tr, ts, k - 1, t) +
      (if ts[k - 1] == t && Changes(tr[k - 1], t, Reader) && tr[k - 1].items != [] then [tr[k - 1].items[0]] else [])
  }

  /** What a reader expects that has got the given values: the successor of the last one. */
  function Expected(l: seq<int>): int {
    if l == [] then 0 else l[|l| - 1] + 1
  }

  /** How often in the first k steps a reader has come back with another value than it expected. */
  ghost function Surprises(tr: seq<State>, ts: seq<nat>, k: nat): nat
    requires k <= |ts| < |tr|
  {
    if k == 0 then 0
    else
      var s, t := tr[k - 1], ts[k - 1];
      var l := TakenBy(tr, ts, k - 1, t);
      Surprises(tr, ts, k - 1) +
      (if t < |s.threads| && s.threads[t].role.Reader? && s.threads[t].pc.Return? && l != [] &&
          l[|l| - 1] != Expected(l[..|l| - 1]) then 1 else 0)
  }

  ghost predicate ReaderKnows(th: Thread, l: seq<int>) {
    if Inserted(th.pc) then l != [] && th.val == l[|l| - 1] && th.num == Expected(l[..|l| - 1])
    else th.num == Expected(l)
  }

  lemma {:induction false} ReaderRemembers(max: nat, roles: seq<Role>, tr: seq<State>, ts: seq<nat>, k: nat, t: nat)
    requires IsRun(max, roles, tr, ts) && k <= |ts| && t < |roles| && roles[t] == Reader
    ensures t < |tr[k].threads| && ReaderKnows(tr[k].threads[t], TakenBy(tr, ts, k, t))
  {
    if k > 0 {
      ReaderRemembers(max, roles, tr, ts, k - 1, t);
      ReachableInv(max, roles, tr, ts, k - 1);
      assert StepAt(tr, ts, k - 1);
      if Changes(tr[k - 1], t, Reader) { FirstIsThere(tr[k - 1], t); }
      ReaderStep(tr[k - 1], ts[k - 1], t, TakenBy(tr, ts, k - 1, t));
    }
  }

  lemma ReaderStep(s: State, u: nat, t: nat, l: seq<int>)
    requires CanStep(s, u) && t < |s.threads| && s.threads[t].role.Reader? && ReaderKnows(s.threads[t], l)
    requires s.threads[t].pc.Update? ==> s.items != []
    ensures ReaderKnows(Step(s, u).threads[t], l + (if u == t && s.threads[t].pc.Update? then [s.items[0]] else []))
  {
    assert s.items != [] ==> (l + [s.items[0]])[..|l|] == l;
    assert l + [] == l;
  }

  /** The error counter counts, over all readers, the values that do not follow the reader's previous one. */
  lemma {:induction false} ErrorsAreSurprises(max: nat, roles: seq<Role>, tr: seq<State>, ts: seq<nat>, k: nat)
    requires IsRun(max, roles, tr, ts) && k <= |ts|
    ensures tr[k].errors == Surprises(tr, ts, k)
  {
    if k > 0 {
      ErrorsAreSurprises(max, roles, tr, ts, k - 1);
      ReachableInv(max, roles, tr, ts, k - 1);
      assert StepAt(tr, ts, k - 1);
      var t := ts[k - 1];
      if tr[k - 1].threads[t].role.Reader? { ReaderRemembers(max, roles, tr, ts, k - 1, t); }
    }
  }

  // ----- going on -----

  /** How far a thread is from its next sem_wait. */
  ghost function ToWait(): Thread -> nat {
    (th: Thread) =>
      match th.pc
      case Lock => 6
      case Update => 5
      case Post => 4
      case Unlock => 3
      case Return => 2
      case Enter => 1
      case Wait => 0
  }

  ghost predicate AllWait(s: State) {
    forall t :: 0 <= t < |s.threads| ==> s.threads[t].pc.Wait?
  }

  lemma OneStep(max: nat, roles: seq<Role>, tr: seq<State>, ts: seq<nat>, t: nat)
    returns (tr': seq<State>, ts': seq<nat>)
    requires IsRun(max, roles, tr, ts) && CanStep(tr[|ts|], t)
    ensures IsRun(max, roles, tr', ts') && tr <= tr' && ts <= ts' && |ts'| == |ts| + 1
    ensures tr'[|ts'|] == Step(tr[|ts|], t)
  {
    tr', ts' := tr + [Step(tr[|ts|], t)], ts + [t];
    forall i | 0 <= i < |ts'| ensures StepAt(tr', ts', i) {
      if i < |ts| { assert StepAt(tr, ts, i); }
    }
  }

  /** Someone who is not about to wait for a token can step, and that brings all nearer to it. */
  lemma Nearer(s: State) returns (t: nat)
    requires Inv(s) && !AllWait(s)
    ensures CanStep(s, t) && s.got <= Step(s, t).got && s.added <= Step(s, t).added
    ensures Sum(Step(s, t).threads, ToWait()) < Sum(s.threads, ToWait())
  {
    t :| t < |s.threads| && !s.threads[t].pc.Wait?;
    if s.owner.Some? { t := s.owner.value; }
    assert Holds(s.threads[t].pc) <==> s.owner == Some(t);
    if Changes(s, t, Reader) { FirstIsThere(s, t); }
    SumUpdate(s.threads, t, Step(s, t).threads[t], ToWait());
  }

  /** Every call under way can be completed, until all threads are about to wait for a token. */
  lemma {:induction false} Quiet(max: nat, roles: seq<Role>, tr: seq<State>, ts: seq<nat>)
    returns (tr': seq<State>, ts': seq<nat>)
    requires IsRun(max, roles, tr, ts)
    ensures IsRun(max, roles, tr', ts') && tr <= tr' && ts <= ts' && AllWait(tr'[|ts'|])
    ensures tr[|ts|].got <= tr'[|ts'|].got && tr[|ts|].added <= tr'[|ts'|].added
    decreases Sum(tr[|ts|].threads, ToWait())
  {
    tr', ts' := tr, ts;
    if !AllWait(tr[|ts|]) {
      ReachableInv(max, roles, tr, ts, |ts|);
      var t := Nearer(tr[|ts|]);
      tr', ts' := OneStep(max, roles, tr, ts, t);
      tr', ts' := Quiet(max, roles, tr', ts');
    }
  }

  /** From a state in which all threads wait, a thread that finds a token changes the list. */
  lemma Calls(max: nat, roles: seq<Role>, tr: seq<State>, ts: seq<nat>, t: nat)
    returns (tr': seq<State>, ts': seq<nat>)
    requires IsRun(max, roles, tr, ts) && AllWait(tr[|ts|]) && CanStep(tr[|ts|], t)
    ensures IsRun(max, roles, tr', ts') && tr <= tr' && ts <= ts'
    ensures var s, s' := tr[|ts|], tr'[|ts'|];
      if s.threads[t].role.Writer? then s'.added == s.added + [s.threads[t].num] && s'.got == s.got
      else |s'.got| == |s.got| + 1
  {
    ReachableInv(max, roles, tr, ts, |ts|);
    assert tr[|ts|].owner.None?;
    tr', ts' := OneStep(max, roles, tr, ts, t);
    tr', ts' := OneStep(max, roles, tr', ts', t);
    ReachableInv(max, roles, tr', ts', |ts'|);
    if Changes(tr'[|ts'|], t, Reader) { FirstIsThere(tr'[|ts'|], t); }
    tr', ts' := OneStep(max, roles, tr', ts', t);
  }

  /**
    The queue never gets stuck, not even in a loop: with room for a value and both roles
    present, from every reachable state the threads can go on until one more value has been got.
   */
  lemma AnotherIsGot(max: nat, roles: seq<Role>, tr: seq<State>, ts: seq<nat>)
    returns (tr': seq<State>, ts': seq<nat>)
    requires IsRun(max, roles, tr, ts) && max > 0 && Writer in roles && Reader in roles
    ensures IsRun(max, roles, tr', ts') && tr <= tr' && ts <= ts'
    ensures |tr'[|ts'|].got| > |tr[|ts|].got|
  {
    var w :| 0 <= w < |roles| && roles[w] == Writer;
    var r :| 0 <= r < |roles| && roles[r] == Reader;
    tr', ts' := Quiet(max, roles, tr, ts);
    Tokens(max, roles, tr', ts');
    if tr'[|ts'|].items == [] {
      tr', ts' := Calls(max, roles, tr', ts', w);
      tr', ts' := Quiet(max, roles, tr', ts');
      Tokens(max, roles, tr', ts');
    }
    if |tr'[|ts'|].got| == |tr[|ts|].got| {
      tr', ts' := Calls(max, roles, tr', ts', r);
    }
  }

  /** While all threads wait, the semaphores count exactly the values and the free places. */
  lemma Tokens(max: nat, roles: seq<Role>, tr: seq<State>, ts: seq<nat>)
    requires IsRun(max, roles, tr, ts) && AllWait(tr[|ts|])
    ensures var s := tr[|ts|];
      s.fullness == |s.items| && s.emptiness == max - |s.items| && s.added == s.got + s.items && SameRoles(s, roles)
  {
    ReachableInv(max, roles, tr, ts, |ts|);
    SumZero(tr[|ts|].threads, PlacesInHand());
    SumZero(tr[|ts|].threads, ValuesInHand());
  }
}
