/** Bucket chains, LRU list and the search-or-create protocol: what every step keeps of the cache's structure. */
module ProxyCacheTable {
  import opened Basics
  import opened Filters
  import opened UrlHash
  import opened Chunks
  import opened ProxyCache
  import opened ProxyCacheInv

  // ----- the holder of the search mutex -----

  /** No worker but h holds the search mutex. */
  ghost predicate OnlyHolder(s: Sys, h: nat) {
    forall t :: 0 <= t < |s.workers| && t != h ==> !HoldsSearch(s.workers[t].pc)
  }

  /** The program point of the worker that holds the search mutex; Idle when nobody does. */
  function HolderPC(s: Sys, h: nat): PC {
    if h < |s.workers| && HoldsSearch(s.workers[h].pc) then s.workers[h].pc else Idle
  }

  // ----- the structure -----

  ghost predicate InChain(s: Sys, e: nat) {
    e < |s.heap| && e in Chain(s, s.heap[e].key.bucket)
  }

  ghost predicate Fits(r: Rec, key: Key) {
    r.key == key && r.state != Cancelled
  }

  ghost predicate NoneFits(s: Sys, key: Key) {
    forall e :: 0 <= e < |s.heap| ==> !Fits(s.heap[e], key)
  }

  /** None of the first i entries of the chain fits. */
  ghost predicate Passed(s: Sys, key: Key, i: nat) {
    i <= |Chain(s, key.bucket)| &&
    forall j :: 0 <= j < i ==> !Fits(Entry(s, Chain(s, key.bucket)[j]), key)
  }

  ghost predicate Away(s: Sys, b: nat) {
    s.collector.Between? || s.collector.b != b
  }

  ghost predicate Newest(s: Sys, e: nat) {
    e < |s.heap| && s.heap[e].lastAccess == s.clock
  }

  ghost predicate HolderOk(s: Sys, p: PC) {
    match p
    case Search(key) => key.bucket < MAX_BUCKETS
    case Walk(key, i) => key.bucket < MAX_BUCKETS && Away(s, key.bucket) && Passed(s, key, i)
    case Touched(b, e) => Newest(s, e) && InChain(s, e) && s.heap[e].key.bucket == b && Away(s, b)
    case HitBucket(b, _) => Away(s, b)
    case MissBucket(key) => key.bucket < MAX_BUCKETS && Away(s, key.bucket) && NoneFits(s, key)
    case Fetch(key) => key.bucket < MAX_BUCKETS && NoneFits(s, key)
    case Link(e) =>
      Newest(s, e) && !InChain(s, e) && !s.heap[e].freed && s.heap[e].key.bucket < MAX_BUCKETS &&
      (s.collector.Unlinked? || s.collector.Freeing? ==> s.collector.e != e)
    case LinkLru(e) => Newest(s, e) && InChain(s, e)
    case _ => true
  }

  ghost predicate CollectorOk(s: Sys) {
    s.collector.b < MAX_BUCKETS &&
    match s.collector
    case Between(_) => true
    case Visit(b, i) => i <= |Chain(s, b)|
    case Unlinked(b, i, e) =>
      i <= |Chain(s, b)| && e < |s.heap| && !InChain(s, e) && !s.heap[e].freed && s.heap[e].state == Cancelled
    case Freeing(b, i, e) => i <= |Chain(s, b)| && e < |s.heap| && !InChain(s, e)
  }

  /** Bucket lists and LRU list hold the same entries up to the one insertion and the one removal in flight. */
  ghost predicate AgreeAt(s: Sys, p: PC, e: nat) {
    e in s.lru <==> (InChain(s, e) && p != LinkLru(e)) || (s.collector.Unlinked? && s.collector.e == e)
  }

  ghost predicate Agree(s: Sys, p: PC) {
    Distinct(s.lru) && (forall e <- s.lru :: e < |s.heap|) &&
    forall e :: 0 <= e < |s.heap| ==> AgreeAt(s, p, e)
  }

  /** The collector has taken the entry out of its chain and is about to free it. */
  ghost predicate TakenOut(s: Sys, e: nat) {
    (s.collector.Unlinked? || s.collector.Freeing?) && s.collector.e == e
  }

  ghost predicate LinkedAt(s: Sys, p: PC, e: nat)
    requires e < |s.heap|
  {
    (s.heap[e].state != Cancelled ==> InChain(s, e) || p == Link(e)) &&
    (!s.heap[e].freed ==> InChain(s, e) || p == Link(e) || TakenOut(s, e))
  }

  ghost predicate Linked(s: Sys, p: PC) {
    forall e :: 0 <= e < |s.heap| ==> LinkedAt(s, p, e)
  }

  ghost predicate Unique(heap: seq<Rec>) {
    forall e, f :: 0 <= e < f < |heap| ==> !(Fits(heap[e], heap[f].key) && Fits(heap[f], heap[e].key))
  }

  function LastAccess(heap: seq<Rec>, e: nat): int {
    if e < |heap| then heap[e].lastAccess else 0
  }

  /** Most recently used first; the entry named by odd may stand too far back. */
  ghost predicate InOrder(heap: seq<Rec>, l: seq<nat>, odd: Option<nat>) {
    forall i, j :: 0 <= i < j < |l| ==> LastAccess(heap, l[i]) >= LastAccess(heap, l[j]) || odd == Some(l[j])
  }

  function Odd(p: PC): Option<nat> {
    if p.Touched? then Some(p.e) else None
  }

  ghost predicate Times(s: Sys) {
    forall e :: 0 <= e < |s.heap| ==> s.heap[e].lastAccess <= s.clock
  }

  ghost predicate TableInv(s: Sys, p: PC) {
    ChainsInv(s) && Agree(s, p) && Linked(s, p) && Unique(s.heap) && InOrder(s.heap, s.lru, Odd(p)) && Times(s) &&
    HolderOk(s, p) && CollectorOk(s)
  }

  // ----- steps that leave the structure alone -----

  ghost predicate RecQuiet(r: Rec, r': Rec) {
    r'.key == r.key && r'.lastAccess == r.lastAccess && r'.freed == r.freed &&
    (r.state == Cancelled ==> r'.state == Cancelled)
  }

  ghost predicate Quiet(s: Sys, s': Sys) {
    s'.chains == s.chains && s'.lru == s.lru && s'.clock == s.clock && s'.collector == s.collector &&
    |s'.heap| == |s.heap| && forall e :: 0 <= e < |s.heap| ==> RecQuiet(s.heap[e], s'.heap[e])
  }

  ghost predicate Plain(p: PC) {
    !p.Link? && !p.LinkLru? && !p.Touched?
  }

  lemma QuietChains(s: Sys, s': Sys)
    requires Quiet(s, s') && ChainsInv(s)
    ensures ChainsInv(s') && forall e: nat :: InChain(s', e) == InChain(s, e)
  {
    forall b | 0 <= b < MAX_BUCKETS ensures ChainOk(s', b) {
      assert ChainOk(s, b);
      forall i | 0 <= i < |s.chains[b]|
        ensures s.chains[b][i] < |s'.heap| && s'.heap[s.chains[b][i]].key.bucket == b && !s'.heap[s.chains[b][i]].freed
      {
        assert RecQuiet(s.heap[s.chains[b][i]], s'.heap[s.chains[b][i]]);
      }
    }
    forall e: nat | e < |s.heap| ensures InChain(s', e) == InChain(s, e) {
      assert RecQuiet(s.heap[e], s'.heap[e]);
    }
  }

  lemma QuietHolder(s: Sys, s': Sys, p: PC)
    requires Quiet(s, s') && ChainsInv(s) && HolderOk(s, p)
    ensures HolderOk(s', p)
  {
    QuietChains(s, s');
    if p.Walk? {
      assert p.key.bucket < MAX_BUCKETS;
      assert ChainOk(s, p.key.bucket);
      forall j | 0 <= j < p.i ensures !Fits(Entry(s', Chain(s', p.key.bucket)[j]), p.key) {
        var e := Chain(s, p.key.bucket)[j];
        assert !Fits(Entry(s, e), p.key) && RecQuiet(s.heap[e], s'.heap[e]);
      }
    } else if p.Touched? || p.Link? || p.LinkLru? {
      assert RecQuiet(s.heap[p.e], s'.heap[p.e]);
    }
  }

  lemma QuietAgree(s: Sys, s': Sys, p: PC, p': PC)
    requires Quiet(s, s') && ChainsInv(s) && Agree(s, p) && Linked(s, p)
    requires p' == p || (Plain(p) && Plain(p'))
    ensures Agree(s', p') && Linked(s', p')
  {
    QuietChains(s, s');
    forall e | 0 <= e < |s.heap| ensures AgreeAt(s', p', e) && LinkedAt(s', p', e) {
      assert AgreeAt(s, p, e) && LinkedAt(s, p, e) && RecQuiet(s.heap[e], s'.heap[e]);
    }
  }

  lemma QuietRecords(s: Sys, s': Sys, odd: Option<nat>)
    requires Quiet(s, s') && Unique(s.heap) && InOrder(s.heap, s.lru, odd) && Times(s)
    ensures Unique(s'.heap) && InOrder(s'.heap, s'.lru, odd) && Times(s')
  {
    forall e | 0 <= e < |s.heap| ensures s'.heap[e].lastAccess <= s'.clock {
      assert RecQuiet(s.heap[e], s'.heap[e]);
    }
  }

  lemma QuietCollector(s: Sys, s': Sys)
    requires Quiet(s, s') && ChainsInv(s) && CollectorOk(s)
    ensures CollectorOk(s')
  {
    QuietChains(s, s');
    if s.collector.Unlinked? {
      assert RecQuiet(s.heap[s.collector.e], s'.heap[s.collector.e]);
    }
  }

  lemma QuietTable(s: Sys, s': Sys, p: PC, p': PC)
    requires TableInv(s, p) && Quiet(s, s')
    requires p' == p || (Plain(p) && Plain(p') && HolderOk(s', p'))
    ensures TableInv(s', p')
  {
    QuietChains(s, s');
    QuietHolder(s, s', p);
    QuietAgree(s, s', p, p');
    QuietRecords(s, s', Odd(p));
    QuietCollector(s, s');
  }

  // ----- the list operations -----

  /** lru_remove. */
  lemma RemoveMembers(l: seq<nat>, e: nat)
    requires Distinct(l)
    ensures Distinct(FilterOut(l, {e})) && forall x: nat :: x in FilterOut(l, {e}) <==> x in l && x != e
  {
    FilterDistinct(l, {e});
    forall i | 0 <= i < |FilterOut(l, {e})| ensures FilterOut(l, {e})[i] in l && FilterOut(l, {e})[i] != e {
      FilterSound(l, {e}, i);
    }
    forall x: nat | x in l && x != e ensures x in FilterOut(l, {e}) {
      FilterComplete(l, {e}, x);
    }
  }

  /** Taking an entry out keeps the rest in order, and nothing odd is left when it was the odd one. */
  lemma RemoveInOrder(heap: seq<Rec>, l: seq<nat>, odd: Option<nat>, e: nat)
    requires InOrder(heap, l, odd)
    ensures InOrder(heap, FilterOut(l, {e}), if odd == Some(e) then None else odd)
  {
    var r := FilterOut(l, {e});
    forall i, j | 0 <= i < j < |r|
      ensures r[j] != e && (LastAccess(heap, r[i]) >= LastAccess(heap, r[j]) || odd == Some(r[j]))
    {
      var a, b := FilterOrder(l, {e}, i, j);
      FilterSound(l, {e}, j);
    }
  }

  /** lru_add_head, and the insertion at the head of a bucket. */
  lemma PushMembers(l: seq<nat>, e: nat)
    requires Distinct(l) && e !in l
    ensures Distinct([e] + l) && forall x: nat :: x in [e] + l <==> x == e || x in l
  {
    var m := [e] + l;
    forall x: nat ensures x in m <==> x == e || x in l {
      assert m[0] == e;
      if x in l {
        var j :| 0 <= j < |l| && l[j] == x;
        assert m[j + 1] == x;
      }
    }
    forall i, j | 0 <= i < j < |m| ensures m[i] != m[j] {
      assert m[j] == l[j - 1];
      if i > 0 { assert m[i] == l[i - 1]; }
    }
  }

  lemma PushInOrder(heap: seq<Rec>, l: seq<nat>, e: nat)
    requires InOrder(heap, l, None) && forall x <- l :: LastAccess(heap, x) <= LastAccess(heap, e)
    ensures InOrder(heap, [e] + l, None)
  {
    var m := [e] + l;
    forall i, j | 0 <= i < j < |m| ensures LastAccess(heap, m[i]) >= LastAccess(heap, m[j]) {
      assert m[j] == l[j - 1] && l[j - 1] in l;
      if i > 0 { assert m[i] == l[i - 1]; }
    }
  }

  // ----- the steps of the holder that change the structure -----

  /** Every entry that could fit is in the chain, so a walk that reaches its end has seen them all. */
  lemma WalkedAll(s: Sys, key: Key)
    requires TableInv(s, Walk(key, |Chain(s, key.bucket)|))
    ensures NoneFits(s, key)
  {
    var p := Walk(key, |Chain(s, key.bucket)|);
    forall e | 0 <= e < |s.heap| ensures !Fits(s.heap[e], key) {
      assert LinkedAt(s, p, e);
    }
  }

  /** A hit makes its entry the newest one; its place in the LRU list is put right by the next step. */
  lemma HitTable(s: Sys, s': Sys, p: PC, e: nat, r': Rec)
    requires TableInv(s, p) && p.Walk? && InChain(s, e) && s.heap[e].key.bucket == p.key.bucket
    requires s'.heap == s.heap[e := r'] && s'.chains == s.chains && s'.lru == s.lru && s'.collector == s.collector
    requires r'.key == s.heap[e].key && r'.freed == s.heap[e].freed && r'.state == s.heap[e].state
    requires r'.lastAccess == s'.clock >= s.clock
    ensures TableInv(s', Touched(p.key.bucket, e))
  {
    var p' := Touched(p.key.bucket, e);
    forall b | 0 <= b < MAX_BUCKETS ensures ChainOk(s', b) {
      assert ChainOk(s, b);
    }
    forall a | 0 <= a < |s.heap| ensures AgreeAt(s', p', a) && LinkedAt(s', p', a) {
      assert AgreeAt(s, p, a) && LinkedAt(s, p, a);
    }
  }

  /** lru_remove and lru_add_head move the entry to the front, which restores the order. */
  lemma TouchTable(s: Sys, s': Sys, b: nat, e: nat)
    requires TableInv(s, Touched(b, e)) && s' == s.(lru := [e] + FilterOut(s.lru, {e}), workers := s'.workers)
    ensures TableInv(s', HitBucket(b, e))
  {
    RemoveMembers(s.lru, e);
    RemoveInOrder(s.heap, s.lru, Some(e), e);
    PushMembers(FilterOut(s.lru, {e}), e);
    PushInOrder(s.heap, FilterOut(s.lru, {e}), e);
    assert AgreeAt(s, Touched(b, e), e);
    SameHeap(s, s');
    forall a | 0 <= a < |s.heap| ensures AgreeAt(s', HitBucket(b, e), a) && LinkedAt(s', HitBucket(b, e), a) {
      assert AgreeAt(s, Touched(b, e), a) && LinkedAt(s, Touched(b, e), a);
    }
  }

  lemma SameHeap(s: Sys, s': Sys)
    requires s'.heap == s.heap && s'.chains == s.chains && ChainsInv(s)
    ensures ChainsInv(s')
  {
    forall b | 0 <= b < MAX_BUCKETS ensures ChainOk(s', b) {
      assert ChainOk(s, b);
    }
  }

  /** The new entry is the newest one, and no other entry fits its URL. */
  lemma FetchTable(s: Sys, s': Sys, r: Rec)
    requires TableInv(s, Fetch(r.key)) && r.state == Incomplete && !r.freed && r.lastAccess == s'.clock >= s.clock
    requires s'.heap == s.heap + [r] && s'.chains == s.chains && s'.lru == s.lru && s'.collector == s.collector
    ensures TableInv(s', Link(|s.heap|))
  {
    FetchChains(s, s', r);
    forall i | 0 <= i < |s.lru| ensures LastAccess(s'.heap, s.lru[i]) == LastAccess(s.heap, s.lru[i]) {
      assert s.lru[i] in s.lru;
    }
    UniqueStill(s, r);
  }

  /** The new entry is in no bucket and not in the LRU list. */
  lemma FetchChains(s: Sys, s': Sys, r: Rec)
    requires ChainsInv(s) && Agree(s, Fetch(r.key)) && Linked(s, Fetch(r.key)) && r.key.bucket < MAX_BUCKETS
    requires s.collector.Unlinked? ==> s.collector.e < |s.heap|
    requires s'.heap == s.heap + [r] && s'.chains == s.chains && s'.lru == s.lru && s'.collector == s.collector
    ensures ChainsInv(s') && Agree(s', Link(|s.heap|)) && Linked(s', Link(|s.heap|)) && !InChain(s', |s.heap|)
    ensures forall a :: 0 <= a < |s.heap| ==> InChain(s', a) == InChain(s, a)
  {
    var p, p' := Fetch(r.key), Link(|s.heap|);
    forall b | 0 <= b < MAX_BUCKETS ensures ChainOk(s', b) {
      assert ChainOk(s, b);
    }
    assert ChainOk(s, r.key.bucket);
    forall a | 0 <= a < |s'.heap| ensures AgreeAt(s', p', a) && LinkedAt(s', p', a) {
      if a < |s.heap| { assert AgreeAt(s, p, a) && LinkedAt(s, p, a); }
    }
  }

  lemma UniqueStill(s: Sys, r: Rec)
    requires Unique(s.heap) && NoneFits(s, r.key)
    ensures Unique(s.heap + [r])
  {
    var heap := s.heap + [r];
    forall e, f | 0 <= e < f < |heap| ensures !(Fits(heap[e], heap[f].key) && Fits(heap[f], heap[e].key)) {
      if f == |s.heap| { assert !Fits(s.heap[e], r.key); }
    }
  }

  lemma LinkTable(s: Sys, s': Sys, e: nat, b: nat)
    requires TableInv(s, Link(e)) && b == s.heap[e].key.bucket && Away(s, b)
    requires s'.heap == s.heap && s'.lru == s.lru && s'.collector == s.collector && s'.clock == s.clock
    requires s'.chains == s.chains[b := [e] + s.chains[b]]
    ensures TableInv(s', LinkLru(e))
  {
    assert ChainOk(s, b);
    PushMembers(s.chains[b], e);
    forall d | 0 <= d < MAX_BUCKETS ensures ChainOk(s', d) {
      assert ChainOk(s, d);
    }
    forall a | 0 <= a < |s.heap| ensures AgreeAt(s', LinkLru(e), a) && LinkedAt(s', LinkLru(e), a) {
      assert AgreeAt(s, Link(e), a) && LinkedAt(s, Link(e), a);
      assert ChainOk(s, s.heap[a].key.bucket) || s.heap[a].key.bucket >= MAX_BUCKETS;
    }
  }

  lemma LinkLruTable(s: Sys, s': Sys, e: nat)
    requires TableInv(s, LinkLru(e)) && s.heap[e].state != Cancelled
    requires s'.heap == s.heap && s'.chains == s.chains && s'.collector == s.collector && s'.clock == s.clock
    requires s'.lru == [e] + s.lru
    ensures TableInv(s', MissSearch(e))
  {
    SameHeap(s, s');
    assert AgreeAt(s, LinkLru(e), e);
    PushMembers(s.lru, e);
    PushInOrder(s.heap, s.lru, e);
    forall a | 0 <= a < |s.heap| ensures AgreeAt(s', MissSearch(e), a) && LinkedAt(s', MissSearch(e), a) {
      assert AgreeAt(s, LinkLru(e), a) && LinkedAt(s, LinkLru(e), a);
    }
  }

  // ----- the collector -----

  lemma CutChains(s: Sys, s': Sys, b: nat, i: nat)
    requires ChainsInv(s) && b < MAX_BUCKETS && i < |s.chains[b]| && s'.heap == s.heap
    requires s'.chains == s.chains[b := Without(s.chains[b], i)]
    ensures ChainsInv(s') && forall a: nat :: InChain(s', a) <==> InChain(s, a) && a != s.chains[b][i]
  {
    assert ChainOk(s, b);
    WithoutMembers(s.chains[b], i);
    forall d | 0 <= d < MAX_BUCKETS ensures ChainOk(s', d) {
      assert ChainOk(s, d);
    }
  }

  /** Taking the dead entry at position i out of its chain. */
  lemma UnlinkTable(s: Sys, s': Sys, p: PC, b: nat, i: nat)
    requires TableInv(s, p) && s.collector == Visit(b, i) && i < |Chain(s, b)|
    requires Entry(s, Chain(s, b)[i]).state == Cancelled && HoldsBucket(p) != Some(b)
    requires p.LinkLru? ==> Entry(s, p.e).state != Cancelled
    requires s'.heap == s.heap && s'.lru == s.lru && s'.clock == s.clock
    requires s'.chains == s.chains[b := Without(s.chains[b], i)]
    requires s'.collector == Unlinked(b, i, s.chains[b][i])
    ensures TableInv(s', p)
  {
    assert ChainOk(s, b);
    CutChains(s, s', b, i);
    forall a | 0 <= a < |s.heap| ensures AgreeAt(s', p, a) && LinkedAt(s', p, a) {
      assert AgreeAt(s, p, a) && LinkedAt(s, p, a);
    }
  }

  /** lru_remove by the collector. */
  lemma UnlinkLruTable(s: Sys, s': Sys, p: PC, b: nat, i: nat, e: nat)
    requires TableInv(s, p) && s.collector == Unlinked(b, i, e)
    requires s'.heap == s.heap && s'.chains == s.chains && s'.clock == s.clock
    requires s'.lru == FilterOut(s.lru, {e}) && s'.collector == Freeing(b, i, e)
    ensures TableInv(s', p)
  {
    SameHeap(s, s');
    RemoveMembers(s.lru, e);
    RemoveInOrder(s.heap, s.lru, Odd(p), e);
    forall a | 0 <= a < |s.heap| ensures AgreeAt(s', p, a) && LinkedAt(s', p, a) {
      assert AgreeAt(s, p, a) && LinkedAt(s, p, a);
    }
  }

  lemma FreeTable(s: Sys, s': Sys, p: PC, b: nat, i: nat, e: nat)
    requires TableInv(s, p) && s.collector == Freeing(b, i, e)
    requires s'.heap == s.heap[e := s.heap[e].(freed := true)] && s'.chains == s.chains && s'.clock == s.clock
    requires s'.lru == s.lru && s'.collector == Visit(b, i)
    ensures TableInv(s', p)
  {
    forall d | 0 <= d < MAX_BUCKETS ensures ChainOk(s', d) {
      assert ChainOk(s, d);
    }
    forall a | 0 <= a < |s.heap| ensures AgreeAt(s', p, a) && LinkedAt(s', p, a) {
      assert AgreeAt(s, p, a) && LinkedAt(s, p, a);
    }
  }

  lemma MoveOn(s: Sys, s': Sys, p: PC)
    requires TableInv(s, p) && (s.collector.Between? || s.collector.Visit?)
    requires s'.heap == s.heap && s'.chains == s.chains && s'.clock == s.clock && s'.lru == s.lru
    requires s'.collector.Between? ==> s'.collector.b < MAX_BUCKETS
    requires s'.collector.Visit? ==> s'.collector.b == s.collector.b && s'.collector.i <= |Chain(s, s.collector.b)|
    requires s'.collector.Between? || s'.collector.Visit?
    requires s.collector.Between? ==> HoldsBucket(p) != Some(s.collector.b)
    ensures TableInv(s', p)
  {
    SameHeap(s, s');
    forall a | 0 <= a < |s.heap| ensures AgreeAt(s', p, a) && LinkedAt(s', p, a) {
      assert AgreeAt(s, p, a) && LinkedAt(s, p, a);
    }
  }
}
