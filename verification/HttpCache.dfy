/**
  The cache's pointer structures: 1024 hash buckets of singly linked entries and one doubly
  linked list from the most to the least recently used entry.
 */
module HttpCache {
  import opened Basics
  import opened UrlHash
  import opened Chunks
  import opened Filters

  class Entry {
    const url: Url
    const body: Body
    var lastAccess: int
    var refcount: int
    var next: Entry?
    var lruPrev: Entry?
    var lruNext: Entry?

    constructor (u: Url, now: int)
      ensures url == u && lastAccess == now && refcount == 1 && fresh(body) && body.state == Incomplete
      ensures body.Valid() && body.Data() == []
      ensures next == lruPrev == lruNext == null
    {
      url := u;
      body := new Body();
      lastAccess, refcount := now, 1;
      next, lruPrev, lruNext := null, null, null;
    }
  }

  /** Moving one element to the front. */
  function ToFront<T>(s: seq<T>, k: nat): (r: seq<T>)
    requires k < |s|
  {
    [s[k]] + Without(s, k)
  }

  lemma ToFrontMembers<T>(s: seq<T>, k: nat)
    requires k < |s|
    ensures multiset(ToFront(s, k)) == multiset(s)
    ensures forall x :: x in ToFront(s, k) <==> x in s
  {
    assert s == s[..k] + [s[k]] + s[k + 1..];
  }

  /** Access times from the most recent one on, none in the future. */
  ghost predicate Recent(times: seq<int>, now: int) {
    (forall i :: 0 <= i < |times| ==> times[i] <= now) &&
    (forall i, j :: 0 <= i < j < |times| ==> times[i] >= times[j])
  }

  /** If the times were sorted before, by a clock that has not run backwards, so are the new ones now. */
  ghost predicate StaysRecent(times: seq<int>, times': seq<int>, now: int) {
    forall before: int :: Recent(times, before) && before <= now ==> Recent(times', now)
  }

  /** An access now belongs at the front, whether of an entry of the list or of a new one. */
  lemma AccessKeepsRecent(times: seq<int>, k: nat, now: int)
    ensures k < |times| ==> StaysRecent(times, [now] + Without(times, k), now)
    ensures StaysRecent(times, [now] + times, now) && StaysRecent(times, times, now)
  {
    if k < |times| {
      var r := [now] + Without(times, k);
      forall i | 0 < i < |r| ensures r[i] == times[if i <= k then i - 1 else i] {
      }
    }
  }

  /** Removing an entry keeps the order of the others. */
  lemma RemovalKeepsRecent(times: seq<int>, k: nat, now: int)
    requires k < |times|
    ensures StaysRecent(times, Without(times, k), now)
  {
    var r := Without(times, k);
    forall i | 0 <= i < |r| ensures r[i] == times[if i < k then i else i + 1] {
    }
  }

  /** The buckets, the LRU list and the set of entries, as values. */
  datatype Shape<T> = Shape(chains: seq<seq<T>>, lru: seq<T>, entries: set<T>)

  /** From s to r only dead entries of bucket b have gone. */
  ghost predicate OnlyDeadGone<T>(b: nat, dead: set<T>, s: Shape<T>, r: Shape<T>) {
    b < |s.chains| && b < |r.chains| && r.chains == s.chains[b := r.chains[b]] &&
    FilterOut(r.chains[b], dead) == FilterOut(s.chains[b], dead) && FilterOut(r.lru, dead) == FilterOut(s.lru, dead) &&
    r.entries <= s.entries && s.entries - r.entries <= dead && forall x :: x in r.lru ==> x in s.lru
  }

  lemma GoneAgain<T>(b: nat, dead: set<T>, s: Shape<T>, q: Shape<T>, r: Shape<T>)
    requires OnlyDeadGone(b, dead, s, q) && OnlyDeadGone(b, dead, q, r)
    ensures OnlyDeadGone(b, dead, s, r)
  {
  }

  ghost predicate Clean<T>(chain: seq<T>, dead: set<T>) {
    forall j :: 0 <= j < |chain| ==> chain[j] !in dead
  }

  /** From s to r the buckets below n have been cleaned and the others left alone. */
  ghost predicate CleanBelow<T>(n: nat, dead: set<T>, s: Shape<T>, r: Shape<T>) {
    |r.chains| == |s.chains| && r.entries <= s.entries && s.entries - r.entries <= dead &&
    (forall x :: x in r.lru ==> x in s.lru) && FilterOut(r.lru, dead) == FilterOut(s.lru, dead) &&
    (forall c :: 0 <= c < |s.chains| ==> r.chains[c] == if c < n then FilterOut(s.chains[c], dead) else s.chains[c]) &&
    forall c :: 0 <= c < |s.chains| && c < n ==> Clean(r.chains[c], dead)
  }

  lemma CleanNone<T>(dead: set<T>, s: Shape<T>)
    ensures CleanBelow(0, dead, s, s)
  {
  }

  lemma OneMoreClean<T>(b: nat, dead: set<T>, s: Shape<T>, q: Shape<T>, r: Shape<T>)
    requires CleanBelow(b, dead, s, q) && OnlyDeadGone(b, dead, q, r) && Clean(r.chains[b], dead)
    ensures CleanBelow(b + 1, dead, s, r)
  {
    FilterNone(r.chains[b], dead);
  }

  /** Once no dead entry is left, exactly the dead ones have gone. */
  lemma Cleaned<T>(dead: set<T>, s: Shape<T>, r: Shape<T>)
    requires CleanBelow(|s.chains|, dead, s, r) && dead <= s.entries && r.entries !! dead && Clean(r.lru, dead)
    ensures forall b :: 0 <= b < |s.chains| ==> r.chains[b] == FilterOut(s.chains[b], dead)
    ensures r.lru == FilterOut(s.lru, dead) && r.entries == s.entries - dead
  {
    FilterNone(r.lru, dead);
  }

  class Cache {
    const buckets: array<Entry?>
    var lruHead: Entry?
    var lruTail: Entry?
    ghost var chains: seq<seq<Entry>>
    ghost var lru: seq<Entry>
    ghost var entries: set<Entry>

    // ----- the least-recently-used list -----

    ghost predicate LruLink(i: nat)
      reads this`lru, lru`lruPrev, lru`lruNext
    {
      i < |lru| && lru[i].lruPrev == (if i == 0 then null else lru[i - 1]) &&
      lru[i].lruNext == (if i + 1 < |lru| then lru[i + 1] else null)
    }

    ghost predicate LruOk()
      reads this`lru, this`lruHead, this`lruTail, lru`lruPrev, lru`lruNext
    {
      Distinct(lru) && (forall i :: 0 <= i < |lru| ==> LruLink(i)) &&
      lruHead == (if lru == [] then null else lru[0]) && lruTail == (if lru == [] then null else lru[|lru| - 1])
    }

    method LruRemove(entry: Entry, ghost k: nat)
      requires LruOk() && k < |lru| && lru[k] == entry
      modifies this`lruHead, this`lruTail, this`lru, lru`lruPrev, lru`lruNext
      ensures LruOk() && lru == Without(old(lru), k) && entry.lruPrev == entry.lruNext == null
    {
      assert LruLink(k);
      ghost var was := lru;
      if entry.lruPrev != null {
        entry.lruPrev.lruNext := entry.lruNext;
      } else {
        lruHead := entry.lruNext;
      }
      if entry.lruNext != null {
        entry.lruNext.lruPrev := entry.lruPrev;
      } else {
        lruTail := entry.lruPrev;
      }
      entry.lruPrev, entry.lruNext := null, null;
      lru := Without(was, k);
      forall i | 0 <= i < |lru| ensures LruLink(i) {
        var j := if i < k then i else i + 1;
        assert old(LruLink(j)) && lru[i] == was[j] && was[j] != entry;
        assert i > 0 ==> lru[i - 1] == was[if i - 1 < k then i - 1 else i];
        assert i + 1 < |lru| ==> lru[i + 1] == was[if i + 1 < k then i + 1 else i + 2];
      }
    }

    method LruAddHead(entry: Entry)
      requires LruOk() && entry !in lru
      modifies this`lruHead, this`lruTail, this`lru, lru`lruPrev, entry`lruPrev, entry`lruNext
      ensures LruOk() && lru == [entry] + old(lru)
    {
      ghost var was := lru;
      entry.lruNext := lruHead;
      entry.lruPrev := null;
      if lruHead != null {
        lruHead.lruPrev := entry;
      }
      lruHead := entry;
      if lruTail == null {
        lruTail := entry;
      }
      lru := [entry] + was;
      forall i | 0 <= i < |lru| ensures LruLink(i) {
        if i > 0 { assert old(LruLink(i - 1)); }
      }
    }

    // ----- the hash buckets -----

    ghost predicate ChainLink(b: nat, i: nat)
      reads this`chains, this`entries, entries`next
    {
      b < |chains| && i < |chains[b]| && chains[b][i] in entries && Bucket(chains[b][i].url) == b &&
      chains[b][i].next == (if i + 1 < |chains[b]| then chains[b][i + 1] else null)
    }

    ghost predicate BucketOk(b: nat)
      reads this`chains, this`entries, buckets, entries`next
    {
      b < |chains| && b < buckets.Length && Distinct(chains[b]) &&
      (forall i :: 0 <= i < |chains[b]| ==> ChainLink(b, i)) &&
      buckets[b] == (if chains[b] == [] then null else chains[b][0])
    }

    ghost predicate BucketsOk()
      reads this`chains, this`entries, buckets, entries`next
    {
      buckets.Length == MAX_BUCKETS && |chains| == MAX_BUCKETS && forall b :: 0 <= b < MAX_BUCKETS ==> BucketOk(b)
    }

    /** The buckets and the LRU list hold the same entries, each in the bucket of its URL. */
    ghost predicate SameEntries()
      reads this`chains, this`entries, this`lru
    {
      |chains| == MAX_BUCKETS &&
      (forall e :: e in entries ==> e in lru && e in chains[Bucket(e.url)]) &&
      (forall i :: 0 <= i < |lru| ==> lru[i] in entries)
    }

    ghost predicate Valid()
      reads this, buckets, entries, lru
    {
      BucketsOk() && LruOk() && SameEntries()
    }

    /** The access times along the LRU list. */
    ghost function Times(): seq<int>
      reads this, lru
    {
      seq(|lru|, i requires 0 <= i < |lru| reads this, lru => lru[i].lastAccess)
    }

    ghost predicate Live(e: Entry, url: Url)
      reads e.body
    {
      e.url == url && e.body.state != Cancelled
    }

    constructor ()
      ensures Valid() && fresh(buckets) && entries == {} && lru == []
      ensures forall b :: 0 <= b < |chains| ==> chains[b] == []
    {
      buckets := new Entry?[MAX_BUCKETS](_ => null);
      lruHead, lruTail := null, null;
      chains := seq(MAX_BUCKETS, _ => []);
      lru, entries := [], {};
    }

    /** The walk of cache_lookup over one bucket: the first live entry, or NULL if there is none anywhere. */
    method Find(url: Url) returns (found: Entry?)
      requires Valid()
      ensures found == null <==> forall e :: e in entries ==> !Live(e, url)
      ensures found != null ==> found in entries && Live(found, url)
      ensures found != null ==>
        var c := chains[Bucket(url)];
        exists i :: 0 <= i < |c| && c[i] == found && forall j :: 0 <= j < i ==> !Live(c[j], url)
    {
      var hash := HashUrl(url);
      var b := hash % MAX_BUCKETS;
      assert BucketOk(b);
      found := buckets[b];
      ghost var i := 0;
      while found != null && !(found.url == url && found.body.state != Cancelled)
        invariant i <= |chains[b]| && found == (if i < |chains[b]| then chains[b][i] else null)
        invariant forall j :: 0 <= j < i ==> !Live(chains[b][j], url)
        decreases |chains[b]| - i
      {
        assert ChainLink(b, i);
        found := found.next;
        i := i + 1;
      }
      if found == null {
        forall e | e in entries ensures !Live(e, url) {
          if e.url == url { assert e in chains[b]; }
        }
      } else {
        assert ChainLink(b, i);
      }
    }

    /** lru_remove followed by lru_add_head. */
    method MoveToFront(entry: Entry, ghost k: nat)
      requires LruOk() && SameEntries() && k < |lru| && lru[k] == entry
      modifies this`lruHead, this`lruTail, this`lru, lru`lruPrev, lru`lruNext
      ensures LruOk() && SameEntries() && lru == ToFront(old(lru), k)
    {
      ghost var was := lru;
      ToFrontMembers(was, k);
      LruRemove(entry, k);
      LruAddHead(entry);
      assert lru == ToFront(was, k);
    }

    /** What a hit does: one more reference, a new access time, the front of the LRU list. */
    method Touch(entry: Entry, now: int, ghost k: nat)
      requires LruOk() && SameEntries() && k < |lru| && lru[k] == entry
      modifies this`lruHead, this`lruTail, this`lru, entry`refcount, entry`lastAccess, lru`lruPrev, lru`lruNext
      ensures LruOk() && SameEntries() && lru == ToFront(old(lru), k)
      ensures entry.refcount == old(entry.refcount) + 1 && Times() == [now] + Without(old(Times()), k)
    {
      ghost var was, times := lru, Times();
      entry.refcount := entry.refcount + 1;
      entry.lastAccess := now;
      MoveToFront(entry, k);
      TimesMoved(was, times, k, now);
    }

    lemma TimesMoved(was: seq<Entry>, times: seq<int>, k: nat, now: int)
      requires |times| == |was| && k < |was| && lru == ToFront(was, k) && was[k].lastAccess == now
      requires forall j :: 0 <= j < |was| && j != k ==> was[j].lastAccess == times[j]
      ensures Times() == [now] + Without(times, k)
    {
      forall i | 0 < i < |lru| ensures Times()[i] == Without(times, k)[i - 1] {
        assert lru[i] == was[if i <= k then i - 1 else i];
      }
    }

    method Hit(entry: Entry, now: int) returns (ghost k: nat)
      requires Valid() && entry in entries
      modifies this`lruHead, this`lruTail, this`lru, entry`refcount, entry`lastAccess, lru`lruPrev, lru`lruNext
      ensures Valid() && entry.refcount == old(entry.refcount) + 1
      ensures forall e :: e in entries && e != entry ==> e.refcount == old(e.refcount)
      ensures k < |old(lru)| && old(lru)[k] == entry && lru == ToFront(old(lru), k)
      ensures Times() == [now] + Without(old(Times()), k)
      ensures StaysRecent(old(Times()), Times(), now)
    {
      k :| 0 <= k < |lru| && lru[k] == entry;
      AccessKeepsRecent(Times(), k, now);
      Touch(entry, now, k);
    }

    /**
      cache_lookup: a live entry of the URL, touched and moved to the front; NULL exactly when
      the whole cache holds no live entry for the URL.
     */
    method Lookup(url: Url, now: int) returns (found: Entry?, ghost k: nat)
      requires Valid()
      modifies this`lruHead, this`lruTail, this`lru, lru`refcount, lru`lastAccess, lru`lruPrev, lru`lruNext
      ensures Valid() && entries == old(entries)
      ensures found == null <==> forall e :: e in entries ==> !Live(e, url)
      ensures found == null ==> lru == old(lru) && Times() == old(Times())
      ensures found != null ==>
        found in entries && Live(found, url) && found.refcount == old(found.refcount) + 1 &&
        k < |old(lru)| && old(lru)[k] == found && lru == ToFront(old(lru), k) &&
        Times() == [now] + Without(old(Times()), k)
      ensures forall e :: e in entries && e != found ==> e.refcount == old(e.refcount)
      ensures StaysRecent(old(Times()), Times(), now)
    {
      found := Find(url);
      if found == null {
        AccessKeepsRecent(Times(), 0, now);
        return found, 0;
      }
      k := Hit(found, now);
    }

    /** cache_insert: a new entry with one reference, first in its bucket and first in the LRU list. */
    method Insert(url: Url, now: int) returns (entry: Entry)
      requires Valid()
      modifies this, buckets, lru`lruPrev
      ensures Valid() && fresh(entry) && entry.url == url && entry.refcount == 1
      ensures fresh(entry.body) && entry.body.state == Incomplete && entry.body.Valid() && entry.body.Data() == []
      ensures lru == [entry] + old(lru) && entries == old(entries) + {entry} && Times() == [now] + old(Times())
      ensures StaysRecent(old(Times()), Times(), now)
      ensures chains == old(chains)[Bucket(url) := [entry] + old(chains)[Bucket(url)]]
    {
      AccessKeepsRecent(Times(), 0, now);
      entry := new Entry(url, now);
      var hash := HashUrl(url);
      Link(entry, hash % MAX_BUCKETS);
    }

    method Link(entry: Entry, b: nat)
      requires Valid() && entry !in entries && entry !in lru && b == Bucket(entry.url)
      modifies this, buckets, lru`lruPrev, entry`next, entry`lruPrev, entry`lruNext
      ensures Valid() && lru == [entry] + old(lru) && entries == old(entries) + {entry}
      ensures Times() == [entry.lastAccess] + old(Times()) && entry.lastAccess == old(entry.lastAccess)
      ensures chains == old(chains)[b := [entry] + old(chains)[b]]
    {
      LinkFirst(entry, b);
      LinkLru(entry);
    }

    /** The bucket part of an insert. */
    method LinkFirst(entry: Entry, b: nat)
      requires BucketsOk() && b < MAX_BUCKETS && Bucket(entry.url) == b && entry !in entries
      modifies this`chains, this`entries, buckets, entry`next
      ensures BucketsOk() && chains == old(chains)[b := [entry] + old(chains)[b]] && entries == old(entries) + {entry}
    {
      assert BucketOk(b);
      ghost var chain := chains[b];
      forall e | e in chain ensures e in entries {
        var i :| 0 <= i < |chain| && chain[i] == e;
        assert ChainLink(b, i);
      }
      assert Distinct([entry] + chain);
      entry.next := buckets[b];
      buckets[b] := entry;
      entries := entries + {entry};
      chains := chains[b := [entry] + chain];
      forall c | 0 <= c < MAX_BUCKETS ensures BucketOk(c) {
        assert old(BucketOk(c));
        forall i | 0 <= i < |chains[c]| ensures ChainLink(c, i) {
          assert old(ChainLink(c, if c == b && i > 0 then i - 1 else i)) || (c == b && i == 0);
        }
      }
    }

    /** The LRU part of an insert. */
    method LinkLru(entry: Entry)
      requires LruOk() && entry in entries && entry !in lru && |chains| == MAX_BUCKETS
      requires forall e :: e in entries ==> e in chains[Bucket(e.url)] && (e == entry || e in lru)
      requires forall i :: 0 <= i < |lru| ==> lru[i] in entries
      modifies this`lruHead, this`lruTail, this`lru, lru`lruPrev, entry`lruPrev, entry`lruNext
      ensures LruOk() && SameEntries() && lru == [entry] + old(lru) && Times() == [entry.lastAccess] + old(Times())
    {
      LruAddHead(entry);
    }

    // ----- the collector -----

    /** The entries the collector may free: cancelled and without references. */
    ghost function Dead(): set<Entry>
      reads this`entries, entries`refcount, (set e | e in entries :: e.body)`state
    {
      set e | e in entries && e.body.state == Cancelled && e.refcount == 0
    }

    /** Take entry i of bucket b out of its chain. */
    method UnlinkBucket(b: nat, prev: Entry?, entry: Entry, ghost i: nat)
      requires BucketsOk() && b < MAX_BUCKETS && i < |chains[b]| && chains[b][i] == entry
      requires prev == if i == 0 then null else chains[b][i - 1]
      modifies this`chains, this`entries, buckets, entries`next
      ensures BucketsOk() && entries == old(entries) - {entry}
      ensures chains == old(chains)[b := Without(old(chains)[b], i)]
      ensures entry.next == old(entry.next)
    {
      assert BucketOk(b);
      assert ChainLink(b, i);
      ghost var chain := chains[b];
      if prev == null {
        buckets[b] := entry.next;
      } else {
        assert ChainLink(b, i - 1);
        prev.next := entry.next;
      }
      entries := entries - {entry};
      chains := chains[b := Without(chain, i)];
      forall c | 0 <= c < MAX_BUCKETS ensures BucketOk(c) {
        assert old(BucketOk(c));
        forall j | 0 <= j < |chains[c]| ensures ChainLink(c, j) {
          assert old(ChainLink(c, if c == b && j >= i then j + 1 else j));
          if c != b && i > 0 { assert old(ChainLink(b, i - 1)); }
        }
      }
    }

    /** Take an entry out of its bucket and out of the LRU list. */
    method UnlinkBoth(b: nat, prev: Entry?, entry: Entry, ghost i: nat) returns (ghost k: nat)
      requires Valid() && b < MAX_BUCKETS && i < |chains[b]| && chains[b][i] == entry
      requires prev == if i == 0 then null else chains[b][i - 1]
      modifies this`chains, this`entries, this`lru, this`lruHead, this`lruTail, buckets
      modifies entries`next, lru`lruPrev, lru`lruNext
      ensures Valid() && entries == old(entries) - {entry} && entry.next == old(entry.next)
      ensures chains == old(chains)[b := Without(old(chains)[b], i)]
      ensures k < |old(lru)| && old(lru)[k] == entry && lru == Without(old(lru), k)
    {
      assert BucketOk(b);
      assert ChainLink(b, i);
      k :| 0 <= k < |lru| && lru[k] == entry;
      WithoutMembers(lru, k);
      WithoutMembers(chains[b], i);
      UnlinkBucket(b, prev, entry, i);
      LruRemove(entry, k);
    }

    /** The same; the access times stay sorted. */
    method Unlink(b: nat, prev: Entry?, entry: Entry, ghost i: nat) returns (ghost k: nat)
      requires Valid() && b < MAX_BUCKETS && i < |chains[b]| && chains[b][i] == entry
      requires prev == if i == 0 then null else chains[b][i - 1]
      modifies this`chains, this`entries, this`lru, this`lruHead, this`lruTail, buckets
      modifies entries`next, lru`lruPrev, lru`lruNext
      ensures Valid() && entries == old(entries) - {entry} && entry.next == old(entry.next)
      ensures chains == old(chains)[b := Without(old(chains)[b], i)]
      ensures k < |old(lru)| && old(lru)[k] == entry && lru == Without(old(lru), k)
      ensures forall now: int :: StaysRecent(old(Times()), Times(), now)
    {
      ghost var was, times := lru, Times();
      k := UnlinkBoth(b, prev, entry, i);
      TimesRemoved(was, times, k);
    }

    lemma TimesRemoved(was: seq<Entry>, times: seq<int>, k: nat)
      requires |times| == |was| && k < |was| && lru == Without(was, k)
      requires forall j :: 0 <= j < |was| ==> was[j].lastAccess == times[j]
      ensures forall now: int :: StaysRecent(times, Times(), now)
    {
      assert Times() == Without(times, k);
      forall now: int ensures StaysRecent(times, Times(), now) {
        RemovalKeepsRecent(times, k, now);
      }
    }

    /** dead is the set of those entries among all that the collector may free. */
    static ghost predicate DeadAmong(all: set<Entry>, dead: set<Entry>)
      reads all`refcount, (set e | e in all :: e.body)`state
    {
      forall e :: e in all ==> (e in dead <==> e.body.state == Cancelled && e.refcount == 0)
    }

    ghost function Now(): Shape<Entry>
      reads this`chains, this`lru, this`entries
    {
      Shape(chains, lru, entries)
    }

    /** Removing a dead entry leaves the remaining work the same. */
    method Free(b: nat, prev: Entry?, entry: Entry, ghost i: nat, ghost dead: set<Entry>)
      requires Valid() && b < MAX_BUCKETS && i < |chains[b]| && chains[b][i] == entry && entry in dead
      requires prev == if i == 0 then null else chains[b][i - 1]
      modifies this`chains, this`entries, this`lru, this`lruHead, this`lruTail, buckets
      modifies entries`next, lru`lruPrev, lru`lruNext
      ensures Valid() && entries == old(entries) - {entry} && entry.next == old(entry.next)
      ensures chains == old(chains)[b := Without(old(chains)[b], i)]
      ensures OnlyDeadGone(b, dead, old(Now()), Now())
    {
      ghost var chain, was := chains[b], lru;
      ghost var k := Unlink(b, prev, entry, i);
      FilterWithout(chain, i, dead);
      FilterWithout(was, k, dead);
    }

    /** The walk over bucket b stands at entry i, with prev before it. */
    ghost predicate At(b: nat, i: nat, prev: Entry?, entry: Entry?)
      reads this`chains
    {
      b < |chains| && i <= |chains[b]| && entry == (if i < |chains[b]| then chains[b][i] else null) &&
      prev == (if i == 0 then null else chains[b][i - 1])
    }

    lemma LinkAt(b: nat, i: nat)
      requires BucketsOk() && b < MAX_BUCKETS && i < |chains[b]|
      ensures ChainLink(b, i)
    {
      assert BucketOk(b);
    }

    /** One round of the walk: free the entry or step over it. */
    method CleanOne(b: nat, prev: Entry?, entry: Entry, ghost i: nat, ghost all: set<Entry>, ghost dead: set<Entry>)
      returns (prev': Entry?, entry': Entry?, ghost i': nat)
      requires Valid() && b < MAX_BUCKETS && entries <= all && DeadAmong(all, dead) && At(b, i, prev, entry)
      requires forall j :: 0 <= j < i ==> chains[b][j] !in dead
      modifies this`chains, this`entries, this`lru, this`lruHead, this`lruTail, buckets
      modifies entries`next, lru`lruPrev, lru`lruNext
      ensures Valid() && At(b, i', prev', entry')
      ensures OnlyDeadGone(b, dead, old(Now()), Now())
      ensures |chains[b]| - i' < |old(chains)[b]| - i
      ensures forall j :: 0 <= j < i' ==> chains[b][j] !in dead
    {
      LinkAt(b, i);
      if entry.body.state == Cancelled && entry.refcount == 0 {
        entry' := entry.next;
        Free(b, prev, entry, i, dead);
        prev', i' := prev, i;
      } else {
        prev', entry', i' := entry, entry.next, i + 1;
      }
    }

    /** The collector's walk over one bucket. */
    method CleanBucket(b: nat, ghost all: set<Entry>, ghost dead: set<Entry>)
      requires Valid() && b < MAX_BUCKETS && entries <= all && DeadAmong(all, dead)
      modifies this`chains, this`entries, this`lru, this`lruHead, this`lruTail, buckets
      modifies entries`next, lru`lruPrev, lru`lruNext
      ensures Valid() && OnlyDeadGone(b, dead, old(Now()), Now())
      ensures Clean(chains[b], dead)
    {
      assert BucketOk(b);
      var entry := buckets[b];
      var prev: Entry? := null;
      ghost var i: nat := 0;
      while entry != null
        invariant Valid() && At(b, i, prev, entry)
        invariant OnlyDeadGone(b, dead, old(Now()), Now())
        invariant forall j :: 0 <= j < i ==> chains[b][j] !in dead
        decreases |chains[b]| - i
      {
        ghost var was := Now();
        prev, entry, i := CleanOne(b, prev, entry, i, all, dead);
        GoneAgain(b, dead, old(Now()), was, Now());
      }
    }

    method CleanAll(ghost all: set<Entry>, ghost dead: set<Entry>)
      requires Valid() && entries <= all && DeadAmong(all, dead)
      modifies this`chains, this`entries, this`lru, this`lruHead, this`lruTail, buckets
      modifies all`next, all`lruPrev, all`lruNext
      ensures Valid() && CleanBelow(MAX_BUCKETS, dead, old(Now()), Now())
    {
      ghost var start := Now();
      CleanNone(dead, start);
      for b := 0 to buckets.Length
        invariant Valid() && CleanBelow(b, dead, start, Now())
        invariant entries <= all
      {
        CleanNext(b, all, dead, start);
      }
    }

    method CleanNext(b: nat, ghost all: set<Entry>, ghost dead: set<Entry>, ghost start: Shape<Entry>)
      requires Valid() && b < MAX_BUCKETS && entries <= all && DeadAmong(all, dead)
      requires CleanBelow(b, dead, start, Now())
      modifies this`chains, this`entries, this`lru, this`lruHead, this`lruTail, buckets
      modifies all`next, all`lruPrev, all`lruNext
      ensures Valid() && CleanBelow(b + 1, dead, start, Now()) && entries <= all
    {
      ghost var was := Now();
      CleanBucket(b, all, dead);
      OneMoreClean(b, dead, start, was, Now());
    }

    /** The collector's walk over all buckets, and what it leaves. */
    method CleanLists()
      requires Valid()
      modifies this`chains, this`entries, this`lru, this`lruHead, this`lruTail, buckets
      modifies entries`next, lru`lruPrev, lru`lruNext
      ensures Valid()
      ensures forall b :: 0 <= b < MAX_BUCKETS ==> chains[b] == FilterOut(old(chains)[b], old(Dead()))
      ensures lru == FilterOut(old(lru), old(Dead())) && entries == old(entries) - old(Dead())
    {
      ghost var dead, start := Dead(), Now();
      CleanAll(entries, dead);
      AllGone(dead);
      Cleaned(dead, start, Now());
    }

    /**
      cleanup_cancelled_entries, with nobody else at work: every bucket and the LRU list lose
      exactly the cancelled entries without references and keep the order of the others.
     */
    method Cleanup()
      requires Valid()
      modifies this`chains, this`entries, this`lru, this`lruHead, this`lruTail, buckets
      modifies entries`next, lru`lruPrev, lru`lruNext
      ensures Valid()
      ensures forall b :: 0 <= b < MAX_BUCKETS ==> chains[b] == FilterOut(old(chains)[b], old(Dead()))
      ensures lru == FilterOut(old(lru), old(Dead())) && entries == old(entries) - old(Dead())
      ensures forall now: int :: StaysRecent(old(Times()), Times(), now)
    {
      ghost var dead, was, times := Dead(), lru, Times();
      CleanLists();
      TimesFiltered(was, times, dead);
    }

    /** The filtered list is still sorted, because filtering keeps the order. */
    lemma TimesFiltered(was: seq<Entry>, times: seq<int>, dead: set<Entry>)
      requires |times| == |was| && lru == FilterOut(was, dead)
      requires forall j :: 0 <= j < |was| ==> was[j].lastAccess == times[j]
      ensures forall now: int :: StaysRecent(times, Times(), now)
    {
      forall before: int, now: int | Recent(times, before) && before <= now ensures Recent(Times(), now) {
        forall i | 0 <= i < |lru| ensures Times()[i] <= now {
          FilterSound(was, dead, i);
        }
        forall i, j | 0 <= i < j < |lru| ensures Times()[i] >= Times()[j] {
          var a, b := FilterOrder(was, dead, i, j);
          assert times[a] >= times[b];
        }
      }
    }

    lemma AllGone(dead: set<Entry>)
      requires SameEntries() && forall c :: 0 <= c < MAX_BUCKETS ==> Clean(chains[c], dead)
      ensures entries !! dead && Clean(lru, dead)
    {
      forall e | e in entries ensures e !in dead {
        assert Clean(chains[Bucket(e.url)], dead);
      }
    }
  }
}
