/**
  What one pass over the list does when it runs alone.

  A swapper stands on a node (its cursor), looks at the two nodes behind it and
  either exchanges them or not. After an exchange the cursor is two positions
  further, otherwise one. A counter pass compares every pair of neighbours.
  The concurrent model and the heap model are both proved against these functions.
 */
module PassSpec {
  import opened Basics

  /** A list node: its address and the length of the string it stores, which never changes. */
  datatype Node = Node(id: nat, len: nat)

  datatype Kind = Asc | Desc | Eq | Swapper

  /** The list with the nodes at positions i and i+1 exchanged. */
  function Exchange<T>(l: seq<T>, i: nat): (r: seq<T>)
    requires i + 1 < |l|
  {
    l[i := l[i + 1]][i + 1 := l[i]]
  }

  /** The position of the swapper's cursor after the given decisions. */
  function Cursor(flips: seq<bool>): nat {
    if flips == [] then 0
    else Cursor(flips[..|flips| - 1]) + (if flips[|flips| - 1] then 2 else 1)
  }

  /** Every decision was taken with two nodes behind the cursor, as the loop demands. */
  ghost predicate Legal(flips: seq<bool>, n: nat) {
    flips == [] ||
    (Legal(flips[..|flips| - 1], n) && Cursor(flips[..|flips| - 1]) + 2 < n)
  }

  /** The pass has nothing left to decide: fewer than two nodes remain behind the cursor. */
  ghost predicate Finished(flips: seq<bool>, n: nat) {
    Legal(flips, n) && Cursor(flips) + 2 >= n
  }

  /** The list that a swapper leaves behind after the given decisions. */
  ghost function SwapPass<T>(l: seq<T>, flips: seq<bool>): (r: seq<T>)
    requires Cursor(flips) < |l|
    ensures |r| == |l|
  {
    if flips == [] then l
    else
      var front := flips[..|flips| - 1];
      var done := SwapPass(l, front);
      if flips[|flips| - 1] then Exchange(done, Cursor(front) + 1) else done
  }

  /** A prefix of the list, seen by a pass, continued with the rest of another list. */
  function Splice<T>(prefix: seq<T>, l: seq<T>): (r: seq<T>) {
    if |prefix| <= |l| then prefix + l[|prefix|..] else prefix
  }

  predicate Related(kind: Kind, a: Node, b: Node) {
    match kind
    case Asc => a.len < b.len
    case Desc => a.len > b.len
    case Eq => a.len == b.len
    case Swapper => false
  }

  /** How many neighbouring pairs a counter of the given kind finds. */
  function Matches(kind: Kind, l: seq<Node>): nat {
    if |l| < 2 then 0
    else Matches(kind, l[..|l| - 1]) + (if Related(kind, l[|l| - 2], l[|l| - 1]) then 1 else 0)
  }

  // ----- the pass as a transformation of lists -----

  lemma {:induction false} CursorBounds(flips: seq<bool>, n: nat)
    requires Legal(flips, n) && n >= 1
    ensures |flips| <= Cursor(flips) < n
  {
    if flips != [] { CursorBounds(flips[..|flips| - 1], n); }
  }

  /** What lies behind the cursor is carried along unchanged. */
  lemma {:induction false} SwapPassAppend<T>(l: seq<T>, rest: seq<T>, flips: seq<bool>)
    requires Cursor(flips) < |l|
    ensures SwapPass(l + rest, flips) == SwapPass(l, flips) + rest
  {
    if flips != [] { SwapPassAppend(l, rest, flips[..|flips| - 1]); }
  }

  /** One more decision not to exchange moves the cursor by one and changes nothing. */
  lemma KeepOne<T>(l: seq<T>, flips: seq<bool>, n: nat)
    requires Legal(flips, n) && Cursor(flips) + 2 < n && Cursor(flips) + 1 < |l|
    ensures Legal(flips + [false], n) && Cursor(flips + [false]) == Cursor(flips) + 1
    ensures SwapPass(l, flips + [false]) == SwapPass(l, flips)
  {
    assert (flips + [false])[..|flips|] == flips;
  }

  /** One more decision to exchange moves the cursor by two and exchanges the pair behind it. */
  lemma SwapOne<T>(l: seq<T>, a: T, b: T, flips: seq<bool>, n: nat)
    requires Legal(flips, n) && Cursor(flips) + 2 < n && |l| == Cursor(flips) + 1
    ensures Legal(flips + [true], n) && Cursor(flips + [true]) == Cursor(flips) + 2
    ensures SwapPass(l + [a, b], flips + [true]) == SwapPass(l, flips) + [b, a]
  {
    assert (flips + [true])[..|flips|] == flips;
    SwapPassAppend(l, [a, b], flips);
  }

  /** A pass that has seen one more node leaves the rest of the list as it was. */
  lemma SpliceOne<T>(l: seq<T>, v: seq<T>)
    requires |l| < |v|
    ensures Splice(l + [v[|l|]], v) == Splice(l, v)
  {
    assert v[|l|..] == [v[|l|]] + v[|l| + 1..];
  }

  lemma ExchangeMembers<T>(v: seq<T>, a: nat)
    requires a + 1 < |v|
    ensures forall x :: x in v <==> x in Exchange(v, a)
    ensures Distinct(v) ==> Distinct(Exchange(v, a))
  {
    var w := Exchange(v, a);
    forall x ensures x in v <==> x in w {
      if x in v {
        var k :| 0 <= k < |v| && v[k] == x;
        assert w[if k == a then a + 1 else if k == a + 1 then a else k] == x;
      }
    }
  }

  /** Passes that have not reached an exchanged pair agree after the exchange if they did before. */
  lemma SpliceExchange<T>(x: seq<T>, y: seq<T>, v: seq<T>, a: nat)
    requires a + 1 < |v| && |x| <= a && |y| <= a && Splice(x, v) == Splice(y, v)
    ensures Splice(x, Exchange(v, a)) == Splice(y, Exchange(v, a))
  {
    var w := Exchange(v, a);
    forall k | 0 <= k < |v| ensures Splice(x, w)[k] == Splice(y, w)[k] {
      assert Splice(x, v)[k] == Splice(y, v)[k];
    }
  }

  /** A pass that is already past the exchanged pair does not notice. */
  lemma SpliceBeyond<T>(x: seq<T>, v: seq<T>, a: nat)
    requires a + 1 < |x| <= |v|
    ensures Splice(x, Exchange(v, a)) == Splice(x, v)
  {
    assert Exchange(v, a)[|x|..] == v[|x|..];
  }

  /** The exchanging pass reads the pair in the old order and leaves it in the new one. */
  lemma SplicePair<T>(x: seq<T>, y: seq<T>, v: seq<T>)
    requires |x| + 1 < |v| && |y| == |x|
    ensures var a := |x|;
      Splice(x + [v[a], v[a + 1]], Exchange(v, a)) == Splice(x, v) &&
      Splice(y + [v[a + 1], v[a]], Exchange(v, a)) == Splice(y, Exchange(v, a))
  {
    var a := |x|;
    assert v[a..] == [v[a], v[a + 1]] + v[a + 2..];
    assert Exchange(v, a)[a..] == [v[a + 1], v[a]] + v[a + 2..];
  }

  /** A pass permutes the list and never moves the first node. */
  lemma {:induction false} SwapPassPermutes<T>(l: seq<T>, flips: seq<bool>)
    requires Cursor(flips) < |l|
    ensures multiset(SwapPass(l, flips)) == multiset(l)
    ensures SwapPass(l, flips)[0] == l[0]
  {
    if flips != [] {
      SwapPassPermutes(l, flips[..|flips| - 1]);
    }
  }

  /** Positions that one pass exchanges: the first of each exchanged pair. */
  ghost function Swapped(flips: seq<bool>): set<nat> {
    if flips == [] then {}
    else
      var front := flips[..|flips| - 1];
      Swapped(front) + (if flips[|flips| - 1] then {Cursor(front) + 1} else {})
  }

  /** The exchanged pairs do not overlap and lie before the cursor. */
  lemma {:induction false} SwappedDisjoint(flips: seq<bool>)
    ensures forall i :: i in Swapped(flips) ==> 1 <= i && i + 1 <= Cursor(flips)
    ensures forall i, j :: i in Swapped(flips) && j in Swapped(flips) && i < j ==> i + 2 <= j
  {
    if flips != [] { SwappedDisjoint(flips[..|flips| - 1]); }
  }

  /** Exactly which node ends at each position: every node moves by at most one. */
  lemma {:induction false} SwapPassAt<T>(l: seq<T>, flips: seq<bool>, k: nat)
    requires Cursor(flips) < |l| && k < |l|
    ensures k in Swapped(flips) ==> k + 1 < |l| && SwapPass(l, flips)[k] == l[k + 1]
    ensures k >= 1 && (k - 1) in Swapped(flips) ==> SwapPass(l, flips)[k] == l[k - 1]
    ensures k !in Swapped(flips) && (k == 0 || (k - 1) !in Swapped(flips)) ==> SwapPass(l, flips)[k] == l[k]
  {
    SwappedDisjoint(flips);
    if flips != [] {
      var front := flips[..|flips| - 1];
      SwappedDisjoint(front);
      SwapPassAt(l, front, k);
      if flips[|flips| - 1] {
        var c := Cursor(front) + 1;
        SwapPassAt(l, front, c);
        SwapPassAt(l, front, c + 1);
      }
    }
  }

  /** At position k, m is l with the pairs that begin at the given positions exchanged. */
  ghost predicate ExchangedAt<T>(l: seq<T>, m: seq<T>, pairs: set<nat>, k: nat) {
    |m| == |l| && k < |l| &&
    if k in pairs then k + 1 < |l| && m[k] == l[k + 1]
    else if k >= 1 && (k - 1) in pairs then m[k] == l[k - 1]
    else m[k] == l[k]
  }

  /** Exchanging disjoint pairs twice puts the node at position k back. */
  lemma ExchangedTwice<T>(l: seq<T>, m: seq<T>, r: seq<T>, pairs: set<nat>, k: nat)
    requires k < |l| && ExchangedAt(m, r, pairs, k)
    requires forall i, j :: i in pairs && j in pairs && i < j ==> i + 2 <= j
    requires forall j: nat :: k <= j + 1 && j <= k + 1 && j < |l| ==> ExchangedAt(l, m, pairs, j)
    ensures r[k] == l[k]
  {
    assert ExchangedAt(l, m, pairs, k);
    if k in pairs {
      assert ExchangedAt(l, m, pairs, k + 1) && (k + 1) !in pairs;
    } else if k >= 1 && (k - 1) in pairs {
      assert ExchangedAt(l, m, pairs, k - 1);
    }
  }

  lemma SwapPassExchanges<T>(l: seq<T>, flips: seq<bool>, k: nat)
    requires Cursor(flips) < |l| && k < |l|
    ensures ExchangedAt(l, SwapPass(l, flips), Swapped(flips), k)
  {
    SwapPassAt(l, flips, k);
  }

  /** Running a pass again with the same decisions restores the list. */
  lemma SwapPassInvolution<T>(l: seq<T>, flips: seq<bool>)
    requires Cursor(flips) < |l|
    ensures SwapPass(SwapPass(l, flips), flips) == l
  {
    var m := SwapPass(l, flips);
    var r := SwapPass(m, flips);
    SwappedDisjoint(flips);
    forall k | 0 <= k < |l| ensures ExchangedAt(l, m, Swapped(flips), k) && ExchangedAt(m, r, Swapped(flips), k) {
      SwapPassExchanges(l, flips, k);
      SwapPassExchanges(m, flips, k);
    }
    forall k | 0 <= k < |l| ensures r[k] == l[k] {
      ExchangedTwice(l, m, r, Swapped(flips), k);
    }
  }

  /** Every pair of neighbours is exactly one of ascending, descending or equal. */
  lemma {:induction false} CountsSum(l: seq<Node>)
    requires |l| >= 1
    ensures Matches(Asc, l) + Matches(Desc, l) + Matches(Eq, l) == |l| - 1
  {
    if |l| >= 2 { CountsSum(l[..|l| - 1]); }
  }

  // ----- what the counters count -----

  ghost predicate PlaceAt(l: seq<Node>, rel: (nat, nat) -> bool, i: int) {
    0 <= i < |l| - 1 && rel(l[i].len, l[i + 1].len)
  }

  /** The places where two neighbours have lengths in the given relation. */
  ghost function Places(l: seq<Node>, rel: (nat, nat) -> bool): set<int> {
    set i | 0 <= i < |l| && PlaceAt(l, rel, i)
  }

  lemma {:induction false} MatchesPlaces(kind: Kind, l: seq<Node>, rel: (nat, nat) -> bool)
    requires forall a, b :: Related(kind, a, b) <==> rel(a.len, b.len)
    ensures Matches(kind, l) == |Places(l, rel)|
  {
    if |l| >= 2 {
      var n := |l| - 2;
      var front := l[..n + 1];
      MatchesPlaces(kind, front, rel);
      assert PlaceAt(l, rel, n) <==> rel(l[n].len, l[n + 1].len);
      var last := if PlaceAt(l, rel, n) then {n} else {};
      forall i ensures i in Places(l, rel) <==> i in Places(front, rel) + last {
        assert PlaceAt(front, rel, i) <==> i != n && PlaceAt(l, rel, i);
      }
      assert Places(l, rel) == Places(front, rel) + last;
      assert n !in Places(front, rel);
    } else {
      assert Places(l, rel) == {};
    }
  }

  /** count_asc counts the places where the next string is longer, count_desc shorter, count_eq as long. */
  lemma CountsExactly(l: seq<Node>)
    ensures Matches(Asc, l) == |Places(l, (a, b) => a < b)|
    ensures Matches(Desc, l) == |Places(l, (a, b) => a > b)|
    ensures Matches(Eq, l) == |Places(l, (a, b) => a == b)|
  {
    MatchesPlaces(Asc, l, (a, b) => a < b);
    MatchesPlaces(Desc, l, (a, b) => a > b);
    MatchesPlaces(Eq, l, (a, b) => a == b);
  }

  /** On a strictly increasing list every pair is ascending, on a strictly decreasing one descending. */
  lemma {:induction false} SortedCounts(l: seq<Node>)
    requires |l| >= 1
    ensures (forall i :: 0 <= i < |l| - 1 ==> l[i].len < l[i + 1].len) <==> Matches(Asc, l) == |l| - 1
    ensures (forall i :: 0 <= i < |l| - 1 ==> l[i].len > l[i + 1].len) <==> Matches(Desc, l) == |l| - 1
  {
    if |l| >= 2 {
      SortedCounts(l[..|l| - 1]);
      CountsSum(l[..|l| - 1]);
    }
  }
}
