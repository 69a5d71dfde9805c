/**
  One pass run alone on a list in memory: the loops of the counters and swappers on
  real links, proved against PassSpec.
 */
module HeapPass {
  import opened Basics
  import opened PassSpec

  class Cell {
    const node: Node
    var next: Cell?

    constructor (n: Node, link: Cell?)
      ensures node == n && next == link
    {
      node := n;
      next := link;
    }
  }

  ghost predicate LinkAt(cells: seq<Cell>, i: nat)
    reads cells
  {
    i < |cells| && cells[i].next == (if i + 1 < |cells| then cells[i + 1] else null)
  }

  /** The cells form a list in this order, ending in NULL. */
  ghost predicate Chain(cells: seq<Cell>)
    reads cells
  {
    Distinct(cells) && forall i :: 0 <= i < |cells| ==> LinkAt(cells, i)
  }

  ghost function Nodes(cells: seq<Cell>): seq<Node> {
    seq(|cells|, i requires 0 <= i < |cells| => cells[i].node)
  }

  /** Put a new cell in front of the list, as init_storage does for every node. */
  method Push(n: Node, first: Cell?, ghost cells: seq<Cell>) returns (c: Cell)
    requires Chain(cells) && first == (if cells == [] then null else cells[0])
    ensures fresh(c) && c.node == n && Chain([c] + cells)
  {
    c := new Cell(n, first);
    forall i | 0 <= i <= |cells| ensures LinkAt([c] + cells, i) {
      if i > 0 { assert LinkAt(cells, i - 1); }
    }
  }

  /** The list that init_storage builds: the values in reverse order of their creation. */
  method Build(values: seq<Node>) returns (first: Cell?, ghost cells: seq<Cell>)
    ensures Chain(cells) && fresh(cells) && |cells| == |values|
    ensures first == if cells == [] then null else cells[0]
    ensures forall i :: 0 <= i < |cells| ==> cells[i].node == values[|values| - 1 - i]
  {
    first, cells := null, [];
    for k := 0 to |values|
      invariant Chain(cells) && fresh(cells) && |cells| == k
      invariant first == if cells == [] then null else cells[0]
      invariant forall i :: 0 <= i < k ==> cells[i].node == values[k - 1 - i]
    {
      var c := Push(values[k], first, cells);
      first, cells := c, [c] + cells;
    }
  }

  /** The three writes that exchange the two nodes behind prev. */
  method SwapBehind(prev: Cell, cur: Cell, next: Cell, ghost order: seq<Cell>, ghost p: nat)
    requires Chain(order) && p + 2 < |order|
    requires prev == order[p] && cur == order[p + 1] && next == order[p + 2]
    modifies prev, cur, next
    ensures Chain(Exchange(order, p + 1))
  {
    assert LinkAt(order, p + 2);
    prev.next := next;
    cur.next := next.next;
    next.next := cur;
    ghost var swapped := Exchange(order, p + 1);
    forall i | 0 <= i < |swapped| ensures LinkAt(swapped, i) {
      assert old(LinkAt(order, i));
    }
  }

  /** The swapper's loop. The decisions are free choices; the list ends as the specified pass leaves it. */
  method SwapperPass(first: Cell, ghost cells: seq<Cell>) returns (flips: seq<bool>)
    requires Chain(cells) && cells != [] && cells[0] == first
    modifies cells
    ensures Finished(flips, |cells|) && Cursor(flips) < |cells|
    ensures Chain(SwapPass(cells, flips)) && SwapPass(cells, flips)[0] == first
  {
    var prev := first;
    flips := [];
    ghost var order := cells;
    while true
      invariant Legal(flips, |cells|) && Cursor(flips) < |cells|
      invariant order == SwapPass(cells, flips) && Chain(order)
      invariant forall i :: 0 <= i < |order| ==> order[i] in cells
      invariant order[0] == first && order[Cursor(flips)] == prev
      decreases |cells| - Cursor(flips)
    {
      ghost var p := Cursor(flips);
      assert LinkAt(order, p);
      if prev.next == null { break; }
      var cur := prev.next;
      assert LinkAt(order, p + 1);
      if cur.next == null { break; }
      var next := cur.next;
      var flip: bool := *;
      assert (flips + [flip])[..|flips|] == flips;
      if flip {
        SwapBehind(prev, cur, next, order, p);
        order := Exchange(order, p + 1);
      }
      flips := flips + [flip];
      prev := cur;
    }
  }

  /** A counter's loop: the number of related neighbours and of comparisons. */
  method CounterPass(kind: Kind, first: Cell, ghost cells: seq<Cell>) returns (found: nat, comps: nat)
    requires Chain(cells) && cells != [] && cells[0] == first
    ensures found == Matches(kind, Nodes(cells)) && comps == |cells| - 1
  {
    var cur := first;
    found, comps := 0, 0;
    ghost var p := 0;
    while true
      invariant 0 <= p < |cells| && cells[p] == cur && comps == p
      invariant found == Matches(kind, Nodes(cells[..p + 1]))
      decreases |cells| - p
    {
      assert LinkAt(cells, p);
      var next := cur.next;
      if next == null { break; }
      if Related(kind, cur.node, next.node) { found := found + 1; }
      comps := comps + 1;
      assert Nodes(cells[..p + 2])[..p + 1] == Nodes(cells[..p + 1]);
      cur := cur.next;
      p := p + 1;
    }
    assert cells[..p + 1] == cells;
  }
}
