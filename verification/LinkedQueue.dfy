/**
  The linked list inside the queues: first and last pointers and a count, changed while the
  mutex is held. When the last node leaves, `last` keeps pointing at it and is not looked at
  again before the next node is added.
 */
module LinkedQueue {
  import opened Basics

  class QNode {
    var val: int
    var next: QNode?

    constructor (v: int)
      ensures val == v && next == null
    {
      val := v;
      next := null;
    }
  }

  class Queue {
    var first: QNode?
    var last: QNode?
    var count: int
    const maxCount: int
    ghost var nodes: seq<QNode>

    ghost predicate Linked(i: nat)
      reads this, nodes
    {
      i < |nodes| && nodes[i].next == (if i + 1 < |nodes| then nodes[i + 1] else null)
    }

    ghost predicate Valid()
      reads this, nodes
    {
      Distinct(nodes) && (forall i :: 0 <= i < |nodes| ==> Linked(i)) &&
      (first == if nodes == [] then null else nodes[0]) &&
      (nodes != [] ==> last == nodes[|nodes| - 1]) &&
      count == |nodes|
    }

    /** The values in the queue, oldest first. */
    ghost function Items(): seq<int>
      reads this, nodes
    {
      seq(|nodes|, i requires 0 <= i < |nodes| reads this, nodes => nodes[i].val)
    }

    constructor (max: int)
      ensures Valid() && Items() == [] && maxCount == max && nodes == []
    {
      first, last, count, maxCount, nodes := null, null, 0, max, [];
    }

    method Enqueue(val: int)
      requires Valid()
      modifies this, nodes
      ensures Valid() && Items() == old(Items()) + [val] && count == old(count) + 1
      ensures fresh(set n | n in nodes && n !in old(nodes))
    {
      var node := new QNode(val);
      assert forall i :: 0 <= i < |nodes| ==> Linked(i);
      if first == null {
        first := node;
        last := node;
      } else {
        last.next := node;
        last := last.next;
      }
      count := count + 1;
      nodes := nodes + [node];
      forall i | 0 <= i < |nodes| ensures Linked(i) {
        if i + 1 < |nodes| { assert old(Linked(i)); }
      }
    }

    method Dequeue() returns (val: int)
      requires Valid() && Items() != []
      modifies this
      ensures Valid() && old(Items()) == [val] + Items() && count == old(count) - 1
      ensures nodes == old(nodes)[1..]
    {
      assert Linked(0);
      var tmp := first;
      val := tmp.val;
      first := first.next;
      count := count - 1;
      nodes := nodes[1..];
      forall i | 0 <= i < |nodes| ensures Linked(i) {
        assert old(Linked(i + 1));
      }
    }

    /** The loop of queue_destroy visits every node once; `freed` lists them in that order. */
    method Destroy() returns (ghost freed: seq<QNode>)
      requires Valid()
      ensures freed == nodes
    {
      var cur := first;
      freed := [];
      while cur != null
        invariant |freed| <= |nodes| && freed == nodes[..|freed|]
        invariant cur == if |freed| == |nodes| then null else nodes[|freed|]
        decreases |nodes| - |freed|
      {
        assert Linked(|freed|);
        var next := cur.next;
        freed := freed + [cur];
        cur := next;
      }
    }
  }
}
