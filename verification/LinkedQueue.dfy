// The intrusive circular doubly linked list of the kernel: a bare head link, and elements
// that carry a link and a priority.
module LinkedQueue {

  import opened PriorityList
  import opened Words

  class Link {
    var prev: Link?
    var next: Link?
    var prio: int

    constructor (priority: int)
      ensures prev == null && next == null && prio == priority
    {
      prev, next, prio := null, null, priority;
    }
  }

  // Element i of the ring, the head standing before the first and after the last one.
  ghost function NodeAt(head: Link, q: seq<Link>, i: int): Link {
    if 0 <= i < |q| then q[i] else head
  }

  // The elements q hang on `head` in this order: next and prev are inverse to each other.
  ghost predicate Holds(head: Link, q: seq<Link>)
    reads head, q
  {
    && head !in q && NoDup(q)
    && forall i :: 0 <= i <= |q| ==> Joined(NodeAt(head, q, i - 1), NodeAt(head, q, i))
  }

  ghost predicate Joined(a: Link, b: Link)
    reads a, b
  {
    a.next == b && b.prev == a
  }

  ghost function Priorities(q: seq<Link>): (ks: seq<int>)
    reads q
    ensures |ks| == |q| && forall i :: 0 <= i < |q| ==> ks[i] == q[i].prio
  {
    seq(|q|, i requires 0 <= i < |q| reads q => q[i].prio)
  }

  method InitListHead(head: Link)
    modifies head
    ensures Holds(head, []) && head.prio == old(head.prio)
  {
    head.next := head;
    head.prev := head;
  }

  method ListIsEmpty(head: Link, ghost q: seq<Link>) returns (r: bool)
    requires Holds(head, q)
    ensures r <==> q == []
  {
    assert Joined(NodeAt(head, q, -1), NodeAt(head, q, 0));
    r := head.next == head;
  }

  // The scan of queue_add: from the first element to one of at least this priority.
  method Scan(prio: int, head: Link, ghost q: seq<Link>) returns (cur: Link, ghost k: nat)
    requires Holds(head, q)
    ensures k == Position(Priorities(q), prio) && k <= |q| && cur == NodeAt(head, q, k)
  {
    assert Joined(NodeAt(head, q, -1), NodeAt(head, q, 0));
    cur := head.next;
    k := 0;
    while cur != head && cur.prio < prio
      invariant k <= |q| && cur == NodeAt(head, q, k)
      invariant forall j :: 0 <= j < k ==> q[j].prio < prio
      decreases |q| - k
    {
      assert Joined(NodeAt(head, q, k), NodeAt(head, q, k + 1));
      cur := cur.next;
      k := k + 1;
    }
    PositionIs(Priorities(q), prio, k);
  }

  method QueueAdd(elem: Link, head: Link, ghost q: seq<Link>) returns (ghost k: nat)
    requires Holds(head, q) && elem != head && elem !in q
    requires elem.prev == null && elem.next == null
    modifies head, elem, q
    ensures k == Position(old(Priorities(q)), elem.prio)
    ensures k <= |q| && Holds(head, Place(q, k, elem))
    ensures elem.prio == old(elem.prio) && forall x :: x in q ==> x.prio == old(x.prio)
  {
    var cur;
    cur, k := Scan(elem.prio, head, q);
    assert Joined(NodeAt(head, q, k - 1), NodeAt(head, q, k));
    elem.next := cur;
    elem.prev := cur.prev;
    cur.prev.next := elem;
    cur.prev := elem;
    forall i | 0 <= i <= |q| && i != k ensures Joined(NodeAt(head, q, i - 1), NodeAt(head, q, i)) {
      assert old(Joined(NodeAt(head, q, i - 1), NodeAt(head, q, i)));
      Distinct(head, q, i - 1, k - 1);
      Distinct(head, q, i, k);
    }
    Spliced(head, q, k, elem);
  }

  lemma Spliced(head: Link, q: seq<Link>, k: nat, elem: Link)
    requires head !in q && NoDup(q) && k <= |q| && elem != head && elem !in q
    requires forall i :: 0 <= i <= |q| && i != k ==> Joined(NodeAt(head, q, i - 1), NodeAt(head, q, i))
    requires Joined(NodeAt(head, q, k - 1), elem) && Joined(elem, NodeAt(head, q, k))
    ensures Holds(head, Place(q, k, elem))
  {
    PlacedNoDup(q, k, elem);
    var r := Place(q, k, elem);
    forall i | 0 <= i <= |r| ensures Joined(NodeAt(head, r, i - 1), NodeAt(head, r, i)) {
      if i < k {
        assert Joined(NodeAt(head, q, i - 1), NodeAt(head, q, i));
      } else if i > k + 1 {
        assert Joined(NodeAt(head, q, i - 2), NodeAt(head, q, i - 1));
      }
    }
  }

  lemma Distinct(head: Link, q: seq<Link>, i: int, j: int)
    requires head !in q && NoDup(q) && -1 <= i <= |q| && -1 <= j <= |q|
    requires i != j && !(i == -1 && j == |q|) && !(i == |q| && j == -1)
    ensures NodeAt(head, q, i) != NodeAt(head, q, j)
  {}

  lemma PlacedNoDup(q: seq<Link>, k: nat, elem: Link)
    requires NoDup(q) && k <= |q| && elem !in q
    ensures NoDup(Place(q, k, elem))
  {
    var r := Place(q, k, elem);
    forall i | 0 <= i < |r| ensures r[i] == if i < k then q[i] else if i == k then elem else q[i - 1] {}
  }

  method QueueDel(elem: Link, ghost head: Link, ghost q: seq<Link>, ghost k: nat)
    requires Holds(head, q) && k < |q| && q[k] == elem
    modifies head, q
    ensures Holds(head, q[..k] + q[k + 1..]) && elem.prev == null && elem.next == null
    ensures forall x :: x in q ==> x.prio == old(x.prio)
  {
    assert Joined(NodeAt(head, q, k - 1), NodeAt(head, q, k)) && Joined(NodeAt(head, q, k), NodeAt(head, q, k + 1));
    elem.prev.next := elem.next;
    elem.next.prev := elem.prev;
    elem.next := null;
    elem.prev := null;
    RemovedNoDup(q, k);
    ghost var r := q[..k] + q[k + 1..];
    forall i | 0 <= i <= |r| ensures Joined(NodeAt(head, r, i - 1), NodeAt(head, r, i)) {
      if i < k {
        assert old(Joined(NodeAt(head, q, i - 1), NodeAt(head, q, i)));
      } else if i > k {
        assert old(Joined(NodeAt(head, q, i), NodeAt(head, q, i + 1)));
      }
    }
  }

  lemma RemovedNoDup(q: seq<Link>, k: nat)
    requires NoDup(q) && k < |q|
    ensures NoDup(q[..k] + q[k + 1..])
  {
    var r := q[..k] + q[k + 1..];
    forall i | 0 <= i < |r| ensures r[i] == q[if i < k then i else i + 1] {}
  }

  method QueueOut(head: Link, ghost q: seq<Link>) returns (r: Link?)
    requires Holds(head, q)
    modifies head, q
    ensures q == [] ==> r == null && Holds(head, q)
    ensures q != [] ==> r == q[|q| - 1] && Holds(head, q[..|q| - 1]) && r.prev == null && r.next == null
    ensures forall x :: x in q ==> x.prio == old(x.prio)
  {
    assert Joined(NodeAt(head, q, |q| - 1), NodeAt(head, q, |q|));
    var last: Link := head.prev;
    var empty := ListIsEmpty(head, q);
    if empty {
      return null;
    }
    ghost var k := |q| - 1;
    assert Joined(NodeAt(head, q, k - 1), NodeAt(head, q, k));
    head.prev := head.prev.prev;
    head.prev.next := head;
    last.prev := null;
    last.next := null;
    forall i | 0 <= i < k ensures Joined(NodeAt(head, q[..k], i - 1), NodeAt(head, q[..k], i)) {
      assert old(Joined(NodeAt(head, q, i - 1), NodeAt(head, q, i)));
    }
    r := last;
  }

  method QueueTop(head: Link, ghost q: seq<Link>) returns (r: Link?)
    requires Holds(head, q)
    ensures r == if q == [] then null else q[|q| - 1]
  {
    assert Joined(NodeAt(head, q, |q| - 1), NodeAt(head, q, |q|));
    var last := head.prev;
    var empty := ListIsEmpty(head, q);
    r := if empty then null else last;
  }

  method QueueBottom(head: Link, ghost q: seq<Link>) returns (r: Link?)
    requires Holds(head, q)
    ensures r == if q == [] then null else q[0]
  {
    assert Joined(NodeAt(head, q, -1), NodeAt(head, q, 0));
    var first := head.next;
    var empty := ListIsEmpty(head, q);
    r := if empty then null else first;
  }
}
