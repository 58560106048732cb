// Sequences kept in ascending priority order, a new element going in front of its equals and
// the next element to leave being the last one.
module PriorityList {

  import opened Words

  // Where the scan of queue_add stops: the first element whose key is not below k.
  function Position(ks: seq<int>, k: int): (i: nat)
    ensures i <= |ks|
    ensures forall j :: 0 <= j < i ==> ks[j] < k
    ensures i < |ks| ==> ks[i] >= k
  {
    if |ks| == 0 || ks[0] >= k then 0 else 1 + Position(ks[1..], k)
  }

  lemma {:induction false} PositionIs(ks: seq<int>, k: int, i: nat)
    requires i <= |ks| && (forall j :: 0 <= j < i ==> ks[j] < k) && (i < |ks| ==> ks[i] >= k)
    ensures Position(ks, k) == i
  {
    if i > 0 { PositionIs(ks[1..], k, i - 1); }
  }

  function Place<T>(q: seq<T>, i: nat, x: T): (r: seq<T>)
    requires i <= |q|
    ensures |r| == |q| + 1
  {
    q[..i] + [x] + q[i..]
  }

  // ---- Queues of process numbers, ordered by a key of the processes

  function Key(key: map<int, int>, x: int): int {
    if x in key then key[x] else 0
  }

  function Keys(q: seq<int>, key: map<int, int>): (ks: seq<int>)
    ensures |ks| == |q| && forall i :: 0 <= i < |q| ==> ks[i] == Key(key, q[i])
  {
    seq(|q|, i requires 0 <= i < |q| => Key(key, q[i]))
  }

  function Insert(q: seq<int>, key: map<int, int>, x: int): (r: seq<int>)
    ensures |r| == |q| + 1
  {
    Place(q, Position(Keys(q, key), Key(key, x)), x)
  }

  function IndexOf(q: seq<int>, x: int): (i: nat)
    ensures i <= |q| && (i < |q| ==> q[i] == x) && x !in q[..i]
    ensures x in q ==> i < |q|
  {
    if |q| == 0 || q[0] == x then 0
    else
      assert q == [q[0]] + q[1..];
      var i := IndexOf(q[1..], x);
      assert q[..i + 1] == [q[0]] + q[1..][..i];
      1 + i
  }

  function Without(q: seq<int>, x: int): (r: seq<int>)
  {
    var i := IndexOf(q, x);
    if i < |q| then q[..i] + q[i + 1..] else q
  }

  predicate Sorted(q: seq<int>, key: map<int, int>) {
    forall i, j :: 0 <= i < j < |q| ==> Key(key, q[i]) <= Key(key, q[j])
  }

  lemma InsertMembers(q: seq<int>, key: map<int, int>, x: int)
    ensures forall y :: y in Insert(q, key, x) <==> y in q || y == x
  {
    var i := Position(Keys(q, key), Key(key, x));
    assert q == q[..i] + q[i..];
  }

  lemma InsertNoDup(q: seq<int>, key: map<int, int>, x: int)
    requires NoDup(q) && x !in q
    ensures NoDup(Insert(q, key, x))
  {
    var i := Position(Keys(q, key), Key(key, x));
    var r := Insert(q, key, x);
    forall a, b | 0 <= a < b < |r| ensures r[a] != r[b] {
      assert r[a] == if a < i then q[a] else if a == i then x else q[a - 1];
      assert r[b] == if b < i then q[b] else if b == i then x else q[b - 1];
    }
  }

  lemma InsertSorted(q: seq<int>, key: map<int, int>, x: int)
    requires Sorted(q, key)
    ensures Sorted(Insert(q, key, x), key)
  {
    var k := Key(key, x);
    var i := Position(Keys(q, key), k);
    var r := Insert(q, key, x);
    forall a, b | 0 <= a < b < |r| ensures Key(key, r[a]) <= Key(key, r[b]) {
      assert r[a] == if a < i then q[a] else if a == i then x else q[a - 1];
      assert r[b] == if b < i then q[b] else if b == i then x else q[b - 1];
      assert a < i ==> Keys(q, key)[a] < k;
      assert i < |q| ==> Keys(q, key)[i] >= k;
    }
  }

  lemma WithoutMembers(q: seq<int>, x: int)
    requires NoDup(q)
    ensures forall y :: y in Without(q, x) <==> y in q && y != x
  {
    var i := IndexOf(q, x);
    if i < |q| {
      assert q == q[..i] + [q[i]] + q[i + 1..];
      forall y ensures y in Without(q, x) <==> y in q && y != x {
        if y in q[i + 1..] {
          var j :| 0 <= j < |q[i + 1..]| && q[i + 1..][j] == y;
          assert q[i + 1 + j] == y;
        }
      }
    }
  }

  lemma WithoutOrder(q: seq<int>, key: map<int, int>, x: int)
    ensures NoDup(q) ==> NoDup(Without(q, x))
    ensures Sorted(q, key) ==> Sorted(Without(q, x), key)
  {
    var i := IndexOf(q, x);
    var r := Without(q, x);
    forall a | 0 <= a < |r| ensures r[a] == q[if a < i then a else a + 1] {}
  }

  // ---- How many leave before x

  function Ahead(q: seq<int>, x: int): int {
    |q| - 1 - IndexOf(q, x)
  }

  lemma IndexOfIs(q: seq<int>, x: int, i: nat)
    requires NoDup(q) && i < |q| && q[i] == x
    ensures IndexOf(q, x) == i
  {
    var j := IndexOf(q, x);
    assert j < |q| && q[j] == x;
  }

  // An element that is not above x goes behind x.
  lemma InsertBehind(q: seq<int>, key: map<int, int>, y: int, x: int)
    requires NoDup(q) && Sorted(q, key) && x in q && y !in q && Key(key, y) <= Key(key, x)
    ensures Ahead(Insert(q, key, y), x) == Ahead(q, x)
  {
    var i := Position(Keys(q, key), Key(key, y));
    var j := IndexOf(q, x);
    assert Keys(q, key)[j] >= Key(key, y);
    var r := Insert(q, key, y);
    InsertNoDup(q, key, y);
    assert r[j + 1] == x;
    IndexOfIs(r, x, j + 1);
  }

  lemma WithoutAhead(q: seq<int>, y: int, x: int)
    requires NoDup(q) && x in q && x != y
    ensures x in Without(q, y) && Ahead(Without(q, y), x) <= Ahead(q, x)
  {
    WithoutMembers(q, y);
    WithoutOrder(q, map[], y);
    var i, j := IndexOf(q, y), IndexOf(q, x);
    var r := Without(q, y);
    if i < |q| {
      if j < i {
        assert r[j] == x;
        IndexOfIs(r, x, j);
      } else {
        assert j > i;
        assert r[j - 1] == x;
        IndexOfIs(r, x, j - 1);
      }
    }
  }

  // Taking the last element out brings x one place closer.
  lemma OutAhead(q: seq<int>, x: int)
    requires NoDup(q) && x in q && q[|q| - 1] != x
    ensures x in q[..|q| - 1] && Ahead(q[..|q| - 1], x) == Ahead(q, x) - 1
  {
    var j := IndexOf(q, x);
    assert q[..|q| - 1][j] == x;
    IndexOfIs(q[..|q| - 1], x, j);
  }

  // ---- Stability: service order over whole runs

  datatype Item = Item(prio: int, stamp: nat)

  datatype Op = Add(prio: int) | Out

  predicate Before(a: Item, b: Item) {
    a.prio > b.prio || (a.prio == b.prio && a.stamp < b.stamp)
  }

  function Prios(q: seq<Item>): (ks: seq<int>)
    ensures |ks| == |q| && forall i :: 0 <= i < |q| ==> ks[i] == q[i].prio
  {
    seq(|q|, i requires 0 <= i < |q| => q[i].prio)
  }

  // The list, the number of elements added so far and the elements served.
  datatype Service = Service(queue: seq<Item>, added: nat, served: seq<Item>)

  function Step(s: Service, op: Op): Service {
    match op
    case Add(p) => Service(Place(s.queue, Position(Prios(s.queue), p), Item(p, s.added)), s.added + 1, s.served)
    case Out =>
      if s.queue == [] then s
      else Service(s.queue[..|s.queue| - 1], s.added, s.served + [s.queue[|s.queue| - 1]])
  }

  function Run(ops: seq<Op>): Service {
    if |ops| == 0 then Service([], 0, []) else Step(Run(ops[..|ops| - 1]), ops[|ops| - 1])
  }

  predicate ServiceOk(s: Service) {
    && (forall i, j :: 0 <= i < j < |s.queue| ==> Before(s.queue[j], s.queue[i]))
    && (forall i :: 0 <= i < |s.queue| ==> s.queue[i].stamp < s.added)
  }

  lemma {:induction false} RunOk(ops: seq<Op>)
    ensures ServiceOk(Run(ops))
  {
    if |ops| > 0 {
      RunOk(ops[..|ops| - 1]);
      StepOk(Run(ops[..|ops| - 1]), ops[|ops| - 1]);
    }
  }

  lemma StepOk(s: Service, op: Op)
    requires ServiceOk(s)
    ensures ServiceOk(Step(s, op))
  {
    if op.Add? {
      var q, x := s.queue, Item(op.prio, s.added);
      var i := Position(Prios(q), op.prio);
      forall a | 0 <= a < i ensures Before(x, q[a]) {
        assert Prios(q)[a] < op.prio;
      }
      forall a | i <= a < |q| ensures Before(q[a], x) {
        assert Prios(q)[i] >= op.prio;
        assert a > i ==> Before(q[a], q[i]);
      }
      PlaceOrdered(q, i, x);
    }
  }

  lemma PlaceOrdered(q: seq<Item>, k: nat, x: Item)
    requires forall i, j :: 0 <= i < j < |q| ==> Before(q[j], q[i])
    requires k <= |q| && (forall a :: 0 <= a < k ==> Before(x, q[a])) && (forall a :: k <= a < |q| ==> Before(q[a], x))
    ensures var r := Place(q, k, x); forall i, j :: 0 <= i < j < |r| ==> Before(r[j], r[i])
  {
    hide Before;
    var r := Place(q, k, x);
    forall a, b | 0 <= a < b < |r| ensures Before(r[b], r[a]) {
      assert r[a] == if a < k then q[a] else if a == k then x else q[a - 1];
      assert r[b] == if b < k then q[b] else if b == k then x else q[b - 1];
    }
  }

  // In every run, what leaves next comes before everything that stays: highest priority
  // first, and among equals in the order they were added.
  lemma NextIsFirstInService(ops: seq<Op>, x: Item)
    requires x in Run(ops).queue
    ensures var s := Run(ops); var t := Step(s, Out);
            && |t.served| == |s.served| + 1
            && var out := t.served[|s.served|]; (out == x || Before(out, x)) && (x in t.queue <==> out != x)
  {
    RunOk(ops);
    var q := Run(ops).queue;
    var i :| 0 <= i < |q| && q[i] == x;
    assert i < |q| - 1 ==> Before(q[|q| - 1], q[i]) && q[..|q| - 1][i] == x;
    if x in q[..|q| - 1] {
      var j :| 0 <= j < |q| - 1 && q[..|q| - 1][j] == x;
      assert Before(q[|q| - 1], q[j]);
    }
  }

  // Nothing is lost and nothing is invented: what was added is waiting or was served.
  lemma {:induction false} RunConserves(ops: seq<Op>)
    ensures var s := Run(ops);
            multiset(s.queue) + multiset(s.served) == multiset(Additions(ops)) && s.added == |Additions(ops)|
  {
    if |ops| > 0 {
      RunConserves(ops[..|ops| - 1]);
      StepConserves(Run(ops[..|ops| - 1]), ops[|ops| - 1]);
    }
  }

  lemma StepConserves(s: Service, op: Op)
    ensures var t := Step(s, op);
            multiset(t.queue) + multiset(t.served) == multiset(s.queue) + multiset(s.served)
              + if op.Add? then multiset{Item(op.prio, s.added)} else multiset{}
  {
    match op {
      case Add(p) => PlaceContents(s.queue, Position(Prios(s.queue), p), Item(p, s.added));
      case Out => if s.queue != [] { LastContents(s.queue); }
    }
  }

  lemma PlaceContents(q: seq<Item>, i: nat, x: Item)
    requires i <= |q|
    ensures multiset(Place(q, i, x)) == multiset(q) + multiset{x}
  {
    assert q == q[..i] + q[i..];
  }

  lemma LastContents(q: seq<Item>)
    requires q != []
    ensures multiset(q) == multiset(q[..|q| - 1]) + multiset{q[|q| - 1]}
  {
    assert q == q[..|q| - 1] + [q[|q| - 1]];
  }

  function Additions(ops: seq<Op>): seq<Item>
  {
    if |ops| == 0 then []
    else
      var before := Additions(ops[..|ops| - 1]);
      if ops[|ops| - 1].Add? then before + [Item(ops[|ops| - 1].prio, |before|)] else before
  }
}
