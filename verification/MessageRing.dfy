// The ring buffer of a message queue.
module MessageRing {

  import opened Words

  datatype Queue = Queue(buffer: seq<int>, readIndex: int, writeIndex: int, nb: int, resetFlag: int, waiters: seq<int>)

  ghost predicate RingOk(q: Queue) {
    && |q.buffer| >= 1 && 0 <= q.readIndex < |q.buffer| && 0 <= q.nb <= |q.buffer|
    && q.writeIndex == (q.readIndex + q.nb) % |q.buffer|
  }

  function Wrap(a: int, n: int): int {
    if a < n then a else a - n
  }

  // The messages waiting, oldest first.
  ghost function Contents(q: Queue): (r: seq<int>)
    requires RingOk(q)
    ensures |r| == q.nb && forall i :: 0 <= i < q.nb ==> r[i] == q.buffer[Wrap(q.readIndex + i, |q.buffer|)]
  {
    seq(q.nb, i requires 0 <= i < q.nb => q.buffer[Wrap(q.readIndex + i, |q.buffer|)])
  }

  // psend's last four lines
  function Put(q: Queue, m: int): Queue
    requires 0 <= q.writeIndex < |q.buffer|
  {
    q.(buffer := q.buffer[q.writeIndex := m], writeIndex := (q.writeIndex + 1) % |q.buffer|, nb := q.nb + 1)
  }

  // preceive's three lines
  function Take(q: Queue): Queue
    requires |q.buffer| >= 1
  {
    q.(readIndex := (q.readIndex + 1) % |q.buffer|, nb := q.nb - 1)
  }

  lemma PutSize(q: Queue, m: int)
    requires RingOk(q)
    ensures 0 <= q.writeIndex < |q.buffer|
    ensures var t := Put(q, m); |t.buffer| == |q.buffer| && t.nb == q.nb + 1 && t.waiters == q.waiters && t.resetFlag == q.resetFlag
  {}

  lemma ModIsWrap(a: int, n: int)
    requires n >= 1 && 0 <= a < 2 * n
    ensures a % n == Wrap(a, n)
  {
    if a < n { QuotientIs(a, n, 0, a); } else { QuotientIs(a, n, 1, a - n); }
  }

  // The message goes behind all that wait.
  lemma PutContents(q: Queue, m: int)
    requires RingOk(q) && q.nb < |q.buffer|
    ensures RingOk(Put(q, m)) && Contents(Put(q, m)) == Contents(q) + [m]
  {
    var n, t := |q.buffer|, Put(q, m);
    ModIsWrap(q.readIndex + q.nb, n);
    ModIsWrap(q.writeIndex + 1, n);
    ModIsWrap(q.readIndex + q.nb + 1, n);
    assert t.writeIndex == (t.readIndex + t.nb) % n;
    assert RingOk(t);
    forall i | 0 <= i < q.nb ensures Contents(t)[i] == Contents(q)[i] {
      assert Wrap(q.readIndex + i, n) != q.writeIndex;
    }
    assert Contents(t)[..q.nb] == Contents(q);
  }

  // The oldest message leaves.
  lemma TakeContents(q: Queue)
    requires RingOk(q) && q.nb > 0
    ensures RingOk(Take(q))
    ensures Contents(q) == [q.buffer[q.readIndex]] + Contents(Take(q))
  {
    var n, t := |q.buffer|, Take(q);
    ModIsWrap(q.readIndex + q.nb, n);
    ModIsWrap(q.readIndex + 1, n);
    ModIsWrap(t.readIndex + t.nb, n);
    assert t.writeIndex == (t.readIndex + t.nb) % n;
    assert RingOk(t);
    forall i | 0 <= i < t.nb ensures Contents(t)[i] == Contents(q)[i + 1] {
      assert Wrap(t.readIndex + i, n) == Wrap(q.readIndex + (i + 1), n);
    }
    assert Contents(q)[1..] == Contents(t);
    assert Contents(q)[0] == q.buffer[q.readIndex];
  }
}
