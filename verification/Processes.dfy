// The invariant of the process tables: which list a process is in, who its parent and its
// children are, and where a suspended kernel call will continue.
module Processes {

  import opened MessageRing
  import opened PriorityList
  import opened Words

  datatype Status = Elected | Ready | OnQueue | Asleep | Dying | Zombie | Blocked

  // What a process does when its call to scheduling() returns: go back to its caller, or look
  // again at the condition it waited for.
  datatype Cont = Running | WaitPid(child: int) | WaitAny | Sending(fid: int, message: int) | Receiving(fid: int)

  predicate Over(s: Status) {
    s.Zombie? || s.Dying?
  }

  // ---- Lists

  // `list` contains exactly the processes with status s, each once.
  ghost predicate Filed(list: seq<int>, st: map<int, Status>, s: Status) {
    NoDup(list) && forall y :: y in list <==> y in st && st[y] == s
  }

  // The same for every process but p, and p is not in it.
  ghost predicate FiledBut(list: seq<int>, st: map<int, Status>, s: Status, p: int) {
    NoDup(list) && forall y :: y in list <==> y != p && y in st && st[y] == s
  }

  ghost predicate ListsOk(ready: seq<int>, asleep: seq<int>, dying: seq<int>, zombie: seq<int>, blocked: seq<int>,
                          st: map<int, Status>) {
    && Filed(ready, st, Ready) && Filed(asleep, st, Asleep) && Filed(dying, st, Dying)
    && Filed(zombie, st, Zombie) && Filed(blocked, st, Blocked)
  }

  ghost predicate ListsBut(ready: seq<int>, asleep: seq<int>, dying: seq<int>, zombie: seq<int>, blocked: seq<int>,
                           st: map<int, Status>, p: int) {
    && FiledBut(ready, st, Ready, p) && FiledBut(asleep, st, Asleep, p) && FiledBut(dying, st, Dying, p)
    && FiledBut(zombie, st, Zombie, p) && FiledBut(blocked, st, Blocked, p)
  }

  ghost predicate AgreeBut<T>(m: map<int, T>, m': map<int, T>, p: int) {
    forall y :: y != p ==> (y in m' <==> y in m) && (y in m ==> m'[y] == m[y])
  }

  lemma AgreesUpdate<T>(m: map<int, T>, p: int, v: T)
    ensures AgreeBut(m, m[p := v], p)
  {}

  lemma AgreesSelf<T>(m: map<int, T>, p: int)
    ensures AgreeBut(m, m, p)
  {}

  lemma SameKeys<T>(m: map<int, T>, m': map<int, T>, p: int)
    requires AgreeBut(m, m', p) && (p in m <==> p in m')
    ensures m'.Keys == m.Keys
  {
    forall y ensures y in m' <==> y in m {
      if y != p { assert y in m' <==> y in m; }
    }
  }

  function Relist(list: seq<int>, s: Status, s': Status, key: map<int, int>, p: int): seq<int> {
    if s == s' then Insert(list, key, p) else list
  }

  lemma FiledUnlink(list: seq<int>, st: map<int, Status>, s: Status, p: int)
    requires Filed(list, st, s)
    ensures FiledBut(Without(list, p), st, s, p)
    ensures p !in st || st[p] != s ==> Without(list, p) == list
  {
    WithoutMembers(list, p);
    WithoutOrder(list, map[], p);
  }

  lemma FiledJoin(list: seq<int>, st: map<int, Status>, st': map<int, Status>, s: Status, p: int, key: map<int, int>)
    requires FiledBut(list, st, s, p) && AgreeBut(st, st', p) && p in st'
    ensures Filed(Relist(list, s, st'[p], key, p), st', s)
  {
    InsertMembers(list, key, p);
    InsertNoDup(list, key, p);
  }

  // Taken out of whatever list it is in; no other list changes.
  lemma ListsUnlink(ready: seq<int>, asleep: seq<int>, dying: seq<int>, zombie: seq<int>, blocked: seq<int>,
                    st: map<int, Status>, p: int)
    requires ListsOk(ready, asleep, dying, zombie, blocked, st)
    ensures ListsBut(Without(ready, p), Without(asleep, p), Without(dying, p), Without(zombie, p), Without(blocked, p), st, p)
    ensures p !in st || st[p] != Ready ==> Without(ready, p) == ready
    ensures p !in st || st[p] != Asleep ==> Without(asleep, p) == asleep
    ensures p !in st || st[p] != Dying ==> Without(dying, p) == dying
    ensures p !in st || st[p] != Zombie ==> Without(zombie, p) == zombie
    ensures p !in st || st[p] != Blocked ==> Without(blocked, p) == blocked
  {
    FiledUnlink(ready, st, Ready, p);
    FiledUnlink(asleep, st, Asleep, p);
    FiledUnlink(dying, st, Dying, p);
    FiledUnlink(zombie, st, Zombie, p);
    FiledUnlink(blocked, st, Blocked, p);
  }

  // Put into the list its new status names.
  lemma ListsJoin(ready: seq<int>, asleep: seq<int>, dying: seq<int>, zombie: seq<int>, blocked: seq<int>,
                  st: map<int, Status>, st': map<int, Status>, p: int, key: map<int, int>)
    requires ListsBut(ready, asleep, dying, zombie, blocked, st, p) && AgreeBut(st, st', p) && p in st'
    ensures ListsOk(Relist(ready, Ready, st'[p], key, p), Relist(asleep, Asleep, st'[p], key, p),
                    Relist(dying, Dying, st'[p], key, p), Relist(zombie, Zombie, st'[p], key, p),
                    Relist(blocked, Blocked, st'[p], key, p), st')
  {
    FiledJoin(ready, st, st', Ready, p, key);
    FiledJoin(asleep, st, st', Asleep, p, key);
    FiledJoin(dying, st, st', Dying, p, key);
    FiledJoin(zombie, st, st', Zombie, p, key);
    FiledJoin(blocked, st, st', Blocked, p, key);
  }

  lemma ListsDrop(ready: seq<int>, asleep: seq<int>, dying: seq<int>, zombie: seq<int>, blocked: seq<int>,
                  st: map<int, Status>, p: int)
    requires ListsBut(ready, asleep, dying, zombie, blocked, st, p)
    ensures ListsOk(ready, asleep, dying, zombie, blocked, st - {p})
  {}

  // ---- Processes waiting on a message queue

  predicate Names(c: Cont, f: int) {
    (c.Sending? || c.Receiving?) && c.fid == f
  }

  // A process blocked on a message queue is in the list of the queue its call names, and in
  // no other queue's list.
  ghost predicate WaitersOk(qs: map<int, Queue>, st: map<int, Status>, cont: map<int, Cont>) {
    && (forall f :: f in qs ==> NoDup(qs[f].waiters))
    && (forall f, y :: f in qs && y in qs[f].waiters ==> y in st && st[y] == OnQueue && y in cont && Names(cont[y], f))
    && (forall y :: y in st && st[y] == OnQueue ==> y in cont && IsWaiting(qs, cont[y], y))
  }

  predicate IsWaiting(qs: map<int, Queue>, c: Cont, y: int) {
    (c.Sending? || c.Receiving?) && c.fid in qs && y in qs[c.fid].waiters
  }

  ghost predicate WaitersBut(qs: map<int, Queue>, st: map<int, Status>, cont: map<int, Cont>, p: int) {
    && (forall f :: f in qs ==> NoDup(qs[f].waiters))
    && (forall f, y :: f in qs && y in qs[f].waiters ==> y != p && y in st && st[y] == OnQueue && y in cont && Names(cont[y], f))
    && (forall y :: y != p && y in st && st[y] == OnQueue ==> y in cont && IsWaiting(qs, cont[y], y))
  }

  function UnlinkQueues(qs: map<int, Queue>, p: int): (r: map<int, Queue>)
    ensures r.Keys == qs.Keys
  {
    map f | f in qs :: qs[f].(waiters := Without(qs[f].waiters, p))
  }

  lemma UnlinkedQueue(qs: map<int, Queue>, p: int, f: int)
    requires f in qs && NoDup(qs[f].waiters)
    ensures var w := UnlinkQueues(qs, p)[f].waiters; NoDup(w) && forall y :: y in w <==> y in qs[f].waiters && y != p
    ensures p !in qs[f].waiters ==> UnlinkQueues(qs, p)[f] == qs[f]
  {
    WithoutMembers(qs[f].waiters, p);
    WithoutOrder(qs[f].waiters, map[], p);
  }

  lemma WaitersUnlink(qs: map<int, Queue>, st: map<int, Status>, cont: map<int, Cont>, p: int)
    requires WaitersOk(qs, st, cont)
    ensures WaitersBut(UnlinkQueues(qs, p), st, cont, p)
    ensures p !in st || st[p] != OnQueue ==> UnlinkQueues(qs, p) == qs
  {
    hide UnlinkQueues, NoDup;
    var u := UnlinkQueues(qs, p);
    forall f | f in qs
      ensures NoDup(u[f].waiters) && (p !in qs[f].waiters ==> u[f] == qs[f])
      ensures forall y :: y in u[f].waiters <==> y in qs[f].waiters && y != p
    {
      UnlinkedQueue(qs, p, f);
    }
    forall y | y != p && y in st && st[y] == OnQueue ensures IsWaiting(u, cont[y], y) {
      assert IsWaiting(qs, cont[y], y);
    }
    if p !in st || st[p] != OnQueue {
      assert forall f :: f in qs ==> p !in qs[f].waiters && u[f] == qs[f];
      assert u == qs;
    }
  }

  lemma WaitersElsewhere(qs: map<int, Queue>, st: map<int, Status>, st': map<int, Status>,
                         cont: map<int, Cont>, cont': map<int, Cont>, p: int)
    requires WaitersBut(qs, st, cont, p) && AgreeBut(st, st', p) && AgreeBut(cont, cont', p)
    requires p in st' ==> st'[p] != OnQueue
    ensures WaitersOk(qs, st', cont')
  {}

  lemma WaitersJoin(qs: map<int, Queue>, st: map<int, Status>, st': map<int, Status>,
                    cont: map<int, Cont>, cont': map<int, Cont>, p: int, f: int, key: map<int, int>)
    requires WaitersBut(qs, st, cont, p) && AgreeBut(st, st', p) && AgreeBut(cont, cont', p)
    requires f in qs && p in st' && p in cont' && st'[p] == OnQueue && Names(cont'[p], f)
    ensures WaitersOk(qs[f := qs[f].(waiters := Insert(qs[f].waiters, key, p))], st', cont')
  {
    InsertMembers(qs[f].waiters, key, p);
    InsertNoDup(qs[f].waiters, key, p);
    var u := qs[f := qs[f].(waiters := Insert(qs[f].waiters, key, p))];
    forall y | y in st' && st'[y] == OnQueue ensures y in cont' && IsWaiting(u, cont'[y], y) {
      if y != p { assert IsWaiting(qs, cont[y], y); }
    }
  }

  // A change of the ring, not of the waiting list.
  lemma WaitersRing(qs: map<int, Queue>, st: map<int, Status>, cont: map<int, Cont>, f: int, q: Queue)
    requires WaitersOk(qs, st, cont) && f in qs && q.waiters == qs[f].waiters
    ensures WaitersOk(qs[f := q], st, cont)
  {
    forall y | y in st && st[y] == OnQueue ensures IsWaiting(qs[f := q], cont[y], y) {
      assert IsWaiting(qs, cont[y], y);
    }
  }

  // ---- Order of the lists

  ghost predicate OrderOk(ready: seq<int>, asleep: seq<int>, zombie: seq<int>, blocked: seq<int>, qs: map<int, Queue>,
                          prio: map<int, int>, wake: map<int, int>) {
    && Sorted(ready, prio) && Sorted(zombie, prio) && Sorted(blocked, prio) && Sorted(asleep, wake)
    && forall f :: f in qs ==> Sorted(qs[f].waiters, prio)
  }

  lemma OrderUnlink(ready: seq<int>, asleep: seq<int>, zombie: seq<int>, blocked: seq<int>, qs: map<int, Queue>,
                    prio: map<int, int>, wake: map<int, int>, p: int)
    requires OrderOk(ready, asleep, zombie, blocked, qs, prio, wake)
    ensures OrderOk(Without(ready, p), Without(asleep, p), Without(zombie, p), Without(blocked, p), UnlinkQueues(qs, p), prio, wake)
  {
    WithoutOrder(ready, prio, p);
    WithoutOrder(zombie, prio, p);
    WithoutOrder(blocked, prio, p);
    WithoutOrder(asleep, wake, p);
    forall f | f in qs ensures Sorted(UnlinkQueues(qs, p)[f].waiters, prio) {
      WithoutOrder(qs[f].waiters, prio, p);
    }
  }

  lemma SortedKey(q: seq<int>, key: map<int, int>, key': map<int, int>, p: int)
    requires Sorted(q, key) && p !in q && AgreeBut(key, key', p)
    ensures Sorted(q, key')
  {}

  // The keys of a process in none of the ordered lists may change.
  lemma OrderKeys(ready: seq<int>, asleep: seq<int>, zombie: seq<int>, blocked: seq<int>, qs: map<int, Queue>,
                  prio: map<int, int>, prio': map<int, int>, wake: map<int, int>, wake': map<int, int>, p: int)
    requires OrderOk(ready, asleep, zombie, blocked, qs, prio, wake)
    requires AgreeBut(prio, prio', p) && AgreeBut(wake, wake', p)
    requires prio' == prio || (p !in ready && p !in zombie && p !in blocked && forall f :: f in qs ==> p !in qs[f].waiters)
    requires wake' == wake || p !in asleep
    ensures OrderOk(ready, asleep, zombie, blocked, qs, prio', wake')
  {
    if prio' != prio {
      SortedKey(ready, prio, prio', p);
      SortedKey(zombie, prio, prio', p);
      SortedKey(blocked, prio, prio', p);
      forall f | f in qs ensures Sorted(qs[f].waiters, prio') {
        SortedKey(qs[f].waiters, prio, prio', p);
      }
    }
    if wake' != wake { SortedKey(asleep, wake, wake', p); }
  }

  lemma OrderJoin(ready: seq<int>, asleep: seq<int>, zombie: seq<int>, blocked: seq<int>, qs: map<int, Queue>,
                  prio: map<int, int>, wake: map<int, int>, p: int)
    requires OrderOk(ready, asleep, zombie, blocked, qs, prio, wake)
    ensures OrderOk(Insert(ready, prio, p), asleep, zombie, blocked, qs, prio, wake)
    ensures OrderOk(ready, Insert(asleep, wake, p), zombie, blocked, qs, prio, wake)
    ensures OrderOk(ready, asleep, Insert(zombie, prio, p), blocked, qs, prio, wake)
    ensures OrderOk(ready, asleep, zombie, Insert(blocked, prio, p), qs, prio, wake)
    ensures forall f :: f in qs ==>
      OrderOk(ready, asleep, zombie, blocked, qs[f := qs[f].(waiters := Insert(qs[f].waiters, prio, p))], prio, wake)
  {
    InsertSorted(ready, prio, p);
    InsertSorted(asleep, wake, p);
    InsertSorted(zombie, prio, p);
    InsertSorted(blocked, prio, p);
    forall f | f in qs ensures Sorted(Insert(qs[f].waiters, prio, p), prio) {
      InsertSorted(qs[f].waiters, prio, p);
    }
  }

  lemma OrderRing(ready: seq<int>, asleep: seq<int>, zombie: seq<int>, blocked: seq<int>, qs: map<int, Queue>,
                  prio: map<int, int>, wake: map<int, int>, f: int, q: Queue)
    requires OrderOk(ready, asleep, zombie, blocked, qs, prio, wake) && f in qs && q.waiters == qs[f].waiters
    ensures OrderOk(ready, asleep, zombie, blocked, qs[f := q], prio, wake)
  {}

  // ---- A process goes to another list

  // A process that is running, or not there yet, is in no list.
  lemma Unlisted(ready: seq<int>, asleep: seq<int>, dying: seq<int>, zombie: seq<int>, blocked: seq<int>, qs: map<int, Queue>,
                 st: map<int, Status>, cont: map<int, Cont>, p: int)
    requires ListsOk(ready, asleep, dying, zombie, blocked, st) && WaitersOk(qs, st, cont)
    requires p !in st || st[p] == Elected
    ensures Without(ready, p) == ready && Without(asleep, p) == asleep && Without(dying, p) == dying
    ensures Without(zombie, p) == zombie && Without(blocked, p) == blocked && UnlinkQueues(qs, p) == qs
  {
    ListsUnlink(ready, asleep, dying, zombie, blocked, st, p);
    WaitersUnlink(qs, st, cont, p);
  }

  // Once p is out of every list its keys may change.
  lemma OrderOff(ready: seq<int>, asleep: seq<int>, dying: seq<int>, zombie: seq<int>, blocked: seq<int>, qs: map<int, Queue>,
                 st: map<int, Status>, cont: map<int, Cont>,
                 prio: map<int, int>, prio': map<int, int>, wake: map<int, int>, wake': map<int, int>, p: int)
    requires ListsOk(ready, asleep, dying, zombie, blocked, st) && WaitersOk(qs, st, cont)
    requires OrderOk(ready, asleep, zombie, blocked, qs, prio, wake)
    requires AgreeBut(prio, prio', p) && AgreeBut(wake, wake', p)
    ensures OrderOk(Without(ready, p), Without(asleep, p), Without(zombie, p), Without(blocked, p), UnlinkQueues(qs, p), prio', wake')
  {
    var ready1, asleep1, zombie1, blocked1, u :=
      Without(ready, p), Without(asleep, p), Without(zombie, p), Without(blocked, p), UnlinkQueues(qs, p);
    ListsUnlink(ready, asleep, dying, zombie, blocked, st, p);
    WaitersUnlink(qs, st, cont, p);
    OrderUnlink(ready, asleep, zombie, blocked, qs, prio, wake, p);
    hide Without, NoDup, Sorted, UnlinkQueues, AgreeBut;
    OrderKeys(ready1, asleep1, zombie1, blocked1, u, prio, prio', wake, wake', p);
  }

  // Process p, wherever it was, is now in the list of status st'[p], at its place there.
  lemma Moved(ready: seq<int>, asleep: seq<int>, dying: seq<int>, zombie: seq<int>, blocked: seq<int>, qs: map<int, Queue>,
              st: map<int, Status>, st': map<int, Status>, cont: map<int, Cont>, cont': map<int, Cont>,
              prio: map<int, int>, prio': map<int, int>, wake: map<int, int>, wake': map<int, int>, p: int)
    requires ListsOk(ready, asleep, dying, zombie, blocked, st) && WaitersOk(qs, st, cont)
    requires OrderOk(ready, asleep, zombie, blocked, qs, prio, wake)
    requires AgreeBut(st, st', p) && AgreeBut(cont, cont', p) && AgreeBut(prio, prio', p) && AgreeBut(wake, wake', p)
    requires p in st' && st'[p] != OnQueue
    ensures var s, u := st'[p], UnlinkQueues(qs, p);
            var ready', asleep', dying', zombie', blocked' :=
              Relist(Without(ready, p), Ready, s, prio', p), Relist(Without(asleep, p), Asleep, s, wake', p),
              Relist(Without(dying, p), Dying, s, prio', p), Relist(Without(zombie, p), Zombie, s, prio', p),
              Relist(Without(blocked, p), Blocked, s, prio', p);
            && ListsOk(ready', asleep', dying', zombie', blocked', st')
            && WaitersOk(u, st', cont')
            && OrderOk(ready', asleep', zombie', blocked', u, prio', wake')
  {
    var ready1, asleep1, dying1, zombie1, blocked1, u :=
      Without(ready, p), Without(asleep, p), Without(dying, p), Without(zombie, p), Without(blocked, p), UnlinkQueues(qs, p);
    hide ListsOk, ListsBut, WaitersOk, WaitersBut, OrderOk, AgreeBut, Without, Insert, UnlinkQueues;
    ListsUnlink(ready, asleep, dying, zombie, blocked, st, p);
    WaitersUnlink(qs, st, cont, p);
    OrderOff(ready, asleep, dying, zombie, blocked, qs, st, cont, prio, prio', wake, wake', p);
    OrderJoin(ready1, asleep1, zombie1, blocked1, u, prio', wake', p);
    ListsJoin(ready1, asleep1, dying1, zombie1, blocked1, st, st', p, if st'[p] == Asleep then wake' else prio');
    WaitersElsewhere(u, st, st', cont, cont', p);
  }

  // The same for the waiting list of message queue f.
  lemma MovedToQueue(ready: seq<int>, asleep: seq<int>, dying: seq<int>, zombie: seq<int>, blocked: seq<int>, qs: map<int, Queue>,
                     st: map<int, Status>, st': map<int, Status>, cont: map<int, Cont>, cont': map<int, Cont>,
                     prio: map<int, int>, prio': map<int, int>, wake: map<int, int>, p: int, f: int)
    requires ListsOk(ready, asleep, dying, zombie, blocked, st) && WaitersOk(qs, st, cont)
    requires OrderOk(ready, asleep, zombie, blocked, qs, prio, wake)
    requires AgreeBut(st, st', p) && AgreeBut(cont, cont', p) && AgreeBut(prio, prio', p)
    requires f in qs && p in st' && p in cont' && st'[p] == OnQueue && Names(cont'[p], f)
    ensures var u := UnlinkQueues(qs, p);
            var qs' := u[f := u[f].(waiters := Insert(u[f].waiters, prio', p))];
            && ListsOk(Without(ready, p), Without(asleep, p), Without(dying, p), Without(zombie, p), Without(blocked, p), st')
            && WaitersOk(qs', st', cont')
            && OrderOk(Without(ready, p), Without(asleep, p), Without(zombie, p), Without(blocked, p), qs', prio', wake)
  {
    var ready1, asleep1, dying1, zombie1, blocked1, u :=
      Without(ready, p), Without(asleep, p), Without(dying, p), Without(zombie, p), Without(blocked, p), UnlinkQueues(qs, p);
    hide ListsOk, ListsBut, WaitersOk, WaitersBut, OrderOk, AgreeBut, Without, Insert, UnlinkQueues;
    ListsUnlink(ready, asleep, dying, zombie, blocked, st, p);
    WaitersUnlink(qs, st, cont, p);
    AgreesSelf(wake, p);
    OrderOff(ready, asleep, dying, zombie, blocked, qs, st, cont, prio, prio', wake, wake, p);
    OrderJoin(ready1, asleep1, zombie1, blocked1, u, prio', wake, p);
    ListsJoin(ready1, asleep1, dying1, zombie1, blocked1, st, st', p, prio');
    WaitersJoin(u, st, st', cont, cont', p, f, prio');
  }

  // ---- Parents and children (the list of process 0 is not kept)

  ghost predicate FamilyBut(st: map<int, Status>, parent: map<int, int>, children: map<int, seq<int>>, q: int) {
    && parent.Keys == st.Keys && children.Keys == st.Keys
    && (forall y :: y in st && (y == 0 || (Over(st[y]) && y != q)) ==> children[y] == [])
    && Parented(st, parent, children, q)
    && (forall y :: y in st && st[y] == Zombie ==> parent[y] != 0)
    && ChildrenOk(st, parent, children)
  }

  ghost predicate Parented(st: map<int, Status>, parent: map<int, int>, children: map<int, seq<int>>, q: int) {
    forall y :: y in st && y in parent && y != 0 && st[y] != Dying ==> HasParent(st, parent[y], children, y, q)
  }

  ghost predicate ChildrenOk(st: map<int, Status>, parent: map<int, int>, children: map<int, seq<int>>) {
    && (forall y :: y in children ==> NoDup(children[y]))
    && (forall y, c :: y in children && c in children[y] ==> ChildOf(st, parent, c, y))
  }

  ghost predicate ChildOf(st: map<int, Status>, parent: map<int, int>, c: int, y: int) {
    c in st && c != 0 && st[c] != Dying && c in parent && parent[c] == y
  }

  // A process that is not dying has a parent: process 0, or a live process that lists it.
  ghost predicate HasParent(st: map<int, Status>, p: int, children: map<int, seq<int>>, y: int, q: int) {
    p != y && (p == 0 || (p in st && p in children && y in children[p] && (p == q || !Over(st[p]))))
  }

  // No process is excepted: -1 is nobody's number.
  ghost predicate FamilyOk(st: map<int, Status>, parent: map<int, int>, children: map<int, seq<int>>) {
    -1 !in st && FamilyBut(st, parent, children, -1)
  }

  // A change of status between those of live processes.
  lemma FamilyAlive(st: map<int, Status>, st': map<int, Status>, parent: map<int, int>, children: map<int, seq<int>>, p: int, q: int)
    requires FamilyBut(st, parent, children, q) && AgreeBut(st, st', p) && p in st && p in st'
    requires !Over(st[p]) && !Over(st'[p])
    ensures FamilyBut(st', parent, children, q)
  {
    SameKeys(st, st', p);
    AliveParented(st, st', parent, children, p, q);
    AliveChildren(st, st', parent, children, p);
    hide Parented, ChildrenOk, HasParent;
  }

  lemma AliveParented(st: map<int, Status>, st': map<int, Status>, parent: map<int, int>, children: map<int, seq<int>>, p: int, q: int)
    requires Parented(st, parent, children, q) && AgreeBut(st, st', p) && p in st && p in st'
    requires !Over(st[p]) && !Over(st'[p])
    ensures Parented(st', parent, children, q)
  {
    forall y | y in st' && y in parent && y != 0 && st'[y] != Dying ensures HasParent(st', parent[y], children, y, q) {
      assert y in st && st[y] != Dying;
      assert HasParent(st, parent[y], children, y, q);
    }
  }

  lemma AliveChildren(st: map<int, Status>, st': map<int, Status>, parent: map<int, int>, children: map<int, seq<int>>, p: int)
    requires ChildrenOk(st, parent, children) && AgreeBut(st, st', p) && p in st && p in st'
    requires !Over(st[p]) && !Over(st'[p])
    ensures ChildrenOk(st', parent, children)
  {
    forall y, c | y in children && c in children[y] ensures ChildOf(st', parent, c, y) {
      assert ChildOf(st, parent, c, y);
    }
  }

  // A process terminates; its children are still to be dealt with.
  lemma FamilyEnds(st: map<int, Status>, st': map<int, Status>, parent: map<int, int>, children: map<int, seq<int>>, p: int)
    requires FamilyOk(st, parent, children) && AgreeBut(st, st', p) && p in st && p in st' && p != 0
    requires !Over(st[p])
    requires p in parent && st'[p] == if parent[p] != 0 then Zombie else Dying
    ensures FamilyBut(st', parent, children, p)
  {
    SameKeys(st, st', p);
    forall y | y in st' && y != 0 && st'[y] != Dying ensures HasParent(st', parent[y], children, y, p) {
      assert HasParent(st, parent[y], children, y, -1);
    }
  }

  lemma FamilyWhole(st: map<int, Status>, parent: map<int, int>, children: map<int, seq<int>>, p: int)
    requires FamilyBut(st, parent, children, p) && -1 !in st && p in st && children[p] == []
    ensures FamilyOk(st, parent, children)
  {
    forall y | y in st && y != 0 && st[y] != Dying ensures HasParent(st, parent[y], children, y, -1) {
      assert HasParent(st, parent[y], children, y, p);
    }
  }

  lemma FamilySplit(st: map<int, Status>, parent: map<int, int>, children: map<int, seq<int>>, p: int)
    requires FamilyOk(st, parent, children)
    ensures FamilyBut(st, parent, children, p)
  {
    forall y | y in st && y != 0 && st[y] != Dying ensures HasParent(st, parent[y], children, y, p) {
      assert HasParent(st, parent[y], children, y, -1);
    }
  }

  // The last child c of q is taken off the list: reaped, or given to process 0.
  lemma FamilyRelease(st: map<int, Status>, st': map<int, Status>, parent: map<int, int>, parent': map<int, int>,
                      children: map<int, seq<int>>, q: int, c: int, ex: int)
    requires FamilyBut(st, parent, children, ex) && q in st && c in children[q]
    requires AgreeBut(st, st', c) && AgreeBut(parent, parent', c) && c in st' && c in parent'
    requires st[c] == Zombie ==> st'[c] == Dying && parent' == parent
    requires st[c] != Zombie ==> st' == st && parent'[c] == 0
    ensures FamilyBut(st', parent', children[q := Without(children[q], c)], ex)
  {
    var children' := children[q := Without(children[q], c)];
    WithoutMembers(children[q], c);
    WithoutOrder(children[q], map[], c);
    SameKeys(st, st', c);
    SameKeys(parent, parent', c);
    ReleaseParented(st, st', parent, parent', children, children', q, c, ex);
    ReleaseChildren(st, st', parent, parent', children, children', q, c);
    hide Parented, ChildrenOk, HasParent;
  }

  lemma ReleaseParented(st: map<int, Status>, st': map<int, Status>, parent: map<int, int>, parent': map<int, int>,
                        children: map<int, seq<int>>, children': map<int, seq<int>>, q: int, c: int, ex: int)
    requires FamilyBut(st, parent, children, ex) && q in st && c in children[q]
    requires AgreeBut(st, st', c) && AgreeBut(parent, parent', c) && c in st' && c in parent'
    requires st[c] == Zombie ==> st'[c] == Dying && parent' == parent
    requires st[c] != Zombie ==> st' == st && parent'[c] == 0
    requires AgreeBut(children, children', q) && q in children' && forall y :: y in children'[q] <==> y in children[q] && y != c
    ensures Parented(st', parent', children', ex)
  {
    forall y | y in st' && y in parent' && y != 0 && st'[y] != Dying ensures HasParent(st', parent'[y], children', y, ex) {
      assert HasParent(st, parent[y], children, y, ex);
    }
  }

  lemma ReleaseChildren(st: map<int, Status>, st': map<int, Status>, parent: map<int, int>, parent': map<int, int>,
                        children: map<int, seq<int>>, children': map<int, seq<int>>, q: int, c: int)
    requires ChildrenOk(st, parent, children) && q in children && c in children[q]
    requires AgreeBut(st, st', c) && AgreeBut(parent, parent', c) && c in st' && c in parent'
    requires AgreeBut(children, children', q) && q in children' && forall y :: y in children'[q] <==> y in children[q] && y != c
    requires NoDup(children'[q])
    ensures ChildrenOk(st', parent', children')
  {
    assert ChildOf(st, parent, c, q);
    forall y, d | y in children' && d in children'[y]
      ensures ChildOf(st', parent', d, y)
    {
      assert y in children && d in children[y];
      assert ChildOf(st, parent, d, y);
    }
    forall y | y in children' ensures NoDup(children'[y]) {
      assert y != q ==> children'[y] == children[y];
    }
  }

  // p becomes a child of q; process 0 keeps no list.
  function Adopt(children: map<int, seq<int>>, key: map<int, int>, p: int, q: int): map<int, seq<int>>
    requires q in children
  {
    (if q == 0 then children else children[q := Insert(children[q], key, p)])[p := []]
  }

  ghost predicate Adopted(children: map<int, seq<int>>, children': map<int, seq<int>>, p: int, q: int) {
    && q in children && children'.Keys == children.Keys + {p} && children'[p] == []
    && (forall y :: y in children && y != q ==> children'[y] == children[y])
    && (forall y :: y in children'[q] <==> y in children[q] || (y == p && q != 0))
    && NoDup(children'[q]) && (q == 0 ==> children'[q] == children[q])
  }

  lemma AdoptIs(st: map<int, Status>, parent: map<int, int>, children: map<int, seq<int>>, p: int, q: int, key: map<int, int>)
    requires ChildrenOk(st, parent, children) && q in children && p !in st && p !in children
    ensures Adopted(children, Adopt(children, key, p, q), p, q)
  {
    InsertMembers(children[q], key, p);
    InsertNoDup(children[q], key, p);
  }

  // Process p, child of q, is created.
  lemma FamilyBorn(st: map<int, Status>, parent: map<int, int>, children: map<int, seq<int>>, p: int, q: int, key: map<int, int>)
    requires FamilyOk(st, parent, children) && p !in st && p > 0 && q in st && !Over(st[q])
    ensures FamilyOk(st[p := Ready], parent[p := q], Adopt(children, key, p, q))
  {
    hide Parented, ChildrenOk, Adopt, HasParent;
    AdoptIs(st, parent, children, p, q, key);
    BornParented(st, parent, children, Adopt(children, key, p, q), p, q);
    BornChildren(st, parent, children, Adopt(children, key, p, q), p, q);
  }

  lemma BornParented(st: map<int, Status>, parent: map<int, int>, children: map<int, seq<int>>, children': map<int, seq<int>>,
                     p: int, q: int)
    requires parent.Keys == st.Keys && Parented(st, parent, children, -1) && p !in st && q in st && !Over(st[q])
    requires Adopted(children, children', p, q) && -1 !in st
    ensures Parented(st[p := Ready], parent[p := q], children', -1)
  {
    var st', parent' := st[p := Ready], parent[p := q];
    forall y | y in st' && y != 0 && st'[y] != Dying ensures HasParent(st', parent'[y], children', y, -1) {
      if y != p { assert HasParent(st, parent[y], children, y, -1); }
    }
  }

  lemma BornChildren(st: map<int, Status>, parent: map<int, int>, children: map<int, seq<int>>, children': map<int, seq<int>>,
                     p: int, q: int)
    requires ChildrenOk(st, parent, children) && p !in st && p > 0
    requires Adopted(children, children', p, q)
    ensures ChildrenOk(st[p := Ready], parent[p := q], children')
  {
    var st', parent' := st[p := Ready], parent[p := q];
    forall y, c | y in children' && c in children'[y]
      ensures ChildOf(st', parent', c, y)
    {
      if c != p || y != q {
        assert y in children && c in children[y];
        assert ChildOf(st, parent, c, y);
      }
    }
    forall y | y in children' ensures NoDup(children'[y]) {
      assert y != q && y != p ==> children'[y] == children[y];
    }
  }

  // A dying process is freed.
  lemma FamilyBuried(st: map<int, Status>, parent: map<int, int>, children: map<int, seq<int>>, p: int)
    requires FamilyOk(st, parent, children) && p in st && st[p] == Dying
    ensures FamilyOk(st - {p}, parent - {p}, children - {p})
  {
    var st', parent', children' := st - {p}, parent - {p}, children - {p};
    forall y | y in st' && y != 0 && st'[y] != Dying ensures HasParent(st', parent'[y], children', y, -1) {
      assert HasParent(st, parent[y], children, y, -1);
    }
    BuriedChildren(st, parent, children, p);
    hide Parented, ChildrenOk;
  }

  lemma BuriedChildren(st: map<int, Status>, parent: map<int, int>, children: map<int, seq<int>>, p: int)
    requires ChildrenOk(st, parent, children) && p in st && st[p] == Dying
    ensures ChildrenOk(st - {p}, parent - {p}, children - {p})
  {}

  // ---- Suspended calls

  predicate HasZombie(st: map<int, Status>, list: seq<int>) {
    exists i :: 0 <= i < |list| && list[i] in st && st[list[i]] == Zombie
  }

  ghost predicate ContFits(st: map<int, Status>, children: map<int, seq<int>>, c: Cont, y: int)
    requires y in st && y in children
  {
    && (st[y] == Blocked ==> c.WaitPid? || c.WaitAny?)
    && (st[y] == Asleep ==> c.Running?)
    && (st[y] == OnQueue ==> c.Sending? || c.Receiving?)
    && (c.WaitPid? ==> y != 0 && c.child in children[y])
    && (c.WaitAny? ==> y != 0)
    && (c.WaitAny? && (st[y] == Ready || st[y] == Elected) ==> HasZombie(st, children[y]))
  }

  ghost predicate ContOk(st: map<int, Status>, children: map<int, seq<int>>, cont: map<int, Cont>) {
    && cont.Keys == st.Keys && children.Keys == st.Keys
    && forall y :: y in st && !Over(st[y]) ==> ContFits(st, children, cont[y], y)
  }

  // Zombies stay zombies unless they are p, which is nobody's awaited child or has a parent
  // of its own that does not wait.
  lemma ContMove(st: map<int, Status>, st': map<int, Status>, children: map<int, seq<int>>,
                 cont: map<int, Cont>, cont': map<int, Cont>, p: int)
    requires ContOk(st, children, cont) && AgreeBut(st, st', p) && AgreeBut(cont, cont', p) && p in st && p in st' && p in cont'
    requires st[p] != Zombie
    requires Over(st'[p]) || ContFits(st', children, cont'[p], p)
    ensures ContOk(st', children, cont')
  {
    forall y | y in st' && !Over(st'[y]) ensures ContFits(st', children, cont'[y], y) {
      if y != p {
        assert ContFits(st, children, cont[y], y);
        if HasZombie(st, children[y]) {
          var i :| 0 <= i < |children[y]| && children[y][i] in st && st[children[y][i]] == Zombie;
          assert children[y][i] != p;
        }
      }
    }
    SameKeys(st, st', p);
    SameKeys(cont, cont', p);
  }

  // Process q, which waits for no child, loses child c.
  lemma ContRelease(st: map<int, Status>, st': map<int, Status>, parent: map<int, int>, children: map<int, seq<int>>,
                    children': map<int, seq<int>>, cont: map<int, Cont>, cont': map<int, Cont>, q: int, c: int, ex: int)
    requires ContOk(st, children, cont) && FamilyBut(st, parent, children, ex) && q in st && c in children[q]
    requires AgreeBut(st, st', c) && AgreeBut(children, children', q) && AgreeBut(cont, cont', q)
    requires c in st' && q in children' && q in cont' && c != q
    requires st' == st || (c in st && st[c] == Zombie && st'[c] == Dying)
    requires Over(st[q]) || (cont'[q].Running? && !st[q].Blocked? && !st[q].OnQueue?)
    ensures ContOk(st', children', cont')
  {
    SameKeys(st, st', c);
    SameKeys(cont, cont', q);
    SameKeys(children, children', q);
    forall y | y in st' && !Over(st'[y]) ensures ContFits(st', children', cont'[y], y) {
      if y != q {
        assert ContFits(st, children, cont[y], y);
        if HasZombie(st, children[y]) {
          var i :| 0 <= i < |children[y]| && children[y][i] in st && st[children[y][i]] == Zombie;
          assert ChildOf(st, parent, c, q) && ChildOf(st, parent, children[y][i], y);
          assert children[y][i] != c;
        }
      }
    }
  }

  lemma ContBorn(st: map<int, Status>, children: map<int, seq<int>>, children': map<int, seq<int>>, cont: map<int, Cont>,
                 p: int, q: int, key: map<int, int>)
    requires ContOk(st, children, cont) && p !in st && q in st
    requires children' == Adopt(children, key, p, q)
    ensures ContOk(st[p := Ready], children', cont[p := Running])
  {
    InsertMembers(children[q], key, p);
    forall y | y in st && !Over(st[y]) ensures ContFits(st[p := Ready], children', cont[y], y) {
      assert ContFits(st, children, cont[y], y);
      if HasZombie(st, children[y]) {
        var i :| 0 <= i < |children[y]| && children[y][i] in st && st[children[y][i]] == Zombie;
        assert children[y][i] in children'[y];
        var j :| 0 <= j < |children'[y]| && children'[y][j] == children[y][i];
        assert st[p := Ready][children'[y][j]] == Zombie;
      }
    }
  }

  lemma ContBuried(st: map<int, Status>, children: map<int, seq<int>>, cont: map<int, Cont>, p: int)
    requires ContOk(st, children, cont) && p in st && st[p] == Dying
    ensures ContOk(st - {p}, children - {p}, cont - {p})
  {
    forall y | y in st - {p} && !Over(st[y]) ensures ContFits(st - {p}, children - {p}, cont[y], y) {
      assert ContFits(st, children, cont[y], y);
      if HasZombie(st, children[y]) {
        var i :| 0 <= i < |children[y]| && children[y][i] in st && st[children[y][i]] == Zombie;
        assert (st - {p})[children[y][i]] == Zombie;
      }
    }
  }

  // ---- Return values

  // `due` is what waitpid will hand out: one value for each zombie.
  ghost predicate ValuesOk(st: map<int, Status>, killed: map<int, bool>, retval: map<int, int>, due: map<int, int>) {
    && killed.Keys == st.Keys && retval.Keys == st.Keys
    && forall y :: (y in due <==> y in st && st[y] == Zombie) && (y in due ==> due[y] == if killed[y] then 0 else retval[y])
  }

  // ---- Message queues and their history

  const NBQUEUE := 256

  ghost predicate QueuesOk(qs: map<int, Queue>, sent: map<int, seq<int>>, got: map<int, seq<int>>) {
    forall f :: f in qs ==> 0 <= f < NBQUEUE && f in sent && f in got && QueueOk(qs[f], sent[f], got[f])
  }

  // Since the queue was created or emptied, the messages written are the messages read
  // followed by those still waiting.
  ghost predicate QueueOk(q: Queue, sent: seq<int>, got: seq<int>) {
    RingOk(q) && sent == got + Contents(q)
  }

  lemma QueuesUnlink(qs: map<int, Queue>, sent: map<int, seq<int>>, got: map<int, seq<int>>, p: int)
    requires QueuesOk(qs, sent, got)
    ensures QueuesOk(UnlinkQueues(qs, p), sent, got)
  {
    var u := UnlinkQueues(qs, p);
    forall f | f in u ensures QueueOk(u[f], sent[f], got[f]) {
      WaitersAside(qs[f], u[f], sent[f], got[f]);
    }
  }

  lemma WaitersAside(q: Queue, q': Queue, sent: seq<int>, got: seq<int>)
    requires QueueOk(q, sent, got) && q' == q.(waiters := q'.waiters, resetFlag := q'.resetFlag)
    ensures QueueOk(q', sent, got)
  {
    assert Contents(q') == Contents(q);
  }
}
