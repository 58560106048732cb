// The steps of the kernel calls on the process records, each keeping the invariant.
module ProcessSteps {

  import opened MessageRing
  import opened PriorityList
  import opened Processes
  import opened ProcessTable
  import opened Words

  // ---- The calling process blocks

  // It sleeps, or waits for a child of its own.
  lemma CallFits(t: Table, ready: seq<int>, asleep: seq<int>, dying: seq<int>, zombie: seq<int>, blocked: seq<int>,
                 qs: map<int, Queue>, due: map<int, int>, sent: map<int, seq<int>>, got: map<int, seq<int>>, p: int, pr: Proc)
    requires Core(t, ready, asleep, dying, zombie, blocked, qs, due, sent, got, p, -1)
    requires p in t && t[p].status == Elected && p != 0
    requires pr == t[p].(status := pr.status, wakeUp := pr.wakeUp, cont := pr.cont)
    requires || (pr.status == Asleep && pr.cont == Running)
             || (pr.status == Blocked && pr.cont.WaitPid? && pr.cont.child in t[p].children)
             || (pr.status == Blocked && pr.cont == WaitAny)
    ensures MoveFits(t, p, pr, Elected)
  {
    hide ListsOk, WaitersOk, OrderOk, FamilyBut, QueuesOk, ValuesOk, ContOk;
    Fields(t, p);
    Projected(t, p, pr);
  }

  // It waits on message queue f, or changes its place there.
  ghost predicate QueueFits(t: Table, qs: map<int, Queue>, p: int, pr: Proc, was: Status, f: int) {
    && p in t && t[p].status == was && (was == Elected || was == OnQueue) && p != 0
    && pr == t[p].(status := OnQueue, priority := pr.priority, cont := pr.cont)
    && Names(pr.cont, f) && f in qs && 0 <= pr.priority < WORD
  }

  function Enqueued(qs: map<int, Queue>, was: Status, f: int, key: map<int, int>, p: int): (r: map<int, Queue>)
    requires f in qs
  {
    var u := Unqueue(qs, was, p);
    u[f := u[f].(waiters := Insert(u[f].waiters, key, p))]
  }

  lemma QueueKeeps(t: Table, ready: seq<int>, asleep: seq<int>, dying: seq<int>, zombie: seq<int>, blocked: seq<int>,
                   qs: map<int, Queue>, due: map<int, int>, sent: map<int, seq<int>>, got: map<int, seq<int>>, active: int,
                   p: int, pr: Proc, was: Status, f: int)
    requires Core(t, ready, asleep, dying, zombie, blocked, qs, due, sent, got, active, -1)
    requires QueueFits(t, qs, p, pr, was, f)
    ensures Core(t[p := pr], ready, asleep, dying, zombie, blocked, Enqueued(qs, was, f, Prio(t[p := pr]), p), due, sent, got, active, -1)
    ensures |t[p := pr]| == |t|
  {
    QueueLists(t, ready, asleep, dying, zombie, blocked, qs, p, pr, was, f);
    QueueRest(t, ready, asleep, dying, zombie, blocked, qs, due, sent, got, active, p, pr, was, f);
    hide ListsOk, WaitersOk, OrderOk, FamilyBut, ContOk, QueuesOk, ValuesOk, TableOk, QueueFits;
    hide Sts, Prio, Wake, Parents, Children, Killed, Retvals, Conts, Enqueued;
  }

  lemma QueueLists(t: Table, ready: seq<int>, asleep: seq<int>, dying: seq<int>, zombie: seq<int>, blocked: seq<int>,
                   qs: map<int, Queue>, p: int, pr: Proc, was: Status, f: int)
    requires ListsOk(ready, asleep, dying, zombie, blocked, Sts(t)) && WaitersOk(qs, Sts(t), Conts(t))
    requires OrderOk(ready, asleep, zombie, blocked, qs, Prio(t), Wake(t))
    requires QueueFits(t, qs, p, pr, was, f)
    ensures var t' := t[p := pr];
            var qs' := Enqueued(qs, was, f, Prio(t'), p);
            && ListsOk(ready, asleep, dying, zombie, blocked, Sts(t'))
            && WaitersOk(qs', Sts(t'), Conts(t'))
            && OrderOk(ready, asleep, zombie, blocked, qs', Prio(t'), Wake(t'))
  {
    hide ListsOk, ListsBut, WaitersOk, WaitersBut, OrderOk, Without, Insert, UnlinkQueues, AgreeBut;
    hide Sts, Prio, Wake, Parents, Children, Killed, Retvals, Conts;
    Projected(t, p, pr);
    Fields(t, p);
    SameValue(Wake(t), p, pr.wakeUp);
    ListsUnlink(ready, asleep, dying, zombie, blocked, Sts(t), p);
    WaitersUnlink(qs, Sts(t), Conts(t), p);
    AgreesUpdate(Sts(t), p, pr.status);
    AgreesUpdate(Conts(t), p, pr.cont);
    AgreesUpdate(Prio(t), p, pr.priority);
    var t' := t[p := pr];
    MovedToQueue(ready, asleep, dying, zombie, blocked, qs, Sts(t), Sts(t'), Conts(t), Conts(t'), Prio(t), Prio(t'), Wake(t), p, f);
  }

  lemma QueueRest(t: Table, ready: seq<int>, asleep: seq<int>, dying: seq<int>, zombie: seq<int>, blocked: seq<int>,
                  qs: map<int, Queue>, due: map<int, int>, sent: map<int, seq<int>>, got: map<int, seq<int>>, active: int,
                  p: int, pr: Proc, was: Status, f: int)
    requires Core(t, ready, asleep, dying, zombie, blocked, qs, due, sent, got, active, -1)
    requires QueueFits(t, qs, p, pr, was, f)
    ensures var t' := t[p := pr];
            && FamilyBut(Sts(t'), Parents(t'), Children(t'), -1)
            && ContOk(Sts(t'), Children(t'), Conts(t'))
            && ValuesOk(Sts(t'), Killed(t'), Retvals(t'), due)
            && QueuesOk(Enqueued(qs, was, f, Prio(t'), p), sent, got)
            && TableOk(Sts(t'), Prio(t'), Conts(t'), active)
            && |t'| == |t|
  {
    hide ListsOk, WaitersOk, OrderOk, FamilyBut, ContOk, QueuesOk, ValuesOk, TableOk, UnlinkQueues, AgreeBut;
    hide Sts, Prio, Wake, Parents, Children, Killed, Retvals, Conts, Insert;
    var t' := t[p := pr];
    Projected(t, p, pr);
    Fields(t, p);
    SameValue(Parents(t), p, pr.parent);
    SameValue(Children(t), p, pr.children);
    SameValue(Killed(t), p, pr.killed);
    SameValue(Retvals(t), p, pr.retval);
    AgreesUpdate(Sts(t), p, pr.status);
    AgreesUpdate(Conts(t), p, pr.cont);
    QueueTable(t, active, qs, p, pr, was, f);
    FamilyAlive(Sts(t), Sts(t'), Parents(t), Children(t), p, -1);
    ContMove(Sts(t), Sts(t'), Children(t), Conts(t), Conts(t'), p);
    ValuesMove(Sts(t), Killed(t), Retvals(t), due, p, pr.status);
    QueuesUnlink(qs, sent, got, p);
    QueuesWaiters(Unqueue(qs, was, p), sent, got, f, Insert(Unqueue(qs, was, p)[f].waiters, Prio(t'), p));
    SameSize(t, t');
  }

  lemma QueuesWaiters(qs: map<int, Queue>, sent: map<int, seq<int>>, got: map<int, seq<int>>, f: int, w: seq<int>)
    requires QueuesOk(qs, sent, got) && f in qs
    ensures QueuesOk(qs[f := qs[f].(waiters := w)], sent, got)
  {
    WaitersAside(qs[f], qs[f].(waiters := w), sent[f], got[f]);
  }

  lemma QueueTable(t: Table, active: int, qs: map<int, Queue>, p: int, pr: Proc, was: Status, f: int)
    requires TableOk(Sts(t), Prio(t), Conts(t), active) && QueueFits(t, qs, p, pr, was, f)
    ensures TableOk(Sts(t[p := pr]), Prio(t[p := pr]), Conts(t[p := pr]), active)
  {
    hide Prio, Conts, Wake, Parents, Children, Killed, Retvals;
    Projected(t, p, pr);
  }

  // ---- A new priority for a process that is in no list ordered by priority

  lemma PriorityKeeps(t: Table, ready: seq<int>, asleep: seq<int>, dying: seq<int>, zombie: seq<int>, blocked: seq<int>,
                      qs: map<int, Queue>, due: map<int, int>, sent: map<int, seq<int>>, got: map<int, seq<int>>, active: int,
                      p: int, v: int)
    requires Core(t, ready, asleep, dying, zombie, blocked, qs, due, sent, got, active, -1)
    requires p in t && 0 <= v < WORD
    requires t[p].status == Elected || t[p].status == Asleep || t[p].status == Dying
    ensures Core(t[p := t[p].(priority := v)], ready, asleep, dying, zombie, blocked, qs, due, sent, got, active, -1)
    ensures |t[p := t[p].(priority := v)]| == |t|
  {
    hide ListsOk, WaitersOk, FamilyBut, ContOk, QueuesOk, ValuesOk, OrderOk, AgreeBut, TableOk;
    hide Sts, Prio, Wake, Parents, Children, Killed, Retvals, Conts;
    var pr := t[p].(priority := v);
    Projected(t, p, pr);
    Fields(t, p);
    Unordered(ready, asleep, dying, zombie, blocked, qs, Sts(t), Conts(t), p);
    PriorityTable(Sts(t), Prio(t), Conts(t), active, p, v);
    SameValue(Sts(t), p, pr.status);
    SameValue(Wake(t), p, pr.wakeUp);
    SameValue(Parents(t), p, pr.parent);
    SameValue(Children(t), p, pr.children);
    SameValue(Killed(t), p, pr.killed);
    SameValue(Retvals(t), p, pr.retval);
    SameValue(Conts(t), p, pr.cont);
    AgreesUpdate(Prio(t), p, v);
    AgreesSelf(Wake(t), p);
    OrderKeys(ready, asleep, zombie, blocked, qs, Prio(t), Prio(t[p := pr]), Wake(t), Wake(t), p);
    SameSize(t, t[p := pr]);
  }

  lemma Unordered(ready: seq<int>, asleep: seq<int>, dying: seq<int>, zombie: seq<int>, blocked: seq<int>,
                  qs: map<int, Queue>, st: map<int, Status>, cont: map<int, Cont>, p: int)
    requires ListsOk(ready, asleep, dying, zombie, blocked, st) && WaitersOk(qs, st, cont)
    requires p in st && (st[p] == Elected || st[p] == Asleep || st[p] == Dying)
    ensures p !in ready && p !in zombie && p !in blocked && forall f :: f in qs ==> p !in qs[f].waiters
  {}

  lemma PriorityTable(st: map<int, Status>, prio: map<int, int>, cont: map<int, Cont>, active: int, p: int, v: int)
    requires TableOk(st, prio, cont, active) && 0 <= v < WORD
    ensures TableOk(st, prio[p := v], cont, active)
  {}

  // A ready or blocked process goes to its new place in the same list.
  lemma SameListFits(t: Table, ready: seq<int>, asleep: seq<int>, dying: seq<int>, zombie: seq<int>, blocked: seq<int>,
                     qs: map<int, Queue>, due: map<int, int>, sent: map<int, seq<int>>, got: map<int, seq<int>>, active: int,
                     p: int, v: int)
    requires Core(t, ready, asleep, dying, zombie, blocked, qs, due, sent, got, active, -1)
    requires p in t && 0 <= v < WORD && (t[p].status == Ready || t[p].status == Blocked)
    ensures MoveFits(t, p, t[p].(priority := v), t[p].status)
  {
    hide ListsOk, WaitersOk, OrderOk, FamilyBut, QueuesOk, ValuesOk;
    var pr := t[p].(priority := v);
    Fields(t, p);
    Projected(t, p, pr);
    SameValue(Sts(t), p, pr.status);
    assert ContFits(Sts(t), Children(t), Conts(t)[p], p);
  }

  // ---- A process terminates

  // pr is the record of p after it terminated: a zombie if its parent lives and is not
  // process 0, else dying.
  ghost predicate EndFits(t: Table, p: int, pr: Proc, was: Status) {
    && p in t && t[p].status == was && !Over(was) && p != 0
    && pr == t[p].(status := if t[p].parent != 0 then Zombie else Dying, killed := pr.killed, retval := pr.retval)
  }

  function EndDue(due: map<int, int>, p: int, pr: Proc): map<int, int> {
    if pr.status == Zombie then due[p := if pr.killed then 0 else pr.retval] else due
  }

  lemma EndKeeps(t: Table, ready: seq<int>, asleep: seq<int>, dying: seq<int>, zombie: seq<int>, blocked: seq<int>,
                 qs: map<int, Queue>, due: map<int, int>, sent: map<int, seq<int>>, got: map<int, seq<int>>, active: int,
                 p: int, pr: Proc, was: Status)
    requires Core(t, ready, asleep, dying, zombie, blocked, qs, due, sent, got, active, -1)
    requires EndFits(t, p, pr, was)
    ensures var t', s := t[p := pr], pr.status;
            Core(t', Unlist(ready, Ready, was, p), Unlist(asleep, Asleep, was, p), Relist(dying, Dying, s, Prio(t'), p),
                 Relist(zombie, Zombie, s, Prio(t'), p), Unlist(blocked, Blocked, was, p), Unqueue(qs, was, p),
                 EndDue(due, p, pr), sent, got, active, p)
    ensures |t[p := pr]| == |t|
  {
    EndLists(t, ready, asleep, dying, zombie, blocked, qs, p, pr, was);
    EndRest(t, ready, asleep, dying, zombie, blocked, qs, due, sent, got, active, p, pr, was);
    hide ListsOk, WaitersOk, OrderOk, FamilyBut, ContOk, QueuesOk, ValuesOk, TableOk, EndFits;
    hide Sts, Prio, Wake, Parents, Children, Killed, Retvals, Conts, EndDue, Unlist, Relist, Unqueue;
  }

  lemma EndLists(t: Table, ready: seq<int>, asleep: seq<int>, dying: seq<int>, zombie: seq<int>, blocked: seq<int>,
                 qs: map<int, Queue>, p: int, pr: Proc, was: Status)
    requires ListsOk(ready, asleep, dying, zombie, blocked, Sts(t)) && WaitersOk(qs, Sts(t), Conts(t))
    requires OrderOk(ready, asleep, zombie, blocked, qs, Prio(t), Wake(t))
    requires EndFits(t, p, pr, was)
    ensures var t', s := t[p := pr], pr.status;
            var ready', asleep', dying', zombie', blocked' :=
              Unlist(ready, Ready, was, p), Unlist(asleep, Asleep, was, p), Relist(dying, Dying, s, Prio(t'), p),
              Relist(zombie, Zombie, s, Prio(t'), p), Unlist(blocked, Blocked, was, p);
            && ListsOk(ready', asleep', dying', zombie', blocked', Sts(t'))
            && WaitersOk(Unqueue(qs, was, p), Sts(t'), Conts(t'))
            && OrderOk(ready', asleep', zombie', blocked', Unqueue(qs, was, p), Prio(t'), Wake(t'))
  {
    hide ListsOk, ListsBut, WaitersOk, WaitersBut, OrderOk, Without, Insert, UnlinkQueues, AgreeBut;
    hide Sts, Prio, Wake, Parents, Children, Killed, Retvals, Conts;
    Projected(t, p, pr);
    Fields(t, p);
    SameValue(Wake(t), p, pr.wakeUp);
    SameValue(Prio(t), p, pr.priority);
    SameValue(Conts(t), p, pr.cont);
    ListsUnlink(ready, asleep, dying, zombie, blocked, Sts(t), p);
    WaitersUnlink(qs, Sts(t), Conts(t), p);
    AgreesUpdate(Sts(t), p, pr.status);
    AgreesSelf(Conts(t), p);
    AgreesSelf(Prio(t), p);
    AgreesSelf(Wake(t), p);
    var t' := t[p := pr];
    Moved(ready, asleep, dying, zombie, blocked, qs, Sts(t), Sts(t'), Conts(t), Conts(t), Prio(t), Prio(t), Wake(t), Wake(t), p);
  }

  lemma EndRest(t: Table, ready: seq<int>, asleep: seq<int>, dying: seq<int>, zombie: seq<int>, blocked: seq<int>,
                qs: map<int, Queue>, due: map<int, int>, sent: map<int, seq<int>>, got: map<int, seq<int>>, active: int,
                p: int, pr: Proc, was: Status)
    requires Core(t, ready, asleep, dying, zombie, blocked, qs, due, sent, got, active, -1)
    requires EndFits(t, p, pr, was)
    ensures var t' := t[p := pr];
            && FamilyBut(Sts(t'), Parents(t'), Children(t'), p)
            && ContOk(Sts(t'), Children(t'), Conts(t'))
            && ValuesOk(Sts(t'), Killed(t'), Retvals(t'), EndDue(due, p, pr))
            && QueuesOk(Unqueue(qs, was, p), sent, got)
            && TableOk(Sts(t'), Prio(t'), Conts(t'), active)
            && |t'| == |t|
  {
    hide ListsOk, WaitersOk, OrderOk, FamilyBut, ContOk, QueuesOk, ValuesOk, TableOk, UnlinkQueues, AgreeBut, FamilyOk;
    hide Sts, Prio, Wake, Parents, Children, Killed, Retvals, Conts;
    var t' := t[p := pr];
    Projected(t, p, pr);
    Fields(t, p);
    SameValue(Parents(t), p, pr.parent);
    SameValue(Children(t), p, pr.children);
    SameValue(Prio(t), p, pr.priority);
    SameValue(Conts(t), p, pr.cont);
    AgreesUpdate(Sts(t), p, pr.status);
    AgreesSelf(Conts(t), p);
    EndTable(t, active, p, pr, was);
    FamilyIsOk(Sts(t), Parents(t), Children(t), active, Prio(t), Conts(t));
    FamilyEnds(Sts(t), Sts(t'), Parents(t), Children(t), p);
    ContMove(Sts(t), Sts(t'), Children(t), Conts(t), Conts(t), p);
    EndValues(Sts(t), Killed(t), Retvals(t), due, p, pr);
    QueuesUnlink(qs, sent, got, p);
    SameSize(t, t');
  }

  lemma EndTable(t: Table, active: int, p: int, pr: Proc, was: Status)
    requires TableOk(Sts(t), Prio(t), Conts(t), active) && EndFits(t, p, pr, was)
    ensures TableOk(Sts(t[p := pr]), Prio(t[p := pr]), Conts(t[p := pr]), active)
  {
    hide Prio, Conts, Wake, Parents, Children, Killed, Retvals;
    Projected(t, p, pr);
    Fields(t, p);
    SameValue(Prio(t), p, pr.priority);
    SameValue(Conts(t), p, pr.cont);
  }

  lemma EndValues(st: map<int, Status>, killed: map<int, bool>, retval: map<int, int>, due: map<int, int>, p: int, pr: Proc)
    requires ValuesOk(st, killed, retval, due) && p in st && st[p] != Zombie && (pr.status == Zombie || pr.status == Dying)
    ensures ValuesOk(st[p := pr.status], killed[p := pr.killed], retval[p := pr.retval], EndDue(due, p, pr))
  {
    assert st[p := pr.status].Keys == st.Keys;
  }

  // ---- A process is taken off its parent's list

  // Child c of q: a zombie is destroyed, another one is given to process 0.
  function Released(t: Table, q: int, c: int, cont: Cont): Table
    requires q in t && c in t && q != c
  {
    t[q := t[q].(children := Without(t[q].children, c), cont := cont)]
     [c := if t[c].status == Zombie then t[c].(status := Dying) else t[c].(parent := 0)]
  }

  ghost predicate ReleaseFits(t: Table, q: int, c: int, cont: Cont) {
    && q in t && c in t && q != c && c in t[q].children
    && (cont == t[q].cont || t[q].status == Elected) && (q == 0 ==> cont == Running)
    && (Over(t[q].status) || (cont == Running && t[q].status == Elected))
  }

  lemma ReleaseKeeps(t: Table, ready: seq<int>, asleep: seq<int>, dying: seq<int>, zombie: seq<int>, blocked: seq<int>,
                     qs: map<int, Queue>, due: map<int, int>, sent: map<int, seq<int>>, got: map<int, seq<int>>, active: int,
                     q: int, c: int, cont: Cont, ex: int)
    requires Core(t, ready, asleep, dying, zombie, blocked, qs, due, sent, got, active, ex)
    requires ReleaseFits(t, q, c, cont)
    ensures t[c].status == Zombie ==>
      Core(Released(t, q, c, cont), ready, asleep, Insert(dying, Prio(t), c), Without(zombie, c), blocked, qs, due - {c}, sent, got, active, ex)
    ensures t[c].status != Zombie ==>
      Core(Released(t, q, c, cont), ready, asleep, dying, zombie, blocked, qs, due - {c}, sent, got, active, ex)
    ensures |Released(t, q, c, cont)| == |t| && Prio(Released(t, q, c, cont)) == Prio(t)
  {
    ReleasedFields(t, q, c, cont);
    ReleaseLists(t, ready, asleep, dying, zombie, blocked, qs, q, c, cont);
    ReleaseRest(t, ready, asleep, dying, zombie, blocked, qs, due, sent, got, active, q, c, cont, ex);
    hide ListsOk, WaitersOk, OrderOk, FamilyBut, ContOk, QueuesOk, ValuesOk, TableOk, ReleaseFits;
    hide Sts, Prio, Wake, Parents, Children, Killed, Retvals, Conts, Released;
  }

  lemma ReleasedFields(t: Table, q: int, c: int, cont: Cont)
    requires ReleaseFits(t, q, c, cont)
    ensures var t' := Released(t, q, c, cont);
            && Sts(t') == (if t[c].status == Zombie then Sts(t)[c := Dying] else Sts(t))
            && Parents(t') == (if t[c].status == Zombie then Parents(t) else Parents(t)[c := 0])
            && Children(t') == Children(t)[q := Without(Children(t)[q], c)]
            && Conts(t') == Conts(t)[q := cont]
            && Prio(t') == Prio(t) && Wake(t') == Wake(t) && Killed(t') == Killed(t) && Retvals(t') == Retvals(t)
            && t'.Keys == t.Keys
  {
    hide Without, Sts, Prio, Wake, Parents, Children, Killed, Retvals, Conts;
    var a := t[q].(children := Without(t[q].children, c), cont := cont);
    var t1 := t[q := a];
    var b := if t[c].status == Zombie then t[c].(status := Dying) else t[c].(parent := 0);
    Fields(t, q);
    Projected(t, q, a);
    SameValue(Sts(t), q, a.status);
    SameValue(Parents(t), q, a.parent);
    SamePlain(t, q, a);
    Fields(t1, c);
    Projected(t1, c, b);
    SameValue(Children(t1), c, b.children);
    SameValue(Conts(t1), c, b.cont);
    SamePlain(t1, c, b);
    if t[c].status == Zombie { SameValue(Parents(t1), c, b.parent); } else { SameValue(Sts(t1), c, b.status); }
  }

  lemma SamePlain(t: Table, p: int, pr: Proc)
    requires p in t && pr.priority == t[p].priority && pr.wakeUp == t[p].wakeUp && pr.killed == t[p].killed && pr.retval == t[p].retval
    ensures var t' := t[p := pr];
            Prio(t') == Prio(t) && Wake(t') == Wake(t) && Killed(t') == Killed(t) && Retvals(t') == Retvals(t)
  {
    hide Prio, Wake, Killed, Retvals;
    Fields(t, p);
    Projected(t, p, pr);
    SameValue(Prio(t), p, pr.priority);
    SameValue(Wake(t), p, pr.wakeUp);
    SameValue(Killed(t), p, pr.killed);
    SameValue(Retvals(t), p, pr.retval);
  }

  lemma ReleaseLists(t: Table, ready: seq<int>, asleep: seq<int>, dying: seq<int>, zombie: seq<int>, blocked: seq<int>,
                     qs: map<int, Queue>, q: int, c: int, cont: Cont)
    requires ListsOk(ready, asleep, dying, zombie, blocked, Sts(t)) && WaitersOk(qs, Sts(t), Conts(t))
    requires OrderOk(ready, asleep, zombie, blocked, qs, Prio(t), Wake(t))
    requires ReleaseFits(t, q, c, cont)
    ensures var t', gone := Released(t, q, c, cont), t[c].status == Zombie;
            var dying', zombie' := if gone then Insert(dying, Prio(t'), c) else dying, if gone then Without(zombie, c) else zombie;
            && ListsOk(ready, asleep, dying', zombie', blocked, Sts(t'))
            && WaitersOk(qs, Sts(t'), Conts(t'))
            && OrderOk(ready, asleep, zombie', blocked, qs, Prio(t'), Wake(t'))
  {
    hide ListsOk, ListsBut, WaitersOk, WaitersBut, OrderOk, Without, Insert, UnlinkQueues, AgreeBut, Released;
    hide Sts, Prio, Wake, Parents, Children, Killed, Retvals, Conts;
    ReleasedFields(t, q, c, cont);
    Fields(t, c);
    Fields(t, q);
    var t' := Released(t, q, c, cont);
    // q is not on a queue, so its continuation does not matter there
    WaitersUnlink(qs, Sts(t), Conts(t), q);
    AgreesSelf(Sts(t), q);
    AgreesUpdate(Conts(t), q, cont);
    WaitersElsewhere(qs, Sts(t), Sts(t), Conts(t), Conts(t'), q);
    if t[c].status == Zombie {
      ListsUnlink(ready, asleep, dying, zombie, blocked, Sts(t), c);
      WaitersUnlink(qs, Sts(t), Conts(t'), c);
      AgreesUpdate(Sts(t), c, Dying);
      AgreesSelf(Conts(t'), c);
      AgreesSelf(Prio(t), c);
      AgreesSelf(Wake(t), c);
      Moved(ready, asleep, dying, zombie, blocked, qs, Sts(t), Sts(t'), Conts(t'), Conts(t'), Prio(t), Prio(t), Wake(t), Wake(t), c);
    }
  }

  lemma ReleaseRest(t: Table, ready: seq<int>, asleep: seq<int>, dying: seq<int>, zombie: seq<int>, blocked: seq<int>,
                    qs: map<int, Queue>, due: map<int, int>, sent: map<int, seq<int>>, got: map<int, seq<int>>, active: int,
                    q: int, c: int, cont: Cont, ex: int)
    requires Core(t, ready, asleep, dying, zombie, blocked, qs, due, sent, got, active, ex)
    requires ReleaseFits(t, q, c, cont)
    ensures var t' := Released(t, q, c, cont);
            && FamilyBut(Sts(t'), Parents(t'), Children(t'), ex)
            && ContOk(Sts(t'), Children(t'), Conts(t'))
            && ValuesOk(Sts(t'), Killed(t'), Retvals(t'), due - {c})
            && TableOk(Sts(t'), Prio(t'), Conts(t'), active)
            && |t'| == |t| && (t[c].status != Zombie ==> due - {c} == due)
  {
    hide ListsOk, WaitersOk, OrderOk, FamilyBut, ContOk, QueuesOk, ValuesOk, TableOk, AgreeBut, Without, Released;
    hide Sts, Prio, Wake, Parents, Children, Killed, Retvals, Conts;
    ReleasedFields(t, q, c, cont);
    Fields(t, c);
    Fields(t, q);
    var t' := Released(t, q, c, cont);
    AgreesUpdate(Sts(t), c, Dying);
    AgreesSelf(Sts(t), c);
    AgreesUpdate(Parents(t), c, 0);
    AgreesSelf(Parents(t), c);
    AgreesUpdate(Children(t), q, Without(Children(t)[q], c));
    AgreesUpdate(Conts(t), q, cont);
    FamilyRelease(Sts(t), Sts(t'), Parents(t), Parents(t'), Children(t), q, c, ex);
    ContRelease(Sts(t), Sts(t'), Parents(t), Children(t), Children(t'), Conts(t), Conts(t'), q, c, ex);
    ReleaseValues(Sts(t), Killed(t), Retvals(t), due, c);
    ReleaseTable(Sts(t), Prio(t), Conts(t), active, q, c, cont);
    SameSize(t, t');
  }

  lemma ReleaseValues(st: map<int, Status>, killed: map<int, bool>, retval: map<int, int>, due: map<int, int>, c: int)
    requires ValuesOk(st, killed, retval, due) && c in st
    ensures st[c] == Zombie ==> ValuesOk(st[c := Dying], killed, retval, due - {c})
    ensures st[c] != Zombie ==> due - {c} == due
  {
    assert st[c := Dying].Keys == st.Keys;
  }

  lemma ReleaseTable(st: map<int, Status>, prio: map<int, int>, cont: map<int, Cont>, active: int, q: int, c: int, k: Cont)
    requires TableOk(st, prio, cont, active) && c in st && (q == 0 ==> k == Running)
    ensures TableOk(st, prio, cont[q := k], active)
    ensures st[c] == Zombie ==> TableOk(st[c := Dying], prio, cont[q := k], active)
  {}

  // What becomes of the children of q when it terminates.
  function OrphanOf(pr: Proc): Proc {
    if pr.status == Zombie then pr.(status := Dying) else pr.(parent := 0)
  }

  function Orphaned(t: Table, q: int): Table
    requires q in t
  {
    map y | y in t :: if y == q then t[y].(children := []) else if y in t[q].children then OrphanOf(t[y]) else t[y]
  }

  // p has terminated.
  function Ended(t: Table, p: int, k: bool, v: int): Table
    requires p in t
  {
    t[p := t[p].(status := if t[p].parent != 0 then Zombie else Dying, killed := k, retval := v)]
  }

  lemma EndsWell(t: Table, ready: seq<int>, asleep: seq<int>, dying: seq<int>, zombie: seq<int>, blocked: seq<int>,
                 qs: map<int, Queue>, due: map<int, int>, sent: map<int, seq<int>>, got: map<int, seq<int>>, active: int,
                 p: int, k: bool, v: int, was: Status)
    requires Core(t, ready, asleep, dying, zombie, blocked, qs, due, sent, got, active, -1)
    requires p in t && t[p].status == was && !Over(was) && p != 0
    ensures var t' := Ended(t, p, k, v);
            && p in t' && |t'| == |t| && |Unqueue(qs, was, p)| == |qs|
            && var s := t'[p].status;
               Core(t', Unlist(ready, Ready, was, p), Unlist(asleep, Asleep, was, p), Relist(dying, Dying, s, Prio(t'), p),
                    Relist(zombie, Zombie, s, Prio(t'), p), Unlist(blocked, Blocked, was, p), Unqueue(qs, was, p),
                    EndDue(due, p, t'[p]), sent, got, active, p)
  {
    var pr := Ended(t, p, k, v)[p];
    assert EndFits(t, p, pr, was);
    SameSize(qs, Unqueue(qs, was, p));
    EndKeeps(t, ready, asleep, dying, zombie, blocked, qs, due, sent, got, active, p, pr, was);
    hide Core, Unlist, Relist, Unqueue, Prio, EndDue, EndFits;
  }

  // The parent of c, if it waits for a child, is ready.
  function ParentUnblocked(t: Table, c: int): Table
    requires c in t
  {
    var p := t[c].parent;
    if p in t && t[p].status == Blocked then t[p := t[p].(status := Ready)] else t
  }

  // The process records after exit() and before scheduling().
  function ExitTable(t: Table, p: int, k: bool, v: int): Table
    requires p in t
  {
    var e := Ended(Orphaned(t, p), p, k, v);
    if e[p].status == Zombie then ParentUnblocked(e, p) else e
  }

  // The process records after kill() of another process and before scheduling().
  function KillTable(t: Table, p: int): Table
    requires p in t
  {
    Orphaned(Ended(t, p, true, t[p].retval), p)
  }

  // What exit() does to each record: its zombie children are to be destroyed, the others get
  // process 0 as parent, a parent blocked in waitpid is ready, and nobody else is touched.
  lemma ExitMeans(t: Table, p: int, v: int)
    requires p in t
    ensures var e := ExitTable(t, p, false, v);
            && e.Keys == t.Keys
            && e[p] == t[p].(children := [], status := if t[p].parent == 0 then Dying else Zombie, killed := false, retval := v)
            && forall y :: y in t && y != p ==>
                 var o := if y !in t[p].children then t[y]
                          else if t[y].status == Zombie then t[y].(status := Dying)
                          else t[y].(parent := 0);
                 e[y] == if y == t[p].parent && y != 0 && o.status == Blocked then o.(status := Ready) else o
  {}

  // The same of kill() on another process: it keeps its return value, but it is marked as
  // killed, and its parent is not woken.
  lemma KillMeans(t: Table, p: int)
    requires p in t && p !in t[p].children
    ensures var e := KillTable(t, p);
            && e.Keys == t.Keys
            && e[p] == t[p].(children := [], status := if t[p].parent == 0 then Dying else Zombie, killed := true)
            && (forall y :: y in t[p].children && y in t ==>
                  e[y] == if t[y].status == Zombie then t[y].(status := Dying) else t[y].(parent := 0))
            && forall y :: y in t && y != p && y !in t[p].children ==> e[y] == t[y]
  {}

  // What is owed after p has terminated: v for p if its parent lives, nothing for its children,
  // and what was owed before for all others.
  ghost predicate Owes(due: map<int, int>, due': map<int, int>, pr: Proc, p: int, v: int) {
    && (forall y :: y in due' <==> (y in due && y !in pr.children) || (y == p && pr.parent != 0))
    && forall y :: y in due' ==> due'[y] == if y == p && pr.parent != 0 then v else due[y]
  }

  lemma ExitOwes(t: Table, p: int, v: int, due: map<int, int>)
    requires p in t
    ensures Owes(due, EndDue(Cleared(due, t[p].children), p, ExitTable(t, p, false, v)[p]), t[p], p, v)
  {}

  // Whoever is killed owes 0.
  lemma KillOwes(t: Table, p: int, due: map<int, int>)
    requires p in t && p !in t[p].children
    ensures Owes(due, Cleared(EndDue(due, p, Ended(t, p, true, t[p].retval)[p]), t[p].children), t[p], p, 0)
  {}

  // Reaping: the zombie is to be destroyed and leaves the list of its parent, which goes on.
  lemma ReapMeans(t: Table, q: int, c: int)
    requires q in t && c in t && q != c && t[c].status == Zombie && NoDup(t[q].children)
    ensures var e := Released(t, q, c, Running);
            && e.Keys == t.Keys && e[c] == t[c].(status := Dying)
            && e[q] == t[q].(children := e[q].children, cont := Running)
            && (forall y :: y in e[q].children <==> y in t[q].children && y != c)
            && forall y :: y in t && y != q && y != c ==> e[y] == t[y]
  {
    WithoutMembers(t[q].children, c);
  }

  // Already terminated, or inside exit().
  predicate Ending(pr: Proc) {
    Over(pr.status) || (pr.status == Elected && pr.cont == Running)
  }

  // Nothing is due any more for destroyed children.
  function Cleared(due: map<int, int>, l: seq<int>): map<int, int> {
    due - (set c | c in l)
  }

  lemma ClearStart(due: map<int, int>, l: seq<int>)
    ensures Cleared(due, l[|l|..]) == due
  {}

  lemma ClearNext(due: map<int, int>, l: seq<int>, n: nat)
    requires n < |l|
    ensures Cleared(due, l[n..]) == Cleared(due, l[n + 1..]) - {l[n]}
  {
    assert l[n..] == [l[n]] + l[n + 1..];
  }

  // The same while the first n children are still there.
  ghost predicate OrphanedFrom(t: Table, t': Table, q: int, n: int) {
    && q in t && 0 <= n <= |t[q].children| && t'.Keys == t.Keys
    && NoDup(t[q].children) && q !in t[q].children && (forall c :: c in t[q].children ==> c in t)
    && t'[q] == t[q].(children := t[q].children[..n])
    && forall y :: y in t && y != q ==> t'[y] == if y in t[q].children[n..] then OrphanOf(t[y]) else t[y]
  }

  lemma OrphanStart(t: Table, q: int)
    requires q in t && NoDup(t[q].children) && q !in t[q].children && forall c :: c in t[q].children ==> c in t
    ensures OrphanedFrom(t, t, q, |t[q].children|)
  {
    assert t[q].children[..|t[q].children|] == t[q].children;
  }

  lemma OrphanNext(t: Table, t': Table, q: int, n: nat)
    requires OrphanedFrom(t, t', q, n + 1) && q != 0 && Ending(t[q])
    ensures q in t' && |t'[q].children| == n + 1 && n < |t[q].children|
    ensures var c := t'[q].children[n];
            && c == t[q].children[n] && c in t' && c != q && ReleaseFits(t', q, c, t'[q].cont)
            && OrphanedFrom(t, Released(t', q, c, t'[q].cont), q, n)
            && |Released(t', q, c, t'[q].cont)[q].children| == n
  {
    var l := t[q].children;
    var c := t'[q].children[n];
    assert c == l[n] && c in l;
    assert c !in l[n + 1..];
    assert l[n..] == [c] + l[n + 1..];
    PrefixOut(l, n);
    assert t'[q].children == l[..n + 1];
  }

  lemma PrefixOut(l: seq<int>, n: nat)
    requires NoDup(l) && n < |l|
    ensures Without(l[..n + 1], l[n]) == l[..n]
  {
    IndexOfIs(l[..n + 1], l[n], n);
  }

  lemma OrphanEnd(t: Table, t': Table, q: int)
    requires OrphanedFrom(t, t', q, 0)
    ensures t' == Orphaned(t, q)
  {
    assert t[q].children[0..] == t[q].children;
  }

  // ---- Between "all is well" and "all but the children of p"

  lemma CoreSplit(t: Table, ready: seq<int>, asleep: seq<int>, dying: seq<int>, zombie: seq<int>, blocked: seq<int>,
                  qs: map<int, Queue>, due: map<int, int>, sent: map<int, seq<int>>, got: map<int, seq<int>>, active: int, p: int)
    requires Core(t, ready, asleep, dying, zombie, blocked, qs, due, sent, got, active, -1)
    ensures Core(t, ready, asleep, dying, zombie, blocked, qs, due, sent, got, active, p)
  {
    hide ListsOk, WaitersOk, OrderOk, FamilyBut, FamilyOk, ContOk, QueuesOk, ValuesOk, TableOk;
    hide Sts, Prio, Wake, Parents, Children, Killed, Retvals, Conts;
    FamilyIsOk(Sts(t), Parents(t), Children(t), active, Prio(t), Conts(t));
    FamilySplit(Sts(t), Parents(t), Children(t), p);
  }

  lemma CoreWhole(t: Table, ready: seq<int>, asleep: seq<int>, dying: seq<int>, zombie: seq<int>, blocked: seq<int>,
                  qs: map<int, Queue>, due: map<int, int>, sent: map<int, seq<int>>, got: map<int, seq<int>>, active: int, p: int)
    requires Core(t, ready, asleep, dying, zombie, blocked, qs, due, sent, got, active, p)
    requires p in t && t[p].children == []
    ensures Core(t, ready, asleep, dying, zombie, blocked, qs, due, sent, got, active, -1)
  {
    hide ListsOk, WaitersOk, OrderOk, FamilyBut, FamilyOk, ContOk, QueuesOk, ValuesOk, TableOk;
    hide Sts, Prio, Wake, Parents, Children, Killed, Retvals, Conts;
    Fields(t, p);
    NotMinusOne(Sts(t), Prio(t), Conts(t), active);
    FamilyWhole(Sts(t), Parents(t), Children(t), p);
    FamilyPart(Sts(t), Parents(t), Children(t));
  }

  lemma NotMinusOne(st: map<int, Status>, prio: map<int, int>, cont: map<int, Cont>, active: int)
    requires TableOk(st, prio, cont, active)
    ensures -1 !in st
  {}

  // ---- A blocked parent is unblocked by a child that has become a zombie

  lemma ParentFits(t: Table, ready: seq<int>, asleep: seq<int>, dying: seq<int>, zombie: seq<int>, blocked: seq<int>,
                   qs: map<int, Queue>, due: map<int, int>, sent: map<int, seq<int>>, got: map<int, seq<int>>, active: int, c: int)
    requires Core(t, ready, asleep, dying, zombie, blocked, qs, due, sent, got, active, -1)
    requires c in t && t[c].status == Zombie && c != 0
    ensures var p := t[c].parent;
            p in t && p != 0 && !Over(t[p].status) && c in t[p].children
            && (t[p].status == Blocked ==> MoveFits(t, p, t[p].(status := Ready), Blocked))
  {
    hide ListsOk, WaitersOk, OrderOk, QueuesOk, ValuesOk;
    Fields(t, c);
    var p := t[c].parent;
    assert HasParent(Sts(t), p, Children(t), c, -1);
    Fields(t, p);
    if t[p].status == Blocked {
      assert ContFits(Sts(t), Children(t), Conts(t)[p], p);
      var l := Children(t)[p];
      var i :| 0 <= i < |l| && l[i] == c;
      assert Sts(t[p := t[p].(status := Ready)])[l[i]] == Zombie;
    }
  }

  // ---- The running process has finished a suspended call

  lemma ContinueKeeps(t: Table, ready: seq<int>, asleep: seq<int>, dying: seq<int>, zombie: seq<int>, blocked: seq<int>,
                      qs: map<int, Queue>, due: map<int, int>, sent: map<int, seq<int>>, got: map<int, seq<int>>, p: int)
    requires Core(t, ready, asleep, dying, zombie, blocked, qs, due, sent, got, p, -1)
    requires p in t && t[p].status == Elected && p != 0
    ensures Core(t[p := t[p].(cont := Running)], ready, asleep, dying, zombie, blocked, qs, due, sent, got, p, -1)
    ensures |t[p := t[p].(cont := Running)]| == |t| && Prio(t[p := t[p].(cont := Running)]) == Prio(t)
  {
    hide ListsOk, WaitersOk, WaitersBut, OrderOk, FamilyBut, ContOk, QueuesOk, ValuesOk, TableOk, AgreeBut;
    hide Sts, Prio, Wake, Parents, Children, Killed, Retvals, Conts;
    var pr := t[p].(cont := Running);
    Fields(t, p);
    Projected(t, p, pr);
    SamePlain(t, p, pr);
    SameValue(Sts(t), p, pr.status);
    SameValue(Parents(t), p, pr.parent);
    SameValue(Children(t), p, pr.children);
    AgreesSelf(Sts(t), p);
    AgreesUpdate(Conts(t), p, Running);
    WaitersUnlink(qs, Sts(t), Conts(t), p);
    WaitersElsewhere(qs, Sts(t), Sts(t), Conts(t), Conts(t)[p := Running], p);
    ContMove(Sts(t), Sts(t), Children(t), Conts(t), Conts(t)[p := Running], p);
    ContinueTable(Sts(t), Prio(t), Conts(t), p);
    SameSize(t, t[p := pr]);
  }

  lemma ContinueTable(st: map<int, Status>, prio: map<int, int>, cont: map<int, Cont>, p: int)
    requires TableOk(st, prio, cont, p) && p != 0
    ensures TableOk(st, prio, cont[p := Running], p)
  {}

  // ---- A process is created

  lemma BornKeeps(t: Table, ready: seq<int>, asleep: seq<int>, dying: seq<int>, zombie: seq<int>, blocked: seq<int>,
                  qs: map<int, Queue>, due: map<int, int>, sent: map<int, seq<int>>, got: map<int, seq<int>>, active: int,
                  p: int, prio: int)
    requires Core(t, ready, asleep, dying, zombie, blocked, qs, due, sent, got, active, -1)
    requires p !in t && 0 < p < MAXNPROC && 0 <= prio < WORD && active in t && t[active].status == Elected
    ensures var t' := Born(t, p, prio, active);
            Core(t', Insert(ready, Prio(t'), p), asleep, dying, zombie, blocked, qs, due, sent, got, active, -1)
    ensures |Born(t, p, prio, active)| == |t| + 1
  {
    BornFields(t, p, prio, active);
    var t' := Born(t, p, prio, active);
    BornLists(t, ready, asleep, dying, zombie, blocked, qs, p, prio, active);
    BornRest(t, ready, asleep, dying, zombie, blocked, qs, due, sent, got, active, p, prio);
    hide ListsOk, WaitersOk, OrderOk, FamilyBut, ContOk, QueuesOk, ValuesOk, TableOk;
    hide Sts, Prio, Wake, Parents, Children, Killed, Retvals, Conts, Born;
  }

  // The new record, and its place among its parent's children (process 0 keeps no list).
  function Born(t: Table, p: int, prio: int, parent: int): Table
    requires parent in t
  {
    var key := Prio(t)[p := prio];
    (if parent == 0 then t else t[parent := t[parent].(children := Insert(t[parent].children, key, p))])
      [p := Proc(Ready, prio, 0, parent, [], false, 0, Running)]
  }

  lemma BornFields(t: Table, p: int, prio: int, parent: int)
    requires parent in t && p !in t
    ensures var t' := Born(t, p, prio, parent);
            && Sts(t') == Sts(t)[p := Ready] && Prio(t') == Prio(t)[p := prio] && Wake(t') == Wake(t)[p := 0]
            && Parents(t') == Parents(t)[p := parent] && Children(t') == Adopt(Children(t), Prio(t)[p := prio], p, parent)
            && Killed(t') == Killed(t)[p := false] && Retvals(t') == Retvals(t)[p := 0] && Conts(t') == Conts(t)[p := Running]
            && |t'| == |t| + 1
  {
    hide Insert, Sts, Prio, Wake, Parents, Children, Killed, Retvals, Conts;
    var pr := Proc(Ready, prio, 0, parent, [], false, 0, Running);
    var key := Prio(t)[p := prio];
    var t1 := if parent == 0 then t else t[parent := t[parent].(children := Insert(t[parent].children, key, p))];
    if parent != 0 {
      Fields(t, parent);
      Projected(t, parent, t1[parent]);
      SameValue(Sts(t), parent, t[parent].status);
      SameValue(Prio(t), parent, t[parent].priority);
      SameValue(Wake(t), parent, t[parent].wakeUp);
      SameValue(Parents(t), parent, t[parent].parent);
      SameValue(Killed(t), parent, t[parent].killed);
      SameValue(Retvals(t), parent, t[parent].retval);
      SameValue(Conts(t), parent, t[parent].cont);
    }
    Projected(t1, p, pr);
    assert t1.Keys == t.Keys && t1[p := pr].Keys == t.Keys + {p};
    assert |t1[p := pr].Keys| == |t1[p := pr]| && |t.Keys| == |t|;
  }

  lemma BornLists(t: Table, ready: seq<int>, asleep: seq<int>, dying: seq<int>, zombie: seq<int>, blocked: seq<int>,
                  qs: map<int, Queue>, p: int, prio: int, parent: int)
    requires ListsOk(ready, asleep, dying, zombie, blocked, Sts(t)) && WaitersOk(qs, Sts(t), Conts(t))
    requires OrderOk(ready, asleep, zombie, blocked, qs, Prio(t), Wake(t))
    requires parent in t && p !in t
    ensures var t' := Born(t, p, prio, parent);
            && ListsOk(Insert(ready, Prio(t'), p), asleep, dying, zombie, blocked, Sts(t'))
            && WaitersOk(qs, Sts(t'), Conts(t'))
            && OrderOk(Insert(ready, Prio(t'), p), asleep, zombie, blocked, qs, Prio(t'), Wake(t'))
  {
    hide ListsOk, ListsBut, WaitersOk, WaitersBut, OrderOk, Without, Insert, UnlinkQueues, AgreeBut, Born;
    hide Sts, Prio, Wake, Parents, Children, Killed, Retvals, Conts;
    BornFields(t, p, prio, parent);
    var t' := Born(t, p, prio, parent);
    Unlisted(ready, asleep, dying, zombie, blocked, qs, Sts(t), Conts(t), p);
    AgreesUpdate(Sts(t), p, Ready);
    AgreesUpdate(Conts(t), p, Running);
    AgreesUpdate(Prio(t), p, prio);
    AgreesUpdate(Wake(t), p, 0);
    Moved(ready, asleep, dying, zombie, blocked, qs, Sts(t), Sts(t'), Conts(t), Conts(t'), Prio(t), Prio(t'), Wake(t), Wake(t'), p);
  }

  lemma BornRest(t: Table, ready: seq<int>, asleep: seq<int>, dying: seq<int>, zombie: seq<int>, blocked: seq<int>,
                 qs: map<int, Queue>, due: map<int, int>, sent: map<int, seq<int>>, got: map<int, seq<int>>, active: int,
                 p: int, prio: int)
    requires Core(t, ready, asleep, dying, zombie, blocked, qs, due, sent, got, active, -1)
    requires p !in t && 0 < p < MAXNPROC && 0 <= prio < WORD && active in t && t[active].status == Elected
    ensures var t' := Born(t, p, prio, active);
            && FamilyBut(Sts(t'), Parents(t'), Children(t'), -1)
            && ContOk(Sts(t'), Children(t'), Conts(t'))
            && ValuesOk(Sts(t'), Killed(t'), Retvals(t'), due)
            && TableOk(Sts(t'), Prio(t'), Conts(t'), active)
  {
    hide ListsOk, WaitersOk, OrderOk, FamilyBut, FamilyOk, ContOk, QueuesOk, ValuesOk, TableOk, Born, Adopt;
    hide Sts, Prio, Wake, Parents, Children, Killed, Retvals, Conts;
    BornFields(t, p, prio, active);
    Fields(t, active);
    FamilyIsOk(Sts(t), Parents(t), Children(t), active, Prio(t), Conts(t));
    FamilyBorn(Sts(t), Parents(t), Children(t), p, active, Prio(t)[p := prio]);
    var t' := Born(t, p, prio, active);
    FamilyPart(Sts(t'), Parents(t'), Children(t'));
    ContBorn(Sts(t), Children(t), Children(t'), Conts(t), p, active, Prio(t)[p := prio]);
    BornTable(Sts(t), Prio(t), Conts(t), active, p, prio);
    BornValues(Sts(t), Killed(t), Retvals(t), due, p);
  }

  lemma BornTable(st: map<int, Status>, prio: map<int, int>, cont: map<int, Cont>, active: int, p: int, v: int)
    requires TableOk(st, prio, cont, active) && 0 < p < MAXNPROC && p !in st && 0 <= v < WORD
    ensures TableOk(st[p := Ready], prio[p := v], cont[p := Running], active)
  {}

  lemma BornValues(st: map<int, Status>, killed: map<int, bool>, retval: map<int, int>, due: map<int, int>, p: int)
    requires ValuesOk(st, killed, retval, due) && p !in st
    ensures ValuesOk(st[p := Ready], killed[p := false], retval[p := 0], due)
  {}

  // ---- Steps on a message queue

  // Only the ring, or nothing at all, changes.
  lemma RingKeeps(t: Table, ready: seq<int>, asleep: seq<int>, dying: seq<int>, zombie: seq<int>, blocked: seq<int>,
                  qs: map<int, Queue>, due: map<int, int>, sent: map<int, seq<int>>, got: map<int, seq<int>>, active: int,
                  f: int, q: Queue, s: seq<int>, g: seq<int>)
    requires Core(t, ready, asleep, dying, zombie, blocked, qs, due, sent, got, active, -1)
    requires f in qs && q.waiters == qs[f].waiters && QueueOk(q, s, g)
    ensures Core(t, ready, asleep, dying, zombie, blocked, qs[f := q], due, sent[f := s], got[f := g], active, -1)
    ensures |qs[f := q]| == |qs|
  {
    hide ListsOk, WaitersOk, OrderOk, FamilyBut, ContOk, ValuesOk, TableOk, QueueOk;
    hide Sts, Prio, Wake, Parents, Children, Killed, Retvals, Conts;
    WaitersRing(qs, Sts(t), Conts(t), f, q);
    OrderRing(ready, asleep, zombie, blocked, qs, Prio(t), Wake(t), f, q);
    SameSize(qs, qs[f := q]);
  }

  // The last waiter of a queue is in no other queue's list.
  lemma LastWaiter(t: Table, ready: seq<int>, asleep: seq<int>, dying: seq<int>, zombie: seq<int>, blocked: seq<int>,
                   qs: map<int, Queue>, due: map<int, int>, sent: map<int, seq<int>>, got: map<int, seq<int>>, active: int, f: int)
    requires Core(t, ready, asleep, dying, zombie, blocked, qs, due, sent, got, active, -1)
    requires f in qs && qs[f].waiters != []
    ensures var w := qs[f].waiters; var p := w[|w| - 1];
            && p in t && t[p].status == OnQueue && Names(t[p].cont, f)
            && UnlinkQueues(qs, p) == qs[f := qs[f].(waiters := w[..|w| - 1])]
            && MoveFits(t, p, t[p].(status := Ready), OnQueue)
            && forall y :: y in w ==> y in t && t[y].priority <= t[p].priority
  {
    hide ListsOk, FamilyBut, QueuesOk, ValuesOk;
    var w := qs[f].waiters;
    var p := w[|w| - 1];
    assert p in w;
    Fields(t, p);
    LastWaiterFits(t, ready, asleep, dying, zombie, blocked, qs, due, sent, got, active, p);
    LastWaiterOnly(qs, Sts(t), Conts(t), f);
    forall y | y in w ensures y in t && t[y].priority <= t[p].priority {
      var i :| 0 <= i < |w| && w[i] == y;
      assert Key(Prio(t), w[i]) <= Key(Prio(t), w[|w| - 1]);
      assert y in Sts(t);
    }
  }

  lemma LastWaiterFits(t: Table, ready: seq<int>, asleep: seq<int>, dying: seq<int>, zombie: seq<int>, blocked: seq<int>,
                       qs: map<int, Queue>, due: map<int, int>, sent: map<int, seq<int>>, got: map<int, seq<int>>, active: int, p: int)
    requires Core(t, ready, asleep, dying, zombie, blocked, qs, due, sent, got, active, -1)
    requires p in t && t[p].status == OnQueue
    ensures MoveFits(t, p, t[p].(status := Ready), OnQueue)
  {
    hide ListsOk, WaitersOk, OrderOk, FamilyBut, QueuesOk, ValuesOk;
    Fields(t, p);
    assert ContFits(Sts(t), Children(t), Conts(t)[p], p);
  }

  lemma LastWaiterOnly(qs: map<int, Queue>, st: map<int, Status>, cont: map<int, Cont>, f: int)
    requires WaitersOk(qs, st, cont) && f in qs && qs[f].waiters != []
    ensures var w := qs[f].waiters; UnlinkQueues(qs, w[|w| - 1]) == qs[f := qs[f].(waiters := w[..|w| - 1])]
  {
    hide Without;
    var w := qs[f].waiters;
    var p := w[|w| - 1];
    assert p in w;
    var u := UnlinkQueues(qs, p);
    LastOut(w);
    forall g | g in qs && g != f ensures u[g] == qs[g] {
      assert p in qs[g].waiters ==> Names(cont[p], g);
      assert Names(cont[p], f);
      UnlinkedQueue(qs, p, g);
    }
  }

  lemma LastOut(w: seq<int>)
    requires NoDup(w) && w != []
    ensures Without(w, w[|w| - 1]) == w[..|w| - 1]
  {
    IndexOfIs(w, w[|w| - 1], |w| - 1);
  }

  // A queue nobody waits on disappears; a new one appears.
  lemma QueueGone(t: Table, ready: seq<int>, asleep: seq<int>, dying: seq<int>, zombie: seq<int>, blocked: seq<int>,
                  qs: map<int, Queue>, due: map<int, int>, sent: map<int, seq<int>>, got: map<int, seq<int>>, active: int, f: int)
    requires Core(t, ready, asleep, dying, zombie, blocked, qs, due, sent, got, active, -1)
    requires f in qs && qs[f].waiters == []
    ensures Core(t, ready, asleep, dying, zombie, blocked, qs - {f}, due, sent, got, active, -1)
    ensures |qs - {f}| == |qs| - 1
  {
    hide ListsOk, WaitersOk, FamilyBut, ContOk, ValuesOk, TableOk;
    hide Sts, Prio, Wake, Parents, Children, Killed, Retvals, Conts;
    GoneWaiters(qs, Sts(t), Conts(t), f);
    CountDown(qs, f);
  }

  lemma GoneWaiters(qs: map<int, Queue>, st: map<int, Status>, cont: map<int, Cont>, f: int)
    requires WaitersOk(qs, st, cont) && f in qs && qs[f].waiters == []
    ensures WaitersOk(qs - {f}, st, cont)
  {
    forall y | y in st && st[y] == OnQueue ensures IsWaiting(qs - {f}, cont[y], y) {
      assert IsWaiting(qs, cont[y], y);
    }
  }

  lemma QueueNew(t: Table, ready: seq<int>, asleep: seq<int>, dying: seq<int>, zombie: seq<int>, blocked: seq<int>,
                 qs: map<int, Queue>, due: map<int, int>, sent: map<int, seq<int>>, got: map<int, seq<int>>, active: int,
                 f: int, q: Queue)
    requires Core(t, ready, asleep, dying, zombie, blocked, qs, due, sent, got, active, -1)
    requires f !in qs && 0 <= f < NBQUEUE && q.waiters == [] && QueueOk(q, [], [])
    ensures Core(t, ready, asleep, dying, zombie, blocked, qs[f := q], due, sent[f := []], got[f := []], active, -1)
    ensures |qs[f := q]| == |qs| + 1
  {
    hide ListsOk, WaitersOk, OrderOk, FamilyBut, ContOk, ValuesOk, TableOk, QueueOk, QueuesOk;
    hide Sts, Prio, Wake, Parents, Children, Killed, Retvals, Conts;
    NewWaiters(qs, Sts(t), Conts(t), f, q);
    NewOrder(ready, asleep, zombie, blocked, qs, Prio(t), Wake(t), f, q);
    NewQueue(qs, sent, got, f, q);
  }

  lemma NewOrder(ready: seq<int>, asleep: seq<int>, zombie: seq<int>, blocked: seq<int>, qs: map<int, Queue>,
                 prio: map<int, int>, wake: map<int, int>, f: int, q: Queue)
    requires OrderOk(ready, asleep, zombie, blocked, qs, prio, wake) && q.waiters == []
    ensures OrderOk(ready, asleep, zombie, blocked, qs[f := q], prio, wake)
  {}

  lemma NewQueue(qs: map<int, Queue>, sent: map<int, seq<int>>, got: map<int, seq<int>>, f: int, q: Queue)
    requires QueuesOk(qs, sent, got) && f !in qs && 0 <= f < NBQUEUE && QueueOk(q, [], [])
    ensures QueuesOk(qs[f := q], sent[f := []], got[f := []])
    ensures |qs[f := q]| == |qs| + 1
  {
    hide QueueOk;
    assert qs[f := q].Keys == qs.Keys + {f};
    assert |qs[f := q].Keys| == |qs[f := q]| && |qs.Keys| == |qs|;
  }

  lemma NewWaiters(qs: map<int, Queue>, st: map<int, Status>, cont: map<int, Cont>, f: int, q: Queue)
    requires WaitersOk(qs, st, cont) && f !in qs && q.waiters == []
    ensures WaitersOk(qs[f := q], st, cont)
  {
    forall y | y in st && st[y] == OnQueue ensures IsWaiting(qs[f := q], cont[y], y) {
      assert IsWaiting(qs, cont[y], y);
    }
  }
}
