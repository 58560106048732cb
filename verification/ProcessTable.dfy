// The process records, the invariant of the whole kernel state as one predicate over its
// values, and the steps that keep it.
module ProcessTable {

  import opened MessageRing
  import opened PriorityList
  import opened Processes
  import opened Words

  const MAXNPROC := 100

  datatype Proc = Proc(status: Status, priority: int, wakeUp: int, parent: int, children: seq<int>,
                       killed: bool, retval: int, cont: Cont)

  type Table = map<int, Proc>

  function Sts(t: Table): (m: map<int, Status>)
    ensures m.Keys == t.Keys
  {
    map y | y in t :: t[y].status
  }

  function Prio(t: Table): (m: map<int, int>)
    ensures m.Keys == t.Keys
  {
    map y | y in t :: t[y].priority
  }

  function Wake(t: Table): (m: map<int, int>)
    ensures m.Keys == t.Keys
  {
    map y | y in t :: t[y].wakeUp
  }

  function Parents(t: Table): (m: map<int, int>)
    ensures m.Keys == t.Keys
  {
    map y | y in t :: t[y].parent
  }

  function Children(t: Table): (m: map<int, seq<int>>)
    ensures m.Keys == t.Keys
  {
    map y | y in t :: t[y].children
  }

  function Killed(t: Table): (m: map<int, bool>)
    ensures m.Keys == t.Keys
  {
    map y | y in t :: t[y].killed
  }

  function Retvals(t: Table): (m: map<int, int>)
    ensures m.Keys == t.Keys
  {
    map y | y in t :: t[y].retval
  }

  function Conts(t: Table): (m: map<int, Cont>)
    ensures m.Keys == t.Keys
  {
    map y | y in t :: t[y].cont
  }

  lemma Projected(t: Table, p: int, pr: Proc)
    ensures Sts(t[p := pr]) == Sts(t)[p := pr.status] && Prio(t[p := pr]) == Prio(t)[p := pr.priority]
    ensures Wake(t[p := pr]) == Wake(t)[p := pr.wakeUp] && Parents(t[p := pr]) == Parents(t)[p := pr.parent]
    ensures Children(t[p := pr]) == Children(t)[p := pr.children] && Killed(t[p := pr]) == Killed(t)[p := pr.killed]
    ensures Retvals(t[p := pr]) == Retvals(t)[p := pr.retval] && Conts(t[p := pr]) == Conts(t)[p := pr.cont]
  {
    hide Sts, Prio, Wake, Parents, Children, Killed, Retvals, Conts;
    Projected1(t, p, pr);
    Projected2(t, p, pr);
    Projected3(t, p, pr);
  }

  lemma Projected1(t: Table, p: int, pr: Proc)
    ensures Sts(t[p := pr]) == Sts(t)[p := pr.status] && Prio(t[p := pr]) == Prio(t)[p := pr.priority]
    ensures Wake(t[p := pr]) == Wake(t)[p := pr.wakeUp]
  {}

  lemma Projected2(t: Table, p: int, pr: Proc)
    ensures Parents(t[p := pr]) == Parents(t)[p := pr.parent]
    ensures Children(t[p := pr]) == Children(t)[p := pr.children] && Killed(t[p := pr]) == Killed(t)[p := pr.killed]
  {}

  lemma Projected3(t: Table, p: int, pr: Proc)
    ensures Retvals(t[p := pr]) == Retvals(t)[p := pr.retval] && Conts(t[p := pr]) == Conts(t)[p := pr.cont]
  {}

  lemma ProjectedMinus(t: Table, p: int)
    ensures Sts(t - {p}) == Sts(t) - {p} && Prio(t - {p}) == Prio(t) - {p} && Wake(t - {p}) == Wake(t) - {p}
    ensures Parents(t - {p}) == Parents(t) - {p} && Children(t - {p}) == Children(t) - {p}
    ensures Killed(t - {p}) == Killed(t) - {p} && Retvals(t - {p}) == Retvals(t) - {p} && Conts(t - {p}) == Conts(t) - {p}
  {}

  // A field that keeps its value.
  lemma SameValue<T>(m: map<int, T>, p: int, v: T)
    requires p in m && m[p] == v
    ensures m[p := v] == m
  {}

  // ---- The invariant

  ghost predicate TableOk(st: map<int, Status>, prio: map<int, int>, cont: map<int, Cont>, active: int) {
    && (forall y :: y in st ==> 0 <= y < MAXNPROC)
    && (forall y :: y in prio ==> 0 <= prio[y] < WORD)
    && active in st && (forall y :: y in st && st[y] == Elected ==> y == active)
    && 0 in st && (st[0] == Elected || st[0] == Ready) && 0 in cont && cont[0] == Running
  }

  ghost predicate TopOk(ready: seq<int>, prio: map<int, int>, active: int) {
    forall y :: y in ready ==> Key(prio, y) <= Key(prio, active)
  }

  // Holds whenever scheduling() is called; q is a terminated process whose children are
  // still to be dealt with, or -1.
  ghost predicate Core(t: Table, ready: seq<int>, asleep: seq<int>, dying: seq<int>, zombie: seq<int>, blocked: seq<int>,
                       qs: map<int, Queue>, due: map<int, int>, sent: map<int, seq<int>>, got: map<int, seq<int>>,
                       active: int, q: int) {
    && ListsOk(ready, asleep, dying, zombie, blocked, Sts(t))
    && WaitersOk(qs, Sts(t), Conts(t))
    && OrderOk(ready, asleep, zombie, blocked, qs, Prio(t), Wake(t))
    && FamilyBut(Sts(t), Parents(t), Children(t), q)
    && ContOk(Sts(t), Children(t), Conts(t))
    && ValuesOk(Sts(t), Killed(t), Retvals(t), due)
    && QueuesOk(qs, sent, got)
    && TableOk(Sts(t), Prio(t), Conts(t), active)
  }

  // ---- A live process changes lists

  // p, in the list of status `was`, gets the record pr.
  ghost predicate MoveFits(t: Table, p: int, pr: Proc, was: Status) {
    && p in t && t[p].status == was && !Over(was)
    && pr == t[p].(status := pr.status, priority := pr.priority, wakeUp := pr.wakeUp, cont := pr.cont)
    && (pr.status == Ready || pr.status == Elected || (p != 0 && (pr.status == Asleep || pr.status == Blocked)))
    && (pr.status == Elected ==> forall y :: y in t ==> t[y].status != Elected)
    && 0 <= pr.priority < WORD && (p == 0 ==> pr.cont == Running)
    && ContFits(Sts(t[p := pr]), Children(t), pr.cont, p)
  }

  function Unlist(list: seq<int>, s: Status, was: Status, p: int): seq<int> {
    if s == was then Without(list, p) else list
  }

  function Unqueue(qs: map<int, Queue>, was: Status, p: int): map<int, Queue> {
    if was == OnQueue then UnlinkQueues(qs, p) else qs
  }

  function Relisted(list: seq<int>, s: Status, was: Status, s': Status, key: map<int, int>, p: int): seq<int> {
    Relist(Unlist(list, s, was, p), s, s', key, p)
  }

  // Out of one list and into another, and the invariant holds again.
  lemma MoveKeeps(t: Table, ready: seq<int>, asleep: seq<int>, dying: seq<int>, zombie: seq<int>, blocked: seq<int>,
                  qs: map<int, Queue>, due: map<int, int>, sent: map<int, seq<int>>, got: map<int, seq<int>>, active: int,
                  p: int, pr: Proc, was: Status)
    requires Core(t, ready, asleep, dying, zombie, blocked, qs, due, sent, got, active, -1)
    requires MoveFits(t, p, pr, was)
    ensures var t', s := t[p := pr], pr.status;
            Core(t', Relisted(ready, Ready, was, s, Prio(t'), p), Relisted(asleep, Asleep, was, s, Wake(t'), p), dying, zombie,
                 Relisted(blocked, Blocked, was, s, Prio(t'), p), Unqueue(qs, was, p), due, sent, got,
                 if s == Elected then p else active, -1)
    ensures |t[p := pr]| == |t|
  {
    MoveLists(t, ready, asleep, dying, zombie, blocked, qs, p, pr, was);
    MoveRest(t, ready, asleep, dying, zombie, blocked, qs, due, sent, got, active, p, pr, was);
    hide ListsOk, WaitersOk, OrderOk, FamilyBut, ContOk, QueuesOk, ValuesOk, TableOk, MoveFits;
    hide Sts, Prio, Wake, Parents, Children, Killed, Retvals, Conts, Relisted, Unqueue;
  }

  lemma MoveLists(t: Table, ready: seq<int>, asleep: seq<int>, dying: seq<int>, zombie: seq<int>, blocked: seq<int>,
                  qs: map<int, Queue>, p: int, pr: Proc, was: Status)
    requires ListsOk(ready, asleep, dying, zombie, blocked, Sts(t)) && WaitersOk(qs, Sts(t), Conts(t))
    requires OrderOk(ready, asleep, zombie, blocked, qs, Prio(t), Wake(t))
    requires MoveFits(t, p, pr, was)
    ensures var t', s := t[p := pr], pr.status;
            var ready', asleep', blocked' :=
              Relisted(ready, Ready, was, s, Prio(t'), p), Relisted(asleep, Asleep, was, s, Wake(t'), p),
              Relisted(blocked, Blocked, was, s, Prio(t'), p);
            && ListsOk(ready', asleep', dying, zombie, blocked', Sts(t'))
            && WaitersOk(Unqueue(qs, was, p), Sts(t'), Conts(t'))
            && OrderOk(ready', asleep', zombie, blocked', Unqueue(qs, was, p), Prio(t'), Wake(t'))
  {
    hide ListsOk, ListsBut, WaitersOk, WaitersBut, OrderOk, Without, Insert, UnlinkQueues, ContFits, AgreeBut;
    Projected(t, p, pr);
    ListsUnlink(ready, asleep, dying, zombie, blocked, Sts(t), p);
    WaitersUnlink(qs, Sts(t), Conts(t), p);
    AgreesUpdate(Sts(t), p, pr.status);
    AgreesUpdate(Conts(t), p, pr.cont);
    AgreesUpdate(Prio(t), p, pr.priority);
    AgreesUpdate(Wake(t), p, pr.wakeUp);
    var t' := t[p := pr];
    Moved(ready, asleep, dying, zombie, blocked, qs, Sts(t), Sts(t'), Conts(t), Conts(t'), Prio(t), Prio(t'), Wake(t), Wake(t'), p);
  }

  lemma MoveRest(t: Table, ready: seq<int>, asleep: seq<int>, dying: seq<int>, zombie: seq<int>, blocked: seq<int>,
                 qs: map<int, Queue>, due: map<int, int>, sent: map<int, seq<int>>, got: map<int, seq<int>>, active: int,
                 p: int, pr: Proc, was: Status)
    requires Core(t, ready, asleep, dying, zombie, blocked, qs, due, sent, got, active, -1)
    requires MoveFits(t, p, pr, was)
    ensures var t' := t[p := pr];
            && FamilyBut(Sts(t'), Parents(t'), Children(t'), -1)
            && ContOk(Sts(t'), Children(t'), Conts(t'))
            && ValuesOk(Sts(t'), Killed(t'), Retvals(t'), due)
            && QueuesOk(Unqueue(qs, was, p), sent, got)
            && TableOk(Sts(t'), Prio(t'), Conts(t'), if pr.status == Elected then p else active)
            && |t'| == |t|
  {
    hide ListsOk, WaitersOk, OrderOk, FamilyBut, ContOk, ContFits, QueuesOk, ValuesOk, TableOk, UnlinkQueues, AgreeBut;
    hide Sts, Prio, Wake, Parents, Children, Killed, Retvals, Conts;
    var t' := t[p := pr];
    Projected(t, p, pr);
    Fields(t, p);
    MoveTable(t, active, p, pr, was);
    SameValue(Parents(t), p, pr.parent);
    SameValue(Children(t), p, pr.children);
    SameValue(Killed(t), p, pr.killed);
    SameValue(Retvals(t), p, pr.retval);
    AgreesUpdate(Sts(t), p, pr.status);
    AgreesUpdate(Conts(t), p, pr.cont);
    FamilyAlive(Sts(t), Sts(t'), Parents(t), Children(t), p, -1);
    ContMove(Sts(t), Sts(t'), Children(t), Conts(t), Conts(t'), p);
    ValuesMove(Sts(t), Killed(t), Retvals(t), due, p, pr.status);
    QueuesUnlink(qs, sent, got, p);
    SameSize(t, t');
  }

  lemma Fields(t: Table, p: int)
    requires p in t
    ensures Sts(t)[p] == t[p].status && Prio(t)[p] == t[p].priority && Wake(t)[p] == t[p].wakeUp
    ensures Parents(t)[p] == t[p].parent && Children(t)[p] == t[p].children
    ensures Killed(t)[p] == t[p].killed && Retvals(t)[p] == t[p].retval && Conts(t)[p] == t[p].cont
  {}

  lemma MoveTable(t: Table, active: int, p: int, pr: Proc, was: Status)
    requires TableOk(Sts(t), Prio(t), Conts(t), active) && MoveFits(t, p, pr, was)
    ensures TableOk(Sts(t[p := pr]), Prio(t[p := pr]), Conts(t[p := pr]), if pr.status == Elected then p else active)
  {
    hide ContFits, Prio, Conts, Wake, Parents, Children, Killed, Retvals;
    Projected(t, p, pr);
  }

  lemma SameSize<T>(m: map<int, T>, m': map<int, T>)
    requires m'.Keys == m.Keys
    ensures |m'| == |m|
  {
    assert |m.Keys| == |m| && |m'.Keys| == |m'|;
  }

  // No zombie appears or disappears.
  lemma ValuesMove(st: map<int, Status>, killed: map<int, bool>, retval: map<int, int>, due: map<int, int>, p: int, s: Status)
    requires ValuesOk(st, killed, retval, due) && p in st && st[p] != Zombie && s != Zombie
    ensures ValuesOk(st[p := s], killed, retval, due)
  {
    assert st[p := s].Keys == st.Keys;
  }

  // A process whose time has come.
  lemma AsleepFits(t: Table, ready: seq<int>, asleep: seq<int>, dying: seq<int>, zombie: seq<int>, blocked: seq<int>,
                   qs: map<int, Queue>, due: map<int, int>, sent: map<int, seq<int>>, got: map<int, seq<int>>, active: int, p: int)
    requires Core(t, ready, asleep, dying, zombie, blocked, qs, due, sent, got, active, -1)
    requires p in t && t[p].status == Asleep
    ensures MoveFits(t, p, t[p].(status := Ready, wakeUp := 0), Asleep)
  {
    hide ListsOk, WaitersOk, OrderOk, FamilyBut, QueuesOk, ValuesOk;
    assert ContFits(Sts(t), Children(t), Conts(t)[p], p);
    assert Prio(t)[p] == t[p].priority;
  }

  // The running process is put back, or a ready one is elected while none runs.
  lemma ElectFits(t: Table, ready: seq<int>, asleep: seq<int>, dying: seq<int>, zombie: seq<int>, blocked: seq<int>,
                  qs: map<int, Queue>, due: map<int, int>, sent: map<int, seq<int>>, got: map<int, seq<int>>, active: int,
                  p: int, s: Status, was: Status)
    requires Core(t, ready, asleep, dying, zombie, blocked, qs, due, sent, got, active, -1)
    requires p in t && t[p].status == was
    requires (was == Elected && s == Ready) || (was == Ready && s == Elected && active in t && t[active].status != Elected)
    ensures MoveFits(t, p, t[p].(status := s), was)
  {
    hide ListsOk, WaitersOk, OrderOk, FamilyBut, QueuesOk, ValuesOk;
    assert ContFits(Sts(t), Children(t), Conts(t)[p], p);
    assert Prio(t)[p] == t[p].priority;
    forall y | y in t && t[active].status != Elected ensures t[y].status != Elected {
      assert Sts(t)[y] == t[y].status;
    }
    if HasZombie(Sts(t), Children(t)[p]) {
      var l := Children(t)[p];
      var i :| 0 <= i < |l| && l[i] in Sts(t) && Sts(t)[l[i]] == Zombie;
      assert Sts(t[p := t[p].(status := s)])[l[i]] == Zombie;
    }
  }

  // ---- A dying process is freed

  lemma Buried(t: Table, ready: seq<int>, asleep: seq<int>, dying: seq<int>, zombie: seq<int>, blocked: seq<int>,
               qs: map<int, Queue>, due: map<int, int>, sent: map<int, seq<int>>, got: map<int, seq<int>>, active: int, p: int)
    requires Core(t, ready, asleep, dying, zombie, blocked, qs, due, sent, got, active, -1)
    requires p in t && t[p].status == Dying && p != active
    ensures Core(t - {p}, ready, asleep, Without(dying, p), zombie, blocked, qs, due, sent, got, active, -1)
    ensures |t - {p}| == |t| - 1
  {
    hide ListsOk, WaitersOk, OrderOk, FamilyBut, FamilyOk, ContOk, QueuesOk, ValuesOk, TableOk, Without, UnlinkQueues;
    hide Sts, Prio, Wake, Parents, Children, Killed, Retvals, Conts;
    ProjectedMinus(t, p);
    Fields(t, p);
    BuriedTable(Sts(t), Prio(t), Conts(t), active, p);
    BuriedLists(ready, asleep, dying, zombie, blocked, qs, Sts(t), Conts(t), Prio(t), Wake(t), p);
    BuriedValues(Sts(t), Killed(t), Retvals(t), due, p);
    FamilyIsOk(Sts(t), Parents(t), Children(t), active, Prio(t), Conts(t));
    FamilyBuried(Sts(t), Parents(t), Children(t), p);
    FamilyPart(Sts(t - {p}), Parents(t - {p}), Children(t - {p}));
    ContBuried(Sts(t), Children(t), Conts(t), p);
    CountDown(t, p);
  }

  lemma CountDown<T>(m: map<int, T>, p: int)
    requires p in m
    ensures |m - {p}| == |m| - 1
  {
    assert (m - {p}).Keys == m.Keys - {p};
    assert |(m - {p}).Keys| == |m - {p}| && |m.Keys| == |m|;
  }

  lemma FamilyIsOk(st: map<int, Status>, parent: map<int, int>, children: map<int, seq<int>>, active: int,
                   prio: map<int, int>, cont: map<int, Cont>)
    requires FamilyBut(st, parent, children, -1) && TableOk(st, prio, cont, active)
    ensures FamilyOk(st, parent, children)
  {}

  lemma FamilyPart(st: map<int, Status>, parent: map<int, int>, children: map<int, seq<int>>)
    requires FamilyOk(st, parent, children)
    ensures FamilyBut(st, parent, children, -1)
  {}

  lemma BuriedTable(st: map<int, Status>, prio: map<int, int>, cont: map<int, Cont>, active: int, p: int)
    requires TableOk(st, prio, cont, active) && p in st && st[p] == Dying && p != active
    ensures TableOk(st - {p}, prio - {p}, cont - {p}, active)
  {}

  lemma BuriedLists(ready: seq<int>, asleep: seq<int>, dying: seq<int>, zombie: seq<int>, blocked: seq<int>, qs: map<int, Queue>,
                    st: map<int, Status>, cont: map<int, Cont>, prio: map<int, int>, wake: map<int, int>, p: int)
    requires ListsOk(ready, asleep, dying, zombie, blocked, st) && WaitersOk(qs, st, cont)
    requires OrderOk(ready, asleep, zombie, blocked, qs, prio, wake) && p in st && st[p] == Dying
    ensures ListsOk(ready, asleep, Without(dying, p), zombie, blocked, st - {p}) && WaitersOk(qs, st - {p}, cont - {p})
    ensures OrderOk(ready, asleep, zombie, blocked, qs, prio - {p}, wake - {p})
  {
    hide ListsOk, ListsBut, WaitersOk, WaitersBut, OrderOk, Without, UnlinkQueues;
    ListsUnlink(ready, asleep, dying, zombie, blocked, st, p);
    WaitersUnlink(qs, st, cont, p);
    ListsDrop(ready, asleep, Without(dying, p), zombie, blocked, st, p);
    WaitersElsewhere(qs, st, st - {p}, cont, cont - {p}, p);
    OrderOff(ready, asleep, dying, zombie, blocked, qs, st, cont, prio, prio - {p}, wake, wake - {p}, p);
  }

  lemma BuriedValues(st: map<int, Status>, killed: map<int, bool>, retval: map<int, int>, due: map<int, int>, p: int)
    requires ValuesOk(st, killed, retval, due) && p in st && st[p] == Dying
    ensures ValuesOk(st - {p}, killed - {p}, retval - {p}, due)
  {}

  // ---- The effect of scheduling() on the process records

  predicate Late(pr: Proc, clock: int) {
    pr.status == Asleep && clock > pr.wakeUp
  }

  function Woken(pr: Proc, clock: int): Proc {
    if Late(pr, clock) then pr.(status := Ready, wakeUp := 0) else pr
  }

  function StoodDown(pr: Proc): Proc {
    if pr.status == Elected then pr.(status := Ready) else pr
  }

  function Turned(pr: Proc, elected: bool): Proc {
    if elected then pr.(status := Elected) else StoodDown(pr)
  }

  // Only dying processes go, never the one that called; the others keep their record, except
  // that the caller, if it still runs, and the late sleepers are ready, and then one of the
  // ready processes is elected.
  ghost predicate Resched(t: Table, active: int, clock: int, t': Table, active': int) {
    && active in t' && active' in t' && t'.Keys <= t.Keys
    && (forall y :: y in t && y !in t' ==> t[y].status == Dying)
    && (forall y :: y in t' ==> t'[y] == Turned(Woken(t[y], clock), y == active'))
    && StoodDown(Woken(t[active'], clock)).status == Ready
  }

  // The ready list with the running process put back behind its equals.
  function Candidates(ready: seq<int>, t: Table, active: int): seq<int>
    requires active in t
  {
    if t[active].status == Elected then Insert(ready, Prio(t), active) else ready
  }

  // Every record after Wakeup, seen from before.
  ghost predicate WokenUp(t: Table, t': Table, clock: int) {
    t'.Keys == t.Keys && forall y :: y in t ==> t'[y] == Woken(t[y], clock)
  }

  // Some dying processes are gone.
  ghost predicate Thinned(t: Table, t': Table) {
    && t'.Keys <= t.Keys && (forall y :: y in t' ==> t'[y] == t[y])
    && forall y :: y in t && y !in t' ==> t[y].status == Dying
  }

  lemma ThinnedStart(t: Table)
    ensures Thinned(t, t)
  {}

  lemma ThinnedStep(t: Table, t': Table, p: int)
    requires Thinned(t, t') && p in t' && t'[p].status == Dying
    ensures Thinned(t, t' - {p})
  {}

  // Turned by election.
  ghost predicate TurnedTo(t: Table, t': Table, active: int) {
    t'.Keys == t.Keys && active in t && StoodDown(t[active]).status == Ready && forall y :: y in t ==> t'[y] == Turned(t[y], y == active)
  }

  lemma ElectedTo(t: Table, current: int, next: int)
    requires current in t && next in t && (forall y :: y in t && t[y].status == Elected ==> y == current)
    requires StoodDown(t[next]).status == Ready
    ensures var t1 := t[current := StoodDown(t[current])];
            TurnedTo(t, t1[next := t1[next].(status := Elected)], next)
  {}

  lemma AllResched(t: Table, t1: Table, t2: Table, t': Table, active: int, clock: int, active': int)
    requires WokenUp(t, t1, clock) && Thinned(t1, t2) && TurnedTo(t2, t', active') && active in t2
    ensures Resched(t, active, clock, t', active')
  {
    forall y | y in t && y !in t' ensures t[y].status == Dying {
      assert t1[y] == Woken(t[y], clock);
    }
  }

  // ---- Waking the sleepers one by one

  ghost predicate WokenTo(t: Table, t': Table, woken: seq<int>, j: int)
    requires 0 <= j <= |woken|
  {
    t'.Keys == t.Keys && forall y :: y in t ==> t'[y] == if y in woken[..j] then t[y].(status := Ready, wakeUp := 0) else t[y]
  }

  lemma WokenAt(t: Table, t': Table, woken: seq<int>, j: int)
    requires NoDup(woken) && 0 <= j < |woken| && WokenTo(t, t', woken, j)
    requires forall y :: y in woken ==> y in t && t[y].status == Asleep
    ensures var p := woken[j]; p in t' && t'[p].status == Asleep
    ensures var p := woken[j]; WokenTo(t, t'[p := t'[p].(status := Ready, wakeUp := 0)], woken, j + 1)
  {
    var p := woken[j];
    assert p in woken && p !in woken[..j];
    assert woken[..j + 1] == woken[..j] + [p];
  }

  lemma WokenAll(t: Table, t': Table, woken: seq<int>, clock: int)
    requires WokenTo(t, t', woken, |woken|)
    requires forall y :: y in woken <==> y in t && Late(t[y], clock)
    ensures WokenUp(t, t', clock)
  {
    assert woken[..|woken|] == woken;
  }

  // ---- Places in the ready list

  // If nobody above x was added, x does not fall back.
  ghost predicate Patient(q: seq<int>, q': seq<int>, prio: map<int, int>, x: int) {
    x in q && x in q' && (forall y :: y in q' ==> Key(prio, y) <= Key(prio, x)) ==> Ahead(q', x) <= Ahead(q, x)
  }

  ghost predicate WaitOn(q: seq<int>, q': seq<int>, prio: map<int, int>) {
    forall x :: Patient(q, q', prio, x)
  }

  lemma WaitOnInsert(q: seq<int>, r: seq<int>, prio: map<int, int>, p: int)
    requires WaitOn(q, r, prio) && NoDup(r) && Sorted(r, prio) && p !in r && p !in q
    ensures WaitOn(q, Insert(r, prio, p), prio)
  {
    var r' := Insert(r, prio, p);
    InsertMembers(r, prio, p);
    forall x ensures Patient(q, r', prio, x) {
      if x in q && x in r' && (forall y :: y in r' ==> Key(prio, y) <= Key(prio, x)) {
        assert p in r';
        assert Patient(q, r, prio, x);
        InsertBehind(r, prio, p, x);
      }
    }
  }

  lemma WaitOnWithout(q: seq<int>, prio: map<int, int>, p: int)
    requires NoDup(q)
    ensures WaitOn(q, Without(q, p), prio)
  {
    WithoutMembers(q, p);
    forall x ensures Patient(q, Without(q, p), prio, x) {
      if x in q && x in Without(q, p) { WithoutAhead(q, p, x); }
    }
  }

  // While a call was at work, a ready process stayed ready or was terminated.
  ghost predicate Carried(q: seq<int>, q': seq<int>, t: Table) {
    && WaitOn(q, q', Prio(t))
    && forall x :: x in q ==> x in q' || (x in t && Over(t[x].status))
  }

  lemma CarriedSelf(q: seq<int>, t: Table)
    ensures Carried(q, q, t)
  {}

  // Once nobody above x is there, each call of scheduling() serves one of those before x,
  // or x itself.
  ghost predicate Served(q: seq<int>, q': seq<int>, prio: map<int, int>, active: int, x: int) {
    x in q && x in q' + [active] && (forall y :: y in q' + [active] ==> Key(prio, y) <= Key(prio, x)) ==>
      active == x || (x in q' && Ahead(q', x) < Ahead(q, x))
  }

  ghost predicate AllServedBy(q: seq<int>, q': seq<int>, prio: map<int, int>, active: int) {
    forall x :: Served(q, q', prio, active, x)
  }

  ghost predicate AreReady(q: seq<int>, t: Table) {
    forall y :: y in q <==> y in t && t[y].status == Ready
  }

  lemma ServedNext(q0: seq<int>, q1: seq<int>, q2: seq<int>, c: seq<int>, q': seq<int>, prio: map<int, int>,
                   current: int, active: int, x: int)
    requires WaitOn(q0, q1, prio) && WaitOn(q1, q2, prio) && NoDup(q2) && Sorted(q2, prio)
    requires x in q0 && x in c ==> x in q1 && x in q2
    requires forall y :: y in q1 ==> y in q2
    requires c == q2 || (c == Insert(q2, prio, current) && current !in q2)
    requires c == q' + [active]
    ensures Served(q0, q', prio, active, x)
  {
    if x in q0 && x in c && (forall y :: y in c ==> Key(prio, y) <= Key(prio, x)) && active != x {
      InsertMembers(q2, prio, current);
      assert forall y :: y in q2 ==> y in c;
      assert Patient(q0, q1, prio, x) && Patient(q1, q2, prio, x);
      if c != q2 {
        assert current in c;
        InsertBehind(q2, prio, current, x);
        InsertNoDup(q2, prio, current);
      }
      assert c[..|c| - 1] == q' && c[|c| - 1] == active;
      OutAhead(c, x);
    }
  }

  lemma WaitOnKeys(q: seq<int>, q': seq<int>, prio: map<int, int>, prio': map<int, int>)
    requires WaitOn(q, q', prio) && forall y :: y in q' ==> Key(prio, y) == Key(prio', y)
    ensures WaitOn(q, q', prio')
  {
    forall x ensures Patient(q, q', prio', x) {
      assert Patient(q, q', prio, x);
    }
  }

  lemma CandidatesAre(q: seq<int>, t: Table, current: int)
    requires current in t
    ensures Candidates(q, t, current) == q || Candidates(q, t, current) == Insert(q, Prio(t), current)
    ensures forall x :: x in Candidates(q, t, current) ==> x in q || x == current
    ensures Candidates(q, t, current) != q ==> t[current].status == Elected
  {
    InsertMembers(q, Prio(t), current);
  }

  lemma AllServed(q0: seq<int>, q1: seq<int>, q2: seq<int>, q': seq<int>, t0: Table, t1: Table, t2: Table, prio: map<int, int>,
                  clock: int, current: int, active: int)
    requires Carried(q0, q1, t0)
    requires WaitOn(q1, q2, Prio(t1)) && NoDup(q2) && Sorted(q2, Prio(t1))
    requires AreReady(q1, t0) && AreReady(q2, t1)
    requires WokenUp(t0, t1, clock) && Thinned(t1, t2)
    requires prio == Prio(t2) && current in t2 && Candidates(q2, t2, current) == q' + [active]
    requires t2[current].status == Elected ==> current !in q0 || current in q1
    ensures AllServedBy(q0, q', prio, active)
  {
    forall y | y in q1 || y in q2
      ensures Key(prio, y) == Key(Prio(t1), y) && (y in q1 ==> y in q2 && Key(prio, y) == Key(Prio(t0), y))
    {
      assert y in t1 && y in t2 && t2[y] == t1[y];
      assert Prio(t1)[y] == t1[y].priority && Prio(t2)[y] == t2[y].priority && Prio(t0)[y] == t0[y].priority;
    }
    WaitOnKeys(q0, q1, Prio(t0), prio);
    WaitOnKeys(q1, q2, Prio(t1), prio);
    assert Sorted(q2, prio) by {
      forall i, j | 0 <= i < j < |q2| ensures Key(prio, q2[i]) <= Key(prio, q2[j]) {
        assert q2[i] in q2 && q2[j] in q2;
      }
    }
    var c := Candidates(q2, t2, current);
    CandidatesAre(q2, t2, current);
    assert c != q2 ==> current !in q2;
    hide Candidates, Insert, Sorted, NoDup, WaitOn, AreReady, WokenUp, Thinned, Prio, Served;
    forall x ensures Served(q0, q', prio, active, x) {
      if x in q0 && x in c {
        assert x in q2 || x == current;
      }
      ServedNext(q0, q1, q2, c, q', prio, current, active, x);
    }
  }

  // What a kernel call does to the ready list: it calls scheduling() once, or it lets nobody be
  // overtaken.
  ghost predicate Fair(q: seq<int>, q': seq<int>, prio: map<int, int>, active: int, active': int, turns: nat, turns': nat) {
    || (turns' == turns + 1 && AllServedBy(q, q', prio, active'))
    || (turns' == turns && active' == active && WaitOn(q, q', prio))
  }

  // chprio moves process p inside the ready list before it calls scheduling(): p goes behind its
  // new equals, so everybody else keeps the place it had.
  lemma ServedElse(q0: seq<int>, q1: seq<int>, q': seq<int>, t1: Table, t': Table, clock: int, active: int, active': int, p: int)
    requires NoDup(q0) && NoDup(q1) && AreReady(q1, t1) && AreReady(q', t')
    requires q1 == q0 || (p in q0 && q1 == Insert(Without(q0, p), Prio(t1), p) && Sorted(Without(q0, p), Prio(t1)))
    requires Resched(t1, active, clock, t', active') && AllServedBy(q1, q', Prio(t'), active')
    ensures forall x :: x != p ==> Served(q0, q', Prio(t'), active', x)
  {
    forall x | x != p ensures Served(q0, q', Prio(t'), active', x) {
      assert Served(q1, q', Prio(t'), active', x);
      if q1 != q0 && x in q0 {
        WithoutMembers(q0, p);
        WithoutOrder(q0, map[], p);
        InsertMembers(Without(q0, p), Prio(t1), p);
        assert p in q1 && x in q1;
        StaysWaiting(q1, q', t1, t', clock, active, active', p);
        StaysWaiting(q1, q', t1, t', clock, active, active', x);
        WithoutAhead(q0, p, x);
        if Key(Prio(t1), p) <= Key(Prio(t1), x) {
          InsertBehind(Without(q0, p), Prio(t1), p, x);
        }
      }
    }
  }

  lemma StaysWaiting(q: seq<int>, q': seq<int>, t: Table, t': Table, clock: int, active: int, active': int, y: int)
    requires AreReady(q, t) && AreReady(q', t') && Resched(t, active, clock, t', active') && y in q
    ensures y in q' + [active'] && Key(Prio(t'), y) == Key(Prio(t), y)
  {
    assert y in t' && t'[y] == Turned(Woken(t[y], clock), y == active');
  }

  // ---- Round robin, over any run of kernel calls

  // The part of the state that matters; `turns` counts the calls of scheduling().
  datatype View = View(ready: seq<int>, prio: map<int, int>, active: int, turns: nat, table: Table, clock: int)

  // What a step does to the place of process x: scheduling() ran once and x was served, or x
  // was not overtaken.
  ghost predicate Turnover(v: View, v': View, x: int) {
    || (v'.turns == v.turns + 1 && Served(v.ready, v'.ready, v'.prio, v'.active, x))
    || (v'.turns == v.turns && v'.active == v.active && Patient(v.ready, v'.ready, v'.prio, x))
  }

  // Process x is ready, or runs, and nobody is above it.
  ghost predicate AtTop(v: View, x: int) {
    x in v.ready + [v.active] && forall y :: y in v.ready + [v.active] ==> Key(v.prio, y) <= Key(v.prio, x)
  }

  // Process x waits at the top for the whole run.
  ghost predicate WaitsAtTop(run: seq<View>, x: int) {
    forall i :: 0 <= i < |run| ==> AtTop(run[i], x) && run[i].active != x
  }

  // As long as x waits with nobody above it, every call of scheduling() takes one from before it.
  lemma {:induction false} RoundRobin(run: seq<View>, x: int)
    requires |run| > 0 && WaitsAtTop(run, x)
    requires forall i :: 0 <= i < |run| - 1 ==> Turnover(run[i], run[i + 1], x)
    ensures run[0].turns <= run[|run| - 1].turns
    ensures run[|run| - 1].turns - run[0].turns <= Ahead(run[0].ready, x) - Ahead(run[|run| - 1].ready, x)
    decreases |run|
  {
    if |run| > 1 {
      var n := |run| - 2;
      RoundRobin(run[..n + 1], x);
      var v, v' := run[n], run[n + 1];
      assert AtTop(v, x) && AtTop(v', x) && Turnover(v, v', x);
      assert x in v.ready && x in v'.ready;
    }
  }

  // Before x ran, at most as many calls of scheduling() pass as processes were before it.
  lemma WaitBounded(run: seq<View>, x: int)
    requires |run| > 0 && WaitsAtTop(run, x)
    requires forall i :: 0 <= i < |run| - 1 ==> Turnover(run[i], run[i + 1], x)
    ensures run[|run| - 1].turns - run[0].turns <= Ahead(run[0].ready, x)
  {
    RoundRobin(run, x);
    var v := run[|run| - 1];
    assert AtTop(v, x) && x in v.ready;
  }
}
