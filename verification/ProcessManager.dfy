// The process manager and the message queues. A kernel call runs up to its call of
// scheduling(); what remains of it is kept as a continuation of the process and done by Resume.
module ProcessManager {

  import opened MessageRing
  import opened PriorityList
  import opened Processes
  import opened ProcessSteps
  import opened ProcessTable
  import opened Sleepers
  import opened WaitingParents
  import opened Words

  // How a kernel call ends for the process that made it.
  datatype Outcome = Returned(value: int) | Message(message: int) | Child(pid: int, value: int) | Suspended

  // What can happen between two states of the kernel: a clock interrupt, the end of a call that
  // was suspended, or a call of the running process.
  datatype Event =
    | Tick
    | Resume
    | WaitClock(until: int)
    | Exit(value: int)
    | Kill(pid: int)
    | WaitPid(pid: int)
    | PSend(fid: int, message: int)
    | PReceive(fid: int)
    | PReset(fid: int)
    | PDelete(fid: int)
    | PCreate(count: int, granted: bool)
    | Start(ssize: int, priority: int, granted: bool)
    | ChPrio(pid: int, priority: int)

  // chprio puts its target behind the processes of the priority it gets.
  predicate Moves(e: Event, x: int) {
    e.ChPrio? && e.pid == x
  }

  class Kernel {
    // processes_table, and the process lists
    var table: map<int, Proc>
    var ready: seq<int>
    var asleep: seq<int>
    var dying: seq<int>
    var zombie: seq<int>
    var blocked: seq<int>
    var active: int
    var nbProc: int
    var clock: int
    // message queues
    var queues: map<int, Queue>
    var queueCount: int
    // history: values waitpid has still to hand out, messages written and read
    ghost var due: map<int, int>
    ghost var sent: map<int, seq<int>>
    ghost var got: map<int, seq<int>>
    ghost var turns: nat             // calls of scheduling()

    ghost predicate CoreBut(q: int)
      reads this
    {
      && Core(table, ready, asleep, dying, zombie, blocked, queues, due, sent, got, active, q)
      && nbProc == |table| && queueCount == |queues| && 0 <= clock < WORD
    }

    // Holds between kernel calls.
    ghost predicate Valid()
      reads this
    {
      && CoreBut(-1) && active in table && table[active].status == Elected
      && TopOk(ready, Prio(table), active)
    }

    // After the first context switch: process 0 is ready, its first child runs.
    constructor (now: int)
      requires 0 <= now < WORD
      ensures Valid() && table == BootTable() && active == 1 && clock == now && queues == map[] && due == map[]
      ensures NoneLate(table, clock) && NoneOverlooked(table)
    {
      hide Core, TopOk, BootTable;
      table := BootTable();
      ready, asleep, dying, zombie, blocked := [0], [], [], [], [];
      active, nbProc, clock := 1, 2, now;
      queues, queueCount := map[], 0;
      due, sent, got, turns := map[], map[], map[], 0;
      new;
      BootOk();
      BootRested(now);
    }

    // ---- Facts that follow from the invariant

    lemma TableFacts(q: int)
      requires CoreBut(q)
      ensures active in table && 0 in table
      ensures forall y :: y in table ==> 0 <= y < MAXNPROC && 0 <= table[y].priority < WORD
      ensures forall y :: y in table && table[y].status == Elected ==> y == active
      ensures (table[0].status == Elected || table[0].status == Ready) && table[0].cont == Running
    {
      hide ListsOk, OrderOk, WaitersOk, QueuesOk, FamilyBut, ContOk, ValuesOk;
      forall y | y in table ensures Prio(table)[y] == table[y].priority && Sts(table)[y] == table[y].status {}
      assert Conts(table)[0] == table[0].cont;
    }

    lemma ListFacts(q: int)
      requires CoreBut(q)
      ensures NoDup(ready) && forall y :: y in ready <==> y in table && table[y].status == Ready
      ensures NoDup(asleep) && forall y :: y in asleep <==> y in table && table[y].status == Asleep
      ensures NoDup(dying) && forall y :: y in dying <==> y in table && table[y].status == Dying
      ensures Sorted(ready, Prio(table))
    {
      hide WaitersOk, QueuesOk, FamilyBut, ContOk, ValuesOk, TableOk;
    }

    // ---- What the invariant says to a reader

    // Every process is in exactly the list its status names, once; only the elected one is in
    // none.
    lemma OneList()
      requires Valid()
      ensures NoDup(ready) && NoDup(asleep) && NoDup(dying) && NoDup(zombie) && NoDup(blocked)
      ensures forall y :: (y in ready <==> y in table && table[y].status == Ready) && (y in asleep <==> y in table && table[y].status == Asleep)
      ensures forall y :: (y in dying <==> y in table && table[y].status == Dying) && (y in zombie <==> y in table && table[y].status == Zombie)
      ensures forall y :: y in blocked <==> y in table && table[y].status == Blocked
      ensures forall y :: y in table && table[y].status == Elected <==> y == active
    {
      hide OrderOk, WaitersOk, QueuesOk, FamilyBut, ContOk, ValuesOk;
      forall y | y in table ensures Sts(table)[y] == table[y].status {}
    }

    // A process blocked on a message queue is in the list of one queue, the one its call names.
    lemma OneQueue(y: int)
      requires Valid()
      ensures y in table && table[y].status == OnQueue ==>
        var k := table[y].cont;
        (k.Sending? || k.Receiving?) && forall f :: f in queues ==> (y in queues[f].waiters <==> f == k.fid)
      ensures y in table && table[y].status == OnQueue ==> table[y].cont.fid in queues
      ensures !(y in table && table[y].status == OnQueue) ==> forall f :: f in queues ==> y !in queues[f].waiters
      ensures forall f :: f in queues ==> NoDup(queues[f].waiters)
    {
      hide ListsOk, OrderOk, QueuesOk, FamilyBut, ContOk, ValuesOk;
      if y in table {
        Fields(table, y);
        if table[y].status == OnQueue { assert IsWaiting(queues, Conts(table)[y], y); }
      }
      forall f | f in queues && y in queues[f].waiters ensures y in table && table[y].status == OnQueue && Names(table[y].cont, f) {
        assert y in Sts(table) && Names(Conts(table)[y], f);
      }
    }

    // A process that is not dying has a live parent that lists it, or has been given to
    // process 0; a zombie waits on its parent's list; the terminated have no children.
    lemma Kinship()
      requires Valid()
      ensures forall y :: y in table && y != 0 && table[y].status != Dying ==>
        var p := table[y].parent;
        p in table && p != y && (p == 0 || (!Over(table[p].status) && y in table[p].children))
      ensures forall y :: y in table && table[y].status == Zombie ==> table[y].parent != 0
      ensures forall y :: y in table && Over(table[y].status) ==> table[y].children == []
    {
      hide ListsOk, WaitersOk, OrderOk, QueuesOk, ContOk, ValuesOk, ChildrenOk;
      forall y | y in table ensures Sts(table)[y] == table[y].status && Children(table)[y] == table[y].children
                                    && Parents(table)[y] == table[y].parent {}
      forall y | y in table && y != 0 && table[y].status != Dying
        ensures var p := table[y].parent;
                p in table && p != y && (p == 0 || (!Over(table[p].status) && y in table[p].children))
      {
        assert HasParent(Sts(table), Parents(table)[y], Children(table), y, -1);
      }
    }

    // The running process is of highest priority.
    lemma TopRuns(y: int)
      requires Valid() && y in table && table[y].status == Ready
      ensures table[y].priority <= table[active].priority
    {
      ListFacts(-1);
      Fields(table, y);
      Fields(table, active);
      assert y in ready;
    }

    // Messages come out in the order they went in, and none is lost.
    lemma MessagesInOrder(f: int)
      requires Valid() && f in queues
      ensures f in sent && f in got && RingOk(queues[f]) && sent[f] == got[f] + Contents(queues[f])
    {
      QueueFacts(f);
    }

    // ---- scheduling()

    method WakeOne(p: int)
      requires CoreBut(-1) && p in table && table[p].status == Asleep
      modifies `table, `asleep, `ready
      ensures CoreBut(-1)
      ensures table == old(table)[p := old(table)[p].(status := Ready, wakeUp := 0)]
      ensures asleep == Without(old(asleep), p) && ready == Insert(old(ready), Prio(table), p)
    {
      hide Core, MoveFits, Insert, Without, Prio;
      ghost var pr := table[p].(status := Ready, wakeUp := 0);
      AsleepFits(table, ready, asleep, dying, zombie, blocked, queues, due, sent, got, active, p);
      MoveKeeps(table, ready, asleep, dying, zombie, blocked, queues, due, sent, got, active, p, pr, Asleep);
      table := table[p := table[p].(status := Ready, wakeUp := 0)];
      asleep := Without(asleep, p);
      ready := Insert(ready, Prio(table), p);
    }

    method SleepersLate() returns (woken: seq<int>)
      requires CoreBut(-1)
      ensures NoDup(woken)
      ensures forall y :: y in woken <==> y in table && table[y].status == Asleep && table[y].wakeUp < clock
    {
      hide Core;
      ListFacts(-1);
      woken := [];
      var i := 0;
      while i < |asleep|
        invariant 0 <= i <= |asleep|
        invariant NoDup(woken)
        invariant forall y :: y in woken <==> y in asleep[..i] && y in table && Late(table[y], clock)
      {
        var y := asleep[i];
        assert y in asleep && y !in asleep[..i];
        assert asleep[..i + 1] == asleep[..i] + [y];
        if clock > table[y].wakeUp {
          woken := woken + [y];
        }
        i := i + 1;
      }
      assert asleep[..i] == asleep;
    }

    // Moves exactly the sleepers whose time has come to the ready list.
    method Wakeup()
      requires CoreBut(-1)
      modifies `table, `asleep, `ready
      ensures CoreBut(-1) && WokenUp(old(table), table, clock)
      ensures WaitOn(old(ready), ready, Prio(table))
      ensures forall y :: y in table && old(table)[y].status == Asleep ==>
        if clock <= old(table)[y].wakeUp then table[y] == old(table)[y]
        else table[y] == old(table)[y].(status := Ready, wakeUp := 0)
    {
      hide Core, WokenTo, WaitOn, Insert, Prio;
      ListFacts(-1);
      var woken := SleepersLate();
      ghost var t := table;
      var j := 0;
      StartWaking(table, woken, ready);
      while j < |woken|
        invariant 0 <= j <= |woken| && CoreBut(-1)
        invariant WokenTo(t, table, woken, j) && Prio(table) == Prio(t)
        invariant WaitOn(old(ready), ready, Prio(table))
      {
        var p := woken[j];
        ListFacts(-1);
        WokenAt(t, table, woken, j);
        SamePrio(table, p, table[p].(status := Ready, wakeUp := 0));
        assert p in woken && p !in old(ready);
        WaitOnInsert(old(ready), ready, Prio(table), p);
        WakeOne(p);
        j := j + 1;
      }
      WokenAll(t, table, woken, clock);
    }

    // Frees one dying process.
    method Bury(p: int)
      requires CoreBut(-1) && p in table && table[p].status == Dying && p != active
      modifies `table, `dying, `nbProc
      ensures CoreBut(-1) && table == old(table) - {p} && dying == Without(old(dying), p)
    {
      hide Core, Without;
      Buried(table, ready, asleep, dying, zombie, blocked, queues, due, sent, got, active, p);
      dying := Without(dying, p);
      table := table - {p};
      nbProc := nbProc - 1;
    }

    lemma DyingFacts()
      requires CoreBut(-1)
      ensures active in table && (dying != [] ==> dying[0] in table && table[dying[0]].status == Dying)
    {
      hide OrderOk, WaitersOk, QueuesOk, FamilyBut, ContOk, ValuesOk;
      if dying != [] {
        var y := dying[0];
        assert y in dying;
        assert Sts(table)[y] == table[y].status;
      }
    }

    method KillProcesses()
      requires CoreBut(-1)
      modifies `table, `dying, `nbProc
      ensures CoreBut(-1) && Thinned(old(table), table) && active in table
      ensures dying == [] || dying[0] == active
    {
      hide Core, Thinned;
      ThinnedStart(table);
      DyingFacts();
      while dying != [] && dying[0] != active
        invariant CoreBut(-1) && Thinned(old(table), table) && active in table
        decreases |dying|
      {
        var p := dying[0];
        DyingFacts();
        FirstWithout(dying);
        ThinnedStep(old(table), table, p);
        Bury(p);
      }
    }

    lemma ActiveFacts()
      requires CoreBut(-1)
      ensures active in table && (table[active].status == Elected ==> active !in ready) && 0 <= table[active].priority < WORD
    {
      hide OrderOk, WaitersOk, QueuesOk, FamilyBut, ContOk, ValuesOk;
      assert Prio(table)[active] == table[active].priority;
    }

    // The running process, if it still runs, goes back to the ready list.
    method StepDown()
      requires CoreBut(-1) && active in table
      modifies `table, `ready
      ensures CoreBut(-1)
      ensures table == old(table)[active := StoodDown(old(table)[active])] && Prio(table) == old(Prio(table))
      ensures ready == Candidates(old(ready), old(table), active)
    {
      hide Core, MoveFits, Insert, Prio;
      ActiveFacts();
      ghost var pr := StoodDown(table[active]);
      SamePrio(table, active, pr);
      if table[active].status == Elected {
        ElectFits(table, ready, asleep, dying, zombie, blocked, queues, due, sent, got, active, active, Ready, Elected);
        MoveKeeps(table, ready, asleep, dying, zombie, blocked, queues, due, sent, got, active, active, pr, Elected);
        table := table[active := table[active].(status := Ready)];
        if active !in ready {
          ready := Insert(ready, Prio(table), active);
        }
      } else {
        assert table[active := pr] == table;
      }
    }

    // Process 0 is ready whenever nobody runs.
    lemma LastReady()
      requires CoreBut(-1) && active in table && table[active].status != Elected
      ensures ready != []
      ensures var n := |ready| - 1; var next := ready[n];
              && next in table && table[next].status == Ready && ready == ready[..n] + [next]
              && Without(ready, next) == ready[..n] && TopOk(ready[..n], Prio(table), next)
    {
      hide WaitersOk, QueuesOk, FamilyBut, ContOk, ValuesOk;
      assert 0 in ready;
      assert ready[|ready| - 1] in ready;
      LastLeaves(ready, Prio(table));
    }

    lemma OnlyElected()
      requires CoreBut(-1)
      ensures active in table && forall y :: y in table && table[y].status == Elected ==> y == active
    {
      hide ListsOk, OrderOk, WaitersOk, QueuesOk, FamilyBut, ContOk, ValuesOk;
      forall y | y in table ensures Sts(table)[y] == table[y].status {}
    }

    // The last process of the ready list is elected.
    method ElectLast()
      requires CoreBut(-1) && active in table && table[active].status != Elected
      modifies `table, `ready, `active
      ensures Valid() && Prio(table) == old(Prio(table))
      ensures active in old(table) && old(table)[active].status == Ready
      ensures table == old(table)[active := old(table)[active].(status := Elected)]
      ensures old(ready) == ready + [active]
    {
      hide Core, MoveFits, Prio, TopOk, Without;
      LastReady();
      var next := ready[|ready| - 1];
      ghost var pr := table[next].(status := Elected);
      SamePrio(table, next, pr);
      ElectFits(table, ready, asleep, dying, zombie, blocked, queues, due, sent, got, active, next, Elected, Ready);
      MoveKeeps(table, ready, asleep, dying, zombie, blocked, queues, due, sent, got, active, next, pr, Ready);
      ready := ready[..|ready| - 1];
      table := table[next := table[next].(status := Elected)];
      active := next;
    }

    // elect_proc
    method ElectProc() returns (r: int)
      requires CoreBut(-1)
      modifies `table, `ready, `active
      ensures Valid()
      ensures r == if active == old(active) then -1 else active
      ensures TurnedTo(old(table), table, active) && Prio(table) == old(Prio(table)) && old(active) in old(table)
      ensures Candidates(old(ready), old(table), old(active)) == ready + [active]
    {
      hide CoreBut, Candidates, Prio, TopOk, TurnedTo;
      OnlyElected();
      var current := active;
      StepDown();
      ElectLast();
      ElectedTo(old(table), current, active);
      r := if active == current then -1 else active;
    }

    ghost method CountTurn()
      requires CoreBut(-1)
      modifies `turns
      ensures CoreBut(-1) && turns == old(turns) + 1
    {
      hide Core;
      turns := turns + 1;
    }

    // q0 is the ready list when the kernel call began.
    method Scheduling(ghost q0: seq<int>)
      requires CoreBut(-1) && Carried(q0, ready, table) && active !in q0
      modifies `table, `asleep, `ready, `dying, `nbProc, `active, `turns
      ensures Valid()
      ensures Resched(old(table), old(active), clock, table, active)
      ensures SleepOn(old(table), table, clock)
      ensures turns == old(turns) + 1 && AllServedBy(q0, ready, Prio(table), active)
    {
      hide CoreBut, Prio, WaitOn, TopOk, WokenUp, Thinned, TurnedTo, Candidates, NoDup, Sorted, Resched, AllServedBy, Carried, AreReady;
      CountTurn();
      ReadyFacts();
      ghost var t0, r0 := table, ready;
      Wakeup();
      ghost var t1, r1 := table, ready;
      ReadyFacts();
      KillProcesses();
      ghost var t2 := table;
      var next := ElectProc();
      AllServed(q0, r0, r1, ready, t0, t1, t2, Prio(table), clock, old(active), active);
      AllResched(t0, t1, t2, table, old(active), clock, active);
      ReschedSleep(t0, old(active), clock, table, active);
    }

    lemma ReadyFacts()
      requires CoreBut(-1)
      ensures NoDup(ready) && Sorted(ready, Prio(table)) && AreReady(ready, table)
    {
      hide WaitersOk, QueuesOk, FamilyBut, ContOk, ValuesOk, TableOk;
    }

    // ---- Calls of the running process

    // The caller has no suspended call to finish.
    ghost predicate Awake()
      reads this
    {
      Valid() && table[active].cont == Running
    }

    // Nor is it the idle process, which never makes a call that blocks.
    ghost predicate Calling()
      reads this
    {
      Awake() && active != 0
    }

    method Tick()
      requires Valid()
      modifies `table, `asleep, `ready, `dying, `nbProc, `active, `turns, `clock
      ensures Valid() && clock == (old(clock) + 1) % WORD
      ensures Resched(old(table), old(active), clock, table, active)
      ensures turns == old(turns) + 1 && AllServedBy(old(ready), ready, Prio(table), active)
    {
      hide Core, Resched, AllServedBy, Carried, Prio;
      clock := (clock + 1) % WORD;
      ActiveFacts();
      CarriedSelf(ready, table);
      Scheduling(ready);
    }

    method WaitClock(c: int)
      requires Calling() && 0 <= c < WORD
      modifies `table, `asleep, `ready, `dying, `nbProc, `active, `turns
      ensures Valid()
      ensures Resched(old(table)[old(active) := old(table)[old(active)].(status := Asleep, wakeUp := c)], old(active), clock, table, active)
      ensures turns == old(turns) + 1 && AllServedBy(old(ready), ready, Prio(table), active)
    {
      hide Core, MoveFits, Resched, AllServedBy, Carried, Insert, Prio, TopOk;
      ActiveFacts();
      ghost var pr := table[active].(status := Asleep, wakeUp := c);
      CallFits(table, ready, asleep, dying, zombie, blocked, queues, due, sent, got, active, pr);
      MoveKeeps(table, ready, asleep, dying, zombie, blocked, queues, due, sent, got, active, active, pr, Elected);
      table := table[active := table[active].(status := Asleep, wakeUp := c)];
      asleep := Insert(asleep, Wake(table), active);
      CarriedSelf(ready, table);
      Scheduling(ready);
    }

    // The priority as the signed word that it is, and -1 for an unknown process.
    function GetPrio(pid: int): (r: int)
      reads this
      ensures pid !in table ==> r == -1
      ensures pid in table && 0 <= table[pid].priority < WORD ==>
                -(WORD / 2) <= r < WORD / 2 && (r == table[pid].priority || r == table[pid].priority - WORD)
    {
      if pid in table then Signed(table[pid].priority) else -1
    }

    // Whether chprio refuses.
    predicate Refused(pid: int, newprio: int)
      reads this
    {
      GetPrio(pid) <= 0 || (pid > 0 && newprio <= 0) || (pid in table && table[pid].status == Zombie)
    }

    method ChPrio(pid: int, newprio: int) returns (r: int)
      requires Awake()
      modifies `table, `asleep, `ready, `blocked, `queues, `dying, `nbProc, `active, `turns
      ensures Valid()
      ensures old(Refused(pid, newprio)) ==>
        r == -1 && table == old(table) && active == old(active) && ready == old(ready) && turns == old(turns)
      ensures !old(Refused(pid, newprio)) ==>
        r == old(GetPrio(pid)) && r > 0
        && Resched(old(table)[pid := old(table)[pid].(priority := Word(newprio))], old(active), clock, table, active)
        && turns == old(turns) + 1 && forall x :: x != pid ==> Served(old(ready), ready, Prio(table), active, x)
      // it refuses an unknown process, a zombie, a priority of 0 or less, old or new
      ensures r == -1 <==> pid !in old(table) || old(table)[pid].status == Zombie || (pid > 0 && newprio <= 0)
                           || old(table)[pid].priority == 0 || old(table)[pid].priority >= 0x8000_0000
    {
      hide CoreBut, Resched, AllServedBy, Carried, Prio, TopOk, Served, NoDup, Sorted, AreReady, Insert, Without;
      TableFacts(-1);
      if Refused(pid, newprio) {
        return -1;
      }
      ghost var t0, r0 := table, ready;
      r := GetPrio(pid);
      ReadyFacts();
      SetPriority(pid, Word(newprio));
      ghost var t1, r1 := table, ready;
      SortedElse(r0, t0, t1, pid);
      NotThere(r0, t0, pid);
      ReadyFacts();
      ActiveFacts();
      ElectedStill(t0, t1, pid);
      CarriedSelf(ready, table);
      Scheduling(ready);
      ReadyFacts();
      ServedElse(r0, r1, ready, t1, table, clock, old(active), active, pid);
    }

    // The part of chprio before scheduling(): the new priority, and the new place in a list
    // kept in priority order.
    method SetPriority(pid: int, v: int)
      requires CoreBut(-1) && pid in table && table[pid].status != Zombie && 0 <= v < WORD
      modifies `table, `ready, `blocked, `queues
      ensures CoreBut(-1) && table == old(table)[pid := old(table)[pid].(priority := v)]
      ensures ready == if old(table)[pid].status == Ready then Insert(Without(old(ready), pid), Prio(table), pid) else old(ready)
      ensures blocked == if old(table)[pid].status == Blocked then Insert(Without(old(blocked), pid), Prio(table), pid) else old(blocked)
      ensures old(table)[pid].status != OnQueue ==> queues == old(queues)
      ensures old(table)[pid].status == OnQueue ==>
                exists f :: f in old(queues) && pid in old(queues)[f].waiters && queues == Enqueued(old(queues), OnQueue, f, Prio(table), pid)
    {
      hide Core, Prio, Insert, Without, Enqueued;
      if table[pid].status == Ready || table[pid].status == Blocked {
        Requeue(pid, v);
      } else if table[pid].status == OnQueue {
        RequeueWaiter(pid, v);
      } else {
        PriorityKeeps(table, ready, asleep, dying, zombie, blocked, queues, due, sent, got, active, pid, v);
        table := table[pid := table[pid].(priority := v)];
      }
    }

    method Requeue(pid: int, v: int)
      requires CoreBut(-1) && pid in table && (table[pid].status == Ready || table[pid].status == Blocked) && 0 <= v < WORD
      modifies `table, `ready, `blocked
      ensures CoreBut(-1) && table == old(table)[pid := old(table)[pid].(priority := v)]
      ensures ready == if old(table)[pid].status == Ready then Insert(Without(old(ready), pid), Prio(table), pid) else old(ready)
      ensures blocked == if old(table)[pid].status == Blocked then Insert(Without(old(blocked), pid), Prio(table), pid) else old(blocked)
    {
      hide Core, MoveFits, Insert, Without, Prio;
      var pr := table[pid].(priority := v);
      SameListFits(table, ready, asleep, dying, zombie, blocked, queues, due, sent, got, active, pid, v);
      MoveKeeps(table, ready, asleep, dying, zombie, blocked, queues, due, sent, got, active, pid, pr, pr.status);
      table := table[pid := pr];
      if pr.status == Ready {
        ready := Insert(Without(ready, pid), Prio(table), pid);
      } else {
        blocked := Insert(Without(blocked, pid), Prio(table), pid);
      }
    }

    method RequeueWaiter(pid: int, v: int)
      requires CoreBut(-1) && pid in table && table[pid].status == OnQueue && 0 <= v < WORD
      modifies `table, `queues
      ensures CoreBut(-1) && table == old(table)[pid := old(table)[pid].(priority := v)]
      ensures exists f :: f in old(queues) && pid in old(queues)[f].waiters && queues == Enqueued(old(queues), OnQueue, f, Prio(table), pid)
    {
      hide Core, QueueFits, Enqueued, Prio;
      var pr := table[pid].(priority := v);
      var f := FindQueue(pid);
      WaiterFits(table, queues, pid, f, v);
      QueueKeeps(table, ready, asleep, dying, zombie, blocked, queues, due, sent, got, active, pid, pr, OnQueue, f);
      QueueCount(queues, OnQueue, f, Prio(table[pid := pr]), pid);
      table := table[pid := pr];
      queues := Enqueued(queues, OnQueue, f, Prio(table), pid);
    }

    // The search of chprio through all message queues.
    method FindQueue(pid: int) returns (f: int)
      requires CoreBut(-1) && pid in table && table[pid].status == OnQueue
      ensures f in queues && pid in queues[f].waiters && Names(table[pid].cont, f) && pid != 0
    {
      WhereWaiting(pid);
      hide Core;
      f := 0;
      while f !in queues || pid !in queues[f].waiters
        invariant 0 <= f <= table[pid].cont.fid
        decreases table[pid].cont.fid - f
      {
        f := f + 1;
      }
    }

    lemma WhereWaiting(pid: int)
      requires CoreBut(-1) && pid in table && table[pid].status == OnQueue
      ensures var k := table[pid].cont;
              (k.Sending? || k.Receiving?) && 0 <= k.fid && k.fid in queues && pid in queues[k.fid].waiters && pid != 0
      ensures forall f :: f in queues && pid in queues[f].waiters ==> Names(table[pid].cont, f)
    {
      hide ListsOk, OrderOk, FamilyBut, ContOk, ValuesOk;
      Fields(table, pid);
      assert IsWaiting(queues, Conts(table)[pid], pid);
    }

    // ---- Termination

    lemma ChildFacts(q: int, ex: int)
      requires CoreBut(ex) && q in table
      ensures NoDup(table[q].children) && q !in table[q].children
      ensures forall c :: c in table[q].children ==> c in table && c != 0 && table[c].status != Dying && table[c].parent == q
    {
      hide ListsOk, OrderOk, WaitersOk, QueuesOk, ContOk, ValuesOk, TableOk;
      Fields(table, q);
      forall c | c in table[q].children
        ensures c in table && c != 0 && c != q && table[c].status != Dying && table[c].parent == q
      {
        assert ChildOf(Sts(table), Parents(table), c, q);
        Fields(table, c);
        assert HasParent(Sts(table), Parents(table)[c], Children(table), c, ex);
      }
    }

    // One child is taken off the list of its parent; a zombie goes to the dying list.
    method Release(q: int, c: int, k: Cont, ghost ex: int)
      requires CoreBut(ex) && q in table && c in table && q != c && ReleaseFits(table, q, c, k)
      modifies `table, `dying, `zombie, `due
      ensures CoreBut(ex) && table == Released(old(table), q, c, k) && due == old(due) - {c} && Prio(table) == old(Prio(table))
    {
      hide Core, Without, Insert, Prio, Released, ReleaseFits;
      ReleaseKeeps(table, ready, asleep, dying, zombie, blocked, queues, due, sent, got, active, q, c, k, ex);
      ghost var next := Released(table, q, c, k);
      if table[c].status == Zombie {
        Destroy(c, next, ex);
      } else {
        due := due - {c};
      }
      table := Released(table, q, c, k);
    }

    // A zombie goes to the dying list, and nothing is due for it any more.
    method Destroy(c: int, ghost next: map<int, Proc>, ghost ex: int)
      requires Core(next, ready, asleep, Insert(dying, Prio(table), c), Without(zombie, c), blocked, queues, due - {c}, sent, got, active, ex)
      modifies `dying, `zombie, `due
      ensures Core(next, ready, asleep, dying, zombie, blocked, queues, due, sent, got, active, ex) && due == old(due) - {c}
    {
      hide Core, Without, Insert, Prio;
      due := due - {c};
      zombie := Without(zombie, c);
      dying := Insert(dying, Prio(table), c);
    }

    // free_children: the zombie children are destroyed, the others are given to process 0.
    method FreeChildren(q: int)
      requires CoreBut(q) && q in table && q != 0 && Ending(table[q])
      modifies `table, `dying, `zombie, `due
      ensures CoreBut(q) && table == Orphaned(old(table), q) && due == Cleared(old(due), old(table)[q].children)
    {
      hide CoreBut, Released, Prio, OrphanedFrom, ReleaseFits, Orphaned, Cleared, NoDup;
      ghost var t0, l := table, table[q].children;
      ChildFacts(q, q);
      OrphanStart(t0, q);
      ClearStart(due, l);
      while table[q].children != []
        invariant CoreBut(q) && q in table && |table[q].children| <= |l|
        invariant OrphanedFrom(t0, table, q, |table[q].children|)
        invariant due == Cleared(old(due), l[|table[q].children|..])
        decreases |table[q].children|
      {
        ghost var n := |table[q].children| - 1;
        var c := table[q].children[|table[q].children| - 1];
        OrphanNext(t0, table, q, n);
        ClearNext(old(due), l, n);
        Release(q, c, table[q].cont, q);
      }
      OrphanEnd(t0, table, q);
      assert l[0..] == l;
    }

    // queue_del on the link of a process with status `was`: out of the list it is in.
    method QueueDel(p: int, was: Status)
      modifies `ready, `asleep, `blocked, `queues
      ensures ready == Unlist(old(ready), Ready, was, p) && asleep == Unlist(old(asleep), Asleep, was, p)
      ensures blocked == Unlist(old(blocked), Blocked, was, p) && queues == Unqueue(old(queues), was, p)
    {
      ready := Unlist(ready, Ready, was, p);
      asleep := Unlist(asleep, Asleep, was, p);
      blocked := Unlist(blocked, Blocked, was, p);
      queues := Unqueue(queues, was, p);
    }

    // queue_add of a terminated process to the list of its status.
    method QueueAddOver(p: int, s: Status, key: map<int, int>)
      modifies `zombie, `dying
      ensures zombie == Relist(old(zombie), Zombie, s, key, p) && dying == Relist(old(dying), Dying, s, key, p)
    {
      zombie := Relist(zombie, Zombie, s, key, p);
      dying := Relist(dying, Dying, s, key, p);
    }

    // p leaves the list it is in and becomes a zombie if its parent is still there, else dying.
    method EndProcess(p: int, k: bool, v: int)
      requires CoreBut(-1) && p in table && !Over(table[p].status) && p != 0
      modifies `table, `ready, `asleep, `dying, `zombie, `blocked, `queues, `due
      ensures CoreBut(p) && table == Ended(old(table), p, k, v) && due == EndDue(old(due), p, table[p])
      ensures ready == Unlist(old(ready), Ready, old(table)[p].status, p)
    {
      hide Core, Unlist, Relist, Unqueue, Prio, EndDue, Ended;
      var was := table[p].status;
      EndsWell(table, ready, asleep, dying, zombie, blocked, queues, due, sent, got, active, p, k, v, was);
      QueueDel(p, was);
      table := Ended(table, p, k, v);
      QueueAddOver(p, table[p].status, Prio(table));
      due := EndDue(due, p, table[p]);
    }

    lemma Split(p: int)
      requires CoreBut(-1)
      ensures CoreBut(p)
    {
      hide Core;
      CoreSplit(table, ready, asleep, dying, zombie, blocked, queues, due, sent, got, active, p);
    }

    lemma Whole(p: int)
      requires CoreBut(p) && p in table && table[p].children == []
      ensures CoreBut(-1)
    {
      hide Core;
      CoreWhole(table, ready, asleep, dying, zombie, blocked, queues, due, sent, got, active, p);
    }

    // The parent of a new zombie is made ready if it is blocked in waitpid.
    method UnblockParent(c: int)
      requires CoreBut(-1) && c in table && table[c].status == Zombie && c != 0
      modifies `table, `ready, `blocked
      ensures CoreBut(-1) && table == ParentUnblocked(old(table), c)
      ensures WaitOn(old(ready), ready, Prio(table)) && forall x :: x in old(ready) ==> x in ready
    {
      hide Core, MoveFits, Insert, Without, Prio, WaitOn, AreReady, NoDup, Sorted;
      ParentFits(table, ready, asleep, dying, zombie, blocked, queues, due, sent, got, active, c);
      ReadyFacts();
      var p := table[c].parent;
      WaitOnSelf(ready, Prio(table));
      if table[p].status == Blocked {
        var pr := table[p].(status := Ready);
        MoveKeeps(table, ready, asleep, dying, zombie, blocked, queues, due, sent, got, active, p, pr, Blocked);
        SamePrio(table, p, pr);
        NotReady(ready, table, p);
        WaitOnInsert(ready, ready, Prio(table), p);
        InsertMembers(ready, Prio(table), p);
        table := table[p := pr];
        blocked := Without(blocked, p);
        ready := Insert(ready, Prio(table), p);
      }
    }

    // exit: does not return to its caller.
    method Exit(retval: int)
      requires Calling()
      modifies `table, `ready, `asleep, `dying, `zombie, `blocked, `queues, `due, `nbProc, `active, `turns
      ensures Valid()
      ensures Resched(ExitTable(old(table), old(active), false, retval), old(active), clock, table, active)
      ensures turns == old(turns) + 1 && AllServedBy(old(ready), ready, Prio(table), active)
      ensures due == EndDue(Cleared(old(due), old(table)[old(active)].children), old(active),
                            ExitTable(old(table), old(active), false, retval)[old(active)])
      // the value is owed for the caller, and nothing for its children
      ensures Owes(old(due), due, old(table)[old(active)], old(active), retval)
    {
      hide CoreBut, Resched, AllServedBy, Prio, TopOk, Orphaned, Ended, ParentUnblocked, EndDue, Cleared, WaitOn, Carried, Owes;
      ghost var t0, r0 := table, ready;
      ghost var p := active;
      ActiveFacts();
      ExitOwes(t0, p, retval, due);
      Split(active);
      FreeChildren(active);
      OrphanedAt(t0, p);
      Whole(active);
      EndProcess(active, false, retval);
      EndedAt(Orphaned(t0, p), p, false, retval);
      Whole(active);
      WaitOnSelf(ready, Prio(table));
      ghost var t2 := table;
      if table[active].status == Zombie {
        UnblockParent(active);
        UnblockedAt(t2, p);
      }
      ExitCarried(r0, ready, table);
      Scheduling(r0);
    }

    // kill: on the caller itself it is exit(0), which forgets that the process was killed.
    method Kill(pid: int) returns (r: Outcome)
      requires Awake() && (pid in table ==> table[pid].status != Dying)
      modifies `table, `ready, `asleep, `dying, `zombie, `blocked, `queues, `due, `nbProc, `active, `turns
      ensures Valid()
      ensures pid <= 0 || pid !in old(table) || old(table)[pid].status == Zombie ==>
        r == Returned(-1) && table == old(table) && active == old(active) && ready == old(ready) && due == old(due) && queues == old(queues)
      ensures pid > 0 && pid in old(table) && old(table)[pid].status != Zombie ==>
        && Resched(if pid == old(active) then ExitTable(old(table), pid, false, 0) else KillTable(old(table), pid),
                   old(active), clock, table, active)
        && AllServedBy(old(ready), ready, Prio(table), active)
        && r == (if pid == old(active) then Suspended else Returned(0))
        && Owes(old(due), due, old(table)[pid], pid, 0)
      ensures Fair(old(ready), ready, Prio(table), old(active), active, old(turns), turns)
    {
      hide AllServedBy, Prio, WaitOn, Owes;
      WaitOnSelf(ready, Prio(table));
      if pid <= 0 || pid !in table || table[pid].status == Zombie {
        return Returned(-1);
      }
      if pid == active {
        Exit(0);
        return Suspended;
      }
      KillOther(pid);
      r := Returned(0);
    }

    method KillOther(pid: int)
      requires Awake() && pid in table && !Over(table[pid].status) && pid != active && pid != 0
      modifies `table, `ready, `asleep, `dying, `zombie, `blocked, `queues, `due, `nbProc, `active, `turns
      ensures Valid()
      ensures Resched(KillTable(old(table), pid), old(active), clock, table, active)
      ensures turns == old(turns) + 1 && AllServedBy(old(ready), ready, Prio(table), active)
      ensures due == Cleared(EndDue(old(due), pid, Ended(old(table), pid, true, old(table)[pid].retval)[pid]), old(table)[pid].children)
      ensures Owes(old(due), due, old(table)[pid], pid, 0)
    {
      hide CoreBut, Resched, AllServedBy, Prio, TopOk, Orphaned, Ended, EndDue, Cleared, WaitOn, Carried, Unlist, AreReady, NoDup, Sorted, Owes;
      ghost var t0, r0 := table, ready;
      ReadyFacts();
      ActiveFacts();
      ChildFacts(pid, -1);
      KillOwes(t0, pid, due);
      EndProcess(pid, true, table[pid].retval);
      EndedAt(t0, pid, true, t0[pid].retval);
      ghost var t1 := table;
      FreeChildren(pid);
      OrphanedAt(t1, pid);
      Whole(pid);
      KillCarried(r0, ready, t0, pid);
      Scheduling(r0);
    }

    // ---- waitpid

    // The caller waits for a child.
    method Block(k: Cont)
      requires Valid() && active != 0
      requires k == WaitAny || (k.WaitPid? && k.child in table[active].children)
      modifies `table, `asleep, `ready, `blocked, `dying, `nbProc, `active, `turns
      ensures Valid()
      ensures Resched(old(table)[old(active) := old(table)[old(active)].(status := Blocked, cont := k)], old(active), clock, table, active)
      ensures turns == old(turns) + 1 && AllServedBy(old(ready), ready, Prio(table), active)
    {
      hide Core, MoveFits, Resched, AllServedBy, Carried, Insert, Prio, TopOk;
      ActiveFacts();
      ghost var pr := table[active].(status := Blocked, cont := k);
      CallFits(table, ready, asleep, dying, zombie, blocked, queues, due, sent, got, active, pr);
      MoveKeeps(table, ready, asleep, dying, zombie, blocked, queues, due, sent, got, active, active, pr, Elected);
      table := table[active := table[active].(status := Blocked, cont := k)];
      blocked := Insert(blocked, Prio(table), active);
      CarriedSelf(ready, table);
      Scheduling(ready);
    }

    // The value of a zombie child is handed out and the zombie is destroyed.
    method Reap(c: int) returns (r: Outcome)
      requires Valid() && active != 0 && c in table[active].children && c in table && table[c].status == Zombie
      modifies `table, `dying, `zombie, `due
      ensures Valid() && c in old(due) && r == Child(c, old(due)[c]) && due == old(due) - {c}
      ensures c != active && table == Released(old(table), active, c, Running)
    {
      hide Core, Released, Prio;
      ChildFacts(active, -1);
      DueFacts(c);
      r := Child(c, if table[c].killed then 0 else table[c].retval);
      Release(active, c, Running, -1);
      ReleasedAt(old(table), active, c);
    }

    lemma DueFacts(c: int)
      requires CoreBut(-1) && c in table && table[c].status == Zombie
      ensures c in due && due[c] == if table[c].killed then 0 else table[c].retval
    {
      hide ListsOk, OrderOk, WaitersOk, QueuesOk, FamilyBut, ContOk, TableOk;
      Fields(table, c);
    }

    // get_terminated_child: the first zombie among the children.
    method GetTerminatedChild() returns (c: int)
      requires active in table && -1 !in table && forall y :: y in table[active].children ==> y in table
      ensures if c == -1 then forall y :: y in table[active].children ==> table[y].status != Zombie
              else c in table[active].children && table[c].status == Zombie
      // no child before it in the list is a zombie
      ensures c != -1 ==> exists i :: 0 <= i < |table[active].children| && table[active].children[i] == c
                                      && NoZombie(table, table[active].children[..i])
    {
      var l := table[active].children;
      var i := 0;
      while i < |l|
        invariant 0 <= i <= |l| && NoZombie(table, l[..i])
      {
        var y := l[i];
        assert y in l;
        if table[y].status == Zombie {
          return y;
        }
        assert l[..i + 1] == l[..i] + [y];
        i := i + 1;
      }
      assert l[..i] == l;
      c := -1;
    }

    method WaitPid(pid: int) returns (r: Outcome)
      requires Calling()
      modifies `table, `asleep, `ready, `blocked, `dying, `zombie, `due, `nbProc, `active, `turns
      ensures Valid()
      // nothing to wait for
      ensures (if pid < 0 then old(table)[old(active)].children == [] else pid !in old(table)[old(active)].children) ==>
        r == Returned(-1) && table == old(table) && active == old(active) && due == old(due)
      ensures r.Returned? ==>
        if pid < 0 then old(table)[old(active)].children == [] else pid !in old(table)[old(active)].children
      // a zombie: its value is handed out
      ensures r.Child? ==> r.pid in old(due) && r.value == old(due)[r.pid] && due == old(due) - {r.pid}
                           && (pid >= 0 ==> r.pid == pid) && r.pid in old(table)[old(active)].children
                           && active == old(active) && old(active) in table && r.pid !in table[active].children
      ensures r.Child? ==> r.pid in old(table) && r.pid != active && active in old(table)
                           && table == Released(old(table), active, r.pid, Running)
      // none yet: the caller waits
      ensures r == Suspended ==>
        due == old(due) && (forall c :: c in old(table)[old(active)].children && (pid < 0 || c == pid) ==> c !in old(due))
      ensures r == Suspended ==>
        Resched(old(table)[old(active) := old(table)[old(active)].(status := Blocked, cont := if pid < 0 then WaitAny else Cont.WaitPid(pid))],
                old(active), clock, table, active)
      ensures !r.Message?
      ensures Fair(old(ready), ready, Prio(table), old(active), active, old(turns), turns)
    {
      hide WaitOn, AllServedBy;
      hide Core, Resched, Released, Prio, TopOk;
      WaitOnSelf(ready, Prio(table));
      ChildFacts(active, -1);
      ghost var a, t0 := active, table;
      ZombiesDue();
      if pid < 0 {
        if table[active].children == [] {
          return Returned(-1);
        }
        TableFacts(-1);
        var c := GetTerminatedChild();
        if c == -1 {
          Block(WaitAny);
          return Suspended;
        }
        r := Reap(c);
        ReapedAt(t0, a, c);
      WaitOnSelf(ready, Prio(table));
        return;
      }
      if pid !in table[active].children {
        return Returned(-1);
      }
      if table[pid].status != Zombie {
        Block(Cont.WaitPid(pid));
        return Suspended;
      }
      r := Reap(pid);
      ReapedAt(t0, a, pid);
      WaitOnSelf(ready, Prio(table));
    }

    lemma ZombiesDue()
      requires CoreBut(-1)
      ensures forall y :: y in due <==> y in table && table[y].status == Zombie
    {
      hide ListsOk, OrderOk, WaitersOk, QueuesOk, FamilyBut, ContOk, TableOk;
      forall y | y in table ensures Sts(table)[y] == table[y].status {}
    }

    // ---- Message queues

    // The last waiter of queue f, the one of highest priority, is made ready.
    method WakeWaiter(f: int)
      requires CoreBut(-1) && f in queues && queues[f].waiters != []
      modifies `table, `ready, `queues
      ensures CoreBut(-1) && Prio(table) == old(Prio(table))
      ensures var w := old(queues)[f].waiters; var p := w[|w| - 1];
              && queues == old(queues)[f := old(queues)[f].(waiters := w[..|w| - 1])]
              && p in old(table) && old(table)[p].status == OnQueue && table == old(table)[p := old(table)[p].(status := Ready)]
              && p !in old(ready) && ready == Insert(old(ready), Prio(table), p)
              && forall y :: y in w ==> y in old(table) && old(table)[y].priority <= old(table)[p].priority
    {
      hide Core, Insert, Prio;
      var w := queues[f].waiters;
      var p := w[|w| - 1];
      WakeKeeps(f, p);
      queues := queues[f := queues[f].(waiters := w[..|w| - 1])];
      table := table[p := table[p].(status := Ready)];
      ready := Insert(ready, Prio(table), p);
    }

    lemma WakeKeeps(f: int, p: int)
      requires CoreBut(-1) && f in queues && queues[f].waiters != [] && p == queues[f].waiters[|queues[f].waiters| - 1]
      ensures p in table && table[p].status == OnQueue && p !in ready
      ensures var w := queues[f].waiters; var qs := queues[f := queues[f].(waiters := w[..|w| - 1])];
              var t := table[p := table[p].(status := Ready)];
              && Core(t, Insert(ready, Prio(t), p), asleep, dying, zombie, blocked, qs, due, sent, got, active, -1)
              && |t| == |table| && |qs| == |queues| && Prio(t) == Prio(table)
      ensures forall y :: y in queues[f].waiters ==> y in table && table[y].priority <= table[p].priority
    {
      hide Core, MoveFits, Insert, Prio, UnlinkQueues, NoDup, Sorted, AreReady;
      LastWaiter(table, ready, asleep, dying, zombie, blocked, queues, due, sent, got, active, f);
      ReadyFacts();
      NotReady(ready, table, p);
      var pr := table[p].(status := Ready);
      MoveKeeps(table, ready, asleep, dying, zombie, blocked, queues, due, sent, got, active, p, pr, OnQueue);
      SamePrio(table, p, pr);
      SameSize(queues, Unqueue(queues, OnQueue, p));
    }

    // The caller waits on queue f.
    method BlockOnQueue(f: int, k: Cont)
      requires Valid() && active != 0 && f in queues && Names(k, f)
      modifies `table, `asleep, `ready, `queues, `dying, `nbProc, `active, `turns
      ensures Valid()
      ensures Resched(old(table)[old(active) := old(table)[old(active)].(status := OnQueue, cont := k)], old(active), clock, table, active)
      ensures turns == old(turns) + 1 && AllServedBy(old(ready), ready, Prio(table), active)
      ensures queues.Keys == old(queues).Keys && SameRings(old(queues), queues)
    {
      hide Core, QueueFits, Resched, AllServedBy, Carried, Insert, Prio, TopOk, Enqueued;
      ActiveFacts();
      ghost var pr := table[active].(status := OnQueue, cont := k);
      CallerQueueFits(table, queues, active, pr, f);
      QueueKeeps(table, ready, asleep, dying, zombie, blocked, queues, due, sent, got, active, active, pr, Elected, f);
      QueueCount(queues, Elected, f, Prio(table[active := pr]), active);
      table := table[active := table[active].(status := OnQueue, cont := k)];
      queues := Enqueued(queues, Elected, f, Prio(table), active);
      CarriedSelf(ready, table);
      Scheduling(ready);
    }

    // The message goes into the ring.
    method Write(f: int, m: int)
      requires CoreBut(-1) && f in queues && f in sent && queues[f].nb < |queues[f].buffer| && RingOk(queues[f])
      modifies `queues, `sent
      ensures CoreBut(-1) && sent == old(sent)[f := old(sent)[f] + [m]]
      ensures queues == old(queues)[f := Put(old(queues)[f], m)]
    {
      hide Core, Put, QueueOk;
      QueueFacts(f);
      PutQueueOk(queues[f], sent[f], got[f], m);
      RingKeeps(table, ready, asleep, dying, zombie, blocked, queues, due, sent, got, active, f, Put(queues[f], m), sent[f] + [m], got[f]);
      SameGot(got, f);
      queues := queues[f := Put(queues[f], m)];
      sent := sent[f := sent[f] + [m]];
    }

    // The oldest message is taken out of the ring.
    method Read(f: int) returns (m: int)
      requires CoreBut(-1) && f in queues && f in got && queues[f].nb > 0 && RingOk(queues[f])
      modifies `queues, `got
      ensures CoreBut(-1) && got == old(got)[f := old(got)[f] + [m]]
      ensures Contents(old(queues)[f])[0] == m
      ensures queues == old(queues)[f := Take(old(queues)[f])]
    {
      hide Core, Take, QueueOk, RingOk;
      QueueFacts(f);
      TakeQueueOk(queues[f], sent[f], got[f]);
      m := queues[f].buffer[queues[f].readIndex];
      RingKeeps(table, ready, asleep, dying, zombie, blocked, queues, due, sent, got, active, f, Take(queues[f]), sent[f], got[f] + [m]);
      SameGot(sent, f);
      queues := queues[f := Take(queues[f])];
      got := got[f := got[f] + [m]];
    }

    lemma QueueFacts(f: int)
      requires CoreBut(-1) && f in queues
      ensures 0 <= f < NBQUEUE && f in sent && f in got && QueueOk(queues[f], sent[f], got[f]) && RingOk(queues[f])
    {
      hide ListsOk, OrderOk, WaitersOk, FamilyBut, ContOk, ValuesOk, TableOk;
    }

    // unblock_processes
    method UnblockAll(f: int)
      requires CoreBut(-1) && f in queues
      modifies `table, `ready, `queues
      ensures CoreBut(-1) && Prio(table) == old(Prio(table))
      ensures queues == old(queues)[f := old(queues)[f].(waiters := [])]
      ensures table == Unblocked(old(table), old(queues)[f].waiters)
      ensures WaitOn(old(ready), ready, Prio(table)) && forall x :: x in old(ready) ==> x in ready
    {
      hide CoreBut, Insert, Prio, NoDup, Sorted, AreReady, UnblockedFrom, WaitOn, Unblocked;
      ghost var t0, w0, r0 := table, queues[f].waiters, ready;
      ReadyFacts();
      WaitOnSelf(ready, Prio(table));
      UnblockStart(t0, w0);
      assert queues[f := queues[f].(waiters := queues[f].waiters)] == queues;
      while queues[f].waiters != []
        invariant CoreBut(-1) && Prio(table) == old(Prio(table)) && f in queues
        invariant |queues[f].waiters| <= |w0| && queues[f].waiters == w0[..|queues[f].waiters|]
        invariant queues == old(queues)[f := old(queues)[f].(waiters := queues[f].waiters)]
        invariant UnblockedFrom(t0, table, w0, |queues[f].waiters|)
        invariant WaitOn(r0, ready, Prio(table)) && forall x :: x in r0 ==> x in ready
        decreases |queues[f].waiters|
      {
        ghost var r, t, n := ready, table, |queues[f].waiters| - 1;
        ghost var p := queues[f].waiters[n];
        ReadyFacts();
        WakeWaiter(f);
        UnblockNext(t0, t, w0, n);
        WaitOnInsert(r0, r, Prio(table), p);
        InsertMembers(r, Prio(table), p);
        assert w0[..n + 1][..n] == w0[..n];
      }
      UnblockEnd(t0, table, w0);
    }

    predicate ValidQueue(f: int)
      reads this
    {
      f >= 0 && f in queues
    }

    // The queue is empty and processes wait on it.
    method SendToWaiter(f: int, m: int)
      requires Valid() && f in queues && queues[f].nb == 0 && queues[f].waiters != []
      modifies `table, `asleep, `ready, `queues, `sent, `dying, `nbProc, `active, `turns
      ensures Valid() && f in old(sent) && sent == old(sent)[f := old(sent)[f] + [m]]
      ensures RingOk(old(queues)[f]) && queues == old(queues)[f := Put(Popped(old(queues)[f]), m)]
      ensures Resched(LastWoken(old(table), old(queues)[f].waiters), old(active), clock, table, active)
      ensures turns == old(turns) + 1 && AllServedBy(old(ready), ready, Prio(table), active)
    {
      hide CoreBut, Resched, AllServedBy, Carried, Prio, TopOk, Put, RingOk, WaitOn, NoDup, Sorted, AreReady, Insert;
      ghost var r0 := ready;
      QueueFacts(f);
      RingBounds(queues[f]);
      ActiveFacts();
      ReadyFacts();
      WakeWaiter(f);
      WakeCarried(r0, ready, table);
      RingAside(old(queues)[f], queues[f]);
      Write(f, m);
      Scheduling(r0);
    }

    method PSend(fid: int, message: int) returns (r: Outcome)
      requires Awake() && (active == 0 ==> !ValidQueue(fid) || !Full(queues[fid]))
      modifies `table, `asleep, `ready, `queues, `sent, `dying, `nbProc, `active, `turns
      ensures Valid()
      ensures !old(ValidQueue(fid)) ==> r == Returned(-1) && table == old(table) && queues == old(queues) && sent == old(sent)
      // a full queue: the caller waits, nothing is written
      ensures old(ValidQueue(fid)) && old(Full(queues[fid])) ==>
        r == Suspended && sent == old(sent) && SameRings(old(queues), queues)
        && Resched(old(table)[old(active) := old(table)[old(active)].(status := OnQueue, cont := Sending(fid, message))],
                   old(active), clock, table, active)
      // else the message is written; if it is the first one, the last waiter is made ready
      ensures old(ValidQueue(fid)) && !old(Full(queues[fid])) ==>
        r == Returned(0) && sent == old(sent)[fid := old(sent)[fid] + [message]]
        && queues == old(queues)[fid := Put(Popped(old(queues)[fid]), message)]
        && (if old(queues)[fid].nb == 0 && old(queues)[fid].waiters != []
            then Resched(LastWoken(old(table), old(queues)[fid].waiters), old(active), clock, table, active)
            else table == old(table) && active == old(active) && ready == old(ready))
      // in numbers: it waits on a full queue only, and a first message takes the last waiter
      ensures old(ValidQueue(fid)) ==> (r == Suspended <==> old(queues)[fid].nb == |old(queues)[fid].buffer|)
      ensures old(ValidQueue(fid)) && r != Suspended ==> fid in queues && Sent(old(queues)[fid], queues[fid])
      ensures old(ValidQueue(fid)) && old(queues)[fid].nb == 0 && old(queues)[fid].waiters != [] ==>
        Awoken(table, old(queues)[fid].waiters[|old(queues)[fid].waiters| - 1])
      ensures Fair(old(ready), ready, Prio(table), old(active), active, old(turns), turns)
    {
      hide WaitOn, AllServedBy;
      hide CoreBut, Resched, AllServedBy, Carried, Prio, TopOk, Put, RingOk, WaitOn, NoDup, Sorted, AreReady, Popped, LastWoken;
      WaitOnSelf(ready, Prio(table));
      if !ValidQueue(fid) {
        return Returned(-1);
      }
      QueueFacts(fid);
      RingBounds(queues[fid]);
      ActiveFacts();
      PoppedIs(queues[fid], message);
      WaitersWait();
      ghost var t, w := table, queues[fid].waiters;
      if queues[fid].nb == 0 && queues[fid].waiters != [] {
        SendToWaiter(fid, message);
        WokenIs(t, w, old(active), clock, table, active);
        return Returned(0);
      }
      if queues[fid].nb == |queues[fid].buffer| {
        BlockOnQueue(fid, Sending(fid, message));
        return Suspended;
      }
      Write(fid, message);
      r := Returned(0);
    }

    // The second half of preceive: the oldest message, and a sender that waited for room.
    method GetMessage(f: int) returns (m: int)
      requires Valid() && f in queues && queues[f].nb > 0
      modifies `table, `asleep, `ready, `queues, `got, `dying, `nbProc, `active, `turns
      ensures Valid() && RingOk(old(queues)[f]) && Contents(old(queues)[f])[0] == m
      ensures f in old(got) && got == old(got)[f := old(got)[f] + [m]]
      ensures queues == old(queues)[f := MadeRoom(Take(old(queues)[f]))]
      ensures if Wakes(Take(old(queues)[f]))
              then Resched(LastWoken(old(table), old(queues)[f].waiters), old(active), clock, table, active)
              else table == old(table) && active == old(active) && ready == old(ready)
      ensures Fair(old(ready), ready, Prio(table), old(active), active, old(turns), turns)
    {
      hide WaitOn, AllServedBy;
      hide CoreBut, Resched, AllServedBy, Carried, Prio, TopOk, RingOk, WaitOn, NoDup, Sorted, AreReady, Insert;
      WaitOnSelf(ready, Prio(table));
      ghost var r0 := ready;
      QueueFacts(f);
      RingBounds(queues[f]);
      ActiveFacts();
      m := Read(f);
      if |queues[f].waiters| > 0 && queues[f].nb == |queues[f].buffer| - 1 {
        ReadyFacts();
        WakeWaiter(f);
        WakeCarried(r0, ready, table);
        Scheduling(r0);
      }
    }

    method PReceive(fid: int) returns (r: Outcome)
      requires Awake() && (active == 0 ==> !ValidQueue(fid) || queues[fid].nb != 0)
      modifies `table, `asleep, `ready, `queues, `got, `dying, `nbProc, `active, `turns
      ensures Valid()
      ensures !old(ValidQueue(fid)) ==> r == Returned(-1) && table == old(table) && queues == old(queues) && got == old(got)
      // an empty queue: the caller waits
      ensures old(ValidQueue(fid)) && old(queues)[fid].nb == 0 ==>
        r == Suspended && got == old(got) && SameRings(old(queues), queues)
        && Resched(old(table)[old(active) := old(table)[old(active)].(status := OnQueue, cont := Receiving(fid))],
                   old(active), clock, table, active)
      ensures old(ValidQueue(fid)) && old(queues)[fid].nb != 0 ==>
        RingOk(old(queues)[fid]) && r == Message(Contents(old(queues)[fid])[0])
        && fid in old(got) && got == old(got)[fid := old(got)[fid] + [r.message]]
        && queues == old(queues)[fid := MadeRoom(Take(old(queues)[fid]))]
        && (if Wakes(Take(old(queues)[fid]))
            then Resched(LastWoken(old(table), old(queues)[fid].waiters), old(active), clock, table, active)
            else table == old(table) && active == old(active) && ready == old(ready))
      // in numbers: it waits on an empty queue only, and the first room in a full queue takes the
      // last waiter
      ensures old(ValidQueue(fid)) ==> (r == Suspended <==> old(queues)[fid].nb == 0)
      ensures old(ValidQueue(fid)) && r != Suspended ==> fid in queues && Fetched(old(queues)[fid], queues[fid])
      ensures old(ValidQueue(fid)) && old(queues)[fid].nb == |old(queues)[fid].buffer| && old(queues)[fid].waiters != [] ==>
        Awoken(table, old(queues)[fid].waiters[|old(queues)[fid].waiters| - 1])
      ensures Fair(old(ready), ready, Prio(table), old(active), active, old(turns), turns)
    {
      hide WaitOn, AllServedBy;
      hide CoreBut, Resched, AllServedBy, Prio, TopOk, RingOk, Contents, Take, MadeRoom, LastWoken, Wakes;
      WaitOnSelf(ready, Prio(table));
      if !ValidQueue(fid) {
        return Returned(-1);
      }
      QueueFacts(fid);
      RingBounds(queues[fid]);
      RoomIs(queues[fid]);
      WaitersWait();
      ghost var t, w := table, queues[fid].waiters;
      if queues[fid].nb == 0 {
        BlockOnQueue(fid, Receiving(fid));
        return Suspended;
      }
      var m := GetMessage(fid);
      r := Message(m);
      if Wakes(Take(old(queues)[fid])) {
        WokenIs(t, w, old(active), clock, table, active);
      }
    }

    // A change of the ring's counters, with the history that goes with it.
    method SetQueue(f: int, q: Queue, ghost s: seq<int>, ghost g: seq<int>)
      requires CoreBut(-1) && f in queues && q.waiters == queues[f].waiters && QueueOk(q, s, g)
      modifies `queues, `sent, `got
      ensures CoreBut(-1) && queues == old(queues)[f := q] && sent == old(sent)[f := s] && got == old(got)[f := g]
    {
      hide Core, QueueOk;
      RingKeeps(table, ready, asleep, dying, zombie, blocked, queues, due, sent, got, active, f, q, s, g);
      queues := queues[f := q];
      sent := sent[f := s];
      got := got[f := g];
    }

    method PReset(fid: int) returns (r: Outcome)
      requires Awake()
      modifies `table, `asleep, `ready, `queues, `sent, `got, `dying, `nbProc, `active, `turns
      ensures Valid()
      ensures !old(ValidQueue(fid)) ==> r == Returned(-1) && table == old(table) && queues == old(queues)
      ensures old(ValidQueue(fid)) ==>
        && r == Returned(0) && sent == old(sent)[fid := []] && got == old(got)[fid := []]
        && queues == old(queues)[fid := Emptied(old(queues)[fid]).(waiters := [])]
        && fid in queues && Reset(old(queues)[fid], queues[fid])
        && (forall y :: y in old(queues)[fid].waiters ==> Awoken(table, y))
        && Resched(Unblocked(old(table), old(queues)[fid].waiters), old(active), clock, table, active)
        && AllServedBy(old(ready), ready, Prio(table), active)
      ensures Fair(old(ready), ready, Prio(table), old(active), active, old(turns), turns)
    {
      hide WaitOn, AllServedBy;
      hide CoreBut, Resched, AllServedBy, Carried, Prio, TopOk, RingOk, QueueOk, WaitOn, Unblocked;
      WaitOnSelf(ready, Prio(table));
      if !ValidQueue(fid) {
        return Returned(-1);
      }
      WaitersWait();
      ghost var t, w, a := table, queues[fid].waiters, active;
      ghost var r0 := ready;
      ActiveFacts();
      QueueFacts(fid);
      EmptyQueueOk(queues[fid]);
      SetQueue(fid, Emptied(queues[fid]), [], []);
      UnblockAll(fid);
      ExitCarried(r0, ready, table);
      Scheduling(r0);
      AllWokenAre(t, w, a, clock, table, active);
      r := Returned(0);
    }

    method PDelete(fid: int) returns (r: Outcome)
      requires Awake()
      modifies `table, `asleep, `ready, `queues, `queueCount, `dying, `nbProc, `active, `turns
      ensures Valid()
      ensures !old(ValidQueue(fid)) ==> r == Returned(-1) && table == old(table) && queues == old(queues)
      ensures old(ValidQueue(fid)) ==>
        && r == Returned(0) && queues == old(queues) - {fid}
        && (forall y :: y in old(queues)[fid].waiters ==> Awoken(table, y))
        && Resched(Unblocked(old(table), old(queues)[fid].waiters), old(active), clock, table, active)
        && AllServedBy(old(ready), ready, Prio(table), active)
      ensures Fair(old(ready), ready, Prio(table), old(active), active, old(turns), turns)
    {
      hide WaitOn, AllServedBy;
      hide CoreBut, Resched, AllServedBy, Carried, Prio, TopOk, WaitOn, Unblocked;
      WaitOnSelf(ready, Prio(table));
      if !ValidQueue(fid) {
        return Returned(-1);
      }
      WaitersWait();
      ghost var w, a := queues[fid].waiters, active;
      ghost var r0, t0 := ready, table;
      ActiveFacts();
      UnblockAll(fid);
      DropQueue(fid);
      assert queues == old(queues) - {fid};
      ExitCarried(r0, ready, table);
      Scheduling(r0);
      AllWokenAre(t0, w, a, clock, table, active);
      r := Returned(0);
    }

    method DropQueue(f: int)
      requires CoreBut(-1) && f in queues && queues[f].waiters == []
      modifies `queues, `queueCount
      ensures CoreBut(-1) && queues == old(queues) - {f}
    {
      hide Core;
      QueueGone(table, ready, asleep, dying, zombie, blocked, queues, due, sent, got, active, f);
      queues := queues - {f};
      queueCount := queueCount - 1;
    }

    // No live process has still to come back from a call on a queue that was deleted.
    predicate NoStale()
      reads this
    {
      forall y :: y in table && !Over(table[y].status) && (table[y].cont.Sending? || table[y].cont.Receiving?) ==>
        table[y].cont.fid in queues
    }

    method PCreate(count: int, granted: bool) returns (r: Outcome)
      requires Awake() && NoStale()
      modifies `queues, `queueCount, `sent, `got
      ensures Valid()
      ensures count <= 0 || count > 0x7fff_ffff / 4 || old(queueCount) >= NBQUEUE || !granted ==>
        r == Returned(-1) && queues == old(queues)
      ensures 0 < count <= 0x7fff_ffff / 4 && old(queueCount) < NBQUEUE && granted ==>
        && r.Returned? && 0 <= r.value < NBQUEUE && r.value !in old(queues)
        && (forall f :: 0 <= f < r.value ==> f in old(queues))
        && queues == old(queues)[r.value := NewRing(count)] && sent == old(sent)[r.value := []] && got == old(got)[r.value := []]
        && |queues[r.value].buffer| == count && queues[r.value].nb == 0 && queues[r.value].readIndex == 0
        && queues[r.value].writeIndex == 0 && queues[r.value].resetFlag == 0 && queues[r.value].waiters == []
      ensures Fair(old(ready), ready, Prio(table), old(active), active, old(turns), turns)
    {
      hide WaitOn, AllServedBy;
      hide Core, QueueOk;
      WaitOnSelf(ready, Prio(table));
      if count <= 0 || queueCount >= NBQUEUE || count > 0x7fff_ffff / 4 || !granted {
        return Returned(-1);
      }
      var f := 0;
      while f < NBQUEUE && f in queues
        invariant 0 <= f <= NBQUEUE && forall g :: 0 <= g < f ==> g in queues
      {
        f := f + 1;
      }
      ManyQueues(queues, f);
      AddQueue(f, count);
      r := Returned(f);
    }

    // A fresh queue takes exactly `count` messages: so many sends return 0, and the next one waits.
    method FillQueue(count: int, messages: seq<int>) returns (fid: int, results: seq<Outcome>)
      requires Calling() && NoStale() && 0 < count <= 0x7fff_ffff / 4 && queueCount < NBQUEUE && |messages| == count + 1
      modifies `table, `asleep, `ready, `queues, `queueCount, `sent, `got, `dying, `nbProc, `active, `turns
      ensures Valid() && |results| == count + 1 && results[count] == Suspended
      ensures forall i :: 0 <= i < count ==> results[i] == Returned(0)
      ensures fid in queues && fid in sent && fid in got && sent[fid] == messages[..count] && got[fid] == []
    {
      hide CoreBut, TopOk, Prio, NewRing, Put, Resched, RingOk, Popped;
      var r := PCreate(count, true);
      fid := r.value;
      results := [];
      assert messages[..0] == [];
      for i := 0 to count
        invariant Calling() && fid in queues && fid >= 0 && fid in sent && fid in got
        invariant |queues[fid].buffer| == count && queues[fid].nb == i && queues[fid].waiters == []
        invariant |results| == i && forall k :: 0 <= k < i ==> results[k] == Returned(0)
        invariant sent[fid] == messages[..i] && got[fid] == []
      {
        QueueFacts(fid);
        PutSize(queues[fid], messages[i]);
        NothingPopped(queues[fid]);
        var o := PSend(fid, messages[i]);
        results := results + [o];
        assert messages[..i] + [messages[i]] == messages[..i + 1];
      }
      var o := PSend(fid, messages[count]);
      results := results + [o];
    }

    method AddQueue(f: int, count: int)
      requires CoreBut(-1) && f !in queues && 0 <= f < NBQUEUE && count > 0
      modifies `queues, `queueCount, `sent, `got
      ensures CoreBut(-1) && queues == old(queues)[f := NewRing(count)] && sent == old(sent)[f := []] && got == old(got)[f := []]
    {
      hide Core, QueueOk;
      NewRingOk(count);
      QueueNew(table, ready, asleep, dying, zombie, blocked, queues, due, sent, got, active, f, NewRing(count));
      queues := queues[f := NewRing(count)];
      queueCount := queueCount + 1;
      sent := sent[f := []];
      got := got[f := []];
    }

    // ---- The rest of a suspended call

    method Finish()
      requires Valid() && active != 0
      modifies `table
      ensures Valid() && table == old(table)[active := old(table)[active].(cont := Running)]
    {
      hide Core, Prio, TopOk;
      ContinueKeeps(table, ready, asleep, dying, zombie, blocked, queues, due, sent, got, active);
      table := table[active := table[active].(cont := Running)];
    }

    method ResumeSend(f: int, m: int) returns (r: Outcome)
      requires Valid() && active != 0 && table[active].cont == Sending(f, m)
      modifies `table, `asleep, `ready, `queues, `sent, `dying, `nbProc, `active, `turns
      ensures Valid()
      ensures r == Returned(-1) <==> f !in old(queues) || old(queues)[f].resetFlag != 0
      ensures r == Returned(-1) || r == Suspended ==> sent == old(sent)
      ensures r == Suspended <==> f in old(queues) && old(queues)[f].resetFlag == 0 && Full(old(queues)[f])
      ensures r == Returned(-1) || r == Returned(0) || r == Suspended
      ensures r == Returned(0) ==> f in old(sent) && sent == old(sent)[f := old(sent)[f] + [m]]
      ensures r == Returned(0) ==> f in old(queues) && queues == old(queues)[f := Put(old(queues)[f], m)]
      ensures r == Returned(-1) ==> queues == FlaggedDown(old(queues), f)
      ensures r == Returned(-1) && f in old(queues) ==> f in queues && queues[f].resetFlag == old(queues)[f].resetFlag - 1
      ensures r != Suspended ==> active == old(active) && active in old(table) && ready == old(ready)
                                 && table == old(table)[active := old(table)[active].(cont := Running)]
      ensures r == Suspended ==>
        && SameRings(old(queues), queues)
        && Resched(old(table)[old(active) := old(table)[old(active)].(status := OnQueue)], old(active), clock, table, active)
      ensures Fair(old(ready), ready, Prio(table), old(active), active, old(turns), turns)
    {
      hide WaitOn, AllServedBy;
      hide CoreBut, Resched, AllServedBy, Prio, TopOk, RingOk, QueueOk, Put, SameRings;
      WaitOnSelf(ready, Prio(table));
      ghost var q0 := queues;
      if f in queues {
        QueueFacts(f);
        RingBounds(queues[f]);
      }
      if f !in queues {
        Finish();
        WaitOnSelf(ready, Prio(table));
        return Returned(-1);
      }
      if queues[f].resetFlag != 0 {
        FlagDown(f);
        Finish();
        WaitOnSelf(ready, Prio(table));
        return Returned(-1);
      }
      if queues[f].nb == |queues[f].buffer| {
        BlockOnQueue(f, Sending(f, m));
        return Suspended;
      }
      Write(f, m);
      Finish();
      WaitOnSelf(ready, Prio(table));
      r := Returned(0);
    }

    method FlagDown(f: int)
      requires CoreBut(-1) && f in queues
      modifies `queues
      ensures CoreBut(-1) && queues == old(queues)[f := old(queues)[f].(resetFlag := old(queues)[f].resetFlag - 1)]
    {
      hide Core, QueueOk;
      QueueFacts(f);
      var q := queues[f].(resetFlag := queues[f].resetFlag - 1);
      WaitersAside(queues[f], q, sent[f], got[f]);
      RingKeeps(table, ready, asleep, dying, zombie, blocked, queues, due, sent, got, active, f, q, sent[f], got[f]);
      SameGot(sent, f);
      SameGot(got, f);
      queues := queues[f := q];
    }

    method ResumeReceive(f: int) returns (r: Outcome)
      requires Valid() && active != 0 && table[active].cont == Receiving(f)
      modifies `table, `asleep, `ready, `queues, `got, `dying, `nbProc, `active, `turns
      ensures Valid()
      ensures (if f !in old(queues) || old(queues)[f].nb == 0 || old(queues)[f].resetFlag != 0
               then r == Returned(-1) && got == old(got) && queues == FlaggedDown(old(queues), f)
                    && active == old(active) && active in old(table)
                    && table == old(table)[active := old(table)[active].(cont := Running)]
               else RingOk(old(queues)[f]) && r == Message(Contents(old(queues)[f])[0])
                    && f in old(got) && got == old(got)[f := old(got)[f] + [r.message]]
                    && queues == old(queues)[f := MadeRoom(Take(old(queues)[f]))] && old(active) in old(table)
                    && (var t := old(table)[old(active) := old(table)[old(active)].(cont := Running)];
                        if Wakes(Take(old(queues)[f]))
                        then Resched(LastWoken(t, old(queues)[f].waiters), old(active), clock, table, active)
                        else table == t && active == old(active) && ready == old(ready)))
      ensures r == Returned(-1) && f in old(queues) ==> f in queues && queues[f].resetFlag == old(queues)[f].resetFlag - 1
      ensures Fair(old(ready), ready, Prio(table), old(active), active, old(turns), turns)
    {
      hide WaitOn, AllServedBy;
      hide CoreBut, Resched, AllServedBy, Prio, TopOk, RingOk, Contents;
      WaitOnSelf(ready, Prio(table));
      if f !in queues || queues[f].nb == 0 || queues[f].resetFlag != 0 {
        if f in queues {
          FlagDown(f);
        }
        Finish();
        WaitOnSelf(ready, Prio(table));
        return Returned(-1);
      }
      QueueFacts(f);
      RingBounds(queues[f]);
      Finish();
      var m := GetMessage(f);
      r := Message(m);
    }

    // Someone who waited for any child and is woken finds a zombie.
    method ResumeWaitAny() returns (r: Outcome)
      requires Valid() && active != 0 && table[active].cont == WaitAny
      modifies `table, `dying, `zombie, `due
      ensures Valid() && r.Child? && r.pid in old(due) && r.value == old(due)[r.pid] && due == old(due) - {r.pid}
      ensures r.pid in old(table)[active].children && active in table && r.pid !in table[active].children
      ensures r.pid in old(table) && r.pid != active && table == Released(old(table), active, r.pid, Running)
      ensures Fair(old(ready), ready, Prio(table), old(active), active, old(turns), turns)
    {
      hide WaitOn, AllServedBy;
      hide Core, Released, Prio, TopOk;
      WaitOnSelf(ready, Prio(table));
      TableFacts(-1);
      ChildFacts(active, -1);
      ZombieThere();
      ghost var a, t0 := active, table;
      var c := GetTerminatedChild();
      r := Reap(c);
      ReapedAt(t0, a, c);
      WaitOnSelf(ready, Prio(table));
    }

    lemma ZombieThere()
      requires Valid() && table[active].cont == WaitAny
      ensures exists y :: y in table[active].children && y in table && table[y].status == Zombie
    {
      hide ListsOk, OrderOk, WaitersOk, QueuesOk, FamilyBut, ValuesOk, TableOk;
      Fields(table, active);
      assert ContFits(Sts(table), Children(table), Conts(table)[active], active);
      var l := table[active].children;
      var i :| 0 <= i < |l| && l[i] in Sts(table) && Sts(table)[l[i]] == Zombie;
      var y := l[i];
      assert y in l && Sts(table)[y] == table[y].status;
    }

    // The child waited for is still on the list of its parent.
    method ResumeWaitPid(c: int) returns (r: Outcome)
      requires Valid() && active != 0 && table[active].cont == Cont.WaitPid(c)
      modifies `table, `asleep, `ready, `blocked, `dying, `zombie, `due, `nbProc, `active, `turns
      ensures Valid()
      ensures if c in old(due) then r == Child(c, old(due)[c]) && due == old(due) - {c} else r == Suspended && due == old(due)
      ensures c in old(due) ==> active == old(active) && active in table && c !in table[active].children
      ensures c in old(due) ==> c in old(table) && c != active && table == Released(old(table), active, c, Running)
      ensures c !in old(due) ==>
        Resched(old(table)[old(active) := old(table)[old(active)].(status := Blocked)], old(active), clock, table, active)
      ensures Fair(old(ready), ready, Prio(table), old(active), active, old(turns), turns)
    {
      hide WaitOn, AllServedBy;
      hide Core, Released, Prio, TopOk, Resched, AllServedBy;
      WaitOnSelf(ready, Prio(table));
      AwaitedThere(c);
      ChildFacts(active, -1);
      ZombiesDue();
      ghost var a, t0 := active, table;
      if table[c].status != Zombie {
        Block(Cont.WaitPid(c));
        return Suspended;
      }
      r := Reap(c);
      ReapedAt(t0, a, c);
      WaitOnSelf(ready, Prio(table));
    }

    lemma AwaitedThere(c: int)
      requires Valid() && table[active].cont == Cont.WaitPid(c)
      ensures c in table[active].children
    {
      hide ListsOk, OrderOk, WaitersOk, QueuesOk, FamilyBut, ValuesOk, TableOk;
      Fields(table, active);
      assert ContFits(Sts(table), Children(table), Conts(table)[active], active);
    }

    // What an elected process does first, if it was suspended inside a call.
    method Resume() returns (r: Outcome)
      requires Valid() && active != 0 && table[active].cont != Running
      modifies `table, `asleep, `ready, `blocked, `queues, `dying, `zombie, `due, `sent, `got, `nbProc, `active, `turns
      ensures Valid()
      ensures Fair(old(ready), ready, Prio(table), old(active), active, old(turns), turns)
      ensures NoneOverlooked(old(table)) ==> NoneOverlooked(table)
      ensures NoneLate(old(table), clock) ==> SleepOn(old(table), table, clock)
    {
      hide CoreBut, TopOk, WaitOn, AllServedBy, NoneOverlooked, Resched, Released, LastWoken, Prio;
      hide NoneLate, SleepOn, SameSleepers, OnlyWaiters;
      WaitOnSelf(ready, Prio(table));
      WaitersWait();
      ghost var t, a := table, active;
      QuietRecord(t, a, t[a].(cont := Running));
      RecordSleep(t, a, t[a].(cont := Running));
      StillSleep(t, t[a := t[a].(cont := Running)], clock);
      match table[active].cont {
        case WaitPid(c) =>
          WaitedFor(c);
          r := ResumeWaitPid(c);
          if r == Suspended {
            BlocksWell(t, a, t[a].cont);
            ReschedSame(t[a := t[a].(status := Blocked)], a, clock, table, active);
            RecordSleep(t, a, t[a].(status := Blocked));
            CallSleep(t, t[a := t[a].(status := Blocked)], a, clock, table, active);
          } else {
            QuietReleased(t, a, c, Running);
            if NoneOverlooked(t) { QuieterKeeps(t, table); }
            ReleasedSleep(t, a, c, Running);
            StillSleep(t, table, clock);
          }
        case WaitAny =>
          r := ResumeWaitAny();
          QuietReleased(t, a, r.pid, Running);
          if NoneOverlooked(t) { QuieterKeeps(t, table); }
          ReleasedSleep(t, a, r.pid, Running);
          StillSleep(t, table, clock);
        case Sending(f, m) =>
          r := ResumeSend(f, m);
          if r == Suspended {
            QuietRecord(t, a, t[a].(status := OnQueue));
            QuietResched(t, t[a := t[a].(status := OnQueue)], a, clock, table, active);
            RecordSleep(t, a, t[a].(status := OnQueue));
            CallSleep(t, t[a := t[a].(status := OnQueue)], a, clock, table, active);
          } else {
            if NoneOverlooked(t) { QuieterKeeps(t, table); }
          }
        case Receiving(f) =>
          ghost var qs := queues;
          r := ResumeReceive(f);
          ghost var t1 := t[a := t[a].(cont := Running)];
          if table == t1 {
            if NoneOverlooked(t) { QuieterKeeps(t, table); }
          } else {
            QuietWoken(t1, qs[f].waiters);
            QuietTwice(t, t1, LastWoken(t1, qs[f].waiters));
            QuietResched(t, LastWoken(t1, qs[f].waiters), a, clock, table, active);
            WokenSleep(t, a, qs, f);
            CallSleep(t, LastWoken(t1, qs[f].waiters), a, clock, table, active);
          }
      }
    }

    // A caller that waits for c again does so because c lives.
    lemma WaitedFor(c: int)
      requires Valid() && table[active].cont == Cont.WaitPid(c)
      ensures c !in due ==> forall x :: x in table && Awaits(table[active].(status := Blocked), x) ==> table[x].status != Zombie
    {
      hide Core, TopOk;
      ZombiesDue();
    }

    lemma WaitersWait()
      requires Valid()
      ensures OnlyWaiters(table, queues)
    {
      hide CoreBut, TopOk;
      forall f, y | f in queues && y in queues[f].waiters ensures y in table && table[y].status == OnQueue {
        OneQueue(y);
      }
    }

    lemma AllListed()
      requires Valid()
      ensures Listed(table)
    {
      hide CoreBut, TopOk;
      forall q, c | q in table && c in table[q].children ensures c in table && table[c].parent == q && c != q {
        ChildFacts(q, -1);
      }
    }

    // ---- start

    // get_new_pid
    method GetNewPid() returns (pid: int)
      ensures if pid == -1 then forall y :: 0 <= y < MAXNPROC ==> y in table
              else 0 <= pid < MAXNPROC && pid !in table && forall y :: 0 <= y < pid ==> y in table
    {
      pid := 0;
      while pid < MAXNPROC && pid in table
        invariant 0 <= pid <= MAXNPROC && forall y :: 0 <= y < pid ==> y in table
      {
        pid := pid + 1;
      }
      if pid == MAXNPROC {
        pid := -1;
      }
    }

    // The new record, in its parent's list and in the ready list.
    method Beget(pid: int, v: int)
      requires CoreBut(-1) && pid !in table && 0 < pid < MAXNPROC && 0 <= v < WORD
      requires active in table && table[active].status == Elected
      modifies `table, `ready, `nbProc
      ensures CoreBut(-1) && table == Born(old(table), pid, v, active)
      ensures ready == Insert(old(ready), Prio(table), pid)
      ensures Carried(old(ready), ready, table) && WaitOn(old(ready), ready, Prio(table))
    {
      hide Core, Prio, Born, Insert, Carried, WaitOn, NoDup, Sorted, AreReady;
      ReadyFacts();
      BornCarried(ready, table, pid, v, active);
      BornKeeps(table, ready, asleep, dying, zombie, blocked, queues, due, sent, got, active, pid, v);
      table := Born(table, pid, v, active);
      ready := Insert(ready, Prio(table), pid);
      nbProc := nbProc + 1;
    }

    // `granted`: the record and the stack could be allocated.
    method Start(ssize: int, priority: int, granted: bool) returns (r: int)
      requires Valid() && table[active].cont == Running && 0 <= ssize < WORD
      modifies `table, `asleep, `ready, `dying, `nbProc, `active, `turns
      ensures Valid()
      ensures (forall y :: 0 <= y < MAXNPROC ==> y in old(table)) || !granted || ssize + MIN_SSIZE >= WORD ==>
        r == -1 && table == old(table) && active == old(active) && ready == old(ready)
      ensures !(forall y :: 0 <= y < MAXNPROC ==> y in old(table)) && granted && ssize + MIN_SSIZE < WORD ==>
        && 0 < r < MAXNPROC && r !in old(table) && (forall y :: 0 <= y < r ==> y in old(table))
        && var t1 := Born(old(table), r, Word(priority), old(active));
           if Word(priority) > old(table)[old(active)].priority
           then Resched(t1, old(active), clock, table, active) && AllServedBy(old(ready), ready, Prio(table), active)
           else table == t1 && active == old(active) && WaitOn(old(ready), ready, Prio(table))
      ensures Fair(old(ready), ready, Prio(table), old(active), active, old(turns), turns)
    {
      hide WaitOn, AllServedBy;
      hide CoreBut, Resched, AllServedBy, Carried, Prio, TopOk, WaitOn, Born, NoDup, Sorted, AreReady, Insert;
      WaitOnSelf(ready, Prio(table));
      TableFacts(-1);
      var pid := GetNewPid();
      if pid < 0 || !granted || ssize + MIN_SSIZE >= WORD {
        return -1;
      }
      ghost var r0, t0 := ready, table;
      ActiveFacts();
      ReadyFacts();
      ReadyThere(ready, table);
      Beget(pid, Word(priority));
      BornAt(t0, pid, Word(priority), active);
      if table[pid].priority > table[active].priority {
        Scheduling(r0);
      } else {
        StillTop(t0, r0, pid, Word(priority), active);
      }
      r := pid;
    }

    // ---- Runs

    ghost function Now(): View
      reads this
    {
      View(ready, Prio(table), active, turns, table, clock)
    }

    // Whether the event can happen now: a suspended call is finished first, process 0 makes no
    // call that blocks, and no process comes back to a queue that was deleted and made again.
    predicate Possible(e: Event)
      requires active in table
      reads this
    {
      if e.Tick? then true
      else if table[active].cont != Running then e.Resume? && active != 0
      else
        match e
        case Tick => true
        case Resume => false
        case WaitClock(c) => active != 0 && 0 <= c < WORD
        case Exit(_) => active != 0
        case Kill(pid) => pid in table ==> table[pid].status != Dying
        case WaitPid(_) => active != 0
        case PSend(f, _) => active == 0 ==> !ValidQueue(f) || !Full(queues[f])
        case PReceive(f) => active == 0 ==> !ValidQueue(f) || queues[f].nb != 0
        case PReset(_) => true
        case PDelete(_) => true
        case PCreate(_, _) => NoStale()
        case Start(ssize, _, _) => 0 <= ssize < WORD
        case ChPrio(_, _) => true
    }

    // The event kills a process that its parent waits for.
    predicate LeavesWaiting(e: Event)
      requires active in table
      reads this
    {
      e.Kill? && Possible(e) && e.pid > 0 && e.pid != active && Awaited(table, e.pid) && table[e.pid].status != Zombie
    }

    // One event; an impossible one is ignored. A parent is left waiting for a terminated child by
    // no event but such a kill, and always by it. Who slept goes on sleeping unless its time has
    // passed or it is killed, and nobody else sleeps but the caller of wait_clock.
    method Step(e: Event)
      requires Valid()
      modifies this
      ensures Valid()
      ensures forall x :: !Moves(e, x) ==> Turnover(old(Now()), Now(), x)
      ensures NoneOverlooked(old(table)) ==> (NoneOverlooked(table) <==> !old(LeavesWaiting(e)))
      ensures e != Event.Tick ==> clock == old(clock)
      ensures NoneLate(old(table), old(clock)) ==> SleepStep(old(table), table, clock, e, old(Possible(e)), old(active))
    {
      hide CoreBut, TopOk, Prio, Served, Patient, Resched, NoneOverlooked, Full, LastWoken, Unblocked, Born, Released, SleepOn, NoneLate;
      WaitOnSelf(ready, Prio(table));
      ghost var t, a := table, active;
      SameSleep(t, clock);
      if Possible(e) {
        match e {
          case Tick =>
            Tick();
            ReschedSame(t, a, clock, table, active);
            ReschedSleep(t, a, clock, table, active);
          case Resume => var _ := Resume();
          case Kill(pid) => KillStep(pid);
          case ChPrio(pid, v) =>
            var r := ChPrio(pid, v);
            PriorityStep(t, pid, Word(v), a, clock, table, active, r);
          case WaitClock(c) =>
            ActiveFacts();
            WaitClock(c);
            ghost var t1 := t[a := t[a].(status := Asleep, wakeUp := c)];
            QuietRecord(t, a, t1[a]);
            QuietResched(t, t1, a, clock, table, active);
            ReschedSleep(t1, a, clock, table, active);
            NewSleeper(t, a, c, clock, table);
          case _ => CallStep(e);
        }
        if !e.WaitClock? && !e.Kill? {
          SleepIsStep(t, table, clock, e, true, a);
        }
      } else {
        SleepIsStep(t, table, clock, e, false, a);
      }
    }

    method KillStep(pid: int)
      requires Valid() && Possible(Event.Kill(pid))
      modifies this
      ensures Valid() && clock == old(clock)
      ensures Fair(old(ready), ready, Prio(table), old(active), active, old(turns), turns)
      ensures NoneOverlooked(old(table)) ==> (NoneOverlooked(table) <==> !old(LeavesWaiting(Event.Kill(pid))))
      ensures NoneLate(old(table), clock) ==> SleepStep(old(table), table, clock, Event.Kill(pid), true, old(active))
    {
      hide CoreBut, TopOk, Prio, Resched, NoneOverlooked, ExitTable, KillTable, WaitOn, AllServedBy, Listed, NoneLate, SleepOn, SameSleepers;
      ghost var t, a := table, active;
      AllListed();
      TableFacts(-1);
      SameSleep(t, clock);
      var r := Kill(pid);
      if pid > 0 && pid in t && t[pid].status != Zombie {
        if pid == a {
          ExitOverlooks(t, a, false, 0);
          ReschedSame(ExitTable(t, a, false, 0), a, clock, table, active);
          ExitSleep(t, a, false, 0);
          CallSleep(t, ExitTable(t, a, false, 0), a, clock, table, active);
        } else {
          KillOverlooks(t, pid);
          ReschedSame(KillTable(t, pid), a, clock, table, active);
          ReschedSleep(KillTable(t, pid), a, clock, table, active);
          KilledSleep(t, table, clock, pid, a);
        }
      }
      if pid == a || pid <= 0 || pid !in t || t[pid].status == Zombie {
        NobodyKilled(t, table, clock, pid, a);
      }
    }

    // The other calls.
    method CallStep(e: Event)
      requires Valid() && Possible(e) && !e.Tick? && !e.Resume? && !e.Kill? && !e.ChPrio? && !e.WaitClock?
      modifies this
      ensures Valid() && clock == old(clock)
      ensures Fair(old(ready), ready, Prio(table), old(active), active, old(turns), turns)
      ensures NoneOverlooked(old(table)) ==> NoneOverlooked(table)
      ensures NoneLate(old(table), clock) ==> SleepOn(old(table), table, clock)
    {
      hide CoreBut, TopOk, Prio, Resched, NoneOverlooked, WaitOn, AllServedBy, Listed, Full, LastWoken, Unblocked, Born, Released;
      hide Quieter, ExitTable, NoneLate, SleepOn, SameSleepers, OnlyWaiters;
      WaitOnSelf(ready, Prio(table));
      WaitersWait();
      ghost var t, a, qs := table, active, queues;
      SameSleep(t, clock);
      match e {
        case Exit(v) =>
          AllListed();
          Exit(v);
          ExitOverlooks(t, a, false, v);
          ReschedSame(ExitTable(t, a, false, v), a, clock, table, active);
          ExitSleep(t, a, false, v);
          CallSleep(t, ExitTable(t, a, false, v), a, clock, table, active);
        case WaitPid(pid) => WaitStep(pid);
        case PSend(f, m) =>
          var r := PSend(f, m);
          SendStep(t, qs, f, a, clock, table, active, t[a].(status := OnQueue, cont := Sending(f, m)));
        case PReceive(f) =>
          var r := PReceive(f);
          SendStep(t, qs, f, a, clock, table, active, t[a].(status := OnQueue, cont := Receiving(f)));
        case PReset(f) =>
          var r := PReset(f);
          ResetStep(t, qs, f, a, clock, table, active);
        case PDelete(f) =>
          var r := PDelete(f);
          ResetStep(t, qs, f, a, clock, table, active);
        case PCreate(count, granted) => var _ := PCreate(count, granted);
        case Start(ssize, priority, granted) =>
          var r := Start(ssize, priority, granted);
          StartStep(t, r, Word(priority), a, clock, table, active);
      }
    }

    method WaitStep(pid: int)
      requires Calling()
      modifies this
      ensures Valid() && clock == old(clock)
      ensures Fair(old(ready), ready, Prio(table), old(active), active, old(turns), turns)
      ensures NoneOverlooked(old(table)) ==> NoneOverlooked(table)
      ensures NoneLate(old(table), clock) ==> SleepOn(old(table), table, clock)
    {
      hide CoreBut, TopOk, Prio, Resched, NoneOverlooked, WaitOn, AllServedBy, Released, NoneLate, SleepOn, SameSleepers;
      ghost var t, a := table, active;
      SameSleep(t, clock);
      ZombiesDue();
      var r := WaitPid(pid);
      if r == Suspended {
        ghost var k := if pid < 0 then WaitAny else Cont.WaitPid(pid);
        BlocksWell(t, a, k);
        ReschedSame(t[a := t[a].(status := Blocked, cont := k)], a, clock, table, active);
        RecordSleep(t, a, t[a].(status := Blocked, cont := k));
        CallSleep(t, t[a := t[a].(status := Blocked, cont := k)], a, clock, table, active);
      } else if r.Child? {
        QuietReleased(t, a, r.pid, Running);
        if NoneOverlooked(t) { QuieterKeeps(t, table); }
        ReleasedSleep(t, a, r.pid, Running);
        StillSleep(t, table, clock);
      }
    }

    // Any run keeps the invariant. Without kill no parent is left waiting. A process that nobody
    // is above, and whose priority nobody sets, waits for no more calls of scheduling() than there
    // were processes before it. Who calls wait_clock sleeps until the clock is past that time.
    method Run(events: seq<Event>) returns (ghost views: seq<View>)
      requires Valid()
      modifies this
      ensures Valid()
      ensures |views| == |events| + 1 && views[0] == old(Now()) && views[|events|] == Now()
      ensures forall i, x :: 0 <= i < |events| && !Moves(events[i], x) ==> Turnover(views[i], views[i + 1], x)
      ensures NoneOverlooked(old(table)) && (forall e :: e in events ==> !e.Kill?) ==> NoneOverlooked(table)
      ensures forall x :: WaitsAtTop(views, x) && (forall e :: e in events ==> !Moves(e, x)) ==>
        turns - old(turns) <= Ahead(old(ready), x)
      ensures NoneLate(old(table), old(clock)) ==> NoneLate(table, clock) && Slumbers(views, events) && FallAsleep(views, events)
    {
      hide Valid, Prio, Turnover, WaitsAtTop, AtTop, NoneOverlooked, NoneLate, SleepStep, Slumbers, FallAsleep, Resting, Retiring;
      views := [Now()];
      var i := 0;
      while i < |events|
        invariant Valid() && 0 <= i <= |events|
        invariant |views| == i + 1 && views[0] == old(Now()) && views[i] == Now()
        invariant forall j, x :: 0 <= j < i && !Moves(events[j], x) ==> Turnover(views[j], views[j + 1], x)
        invariant NoneOverlooked(old(table)) && (forall e :: e in events ==> !e.Kill?) ==> NoneOverlooked(table)
        invariant NoneLate(old(table), old(clock)) ==>
          NoneLate(table, clock) && forall j :: 0 <= j < i ==> Resting(views[j], views[j + 1], events[j]) && Retiring(views[j], views[j + 1], events[j])
      {
        assert events[i] in events;
        ghost var possible := Enabled(events[i]);
        Step(events[i]);
        if NoneLate(old(table), old(clock)) {
          StepRests(views[i], Now(), events[i], possible);
        }
        views := views + [Now()];
        i := i + 1;
      }
      forall x | WaitsAtTop(views, x) && (forall e :: e in events ==> !Moves(e, x))
        ensures turns - old(turns) <= Ahead(old(ready), x)
      {
        forall j | 0 <= j < |views| - 1 ensures Turnover(views[j], views[j + 1], x) {
          assert events[j] in events;
        }
        WaitBounded(views, x);
      }
      if NoneLate(old(table), old(clock)) {
        RunSlumbers(views, events);
      }
    }

    // Possible, and what that says of a call of wait_clock.
    ghost function Enabled(e: Event): (r: bool)
      requires Valid()
      reads this
      ensures r == Possible(e) && active in table && table[active].status == Elected
      ensures e.WaitClock? ==> (r <==> active != 0 && table[active].cont == Running && 0 <= e.until < WORD)
    {
      Possible(e)
    }

  }

  // Process 1 with two children of lower priority.
  method TwoChildren() returns (k: Kernel)
    ensures fresh(k) && k.Valid() && k.active == 1 && k.due == map[] && k.table.Keys == {0, 1, 2, 3}
    ensures k.table[1].status == Elected && k.table[1].cont == Running && 2 in k.table[1].children && k.table[1].priority == 128
    ensures k.table[0].status == Ready && k.table[0].priority == 1 && k.table[0].cont == Running
    ensures k.table[2].status == Ready && k.table[2].priority == 2 && k.table[2].parent == 1 && k.table[2].children == []
    ensures k.table[3].status == Ready && k.table[3].priority == 3 && k.table[3].cont == Running && k.table[3].children == []
  {
    hide Kernel.CoreBut, TopOk, AllServedBy, WaitOn, Insert, Resched;
    k := new Kernel(0);
    assert 2 !in k.table;
    var c := k.Start(0, 2, true);
    assert c == 2;
    BirthFacts(BootTable(), 2, 2, 1);
    ghost var t := k.table;
    assert 3 !in k.table;
    var d := k.Start(0, 3, true);
    assert d == 3;
    BirthFacts(t, 3, 3, 1);
  }

  lemma BirthFacts(t: map<int, Proc>, p: int, v: int, parent: int)
    requires parent in t && parent != 0 && p !in t
    ensures var t' := Born(t, p, v, parent);
            && t'.Keys == t.Keys + {p} && t'[p] == Proc(Ready, v, 0, parent, [], false, 0, Running)
            && t'[parent] == t[parent].(children := t'[parent].children)
            && (forall c :: c in t'[parent].children <==> c in t[parent].children || c == p)
            && forall y :: y in t && y != parent ==> t'[y] == t[y]
  {
    InsertMembers(t[parent].children, Prio(t)[p := v], p);
    hide Insert;
  }

  // Process 1 waits for its child 2, and its child 3 runs.
  method ParentWaits() returns (k: Kernel)
    ensures fresh(k) && k.Valid() && k.active == 3 && k.table.Keys == {0, 1, 2, 3}
    ensures Awaits(k.table[1], 2) && k.table[2].status == Ready && k.table[2].parent == 1 && k.table[2].children == []
    ensures k.table[3].status == Elected && k.table[3].cont == Running && k.table[3].children == []
  {
    hide Kernel.CoreBut, TopOk, AllServedBy, WaitOn, Insert, Prio, Resched, Released;
    k := TwoChildren();
    ghost var t := k.table[1 := k.table[1].(status := Blocked, cont := Cont.WaitPid(2))];
    var w := k.WaitPid(2);
    assert w == Suspended;
    KeptRecords(t, 1, k.clock, k.table, k.active);
    if k.active != 2 { k.TopRuns(2); }
    if k.active != 3 { k.TopRuns(3); }
  }

  // What scheduling() leaves of the records of this example.
  lemma KeptRecords(t: map<int, Proc>, a: int, clock: int, t': map<int, Proc>, a': int)
    requires Resched(t, a, clock, t', a') && forall y :: y in t ==> t[y].status != Asleep && t[y].status != Dying
    ensures t'.Keys == t.Keys && a' in t && (t[a'].status == Ready || t[a'].status == Elected)
    ensures forall y :: y in t ==> t'[y] == t[y].(status := if y == a' then Elected else if t[y].status == Elected then Ready else t[y].status)
  {
    forall y | y in t ensures Woken(t[y], clock) == t[y] && y in t' {}
  }

  // For example: child 3 kills child 2, and the parent goes on waiting.
  method LeftWaiting() returns (k: Kernel)
    ensures fresh(k) && k.Valid() && 1 in k.table && 2 in k.table && k.table[2].status == Zombie && Awaits(k.table[1], 2)
  {
    hide Kernel.CoreBut, TopOk, AllServedBy, WaitOn, Insert, Prio, Resched;
    k := ParentWaits();
    ghost var t := k.table;
    var r := k.Kill(2);
    assert KillTable(t, 2)[2].status == Zombie && KillTable(t, 2)[1] == t[1];
    StillThere(KillTable(t, 2), 3, k.clock, k.table, k.active);
  }

  lemma StillThere(t: map<int, Proc>, a: int, clock: int, t': map<int, Proc>, a': int)
    requires Resched(t, a, clock, t', a') && 1 in t && 2 in t && t[2].status == Zombie && t[1].status == Blocked
    ensures 1 in t' && 2 in t' && t'[1] == t[1] && t'[2] == t[2]
  {}

  ghost predicate NoZombie(t: map<int, Proc>, l: seq<int>) {
    forall y :: y in l ==> y in t && t[y].status != Zombie
  }

  ghost predicate OnlyWaiters(t: map<int, Proc>, qs: map<int, Queue>) {
    forall f, y :: f in qs && y in qs[f].waiters ==> y in t && t[y].status == OnQueue
  }

  lemma LastSleep(t: map<int, Proc>, qs: map<int, Queue>, f: int)
    requires OnlyWaiters(t, qs) && f in qs && qs[f].waiters != []
    ensures SameSleepers(t, LastWoken(t, qs[f].waiters))
  {
    var w := qs[f].waiters;
    assert w[|w| - 1] in w;
  }

  lemma WokenSleep(t: map<int, Proc>, a: int, qs: map<int, Queue>, f: int)
    requires OnlyWaiters(t, qs) && f in qs && qs[f].waiters != [] && a in t
    ensures SameSleepers(t, LastWoken(t[a := t[a].(cont := Running)], qs[f].waiters))
  {
    var t1 := t[a := t[a].(cont := Running)];
    assert OnlyWaiters(t1, qs);
    RecordSleep(t, a, t1[a]);
    LastSleep(t1, qs, f);
  }

  lemma UnblockedSleep(t: map<int, Proc>, qs: map<int, Queue>, f: int)
    requires OnlyWaiters(t, qs) && f in qs
    ensures SameSleepers(t, Unblocked(t, qs[f].waiters))
  {}

  // ---- Sleepers over a run

  ghost predicate Resting(v: View, v': View, e: Event) {
    forall x, c :: e != Event.Kill(x) ==> RestsOn(v, v', x, c)
  }

  // The caller of wait_clock sleeps, unless the time is past.
  ghost predicate Retiring(v: View, v': View, e: Event) {
    e.WaitClock? && v.active in v.table && v.active != 0 && v.table[v.active].cont == Running && 0 <= e.until < WORD ==>
      (Sleeping(v'.table, v.active, e.until) <==> v'.clock <= e.until)
  }

  lemma StepRests(v: View, v': View, e: Event, possible: bool)
    requires SleepStep(v.table, v'.table, v'.clock, e, possible, v.active)
    requires v.active in v.table && v.table[v.active].status == Elected
    requires e.WaitClock? && v.active != 0 && v.table[v.active].cont == Running && 0 <= e.until < WORD ==> possible
    ensures NoneLate(v'.table, v'.clock) && Resting(v, v', e) && Retiring(v, v', e)
  {}

  ghost predicate Untouched(events: seq<Event>, i: nat, j: nat, x: int) {
    forall k :: i <= k < j && k < |events| ==> events[k] != Event.Kill(x)
  }

  ghost predicate Early(views: seq<View>, i: nat, j: nat, c: int) {
    forall k :: i < k < j && k < |views| ==> views[k].clock <= c
  }

  // Who sleeps until c, and is not killed, sleeps in every state up to the first whose clock is
  // past c, and no longer.
  ghost predicate Slumbers(views: seq<View>, events: seq<Event>) {
    forall i: nat, j: nat, x, c ::
      i < j < |views| && Sleeping(views[i].table, x, c) && Untouched(events, i, j, x) && Early(views, i, j, c) ==>
        (Sleeping(views[j].table, x, c) <==> views[j].clock <= c)
  }

  ghost predicate FallAsleep(views: seq<View>, events: seq<Event>) {
    forall i :: 0 <= i < |events| && i + 1 < |views| ==> Retiring(views[i], views[i + 1], events[i])
  }

  lemma RunSlumbers(views: seq<View>, events: seq<Event>)
    requires |views| == |events| + 1
    requires forall j :: 0 <= j < |events| ==> Resting(views[j], views[j + 1], events[j]) && Retiring(views[j], views[j + 1], events[j])
    ensures Slumbers(views, events) && FallAsleep(views, events)
  {
    hide Retiring;
    forall i: nat, j: nat, x, c |
      i < j < |views| && Sleeping(views[i].table, x, c) && Untouched(events, i, j, x) && Early(views, i, j, c)
      ensures Sleeping(views[j].table, x, c) <==> views[j].clock <= c
    {
      var run := views[i..j + 1];
      forall k | 0 <= k < j - i ensures RestsOn(run[k], run[k + 1], x, c) {
        assert Resting(views[i + k], views[i + k + 1], events[i + k]) && events[i + k] != Event.Kill(x);
      }
      SleepsUntil(run, x, c, j - i);
    }
  }

  // What one event does to the sleepers.
  ghost predicate SleepStep(t: map<int, Proc>, t': map<int, Proc>, clock: int, e: Event, possible: bool, a: int) {
    forall x, c :: Sleeping(t', x, c) <==>
      clock <= c && ((Sleeping(t, x, c) && !(possible && e == Event.Kill(x))) || (possible && x == a && e == Event.WaitClock(c)))
  }

  lemma SameSleep(t: map<int, Proc>, clock: int)
    ensures NoneLate(t, clock) ==> SleepOn(t, t, clock)
  {}

  lemma SleepIsStep(t: map<int, Proc>, t': map<int, Proc>, clock: int, e: Event, possible: bool, a: int)
    requires possible ==> !e.Kill? && !e.WaitClock?
    ensures SleepOn(t, t', clock) ==> SleepStep(t, t', clock, e, possible, a)
  {}

  lemma NewSleeper(t: map<int, Proc>, a: int, c: int, clock: int, t': map<int, Proc>)
    requires a in t && t[a].status == Elected && SleepOn(t[a := t[a].(status := Asleep, wakeUp := c)], t', clock)
    ensures SleepStep(t, t', clock, Event.WaitClock(c), true, a)
  {
    var t1 := t[a := t[a].(status := Asleep, wakeUp := c)];
    forall x, d ensures Sleeping(t1, x, d) <==> Sleeping(t, x, d) || (x == a && d == c) {}
  }

  lemma KilledSleep(t: map<int, Proc>, t': map<int, Proc>, clock: int, p: int, a: int)
    requires p in t && SleepOn(KillTable(t, p), t', clock)
    ensures SleepStep(t, t', clock, Event.Kill(p), true, a)
  {
    KillSleep(t, p);
    hide KillTable, Sleeping;
  }

  lemma NobodyKilled(t: map<int, Proc>, t': map<int, Proc>, clock: int, p: int, a: int)
    requires p in t ==> t[p].status != Asleep
    ensures SleepOn(t, t', clock) ==> SleepStep(t, t', clock, Event.Kill(p), true, a)
  {}

  lemma QuietWoken(t: map<int, Proc>, w: seq<int>)
    requires w != []
    ensures Quieter(t, LastWoken(t, w))
  {}

  lemma QuietUnblocked(t: map<int, Proc>, w: seq<int>)
    ensures Quieter(t, Unblocked(t, w))
  {}

  // chprio changes no status.
  lemma PriorityStep(t: map<int, Proc>, pid: int, v: int, a: int, clock: int, t': map<int, Proc>, a': int, r: int)
    requires t' == t || (pid in t && Resched(t[pid := t[pid].(priority := v)], a, clock, t', a'))
    ensures NoneOverlooked(t) ==> NoneOverlooked(t')
    ensures NoneLate(t, clock) ==> SleepOn(t, t', clock)
  {
    hide Resched, NoneOverlooked, NoneLate, SleepOn, SameSleepers;
    SameSleep(t, clock);
    if t' != t {
      RecordSleep(t, pid, t[pid].(priority := v));
      CallSleep(t, t[pid := t[pid].(priority := v)], a, clock, t', a');
      QuietRecord(t, pid, t[pid].(priority := v));
      QuietResched(t, t[pid := t[pid].(priority := v)], a, clock, t', a');
    }
  }

  // The caller waits on a queue, or one waiter is woken, or nothing happens to the processes.
  lemma SendStep(t: map<int, Proc>, qs: map<int, Queue>, f: int, a: int, clock: int, t': map<int, Proc>, a': int, pr: Proc)
    requires a in t && pr.status == OnQueue
    requires t' == t || Resched(t[a := pr], a, clock, t', a')
          || (f in qs && qs[f].waiters != [] && Resched(LastWoken(t, qs[f].waiters), a, clock, t', a'))
    requires t[a].status == Elected && OnlyWaiters(t, qs)
    ensures NoneOverlooked(t) ==> NoneOverlooked(t')
    ensures NoneLate(t, clock) ==> SleepOn(t, t', clock)
  {
    hide Resched, NoneOverlooked, LastWoken, NoneLate, SleepOn, SameSleepers, OnlyWaiters;
    SameSleep(t, clock);
    if t' != t {
      QuietRecord(t, a, pr);
      RecordSleep(t, a, pr);
      if Resched(t[a := pr], a, clock, t', a') {
        QuietResched(t, t[a := pr], a, clock, t', a');
        CallSleep(t, t[a := pr], a, clock, t', a');
      } else {
        LastSleep(t, qs, f);
        CallSleep(t, LastWoken(t, qs[f].waiters), a, clock, t', a');
        QuietWoken(t, qs[f].waiters);
        QuietResched(t, LastWoken(t, qs[f].waiters), a, clock, t', a');
      }
    }
  }

  lemma ResetStep(t: map<int, Proc>, qs: map<int, Queue>, f: int, a: int, clock: int, t': map<int, Proc>, a': int)
    requires t' == t || (f in qs && Resched(Unblocked(t, qs[f].waiters), a, clock, t', a'))
    requires OnlyWaiters(t, qs)
    ensures NoneOverlooked(t) ==> NoneOverlooked(t')
    ensures NoneLate(t, clock) ==> SleepOn(t, t', clock)
  {
    hide Resched, NoneOverlooked, Unblocked, NoneLate, SleepOn, SameSleepers, OnlyWaiters;
    SameSleep(t, clock);
    if t' != t {
      UnblockedSleep(t, qs, f);
      CallSleep(t, Unblocked(t, qs[f].waiters), a, clock, t', a');
      QuietUnblocked(t, qs[f].waiters);
      QuietResched(t, Unblocked(t, qs[f].waiters), a, clock, t', a');
    }
  }

  lemma StartStep(t: map<int, Proc>, p: int, v: int, a: int, clock: int, t': map<int, Proc>, a': int)
    requires a in t && t[a].status == Elected
    requires t' == t || (p !in t && (t' == Born(t, p, v, a) || Resched(Born(t, p, v, a), a, clock, t', a')))
    ensures NoneOverlooked(t) ==> NoneOverlooked(t')
    ensures NoneLate(t, clock) ==> SleepOn(t, t', clock)
  {
    hide Resched, NoneOverlooked, Born, NoneLate, SleepOn, SameSleepers;
    SameSleep(t, clock);
    if t' != t {
      BornSleep(t, p, v, a);
      QuietBorn(t, p, v, a);
      if t' == Born(t, p, v, a) {
        if NoneOverlooked(t) { QuieterKeeps(t, t'); }
        StillSleep(t, t', clock);
      } else {
        QuietResched(t, Born(t, p, v, a), a, clock, t', a');
        CallSleep(t, Born(t, p, v, a), a, clock, t', a');
      }
    }
  }

  lemma SortedElse(q: seq<int>, t: map<int, Proc>, t': map<int, Proc>, p: int)
    requires NoDup(q) && Sorted(q, Prio(t)) && AreReady(q, t) && p in t && p in t' && t' == t[p := t'[p]]
    ensures NoDup(Without(q, p)) && Sorted(Without(q, p), Prio(t'))
  {
    WithoutMembers(q, p);
    WithoutOrder(q, Prio(t), p);
    var r := Without(q, p);
    forall i, j | 0 <= i < j < |r| ensures Key(Prio(t'), r[i]) <= Key(Prio(t'), r[j]) {
      assert r[i] in r && r[j] in r;
    }
  }

  lemma NotThere(q: seq<int>, t: map<int, Proc>, p: int)
    requires AreReady(q, t) && p in t
    ensures p in q <==> t[p].status == Ready
  {}

  lemma ElectedStill(t: map<int, Proc>, t': map<int, Proc>, pid: int)
    requires pid in t && pid in t' && t' == t[pid := t'[pid]] && t'[pid].status == t[pid].status
    ensures forall y :: y in t ==> t'[y].status == t[y].status
  {}

  lemma WaiterFits(t: map<int, Proc>, qs: map<int, Queue>, pid: int, f: int, v: int)
    requires pid in t && t[pid].status == OnQueue && pid != 0 && Names(t[pid].cont, f) && f in qs && 0 <= v < WORD
    ensures QueueFits(t, qs, pid, t[pid].(priority := v), OnQueue, f)
  {}

  lemma QueueCount(qs: map<int, Queue>, was: Status, f: int, key: map<int, int>, p: int)
    requires f in qs
    ensures |Enqueued(qs, was, f, key, p)| == |qs| && Enqueued(qs, was, f, key, p).Keys == qs.Keys
    ensures SameRings(qs, Enqueued(qs, was, f, key, p))
  {
    SameSize(qs, Enqueued(qs, was, f, key, p));
  }

  // The waiting lists apart, the queues are the same.
  ghost predicate SameRings(qs: map<int, Queue>, qs': map<int, Queue>) {
    qs'.Keys == qs.Keys && forall f :: f in qs ==> qs'[f].(waiters := []) == qs[f].(waiters := [])
  }

  lemma CallerQueueFits(t: map<int, Proc>, qs: map<int, Queue>, p: int, pr: Proc, f: int)
    requires p in t && t[p].status == Elected && p != 0 && Names(pr.cont, f) && f in qs && 0 <= t[p].priority < WORD
    requires pr == t[p].(status := OnQueue, cont := pr.cont)
    ensures QueueFits(t, qs, p, pr, Elected, f)
  {}

  lemma PutQueueOk(q: Queue, s: seq<int>, g: seq<int>, m: int)
    requires QueueOk(q, s, g) && q.nb < |q.buffer|
    ensures QueueOk(Put(q, m), s + [m], g) && Put(q, m).waiters == q.waiters
  {
    PutContents(q, m);
    assert s + [m] == g + (Contents(q) + [m]);
  }

  lemma TakeQueueOk(q: Queue, s: seq<int>, g: seq<int>)
    requires QueueOk(q, s, g) && q.nb > 0
    ensures 0 <= q.readIndex < |q.buffer| && Contents(q)[0] == q.buffer[q.readIndex]
    ensures QueueOk(Take(q), s, g + [q.buffer[q.readIndex]]) && Take(q).waiters == q.waiters
  {
    TakeContents(q);
    assert g + [q.buffer[q.readIndex]] + Contents(Take(q)) == g + ([q.buffer[q.readIndex]] + Contents(Take(q)));
  }

  lemma SameGot(m: map<int, seq<int>>, f: int)
    requires f in m
    ensures m[f := m[f]] == m
  {}

  lemma WaitOnSelf(q: seq<int>, prio: map<int, int>)
    ensures WaitOn(q, q, prio)
  {}

  lemma ReadyThere(q: seq<int>, t: map<int, Proc>)
    requires AreReady(q, t)
    ensures forall y :: y in q ==> y in t
  {}

  lemma NotReady(q: seq<int>, t: map<int, Proc>, p: int)
    requires AreReady(q, t) && p in t && t[p].status != Ready
    ensures p !in q
  {}

  lemma OrphanedAt(t: map<int, Proc>, p: int)
    requires p in t
    ensures p in Orphaned(t, p) && Orphaned(t, p)[p] == t[p].(children := [])
  {}

  lemma EndedAt(t: map<int, Proc>, p: int, k: bool, v: int)
    requires p in t
    ensures p in Ended(t, p, k, v) && Ended(t, p, k, v)[p] == t[p].(status := if t[p].parent != 0 then Zombie else Dying, killed := k, retval := v)
  {}

  lemma UnblockedAt(t: map<int, Proc>, p: int)
    requires p in t && t[p].status == Zombie
    ensures p in ParentUnblocked(t, p) && ParentUnblocked(t, p)[p] == t[p]
  {}

  lemma ExitCarried(q: seq<int>, q': seq<int>, t: map<int, Proc>)
    requires WaitOn(q, q', Prio(t)) && forall x :: x in q ==> x in q'
    ensures Carried(q, q', t)
  {}

  lemma KillCarried(q: seq<int>, q': seq<int>, t: map<int, Proc>, p: int)
    requires AreReady(q, t) && NoDup(q) && p in t && !Over(t[p].status)
    requires q' == Unlist(q, Ready, t[p].status, p)
    ensures Carried(q, q', KillTable(t, p))
  {
    WithoutMembers(q, p);
    WaitOnWithout(q, Prio(KillTable(t, p)), p);
  }

  lemma ReleasedAt(t: map<int, Proc>, q: int, c: int)
    requires q in t && c in t && q != c
    ensures q in Released(t, q, c, Running) && Released(t, q, c, Running)[q].status == t[q].status
  {}

  lemma ReapedAt(t: map<int, Proc>, q: int, c: int)
    requires q in t && c in t && q != c && NoDup(t[q].children)
    ensures q in Released(t, q, c, Running) && c !in Released(t, q, c, Running)[q].children
  {
    WithoutMembers(t[q].children, c);
  }

  predicate Full(q: Queue) {
    q.nb == |q.buffer|
  }

  // A message sent to an empty queue takes its last waiter off the list.
  function Popped(q: Queue): Queue {
    if q.nb == 0 && q.waiters != [] then q.(waiters := q.waiters[..|q.waiters| - 1]) else q
  }

  lemma NothingPopped(q: Queue)
    requires q.waiters == []
    ensures Popped(q) == q
  {}

  // ---- The queues in numbers

  // A message was written; if it was the first, the last waiter is off the list.
  predicate Sent(q: Queue, q': Queue) {
    && q'.nb == q.nb + 1 && |q'.buffer| == |q.buffer| && q'.readIndex == q.readIndex && q'.resetFlag == q.resetFlag
    && q'.waiters == if q.nb == 0 && q.waiters != [] then q.waiters[..|q.waiters| - 1] else q.waiters
  }

  // A message was read; if the queue was full, the last waiter is off the list.
  predicate Fetched(q: Queue, q': Queue) {
    && q'.nb == q.nb - 1 && q'.buffer == q.buffer && q'.writeIndex == q.writeIndex && q'.resetFlag == q.resetFlag
    && q'.waiters == if q.nb == |q.buffer| && q.waiters != [] then q.waiters[..|q.waiters| - 1] else q.waiters
  }

  predicate Reset(q: Queue, q': Queue) {
    && q'.nb == 0 && q'.readIndex == 0 && q'.writeIndex == 0 && q'.buffer == q.buffer
    && q'.resetFlag == |q.waiters| && q'.waiters == []
  }

  // y may run.
  predicate Awoken(t: map<int, Proc>, y: int) {
    y in t && (t[y].status == Ready || t[y].status == Elected)
  }

  lemma PoppedIs(q: Queue, m: int)
    requires RingOk(q)
    ensures 0 <= Popped(q).writeIndex < |Popped(q).buffer| && 0 <= q.writeIndex < |q.buffer|
    ensures Sent(q, Put(Popped(q), m)) && (q.nb == 0 && q.waiters != [] ==> !Full(q)) && (!(q.nb == 0 && q.waiters != []) ==> Popped(q) == q)
  {}

  lemma RoomIs(q: Queue)
    requires RingOk(q)
    ensures |q.buffer| >= 1 && Fetched(q, MadeRoom(Take(q))) && (Wakes(Take(q)) <==> q.nb == |q.buffer| && q.waiters != [])
  {}

  lemma WokenIs(t: map<int, Proc>, w: seq<int>, a: int, clock: int, t': map<int, Proc>, a': int)
    requires w != [] && (forall y :: y in w ==> y in t && t[y].status == OnQueue) && Resched(LastWoken(t, w), a, clock, t', a')
    ensures Awoken(t', w[|w| - 1])
  {
    assert w[|w| - 1] in w;
    SchedulingMeans(LastWoken(t, w), a, clock, t', a');
    hide Resched;
  }

  lemma AllWokenAre(t: map<int, Proc>, w: seq<int>, a: int, clock: int, t': map<int, Proc>, a': int)
    requires (forall y :: y in w ==> y in t && t[y].status == OnQueue) && Resched(Unblocked(t, w), a, clock, t', a')
    ensures forall y :: y in w ==> Awoken(t', y)
  {
    SchedulingMeans(Unblocked(t, w), a, clock, t', a');
    hide Resched;
  }

  function LastWoken(t: map<int, Proc>, w: seq<int>): map<int, Proc>
    requires w != []
  {
    var p := w[|w| - 1];
    if p in t then t[p := t[p].(status := Ready)] else t
  }

  lemma RingBounds(q: Queue)
    requires RingOk(q)
    ensures |q.buffer| >= 1 && 0 <= q.nb <= |q.buffer| && 0 <= q.writeIndex < |q.buffer| && 0 <= q.readIndex < |q.buffer|
  {}

  lemma RingAside(q: Queue, q': Queue)
    requires RingOk(q) && q' == q.(waiters := q'.waiters)
    ensures RingOk(q')
  {}

  lemma WakeCarried(q: seq<int>, q': seq<int>, t: map<int, Proc>)
    requires NoDup(q) && Sorted(q, Prio(t)) && exists p :: p !in q && q' == Insert(q, Prio(t), p)
    ensures Carried(q, q', t)
  {
    var p :| p !in q && q' == Insert(q, Prio(t), p);
    WaitOnSelf(q, Prio(t));
    WaitOnInsert(q, q, Prio(t), p);
    InsertMembers(q, Prio(t), p);
  }

  // All of w are ready; while the first n of them still wait; so far.
  function Unblocked(t: map<int, Proc>, w: seq<int>): map<int, Proc> {
    map y | y in t :: if y in w then t[y].(status := Ready) else t[y]
  }

  ghost predicate UnblockedFrom(t: map<int, Proc>, t': map<int, Proc>, w: seq<int>, n: nat)
    requires n <= |w|
  {
    t' == Unblocked(t, w[n..])
  }

  lemma UnblockStart(t: map<int, Proc>, w: seq<int>)
    ensures UnblockedFrom(t, t, w, |w|)
  {}

  lemma UnblockNext(t: map<int, Proc>, t': map<int, Proc>, w: seq<int>, n: nat)
    requires n < |w| && UnblockedFrom(t, t', w, n + 1) && w[n] in t'
    ensures UnblockedFrom(t, t'[w[n] := t'[w[n]].(status := Ready)], w, n)
  {
    assert w[n..] == [w[n]] + w[n + 1..];
  }

  lemma UnblockEnd(t: map<int, Proc>, t': map<int, Proc>, w: seq<int>)
    requires UnblockedFrom(t, t', w, 0)
    ensures t' == Unblocked(t, w)
  {
    assert w[0..] == w;
  }

  // A reader makes room for one blocked sender when the queue was full.
  predicate Wakes(q: Queue) {
    |q.waiters| > 0 && q.nb == |q.buffer| - 1
  }

  function MadeRoom(q: Queue): Queue {
    if Wakes(q) then q.(waiters := q.waiters[..|q.waiters| - 1]) else q
  }

  // One of the waiters that a reset of queue f released has gone on.
  function FlaggedDown(qs: map<int, Queue>, f: int): map<int, Queue> {
    if f in qs then qs[f := qs[f].(resetFlag := qs[f].resetFlag - 1)] else qs
  }

  function Emptied(q: Queue): Queue {
    q.(readIndex := 0, writeIndex := 0, nb := 0, resetFlag := |q.waiters|)
  }

  lemma EmptyQueueOk(q: Queue)
    requires RingOk(q)
    ensures QueueOk(Emptied(q), [], [])
  {
    QuotientIs(0, |q.buffer|, 0, 0);
  }

  function NewRing(count: int): Queue
    requires count > 0
  {
    Queue(seq(count, _ => 0), 0, 0, 0, 0, [])
  }

  lemma NewRingOk(count: int)
    requires count > 0
    ensures QueueOk(NewRing(count), [], [])
  {
    QuotientIs(0, count, 0, 0);
  }

  lemma BornCarried(q: seq<int>, t: map<int, Proc>, p: int, v: int, parent: int)
    requires NoDup(q) && Sorted(q, Prio(t)) && AreReady(q, t) && p !in t && parent in t
    ensures var t' := Born(t, p, v, parent);
            Carried(q, Insert(q, Prio(t'), p), t') && WaitOn(q, Insert(q, Prio(t'), p), Prio(t'))
  {
    var t' := Born(t, p, v, parent);
    BornFields(t, p, v, parent);
    SortedKey(q, Prio(t), Prio(t'), p);
    WaitOnSelf(q, Prio(t'));
    WaitOnInsert(q, q, Prio(t'), p);
    InsertMembers(q, Prio(t'), p);
  }

  lemma BornAt(t: map<int, Proc>, p: int, v: int, parent: int)
    requires p !in t && parent in t
    ensures var t' := Born(t, p, v, parent);
            && p in t' && parent in t' && t'[p].priority == v
            && t'[parent] == t[parent].(children := t'[parent].children)
  {}

  lemma StillTop(t: map<int, Proc>, q: seq<int>, p: int, v: int, active: int)
    requires TopOk(q, Prio(t), active) && p !in t && active in t && v <= t[active].priority
    requires forall y :: y in q ==> y in t
    ensures var t' := Born(t, p, v, active); TopOk(Insert(q, Prio(t'), p), Prio(t'), active)
  {
    var t' := Born(t, p, v, active);
    BornFields(t, p, v, active);
    InsertMembers(q, Prio(t'), p);
    Fields(t, active);
  }

  lemma {:induction false} ManyQueues(qs: map<int, Queue>, n: nat)
    requires forall g :: 0 <= g < n ==> g in qs
    ensures n <= |qs|
  {
    if n > 0 {
      ManyQueues(qs - {n - 1}, n - 1);
      CountDown(qs, n - 1);
    }
  }

  function BootTable(): map<int, Proc> {
    map[0 := Proc(Ready, 1, 0, -1, [], false, 0, Running), 1 := Proc(Elected, 128, 0, 0, [], false, 0, Running)]
  }

  lemma BootOk()
    ensures var t := BootTable();
            Core(t, [0], [], [], [], [], map[], map[], map[], map[], 1, -1) && |t| == 2 && TopOk([0], Prio(t), 1)
    ensures 1 in BootTable() && BootTable()[1].status == Elected
  {
    hide ListsOk, WaitersOk, OrderOk, FamilyBut, ContOk, ValuesOk, QueuesOk, TableOk;
    BootFields();
    BootLists();
    BootFamily();
  }

  lemma BootRested(clock: int)
    ensures NoneLate(BootTable(), clock) && NoneOverlooked(BootTable())
  {}

  lemma BootFields()
    ensures var t := BootTable();
            && Sts(t) == map[0 := Ready, 1 := Elected] && Prio(t) == map[0 := 1, 1 := 128] && Wake(t) == map[0 := 0, 1 := 0]
            && Parents(t) == map[0 := -1, 1 := 0] && Children(t) == map[0 := [], 1 := []]
            && Killed(t) == map[0 := false, 1 := false] && Retvals(t) == map[0 := 0, 1 := 0]
            && Conts(t) == map[0 := Running, 1 := Running] && |t| == 2
  {
    var t := BootTable();
    assert t.Keys == {0, 1};
    assert |t| == |t.Keys|;
  }

  lemma BootLists()
    ensures ListsOk([0], [], [], [], [], map[0 := Ready, 1 := Elected])
    ensures WaitersOk(map[], map[0 := Ready, 1 := Elected], map[0 := Running, 1 := Running])
    ensures OrderOk([0], [], [], [], map[], map[0 := 1, 1 := 128], map[0 := 0, 1 := 0])
    ensures ValuesOk(map[0 := Ready, 1 := Elected], map[0 := false, 1 := false], map[0 := 0, 1 := 0], map[])
    ensures TableOk(map[0 := Ready, 1 := Elected], map[0 := 1, 1 := 128], map[0 := Running, 1 := Running], 1)
    ensures QueuesOk(map[], map[], map[])
  {}

  lemma BootFamily()
    ensures FamilyBut(map[0 := Ready, 1 := Elected], map[0 := -1, 1 := 0], map[0 := [], 1 := []], -1)
    ensures ContOk(map[0 := Ready, 1 := Elected], map[0 := [], 1 := []], map[0 := Running, 1 := Running])
  {
    assert HasParent(map[0 := Ready, 1 := Elected], 0, map[0 := [], 1 := []], 1, -1);
  }

  function Signed(x: int): int {
    if x < 0x8000_0000 then x else x - WORD
  }

  function Word(x: int): (r: int)
    ensures 0 <= r < WORD && (0 <= x < WORD ==> r == x) && (-WORD <= x < 0 ==> r == x + WORD)
  {
    x % WORD
  }

  const MIN_SSIZE := 3

  lemma FirstWithout(list: seq<int>)
    requires list != []
    ensures Without(list, list[0]) == list[1..]
  {}

  lemma StartWaking(t: map<int, Proc>, woken: seq<int>, r: seq<int>)
    ensures WokenTo(t, t, woken, 0) && WaitOn(r, r, Prio(t))
  {}

  lemma SamePrio(t: map<int, Proc>, p: int, pr: Proc)
    requires p in t && pr.priority == t[p].priority
    ensures Prio(t[p := pr]) == Prio(t)
  {}

  lemma LastLeaves(list: seq<int>, prio: map<int, int>)
    requires NoDup(list) && list != []
    ensures Without(list, list[|list| - 1]) == list[..|list| - 1]
    ensures list == list[..|list| - 1] + [list[|list| - 1]]
    ensures Sorted(list, prio) ==> TopOk(list[..|list| - 1], prio, list[|list| - 1])
  {
    IndexOfIs(list, list[|list| - 1], |list| - 1);
  }
}
