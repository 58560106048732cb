// Until when a process that called wait_clock sleeps.
module Sleepers {

  import opened MessageRing
  import opened PriorityList
  import opened Processes
  import opened ProcessSteps
  import opened ProcessTable
  import opened Words

  // x sleeps until the clock is past c.
  predicate Sleeping(t: Table, x: int, c: int) {
    x in t && t[x].status == Asleep && t[x].wakeUp == c
  }

  // Nobody sleeps longer than it asked for.
  ghost predicate NoneLate(t: Table, clock: int) {
    forall x, c :: Sleeping(t, x, c) ==> clock <= c
  }

  ghost predicate SameSleepers(t: Table, t': Table) {
    forall x, c :: Sleeping(t', x, c) <==> Sleeping(t, x, c)
  }

  // The sleepers are those from before whose time has not passed.
  ghost predicate SleepOn(t: Table, t': Table, clock: int) {
    forall x, c :: Sleeping(t', x, c) <==> Sleeping(t, x, c) && clock <= c
  }

  // The records after one call of scheduling(), by what they were before.
  lemma SchedulingMeans(t: Table, active: int, clock: int, t': Table, active': int)
    requires Resched(t, active, clock, t', active')
    ensures forall y :: y in t && t[y].status == Asleep && clock <= t[y].wakeUp ==> y in t' && t'[y] == t[y]
    ensures forall y :: y in t && t[y].status == Asleep && clock > t[y].wakeUp ==>
      y in t' && t'[y] == t[y].(status := if y == active' then Elected else Ready, wakeUp := 0)
    ensures forall y :: y in t && (t[y].status == Ready || t[y].status == Elected) ==>
      y in t' && t'[y] == t[y].(status := if y == active' then Elected else Ready)
    ensures forall y :: y in t && t[y].status in {Blocked, OnQueue, Zombie} ==> y in t' && t'[y] == t[y]
    ensures forall y :: y in t' ==> y in t && (t[y].status == Dying ==> t'[y] == t[y])
    ensures active' in t && (t[active'].status in {Ready, Elected} || (t[active'].status == Asleep && clock > t[active'].wakeUp))
  {
    forall y | y in t && t[y].status != Dying ensures y in t' && t'[y] == Turned(Woken(t[y], clock), y == active') {}
    assert active' in t;
  }

  lemma ReschedSleep(t: Table, active: int, clock: int, t': Table, active': int)
    requires Resched(t, active, clock, t', active')
    ensures SleepOn(t, t', clock)
  {
    SchedulingMeans(t, active, clock, t', active');
    hide Resched;
  }

  // A call that leaves the sleepers alone and calls scheduling().
  lemma CallSleep(t: Table, t1: Table, active: int, clock: int, t': Table, active': int)
    requires SameSleepers(t, t1) && Resched(t1, active, clock, t', active')
    ensures SleepOn(t, t', clock)
  {
    ReschedSleep(t1, active, clock, t', active');
  }

  // One that does not call it.
  lemma StillSleep(t: Table, t': Table, clock: int)
    requires SameSleepers(t, t')
    ensures NoneLate(t, clock) ==> SleepOn(t, t', clock)
  {}

  lemma RecordSleep(t: Table, p: int, pr: Proc)
    requires p in t && (if pr.status == Asleep then t[p].status == Asleep && t[p].wakeUp == pr.wakeUp else t[p].status != Asleep)
    ensures SameSleepers(t, t[p := pr])
  {}

  lemma ReleasedSleep(t: Table, q: int, c: int, k: Cont)
    requires q in t && c in t && q != c
    ensures SameSleepers(t, Released(t, q, c, k))
  {}

  lemma BornSleep(t: Table, p: int, prio: int, parent: int)
    requires parent in t && p !in t
    ensures SameSleepers(t, Born(t, p, prio, parent))
  {
    hide Insert;
  }

  lemma ExitSleep(t: Table, p: int, k: bool, v: int)
    requires p in t && t[p].status != Asleep
    ensures SameSleepers(t, ExitTable(t, p, k, v))
  {}

  // A process that is killed sleeps no more, and nobody else is disturbed.
  lemma KillSleep(t: Table, p: int)
    requires p in t
    ensures forall x, c :: Sleeping(KillTable(t, p), x, c) <==> Sleeping(t, x, c) && x != p
  {}

  // ---- Runs

  ghost predicate RestsOn(v: View, v': View, x: int, c: int) {
    Sleeping(v.table, x, c) ==> (Sleeping(v'.table, x, c) <==> v'.clock <= c)
  }

  // A process that sleeps until c, and is not killed, sleeps in every state up to the first
  // whose clock is past c, and no longer.
  lemma {:induction false} SleepsUntil(run: seq<View>, x: int, c: int, j: nat)
    requires j < |run| && Sleeping(run[0].table, x, c)
    requires forall i :: 0 <= i < j ==> RestsOn(run[i], run[i + 1], x, c)
    requires forall i :: 0 < i < j ==> run[i].clock <= c
    ensures j > 0 ==> (Sleeping(run[j].table, x, c) <==> run[j].clock <= c)
  {
    if j > 0 {
      SleepsUntil(run, x, c, j - 1);
      assert RestsOn(run[j - 1], run[j], x, c);
    }
  }
}
