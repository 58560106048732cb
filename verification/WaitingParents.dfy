// Whether a process can be left waiting in waitpid for a child that has already terminated.
module WaitingParents {

  import opened MessageRing
  import opened PriorityList
  import opened Processes
  import opened ProcessSteps
  import opened ProcessTable
  import opened Words

  // A record that waits for child c.
  predicate Awaits(pr: Proc, c: int) {
    pr.status == Blocked && c in pr.children && (pr.cont == WaitAny || pr.cont == Cont.WaitPid(c))
  }

  // q waits for its child c, which is a zombie.
  ghost predicate Overlooks(t: Table, q: int, c: int) {
    q in t && c in t && Awaits(t[q], c) && t[c].status == Zombie
  }

  ghost predicate NoneOverlooked(t: Table) {
    forall q, c :: !Overlooks(t, q, c)
  }

  // The parent of p waits for it.
  predicate Awaited(t: Table, p: int) {
    p in t && t[p].parent != 0 && t[p].parent in t && Awaits(t[t[p].parent], p)
  }

  // Each listed child has the lister as its parent, and a record.
  ghost predicate Listed(t: Table) {
    forall q, c :: q in t && c in t[q].children ==> c in t && t[c].parent == q && c != q
  }

  // Nobody began to wait in waitpid, and nobody terminated.
  ghost predicate Quieter(t: Table, t': Table) {
    forall y :: y in t' ==>
      && (t'[y].status == Blocked ==> y in t && t[y].status == Blocked && t[y].cont == t'[y].cont && t[y].children == t'[y].children)
      && (t'[y].status == Zombie ==> y in t && t[y].status == Zombie)
  }

  lemma QuieterKeeps(t: Table, t': Table)
    requires Quieter(t, t') && NoneOverlooked(t)
    ensures NoneOverlooked(t')
  {
    forall q, c ensures !Overlooks(t', q, c) {
      assert !Overlooks(t, q, c);
    }
  }

  // scheduling() neither overlooks nor finds a terminated child.
  lemma ReschedSame(t: Table, active: int, clock: int, t': Table, active': int)
    requires Resched(t, active, clock, t', active')
    ensures NoneOverlooked(t') <==> NoneOverlooked(t)
  {
    forall q, c ensures Overlooks(t', q, c) <==> Overlooks(t, q, c) {
      if q in t' { assert t'[q] == Turned(Woken(t[q], clock), q == active'); }
      if c in t' { assert t'[c] == Turned(Woken(t[c], clock), c == active'); }
    }
  }

  lemma QuietResched(t: Table, t1: Table, active: int, clock: int, t': Table, active': int)
    requires Quieter(t, t1) && Resched(t1, active, clock, t', active')
    ensures NoneOverlooked(t) ==> NoneOverlooked(t')
  {
    if NoneOverlooked(t) {
      QuieterKeeps(t, t1);
      ReschedSame(t1, active, clock, t', active');
    }
  }

  lemma QuietRecord(t: Table, p: int, pr: Proc)
    requires p in t
    requires pr.status == Blocked ==> t[p].status == Blocked && t[p].cont == pr.cont && t[p].children == pr.children
    requires pr.status == Zombie ==> t[p].status == Zombie
    ensures Quieter(t, t[p := pr])
  {}

  lemma QuietTwice(t: Table, t1: Table, t2: Table)
    requires Quieter(t, t1) && Quieter(t1, t2)
    ensures Quieter(t, t2)
  {}

  lemma QuietReleased(t: Table, q: int, c: int, k: Cont)
    requires q in t && c in t && q != c && t[q].status == Elected
    ensures Quieter(t, Released(t, q, c, k))
  {}

  lemma QuietBorn(t: Table, p: int, prio: int, parent: int)
    requires parent in t && t[parent].status == Elected && p !in t
    ensures Quieter(t, Born(t, p, prio, parent))
  {
    hide Insert;
  }

  // The caller of waitpid starts to wait; no child it waits for has terminated.
  lemma BlocksWell(t: Table, p: int, k: Cont)
    requires p in t && t[p].status == Elected
    requires forall c :: c in t && Awaits(t[p].(status := Blocked, cont := k), c) ==> t[c].status != Zombie
    ensures NoneOverlooked(t) ==> NoneOverlooked(t[p := t[p].(status := Blocked, cont := k)])
  {
    var t' := t[p := t[p].(status := Blocked, cont := k)];
    if NoneOverlooked(t) {
      forall q, c ensures !Overlooks(t', q, c) {
        assert !Overlooks(t, q, c);
      }
    }
  }

  // exit wakes the parent.
  lemma ExitOverlooks(t: Table, p: int, k: bool, v: int)
    requires p in t && Listed(t)
    ensures NoneOverlooked(t) ==> NoneOverlooked(ExitTable(t, p, k, v))
  {
    var t' := ExitTable(t, p, k, v);
    if NoneOverlooked(t) {
      forall q, c ensures !Overlooks(t', q, c) {
        assert !Overlooks(t, q, c);
      }
    }
  }

  // kill does not, so it overlooks the parent exactly when that one waits for the process killed.
  lemma KillOverlooks(t: Table, p: int)
    requires p in t && !Over(t[p].status) && Listed(t)
    ensures NoneOverlooked(t) ==> (NoneOverlooked(KillTable(t, p)) <==> !Awaited(t, p))
  {
    var t' := KillTable(t, p);
    if NoneOverlooked(t) {
      forall q, c | !(c == p && q == t[p].parent) ensures !Overlooks(t', q, c) {
        assert !Overlooks(t, q, c);
      }
      var q := t[p].parent;
      assert Overlooks(t', q, p) <==> Awaited(t, p);
    }
  }
}
