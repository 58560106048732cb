// The dining philosophers of test 20. A critical section guarded by mutex_philo is one step;
// waiting on one's own semaphore is another.
module Philosophers {

  const MEALS := 6

  // Where philosopher i is in the loop of its process: between meals; at xwait(&s[i]) after the
  // critical section of prendre_fourchettes; past it.
  datatype Phase = Thinking | Waiting | Eating

  // f: forks on the table in use; blocked: the array `bloque`; s: tokens of the private
  // semaphores; meals: rounds finished.
  datatype State = State(f: seq<bool>, blocked: seq<bool>, s: seq<nat>, phase: seq<Phase>, meals: seq<nat>)

  function Right(i: int, n: int): (r: int)
    requires 0 <= i < n
    ensures 0 <= r < n && r == (i + 1) % n
  {
    if i + 1 == n then 0 else i + 1
  }

  function Left(i: int, n: int): (r: int)
    requires 0 <= i < n
    ensures 0 <= r < n && r == (i + n - 1) % n
  {
    if i == 0 then n - 1 else i - 1
  }

  lemma TwoRight(i: int, n: int)
    requires 0 <= i < n && n >= 3
    ensures Right(Right(i, n), n) == (i + 2) % n
  {}

  ghost predicate Sized(st: State, n: int) {
    n >= 3 && |st.f| == |st.blocked| == |st.s| == |st.phase| == |st.meals| == n
  }

  // Philosopher i uses forks i and i + 1.
  predicate Owns(st: State, i: int)
    requires 0 <= i < |st.phase| && |st.blocked| == |st.phase|
  {
    st.phase[i] == Eating || (st.phase[i] == Waiting && !st.blocked[i])
  }

  ghost predicate Inv(st: State, n: int) {
    && Sized(st, n) && InvBut(st, n, -1)
  }

  // Philosopher h, if there is one, has already laid down or handed over its fork h.
  ghost predicate InvBut(st: State, n: int, h: int)
    requires Sized(st, n)
  {
    && ForksOk(st, n, h)
    // one token for each grant not yet consumed
    && (forall i :: 0 <= i < n ==> st.s[i] == if st.phase[i] == Waiting && !st.blocked[i] then 1 else 0)
    // who is blocked waits for a fork in use
    && (forall i :: 0 <= i < n && st.blocked[i] ==> st.phase[i] == Waiting && (st.f[i] || st.f[Right(i, n)]))
    && (forall i :: 0 <= i < n ==> st.meals[i] <= MEALS && (st.phase[i] != Thinking ==> st.meals[i] < MEALS))
  }

  // A fork is in use exactly when one of its two neighbours owns it, never both.
  ghost predicate ForksOk(st: State, n: int, h: int)
    requires Sized(st, n)
  {
    && (forall j :: 0 <= j < n ==> (st.f[j] <==> (Owns(st, j) && j != h) || Owns(st, Left(j, n))))
    && (forall j :: 0 <= j < n ==> !(Owns(st, j) && j != h && Owns(st, Left(j, n))))
  }

  function Init(n: nat): State {
    State(seq(n, _ => false), seq(n, _ => false), seq(n, _ => 0), seq(n, _ => Thinking), seq(n, _ => 0))
  }

  // test()
  predicate BothFree(st: State, i: int)
    requires 0 <= i < |st.f|
  {
    !st.f[i] && !st.f[Right(i, |st.f|)]
  }

  // The critical section of prendre_fourchettes.
  function Take(st: State, i: int): State
    requires 0 <= i < |st.f| && Sized(st, |st.f|)
  {
    var t := st.(phase := st.phase[i := Waiting]);
    if BothFree(st, i) then t.(f := t.f[i := true][Right(i, |st.f|) := true], s := t.s[i := t.s[i] + 1])
    else t.(blocked := t.blocked[i := true])
  }

  // xwait on the private semaphore, when a token is there.
  function Pass(st: State, i: int): State
    requires 0 <= i < |st.f| && Sized(st, |st.f|) && st.s[i] > 0
  {
    st.(s := st.s[i := st.s[i] - 1], phase := st.phase[i := Eating])
  }

  // The half of poser_fourchettes for the left neighbour: it is handed fork i, or fork i is
  // laid down.
  function GiveLeft(st: State, i: int): State
    requires 0 <= i < |st.f| && Sized(st, |st.f|)
  {
    var l := Left(i, |st.f|);
    if st.blocked[l] && !st.f[l] then
      st.(f := st.f[l := true], blocked := st.blocked[l := false], s := st.s[l := st.s[l] + 1])
    else st.(f := st.f[i := false])
  }

  function GiveRight(st: State, i: int): State
    requires 0 <= i < |st.f| && Sized(st, |st.f|)
  {
    var n := |st.f|;
    var r := Right(i, n);
    if st.blocked[r] && !st.f[Right(r, n)] then
      st.(f := st.f[Right(r, n) := true], blocked := st.blocked[r := false], s := st.s[r := st.s[r] + 1])
    else st.(f := st.f[r := false])
  }

  // The critical section of poser_fourchettes.
  function Put(st: State, i: int): State
    requires 0 <= i < |st.f| && Sized(st, |st.f|)
  {
    var t := GiveRight(GiveLeft(st, i), i);
    t.(phase := t.phase[i := Thinking], meals := t.meals[i := t.meals[i] + 1])
  }

  predicate CanTake(st: State, i: int)
    requires 0 <= i < |st.phase| && |st.meals| == |st.phase|
  {
    st.phase[i] == Thinking && st.meals[i] < MEALS
  }

  predicate CanPass(st: State, i: int)
    requires 0 <= i < |st.phase| && |st.s| == |st.phase|
  {
    st.phase[i] == Waiting && st.s[i] > 0
  }

  predicate CanPut(st: State, i: int)
    requires 0 <= i < |st.phase|
  {
    st.phase[i] == Eating
  }

  // One step of philosopher i.
  ghost predicate Step(st: State, st': State, i: int, n: int) {
    Sized(st, n) && 0 <= i < n
    && ((CanTake(st, i) && st' == Take(st, i)) || (CanPass(st, i) && st' == Pass(st, i)) || (CanPut(st, i) && st' == Put(st, i)))
  }

  // ---- Each step keeps the invariant

  lemma InitOk(n: nat)
    requires n >= 3
    ensures Inv(Init(n), n)
  {}

  lemma TakeKeeps(st: State, i: int, n: int)
    requires Inv(st, n) && 0 <= i < n && CanTake(st, i)
    ensures Inv(Take(st, i), n)
  {
    var t := Take(st, i);
    forall j | 0 <= j < n ensures Owns(t, j) == if j == i then BothFree(st, i) else Owns(st, j) {}
  }

  lemma PassKeeps(st: State, i: int, n: int)
    requires Inv(st, n) && 0 <= i < n && CanPass(st, i)
    ensures Inv(Pass(st, i), n)
  {
    var t := Pass(st, i);
    forall j | 0 <= j < n ensures Owns(t, j) == Owns(st, j) {}
  }

  lemma GiveLeftKeeps(st: State, i: int, n: int)
    requires Inv(st, n) && 0 <= i < n && st.phase[i] == Eating
    ensures InvBut(GiveLeft(st, i), n, i) && GiveLeft(st, i).phase == st.phase && GiveLeft(st, i).meals == st.meals
  {
    var t := GiveLeft(st, i);
    var l := Left(i, n);
    assert !Owns(st, l);
    forall j | 0 <= j < n ensures Owns(t, j) == (Owns(st, j) || (j == l && !t.blocked[l] && st.blocked[l])) {}
    assert Left(l, n) != i && Right(l, n) == i;
  }

  lemma GiveRightKeeps(st: State, i: int, n: int)
    requires Sized(st, n) && InvBut(st, n, i) && 0 <= i < n && st.phase[i] == Eating
    ensures var t := GiveRight(st, i);
            Inv(t.(phase := t.phase[i := Thinking], meals := t.meals[i := t.meals[i] + 1]), n)
  {
    var g := GiveRight(st, i);
    var t := g.(phase := g.phase[i := Thinking], meals := g.meals[i := g.meals[i] + 1]);
    var r := Right(i, n);
    assert Left(r, n) == i && !Owns(st, r);
    GiveRightOwns(st, i, n, t);
    GiveRightForks(st, i, n, t);
    hide ForksOk;
  }

  lemma GiveRightOwns(st: State, i: int, n: int, t: State)
    requires Sized(st, n) && 0 <= i < n && st.phase[i] == Eating && !Owns(st, Right(i, n))
    requires var g := GiveRight(st, i); t == g.(phase := g.phase[i := Thinking], meals := g.meals[i := g.meals[i] + 1])
    requires st.blocked[Right(i, n)] ==> st.phase[Right(i, n)] == Waiting
    ensures forall j :: 0 <= j < n ==>
      Owns(t, j) == ((j != i && Owns(st, j)) || (j == Right(i, n) && !t.blocked[j] && st.blocked[j]))
  {}

  lemma GiveRightForks(st: State, i: int, n: int, t: State)
    requires Sized(st, n) && ForksOk(st, n, i) && 0 <= i < n && Owns(st, i) && !Owns(st, Right(i, n))
    requires var g := GiveRight(st, i); t == g.(phase := g.phase[i := Thinking], meals := g.meals[i := g.meals[i] + 1])
    requires forall j :: 0 <= j < n ==>
      Owns(t, j) == ((j != i && Owns(st, j)) || (j == Right(i, n) && !t.blocked[j] && st.blocked[j]))
    ensures ForksOk(t, n, -1)
  {
    hide Owns;
    var r := Right(i, n);
    assert Left(r, n) == i;
    assert Right(r, n) != i && Left(Right(r, n), n) == r;
    forall j | 0 <= j < n && j != r && j != Right(r, n) ensures t.f[j] == st.f[j] && Left(j, n) != r && (j != i ==> Left(j, n) != i) {}
  }

  lemma PutKeeps(st: State, i: int, n: int)
    requires Inv(st, n) && 0 <= i < n && CanPut(st, i)
    ensures Inv(Put(st, i), n)
  {
    GiveLeftKeeps(st, i, n);
    GiveRightKeeps(GiveLeft(st, i), i, n);
  }

  lemma StepKeeps(st: State, st': State, i: int, n: int)
    requires Inv(st, n) && Step(st, st', i, n)
    ensures Inv(st', n)
  {
    if CanTake(st, i) && st' == Take(st, i) {
      TakeKeeps(st, i, n);
    } else if CanPass(st, i) && st' == Pass(st, i) {
      PassKeeps(st, i, n);
    } else {
      PutKeeps(st, i, n);
    }
  }

  // ---- Over every run

  ghost predicate IsRun(run: seq<State>, who: seq<int>, n: int) {
    && n >= 3 && |run| == |who| + 1 && run[0] == Init(n)
    && forall k :: 0 <= k < |who| ==> Step(run[k], run[k + 1], who[k], n)
  }

  lemma {:induction false} RunKeeps(run: seq<State>, who: seq<int>, n: int)
    requires IsRun(run, who, n)
    ensures Inv(run[|who|], n)
  {
    if |who| == 0 {
      InitOk(n);
    } else {
      var k := |who| - 1;
      RunKeeps(run[..k + 1], who[..k], n);
      StepKeeps(run[k], run[k + 1], who[k], n);
    }
  }

  // Neighbours never eat at the same time.
  lemma NeighboursApart(run: seq<State>, who: seq<int>, n: int, i: int)
    requires IsRun(run, who, n) && 0 <= i < n
    ensures var st := run[|who|]; Sized(st, n) && !(st.phase[i] == Eating && st.phase[Right(i, n)] == Eating)
  {
    RunKeeps(run, who, n);
    assert Left(Right(i, n), n) == i;
  }

  // A blocked philosopher misses a fork that a neighbour owns who is not blocked.
  lemma BlockedHasEater(run: seq<State>, who: seq<int>, n: int, i: int)
    requires IsRun(run, who, n) && 0 <= i < n && Sized(run[|who|], n) && run[|who|].blocked[i]
    ensures var st := run[|who|]; Owns(st, Left(i, n)) || Owns(st, Right(i, n))
  {
    RunKeeps(run, who, n);
    assert Left(Right(i, n), n) == i;
  }

  predicate Full(st: State, i: int)
    requires 0 <= i < |st.phase| && |st.meals| == |st.phase|
  {
    st.phase[i] == Thinking && st.meals[i] == MEALS
  }

  // No deadlock: while a philosopher is not done, somebody can go on.
  lemma SomeoneCanStep(st: State, n: int, i: int) returns (j: int)
    requires Inv(st, n) && 0 <= i < n && !Full(st, i)
    ensures 0 <= j < n && (CanTake(st, j) || CanPass(st, j) || CanPut(st, j))
  {
    if st.phase[i] == Waiting && st.blocked[i] {
      assert Left(Right(i, n), n) == i;
      j := if Owns(st, Left(i, n)) then Left(i, n) else Right(i, n);
    } else {
      j := i;
    }
  }

  // ---- Every run ends with everybody fed

  // Steps philosopher i has still to make.
  function Todo(phase: Phase, meals: nat): int {
    3 * (MEALS - meals) - (match phase case Thinking => 0 case Waiting => 1 case Eating => 2)
  }

  function Work(phase: seq<Phase>, meals: seq<nat>): int
    requires |phase| == |meals|
  {
    if |phase| == 0 then 0 else Todo(phase[0], meals[0]) + Work(phase[1..], meals[1..])
  }

  lemma {:induction false} WorkUpdate(phase: seq<Phase>, meals: seq<nat>, i: nat, p: Phase, m: nat)
    requires |phase| == |meals| && i < |phase|
    ensures Work(phase[i := p], meals[i := m]) == Work(phase, meals) - Todo(phase[i], meals[i]) + Todo(p, m)
  {
    if i > 0 {
      WorkUpdate(phase[1..], meals[1..], i - 1, p, m);
      assert phase[i := p][1..] == phase[1..][i - 1 := p] && meals[i := m][1..] == meals[1..][i - 1 := m];
    } else {
      assert phase[i := p][1..] == phase[1..] && meals[i := m][1..] == meals[1..];
    }
  }

  lemma StepWorks(st: State, st': State, i: int, n: int)
    requires Step(st, st', i, n)
    ensures Sized(st', n) && Work(st'.phase, st'.meals) == Work(st.phase, st.meals) - 1
  {
    WorkUpdate(st.phase, st.meals, i, st'.phase[i], st'.meals[i]);
    assert st'.phase == st.phase[i := st'.phase[i]] && st'.meals == st.meals[i := st'.meals[i]];
  }

  lemma {:induction false} InitWork(phase: seq<Phase>, meals: seq<nat>)
    requires |phase| == |meals| && forall i :: 0 <= i < |phase| ==> phase[i] == Thinking && meals[i] == 0
    ensures Work(phase, meals) == 3 * MEALS * |phase|
  {
    if |phase| > 0 { InitWork(phase[1..], meals[1..]); }
  }

  lemma {:induction false} RunWork(run: seq<State>, who: seq<int>, n: int)
    requires IsRun(run, who, n)
    ensures Sized(run[|who|], n) && Work(run[|who|].phase, run[|who|].meals) == 3 * MEALS * n - |who|
  {
    if |who| == 0 {
      InitWork(run[0].phase, run[0].meals);
    } else {
      var k := |who| - 1;
      RunWork(run[..k + 1], who[..k], n);
      StepWorks(run[k], run[k + 1], who[k], n);
    }
  }

  lemma {:induction false} WorkLeft(phase: seq<Phase>, meals: seq<nat>)
    requires |phase| == |meals| && forall i :: 0 <= i < |phase| ==> meals[i] <= MEALS && (phase[i] != Thinking ==> meals[i] < MEALS)
    ensures Work(phase, meals) >= 0
    ensures Work(phase, meals) == 0 <==> forall i :: 0 <= i < |phase| ==> phase[i] == Thinking && meals[i] == MEALS
  {
    if |phase| > 0 {
      WorkLeft(phase[1..], meals[1..]);
      assert Todo(phase[0], meals[0]) >= 0;
      if Work(phase, meals) == 0 {
        forall i | 0 <= i < |phase| ensures phase[i] == Thinking && meals[i] == MEALS {
          if i > 0 { assert phase[1..][i - 1] == phase[i] && meals[1..][i - 1] == meals[i]; }
        }
      }
    }
  }

  // No run is longer than 18 steps for each philosopher; one that cannot go on is exactly that
  // long, and then everybody has eaten six times.
  lemma EverybodyEats(run: seq<State>, who: seq<int>, n: int)
    requires IsRun(run, who, n)
    ensures |who| <= 3 * MEALS * n && Inv(run[|who|], n)
    ensures (forall j :: 0 <= j < n ==> Full(run[|who|], j)) <==> |who| == 3 * MEALS * n
    ensures (forall j :: 0 <= j < n ==> !CanTake(run[|who|], j) && !CanPass(run[|who|], j) && !CanPut(run[|who|], j)) ==>
      forall j :: 0 <= j < n ==> Full(run[|who|], j)
  {
    var st := run[|who|];
    RunKeeps(run, who, n);
    RunWork(run, who, n);
    WorkLeft(st.phase, st.meals);
    AllFull(st, n);
    if !(forall j :: 0 <= j < n ==> Full(st, j)) {
      var i :| 0 <= i < n && !Full(st, i);
      var j := SomeoneCanStep(st, n, i);
    }
  }

  lemma AllFull(st: State, n: int)
    requires Sized(st, n)
    ensures (forall j :: 0 <= j < n ==> Full(st, j)) <==> forall j :: 0 <= j < n ==> st.phase[j] == Thinking && st.meals[j] == MEALS
  {
    forall j | 0 <= j < n ensures Full(st, j) <==> st.phase[j] == Thinking && st.meals[j] == MEALS {}
  }

  // ---- The shared structure

  class Dinner {
    const n: int
    const f: array<bool>
    const bloque: array<bool>
    const s: array<nat>
    const phase: array<Phase>
    const meals: array<nat>

    ghost predicate Sound()
      reads f, bloque, s, phase, meals
    {
      && n >= 3 && f.Length == bloque.Length == s.Length == phase.Length == meals.Length == n
      && f != bloque && s != meals
    }

    ghost function Current(): State
      reads f, bloque, s, phase, meals
    {
      State(f[..], bloque[..], s[..], phase[..], meals[..])
    }

    constructor (size: int)
      requires size >= 3
      ensures Sound() && n == size && Current() == Init(n) && Inv(Current(), n)
      ensures fresh(f) && fresh(bloque) && fresh(s) && fresh(phase) && fresh(meals)
    {
      n := size;
      f, bloque := new bool[size](_ => false), new bool[size](_ => false);
      s, meals := new nat[size](_ => 0), new nat[size](_ => 0);
      phase := new Phase[size](_ => Thinking);
      new;
      assert f[..] == Init(n).f && bloque[..] == Init(n).blocked && s[..] == Init(n).s;
      assert phase[..] == Init(n).phase && meals[..] == Init(n).meals;
      InitOk(n);
    }

    // test
    method Test(i: int) returns (r: bool)
      requires Sound() && 0 <= i < n
      ensures r == BothFree(Current(), i)
    {
      r := !f[i] && !f[(i + 1) % n];
    }

    // prendre_fourchettes up to its last line
    method TakeForks(i: int)
      requires Sound() && Inv(Current(), n) && 0 <= i < n && CanTake(Current(), i)
      modifies f, bloque, s, phase
      ensures Sound() && Current() == Take(old(Current()), i) && Inv(Current(), n)
    {
      hide Inv, Owns;
      ghost var st := Current();
      TakeKeeps(st, i, n);
      var free := Test(i);
      if free {
        f[i] := true;
        f[(i + 1) % n] := true;
        s[i] := s[i] + 1;
      } else {
        bloque[i] := true;
      }
      phase[i] := Waiting;
      assert f[..] == Take(st, i).f && bloque[..] == Take(st, i).blocked && s[..] == Take(st, i).s;
      assert phase[..] == Take(st, i).phase;
    }

    // xwait(&s[i])
    method WaitToken(i: int)
      requires Sound() && Inv(Current(), n) && 0 <= i < n && CanPass(Current(), i)
      modifies s, phase
      ensures Sound() && Current() == Pass(old(Current()), i) && Inv(Current(), n)
    {
      hide Inv, Owns;
      ghost var st := Current();
      PassKeeps(st, i, n);
      s[i] := s[i] - 1;
      phase[i] := Eating;
      assert s[..] == Pass(st, i).s && phase[..] == Pass(st, i).phase;
    }

    // poser_fourchettes
    method PutForks(i: int)
      requires Sound() && Inv(Current(), n) && 0 <= i < n && CanPut(Current(), i)
      modifies f, bloque, s, phase, meals
      ensures Sound() && Current() == Put(old(Current()), i) && Inv(Current(), n)
    {
      hide Inv, Owns, GiveLeft, GiveRight;
      ghost var st := Current();
      PutKeeps(st, i, n);
      PutLeft(i);
      PutRight(i);
      phase[i] := Thinking;
      meals[i] := meals[i] + 1;
      assert phase[..] == Put(st, i).phase && meals[..] == Put(st, i).meals;
    }

    method PutLeft(i: int)
      requires Sound() && 0 <= i < n
      modifies f, bloque, s
      ensures Sound() && Current() == GiveLeft(old(Current()), i)
    {
      ghost var st := Current();
      var l := (i + n - 1) % n;
      if bloque[l] && !f[l] {
        f[l] := true;
        bloque[l] := false;
        s[l] := s[l] + 1;
      } else {
        f[i] := false;
      }
      assert f[..] == GiveLeft(st, i).f && bloque[..] == GiveLeft(st, i).blocked && s[..] == GiveLeft(st, i).s;
    }

    method PutRight(i: int)
      requires Sound() && 0 <= i < n
      modifies f, bloque, s
      ensures Sound() && Current() == GiveRight(old(Current()), i)
    {
      ghost var st := Current();
      TwoRight(i, n);
      var r := (i + 1) % n;
      if bloque[r] && !f[(i + 2) % n] {
        f[(i + 2) % n] := true;
        bloque[r] := false;
        s[r] := s[r] + 1;
      } else {
        f[r] := false;
      }
      assert f[..] == GiveRight(st, i).f && bloque[..] == GiveRight(st, i).blocked && s[..] == GiveRight(st, i).s;
    }
  }
}
