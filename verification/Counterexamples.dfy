/**
  Runs from the start in which a semaphore fails: a stale V lets two processes in, and 127 Vs wrap
  its value. Each run is built one iteration of the CPU thread at a time.
*/
module Counterexamples {
  import opened Common
  import opened Process
  import opened Scheduler
  import opened Semaphore
  import opened Kernel
  import opened KernelInvariant
  import opened SemaphoreRuns
  import opened KernelResults
  import opened MutualExclusion
  import opened RoundRobin
  import Disk

  /** A state that some run from the start reaches whose programs alternate on `c` and declare it. */
  ghost predicate FitReachable(k: KState, c: Name) {
    exists steps :: Runs(INIT, steps) && Run(INIT, steps) == k && CreationsFit(INIT, steps, c)
  }

  lemma {:induction false} OneMoreFits(k: KState, steps: seq<Step>, s: Step, c: Name)
    requires Runs(k, steps) && Enabled(Run(k, steps), s)
    requires CreationsFit(k, steps, c) && CreationFits(Run(k, steps), s, c)
    ensures Runs(k, steps + [s]) && Run(k, steps + [s]) == Apply(Run(k, steps), s)
    ensures CreationsFit(k, steps + [s], c)
    decreases |steps|
  {
    if steps == [] {
      assert steps + [s] == [s];
    } else {
      assert (steps + [s])[1..] == steps[1..] + [s];
      OneMoreFits(Apply(k, steps[0]), steps[1..], s, c);
    }
  }

  lemma StepFits(k: KState, s: Step, c: Name) returns (k': KState)
    requires FitReachable(k, c) && Enabled(k, s) && CreationFits(k, s, c)
    ensures k' == Apply(k, s) && FitReachable(k', c)
  {
    var steps :| Runs(INIT, steps) && Run(INIT, steps) == k && CreationsFit(INIT, steps, c);
    OneMoreFits(INIT, steps, s, c);
    k' := Apply(k, s);
  }

  lemma StartFits(c: Name)
    ensures FitReachable(INIT, c)
  {
    assert Runs(INIT, []) && Run(INIT, []) == INIT && CreationsFit(INIT, [], c);
  }

  // One iteration of the CPU thread at a time

  /** Slot `i` of the table has been selected. */
  function Holding(k: KState, procs: seq<Proc>, i: nat): KState
    requires i < |procs|
  {
    k.(procs := procs[i := Granted(procs[i])], phase := Chosen(i))
  }

  lemma TickFits(k: KState, procs: seq<Proc>, i: nat, region: seq<Instr>, c: Name) returns (k': KState)
    requires FitReachable(k, c) && k.health == Alive && k.phase == Demoting
    requires procs == Offered(k) && Select(procs) == Some(i) && i < |procs| && Fits(procs[i], region)
    ensures FitReachable(k', c) && k' == ExecProcess(Holding(k, procs, i), i, region).(phase := Demoting)
  {
    var k1 := StepFits(k, Demote, c);
    var k2 := StepFits(k1, ReapKilled, c);
    var k3 := StepFits(k2, SelectNext, c);
    assert k3 == Holding(k, procs, i);
    k' := StepFits(k3, Execute(region), c);
  }

  /** A V that wakes nobody. */
  lemma ExecutesV(k: KState, i: nat, region: seq<Instr>, c: Name, v: i8)
    requires i < |k.procs| && Fits(k.procs[i], region) && k.procs[i].timeToRun > 0
    requires k.procs[i].pc != k.procs[i].last && Fetch(k.procs[i]) == SemV(c) && k.sems == [Sem(c, v, [])]
    ensures ExecProcess(k, i, region) ==
      k.(procs := k.procs[i := k.procs[i].(pc := k.procs[i].pc + 1)], sems := [Sem(c, Wrap8(v + 1), [])])
  {
    assert Find(k.sems, c) == Some(0);
    assert k.sems[0 := Sem(c, Wrap8(v + 1), [])] == [Sem(c, Wrap8(v + 1), [])];
  }

  lemma ExecutesZero(k: KState, i: nat, region: seq<Instr>)
    requires i < |k.procs| && Fits(k.procs[i], region) && k.procs[i].timeToRun > 0 && k.procs[i].hUsed < 255
    requires k.procs[i].pc != k.procs[i].last && Fetch(k.procs[i]) == ExecFor(0)
    ensures var p := k.procs[i];
      ExecProcess(k, i, region) ==
      k.(procs := k.procs[i := p.(pc := p.pc + 1, timeToRun := 0, hUsed := p.hUsed + 1)])
  {
    var p := k.procs[i];
    assert p.code[p.pc := ExecFor(0)] == p.code;
  }

  // A stale V lets two processes in

  /** Enters, stays inside for a while, and leaves. */
  function Outer(c: Name): Program { Program([c], [SemP(c), ExecFor(0), SemV(c)]) }

  /** Enters and leaves. */
  function Inner(c: Name): Program { Program([c], [SemP(c), SemV(c)]) }

  /** Nothing to do, in a block that still holds a V. */
  function Idle(c: Name): Proc { NewProc(1, Program([], []), [SemV(c)]) }

  function OuterProc(c: Name): Proc { NewProc(0, Outer(c), Outer(c).body) }

  function InnerProc(c: Name): Proc { NewProc(2, Inner(c), Inner(c).body) }

  /** Reached with fitting creations, at the beginning of an iteration, with one semaphore and nobody waiting. */
  ghost predicate Stage(k: KState, procs: seq<Proc>, c: Name, v: i8) {
    && FitReachable(k, c) && k.health == Alive && k.phase == Demoting
    && k.procs == procs && k.sems == [Sem(c, v, [])]
  }

  lemma ThreeAlternate(c: Name)
    ensures Alternates(Outer(c).body, c) && Alternates(Inner(c).body, c) && Alternates([], c)
    ensures !UsesSem([], c)
    ensures Open(Outer(c).body, c, 2) == 1 && Open(Inner(c).body, c, 1) == 1
  {
    var outer, inner := Outer(c).body, Inner(c).body;
    assert Open(outer, c, 0) == 0 && Open(outer, c, 1) == 1 && Open(outer, c, 2) == 1 && Open(outer, c, 3) == 0;
    assert Open(inner, c, 0) == 0 && Open(inner, c, 1) == 1 && Open(inner, c, 2) == 0;
  }

  lemma FirstDeclared(c: Name)
    ensures DeclareAll([], [c]) == [Sem(c, 1, [])] && DeclareAll([Sem(c, 1, [])], [c]) == [Sem(c, 1, [])]
    ensures Declared([Sem(c, 1, [])], c) && DeclareAll([Sem(c, 1, [])], []) == [Sem(c, 1, [])]
  {
    assert [Sem(c, 1, [])][0].name == c;
    assert [c][1..] == [];
  }

  lemma AllCreated(c: Name) returns (k: KState)
    ensures Stage(k, [OuterProc(c), Idle(c), InnerProc(c)], c, 1)
  {
    StartFits(c);
    ThreeAlternate(c);
    FirstDeclared(c);
    k := StepFits(INIT, Create(Outer(c), Outer(c).body), c);
    assert k.procs == [OuterProc(c)] && k.sems == [Sem(c, 1, [])];
    k := StepFits(k, Create(Program([], []), [SemV(c)]), c);
    assert k.procs == [OuterProc(c), Idle(c)] && k.sems == [Sem(c, 1, [])];
    k := StepFits(k, Create(Inner(c), Inner(c).body), c);
  }

  /** Process 0 after its P, and after its exec. */
  function Entering(c: Name): Proc { OuterProc(c).(status := Running, pc := 1) }

  function Inside(c: Name): Proc { OuterProc(c).(status := Running, pc := 2, timeToRun := 0, hUsed := 1) }

  /** Nothing is reaped, and the least process in the policy order is selected. */
  lemma Picked(procs: seq<Proc>, i: nat)
    requires Sorted(procs) && IsMinimum(procs, |procs|, i)
    requires forall j :: 0 <= j < |procs| ==> procs[j].status != Kill
    ensures Reap(procs) == procs && Select(procs) == Some(i)
  {
    NothingToReap(procs);
    SelectIs(procs, i);
  }

  lemma PicksOuter(p: Proc, c: Name) returns (procs: seq<Proc>)
    requires p.pid == 0 && p.hUsed == 0 && p.rwCount == 0 && (p.status == New || p.status == Running)
    ensures procs == [Demoted(p), Idle(c), InnerProc(c)] == NoRunning([p, Idle(c), InnerProc(c)])
    ensures Reap(procs) == procs && Select(procs) == Some(0)
  {
    procs := [Demoted(p), Idle(c), InnerProc(c)];
    Picked(procs, 0);
  }

  lemma PicksIdle(c: Name) returns (procs: seq<Proc>)
    ensures procs == [Inside(c).(status := Ready), Idle(c), InnerProc(c)] == NoRunning([Inside(c), Idle(c), InnerProc(c)])
    ensures Reap(procs) == procs && Select(procs) == Some(1)
  {
    procs := [Inside(c).(status := Ready), Idle(c), InnerProc(c)];
    Picked(procs, 1);
  }

  lemma OuterEnters(c: Name) returns (k: KState)
    ensures Stage(k, [Entering(c), Idle(c), InnerProc(c)], c, 0)
  {
    k := AllCreated(c);
    var procs := PicksOuter(OuterProc(c), c);
    var h := Holding(k, procs, 0);
    assert h.procs == [OuterProc(c).(status := Running), Idle(c), InnerProc(c)];
    k := TickFits(k, procs, 0, Outer(c).body, c);
  }

  lemma OuterStays(c: Name) returns (k: KState)
    ensures Stage(k, [Inside(c), Idle(c), InnerProc(c)], c, 0)
  {
    k := OuterEnters(c);
    var procs := PicksOuter(Entering(c), c);
    var h := Holding(k, procs, 0);
    assert h.procs == [Entering(c), Idle(c), InnerProc(c)];
    ExecutesZero(h, 0, Outer(c).body);
    k := TickFits(k, procs, 0, Outer(c).body, c);
  }

  lemma IdleIsKilled(c: Name) returns (k: KState)
    ensures Stage(k, [Inside(c).(status := Ready), Idle(c).(status := Kill, pc := 1), InnerProc(c)], c, 1)
  {
    k := OuterStays(c);
    var procs := PicksIdle(c);
    var h := Holding(k, procs, 1);
    assert h.procs == [Inside(c).(status := Ready), Idle(c).(status := Running), InnerProc(c)];
    FindPidSorted(h.procs, 1);
    k := TickFits(k, procs, 1, [SemV(c)], c);
  }

  lemma ReapMiddle(a: Proc, b: Proc, z: Proc)
    requires a.status != Kill && b.status == Kill && z.status != Kill
    ensures Reap([a, b, z]) == [a, z]
  {
    var rest := [b, z];
    assert rest[2..] == [] && Reap(rest) == [z] + Reap([]);
    assert [a, b, z][1..] == rest;
  }

  lemma InnerEnters(c: Name) returns (k: KState)
    ensures Stage(k, [Inside(c).(status := Ready), InnerProc(c).(status := Running, pc := 1)], c, 0)
  {
    k := IdleIsKilled(c);
    var procs := [Inside(c).(status := Ready), InnerProc(c)];
    assert NoRunning(k.procs) == k.procs;
    ReapMiddle(Inside(c).(status := Ready), Idle(c).(status := Kill, pc := 1), InnerProc(c));
    SelectIs(procs, 1);
    k := TickFits(k, procs, 1, Inner(c).body, c);
  }

  /**
    Alternating, declared programs are not enough: a run reaches a state with two processes inside,
    because the kill of a third one fell through to a V left behind in its memory.
  */
  lemma StaleVBreaksExclusion(c: Name) returns (k: KState)
    ensures FitReachable(k, c) && k.health == Alive && |k.procs| == 2
    ensures InCritical(k, 0, c) && InCritical(k, 1, c)
  {
    k := InnerEnters(c);
    ThreeAlternate(c);
    assert Find(k.sems, c) == Some(0);
  }

  // 127 Vs wrap the value

  /** One V after the other. */
  function Vs127(c: Name): Program {
    Program([c], seq(127, _ => SemV(c)))
  }

  function AfterVs(c: Name, n: nat): Proc {
    NewProc(0, Vs127(c), Vs127(c).body).(status := if n == 0 then New else Running, pc := n)
  }

  /** Reached, at the beginning of an iteration, after `n` of the 127 Vs. */
  ghost predicate Raised(k: KState, c: Name, n: nat) {
    && Reachable(k) && k.health == Alive && k.phase == Demoting
    && k.procs == [AfterVs(c, n)] && k.sems == [Sem(c, if n < 127 then 1 + n else -128, [])]
  }

  lemma TickReaches(k: KState, procs: seq<Proc>, i: nat, region: seq<Instr>) returns (k': KState)
    requires Reachable(k) && k.health == Alive && k.phase == Demoting
    requires procs == Offered(k) && Select(procs) == Some(i) && i < |procs| && Fits(procs[i], region)
    ensures Reachable(k') && k' == ExecProcess(Holding(k, procs, i), i, region).(phase := Demoting)
  {
    var k1 := StepReaches(k, Demote);
    var k2 := StepReaches(k1, ReapKilled);
    var k3 := StepReaches(k2, SelectNext);
    assert k3 == Holding(k, procs, i);
    k' := StepReaches(k3, Execute(region));
  }

  lemma RaisedOnce(k: KState, c: Name, n: nat) returns (k': KState)
    requires n < 127 && Raised(k, c, n)
    ensures Raised(k', c, n + 1)
  {
    var p, region := Demoted(AfterVs(c, n)), Vs127(c).body;
    var procs := [p];
    assert NoRunning(k.procs) == procs;
    NothingToReap(procs);
    SelectIs(procs, 0);
    ExecutesV(Holding(k, procs, 0), 0, region, c, 1 + n);
    k' := TickReaches(k, procs, 0, region);
  }

  lemma {:induction false} RaisedBy(c: Name, n: nat) returns (k: KState)
    requires n <= 127
    ensures Raised(k, c, n)
  {
    if n == 0 {
      StartReached();
      FirstDeclared(c);
      k := StepReaches(INIT, Create(Vs127(c), Vs127(c).body));
    } else {
      k := RaisedBy(c, n - 1);
      k := RaisedOnce(k, c, n - 1);
    }
  }

  /** A program of 127 Vs takes the value from 1 to -128 with nobody waiting. */
  lemma WrapIsReached(c: Name) returns (k: KState)
    ensures Reachable(k) && k.health == Alive
    ensures CellOf(k.sems, c) == Cell(-128, []) && !Balanced(CellOf(k.sems, c))
  {
    k := RaisedBy(c, 127);
    assert Find(k.sems, c) == Some(0);
  }
}
