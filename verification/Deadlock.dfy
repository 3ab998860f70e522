/** Programs that use one semaphore and close every section they open never deadlock. */
module Deadlock {
  import opened Common
  import opened Process
  import opened Scheduler
  import opened Semaphore
  import opened Kernel
  import opened KernelInvariant
  import opened SemaphoreRuns
  import opened KernelEffects
  import opened WorkAccounting
  import opened KernelResults
  import opened MutualExclusion

  /** Every P on `c` in the program is followed by its V. */
  predicate Closes(body: seq<Instr>, c: Name) {
    Open(body, c, |body|) == 0
  }

  /** The step creates only programs that close their sections, and waits on no other semaphore. */
  ghost predicate OneSemaphore(k: KState, s: Step, c: Name)
    requires Enabled(k, s)
  {
    && (s.Create? ==> Closes(s.prog.body, c))
    && forall d: Name :: d != c ==> !OpOn(k, s, d).OpP?
  }

  ghost predicate OneSemaphoreRun(k: KState, steps: seq<Step>, c: Name)
    requires Runs(k, steps)
    decreases |steps|
  {
    steps != [] ==> OneSemaphore(k, steps[0], c) && OneSemaphoreRun(Apply(k, steps[0]), steps[1..], c)
  }

  ghost predicate OthersEmpty(sems: seq<Sem>, c: Name) {
    forall d: Name :: d != c ==> CellOf(sems, d).waiters == []
  }

  /** A killed process is at its end, where it has closed its section. */
  ghost predicate KilledAtEnd(procs: seq<Proc>, c: Name) {
    forall i :: 0 <= i < |procs| ==>
      Closes(procs[i].prog.body, c) && (procs[i].status == Kill ==> procs[i].pc >= procs[i].last)
  }

  lemma {:induction false} NobodyKilledInside(procs: seq<Proc>, c: Name)
    requires KilledAtEnd(procs, c)
    requires forall i :: 0 <= i < |procs| ==> procs[i].last == |procs[i].prog.body|
    ensures KilledInside(procs, c) == 0
  {
    if procs != [] {
      NobodyKilledInside(procs[1..], c);
    }
  }

  // One step

  lemma StepOthersEmpty(k: KState, s: Step, c: Name)
    requires Core(k) && Enabled(k, s) && OneSemaphore(k, s, c) && OthersEmpty(k.sems, c)
    ensures OthersEmpty(Apply(k, s).sems, c)
  {
    forall d: Name | d != c
      ensures CellOf(Apply(k, s).sems, d).waiters == []
    {
      StepCell(k, s, d);
    }
  }

  lemma ExecuteKilledAtEnd(k: KState, region: seq<Instr>, c: Name)
    requires Core(k) && Enabled(k, Execute(region)) && Apply(k, Execute(region)).health == Alive
    requires KilledAtEnd(k.procs, c)
    ensures KilledAtEnd(Apply(k, Execute(region)).procs, c)
  {
    var i, procs' := k.phase.slot, Apply(k, Execute(region)).procs;
    var p := k.procs[i];
    ExecuteEffect(k, region);
    ExecuteStatuses(k, region);
    MovedIsOneDispatchOn(p, region);
    forall l | 0 <= l < |procs'|
      ensures Closes(procs'[l].prog.body, c) && (procs'[l].status == Kill ==> procs'[l].pc >= procs'[l].last)
    {
      assert l != i ==> SamePlace(k.procs[l], procs'[l]);
    }
  }

  lemma StepKilledAtEnd(k: KState, s: Step, c: Name)
    requires Core(k) && Enabled(k, s) && Apply(k, s).health == Alive
    requires OneSemaphore(k, s, c) && KilledAtEnd(k.procs, c)
    ensures KilledAtEnd(Apply(k, s).procs, c)
  {
    match s {
      case Create(prog, region) =>
      case ReapKilled =>
        ReapKeeps(k);
        SurvivorsNotKilled(k.procs);
        assert forall i :: 0 <= i < |Survivors(k.procs)| ==> Survivors(k.procs)[i] in Survivors(k.procs);
      case Execute(region) => ExecuteKilledAtEnd(k, region, c);
      case _ =>
        OtherEffect(k, s);
        OtherStepKills(k, s);
    }
  }

  /** Nobody has been lost inside, nobody will be, and only `c` has anyone waiting. */
  ghost predicate Safe(k: KState, c: Name) {
    Guarded(k, c, 0) && KilledAtEnd(k.procs, c) && OthersEmpty(k.sems, c)
  }

  lemma StepSafe(k: KState, s: Step, c: Name)
    requires Safe(k, c) && Enabled(k, s) && Apply(k, s).health == Alive
    requires CreationFits(k, s, c) && !StaleOp(k, s, c) && OneSemaphore(k, s, c)
    ensures Safe(Apply(k, s), c)
  {
    NobodyKilledInside(k.procs, c);
    StepGuarded(k, s, c, 0);
    StepKilledAtEnd(k, s, c);
    StepOthersEmpty(k, s, c);
  }

  lemma {:induction false} RunSafe(k: KState, steps: seq<Step>, c: Name)
    requires Safe(k, c) && Runs(k, steps) && Run(k, steps).health == Alive
    requires CreationsFit(k, steps, c) && NoStaleOps(k, steps, c) && OneSemaphoreRun(k, steps, c)
    ensures Safe(Run(k, steps), c)
    decreases |steps|
  {
    if steps != [] {
      StepSafe(k, steps[0], c);
      RunSafe(Apply(k, steps[0]), steps[1..], c);
    }
  }

  // What it means

  /** The pids in a table. */
  ghost function PidsOf(procs: seq<Proc>): (r: seq<nat>)
    ensures |r| == |procs| && forall i :: 0 <= i < |procs| ==> r[i] == procs[i].pid
  {
    seq(|procs|, i requires 0 <= i < |procs| => procs[i].pid)
  }

  lemma {:induction false} AllInside(procs: seq<Proc>, c: Name)
    requires forall i :: 0 <= i < |procs| ==> Level(procs[i], c) == 1
    ensures Levels(procs, c) == |procs|
  {
    if procs != [] {
      AllInside(procs[1..], c);
    }
  }

  /** The semaphore never makes everybody wait: the account leaves one of them outside the ring. */
  lemma SomebodyIsInside(k: KState, c: Name)
    requires Guarded(k, c, 0)
    requires forall i :: 0 <= i < |k.procs| ==> k.procs[i].pid in CellOf(k.sems, c).waiters
    ensures k.procs == []
  {
    var pids, waiters := PidsOf(k.procs), CellOf(k.sems, c).waiters;
    AllInside(k.procs, c);
    DistinctSize(pids);
    RingOfDistinct(k, c);
    DistinctSize(waiters);
    SubsetSize(Elements(pids), Elements(waiters));
  }

  lemma WaitingOnC(k: KState, c: Name, i: nat)
    requires Core(k) && OthersEmpty(k.sems, c) && i < |k.procs| && k.procs[i].status == Waiting
    ensures k.procs[i].pid in CellOf(k.sems, c).waiters
  {
    StatusMatches(k, i);
    var j :| 0 <= j < |k.sems| && k.procs[i].pid in k.sems[j].waiters;
    FindUnique(k.sems, j);
    assert CellOf(k.sems, k.sems[j].name).waiters == k.sems[j].waiters;
  }

  /**
    Main result: on every run of alternating programs that close what they open and wait on `c` only, a
    state with nothing to select and an idle disk has no processes left.
  */
  lemma NoDeadlock(steps: seq<Step>, c: Name)
    requires Runs(INIT, steps) && Run(INIT, steps).health == Alive
    requires CreationsFit(INIT, steps, c) && NoStaleOps(INIT, steps, c) && OneSemaphoreRun(INIT, steps, c)
    ensures var k := Run(INIT, steps);
      Select(k.procs) == None && k.disk.queue == [] ==> k.procs == []
  {
    StartGuarded(c);
    RunSafe(INIT, steps, c);
    var k := Run(INIT, steps);
    if Select(k.procs) == None && k.disk.queue == [] {
      assert Reachable(k);
      IdleMeansDeadlock(k);
      forall i | 0 <= i < |k.procs|
        ensures k.procs[i].pid in CellOf(k.sems, c).waiters
      {
        WaitingOnC(k, c, i);
      }
      SomebodyIsInside(k, c);
    }
  }
}
