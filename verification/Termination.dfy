/** Every process is dispatched exactly as often as it has work, unless its kill is lost. */
module Termination {
  import opened Common
  import opened Process
  import opened Scheduler
  import opened Kernel
  import opened KernelInvariant
  import opened SemaphoreRuns
  import opened KernelEffects
  import opened WorkAccounting
  import opened KernelResults
  import Disk

  /** The step kills its process and lets the slot at the end suspend it, which undoes the kill. */
  ghost predicate LosesKill(k: KState, s: Step)
    requires Enabled(k, s)
  {
    s.Execute? &&
    var p := k.procs[k.phase.slot];
    p.pc == p.last && Suspends(k.sems, Fetch(p))
  }

  ghost predicate LosesKillOf(k: KState, s: Step, pid: nat)
    requires Enabled(k, s)
  {
    LosesKill(k, s) && DispatchesPid(k, s, pid)
  }

  // One step

  lemma EscapedPlace(k: KState, k': KState, pid: nat)
    requires SamePlaces(k.procs, k'.procs) && SameKills(k.procs, k'.procs)
    ensures Escaped(k', pid) <==> Escaped(k, pid)
  {
    assert forall l :: 0 <= l < |k.procs| ==> SamePlace(k.procs[l], k'.procs[l]);
    FindSame(k.procs, k'.procs, pid);
  }

  lemma CreateEscapes(k: KState, prog: Program, region: seq<Instr>, pid: nat)
    requires Core(k) && Enabled(k, Create(prog, region)) && pid < k.lastPid
    ensures Escaped(CreateProcess(k, prog, region), pid) <==> Escaped(k, pid)
  {
    CreateKeeps(k, prog, region);
    var k' := CreateProcess(k, prog, region);
    if FindPid(k.procs, pid).Some? {
      FindPidSorted(k'.procs, FindPid(k.procs, pid).value);
    }
  }

  lemma ReapEscapes(k: KState, pid: nat)
    requires Core(k) && k.phase == Reaping
    ensures Escaped(k.(procs := Reap(k.procs), phase := Selecting), pid) <==> Escaped(k, pid)
  {
    ReapKeeps(k);
    FindSurvivor(k.procs, pid);
  }

  lemma ExecuteEscapes(k: KState, region: seq<Instr>, pid: nat)
    requires Core(k) && Enabled(k, Execute(region)) && Apply(k, Execute(region)).health == Alive
    ensures Escaped(Apply(k, Execute(region)), pid) <==> Escaped(k, pid) || LosesKillOf(k, Execute(region), pid)
  {
    var i, k' := k.phase.slot, Apply(k, Execute(region));
    var p := k.procs[i];
    var m := Moved(p, region);
    ExecuteEffect(k, region);
    ExecuteStatuses(k, region);
    MovedIsOneDispatchOn(p, region);
    if p.pc == p.last {
      KillSticksIff(k, region);
    }
    FindPidSorted(k.procs, i);
    MovedPids(k.procs, k'.procs, i, m, pid);
  }

  /** A process escapes by a step that loses its kill and by no other, and it never comes back. */
  lemma StepEscapesIff(k: KState, s: Step, pid: nat)
    requires Core(k) && Enabled(k, s) && Apply(k, s).health == Alive && pid < k.lastPid
    ensures Escaped(Apply(k, s), pid) <==> Escaped(k, pid) || LosesKillOf(k, s, pid)
  {
    match s {
      case Create(prog, region) => CreateEscapes(k, prog, region, pid);
      case ReapKilled => ReapEscapes(k, pid);
      case Execute(region) => ExecuteEscapes(k, region, pid);
      case _ =>
        OtherEffect(k, s);
        OtherStepKills(k, s);
        EscapedPlace(k, Apply(k, s), pid);
    }
  }

  // One process over whole runs

  /** No dispatch of `pid` at its end finds a slot that suspends it. */
  ghost predicate KillsStick(k: KState, steps: seq<Step>, pid: nat)
    requires Runs(k, steps)
    decreases |steps|
  {
    steps != [] ==> !LosesKillOf(k, steps[0], pid) && KillsStick(Apply(k, steps[0]), steps[1..], pid)
  }

  /** A run lets a process escape if and only if one of its kills is lost. */
  lemma {:induction false} EscapesIff(k: KState, steps: seq<Step>, pid: nat)
    requires Core(k) && Runs(k, steps) && Run(k, steps).health == Alive && pid < k.lastPid
    ensures Escaped(Run(k, steps), pid) <==> Escaped(k, pid) || !KillsStick(k, steps, pid)
    decreases |steps|
  {
    if steps != [] {
      StaysAlive(k, steps);
      StepLastPid(k, steps[0]);
      StepEscapesIff(k, steps[0], pid);
      EscapesIff(Apply(k, steps[0]), steps[1..], pid);
    }
  }

  lemma {:induction false} NoEscapedDispatches(k: KState, steps: seq<Step>, pid: nat)
    requires Core(k) && Runs(k, steps) && Run(k, steps).health == Alive && pid < k.lastPid
    requires !Escaped(k, pid) && KillsStick(k, steps, pid)
    ensures EscapedDispatches(k, steps, pid) == 0
    decreases |steps|
  {
    if steps != [] {
      StaysAlive(k, steps);
      StepLastPid(k, steps[0]);
      StepEscapesIff(k, steps[0], pid);
      NoEscapedDispatches(Apply(k, steps[0]), steps[1..], pid);
    }
  }

  ghost predicate KilledOrGone(k: KState, pid: nat) {
    match FindPid(k.procs, pid)
    case None => true
    case Some(i) => k.procs[i].status == Kill
  }

  /**
    Main result: a process whose kill sticks is dispatched at most as often as it has work, it is killed
    or gone exactly when it has been dispatched that often, and until then it is in the table.
  */
  lemma DispatchedExactlyItsWork(k: KState, steps: seq<Step>, pid: nat)
    requires Core(k) && Runs(k, steps) && Run(k, steps).health == Alive && pid < k.lastPid
    requires !Escaped(k, pid) && KillsStick(k, steps, pid)
    ensures Dispatches(k, steps, pid) <= WorkOf(k, pid)
    ensures WorkOf(Run(k, steps), pid) == WorkOf(k, pid) - Dispatches(k, steps, pid)
    ensures KilledOrGone(Run(k, steps), pid) <==> Dispatches(k, steps, pid) == WorkOf(k, pid)
  {
    WorkCountsDispatches(k, steps, pid);
    NoEscapedDispatches(k, steps, pid);
    EscapesIff(k, steps, pid);
  }

  // All processes together

  ghost function WorkBelow(k: KState, n: nat): nat {
    if n == 0 then 0 else WorkBelow(k, n - 1) + WorkOf(k, n - 1)
  }

  /** The work of everybody created so far. */
  ghost function TotalWork(k: KState): nat {
    WorkBelow(k, k.lastPid)
  }

  /** The step creates a process: the table was not full. */
  ghost predicate Creates(k: KState, s: Step) {
    s.Create? && k.curr < Disk.MAX_PCB - 1
  }

  /** The work that a creation brings in. */
  ghost function StepBrings(k: KState, s: Step): nat {
    if Creates(k, s) then 1 + CodeWork(s.prog.body) else 0
  }

  /** Pids are handed out in order, one to each process created. */
  lemma NextPid(k: KState, s: Step)
    requires Enabled(k, s)
    ensures Apply(k, s).lastPid == k.lastPid + One(Creates(k, s))
  {
  }

  ghost predicate EscapedDispatch(k: KState, s: Step)
    requires Enabled(k, s)
  {
    s.Execute? && Escaped(k, k.procs[k.phase.slot].pid)
  }

  ghost function AllDispatches(k: KState, steps: seq<Step>): nat
    requires Runs(k, steps)
    decreases |steps|
  {
    if steps == [] then 0 else One(steps[0].Execute?) + AllDispatches(Apply(k, steps[0]), steps[1..])
  }

  ghost function AllEscapedDispatches(k: KState, steps: seq<Step>): nat
    requires Runs(k, steps)
    decreases |steps|
  {
    if steps == [] then 0 else One(EscapedDispatch(k, steps[0])) + AllEscapedDispatches(Apply(k, steps[0]), steps[1..])
  }

  ghost function Brought(k: KState, steps: seq<Step>): nat
    requires Runs(k, steps)
    decreases |steps|
  {
    if steps == [] then 0 else StepBrings(k, steps[0]) + Brought(Apply(k, steps[0]), steps[1..])
  }

  /** The process whose work the step uses up, if any. */
  ghost function Served(k: KState, s: Step): Option<nat>
    requires Enabled(k, s)
  {
    if s.Execute? && !EscapedDispatch(k, s) then Some(k.procs[k.phase.slot].pid) else None
  }

  lemma StepServes(k: KState, s: Step, pid: nat)
    requires Core(k) && Enabled(k, s) && Apply(k, s).health == Alive && pid < k.lastPid
    ensures WorkOf(Apply(k, s), pid) == WorkOf(k, pid) - One(Served(k, s) == Some(pid))
  {
    StepUses(k, s, pid);
    if DispatchesPid(k, s, pid) {
      DispatchedWork(k, s, pid);
    }
  }

  lemma {:induction false} ServedBelow(k: KState, k': KState, served: Option<nat>, n: nat)
    requires forall pid: nat :: pid < n ==> WorkOf(k', pid) == WorkOf(k, pid) - One(served == Some(pid))
    ensures WorkBelow(k', n) == WorkBelow(k, n) - One(served.Some? && served.value < n)
  {
    if n > 0 {
      ServedBelow(k, k', served, n - 1);
    }
  }

  lemma CreatedWork(k: KState, s: Step)
    requires Core(k) && Enabled(k, s) && Creates(k, s)
    ensures WorkOf(Apply(k, s), k.lastPid) == StepBrings(k, s)
    ensures !Escaped(Apply(k, s), k.lastPid)
  {
    CreateKeeps(k, s.prog, s.region);
    FindPidSorted(CreateProcess(k, s.prog, s.region).procs, |k.procs|);
    NewWork(k.lastPid, s.prog, s.region);
  }

  lemma StepBelow(k: KState, s: Step)
    requires Core(k) && Enabled(k, s) && Apply(k, s).health == Alive
    ensures WorkBelow(Apply(k, s), k.lastPid) + One(s.Execute?) == TotalWork(k) + One(EscapedDispatch(k, s))
  {
    forall pid: nat | pid < k.lastPid
      ensures WorkOf(Apply(k, s), pid) == WorkOf(k, pid) - One(Served(k, s) == Some(pid))
    {
      StepServes(k, s, pid);
    }
    ServedBelow(k, Apply(k, s), Served(k, s), k.lastPid);
  }

  lemma StepTotal(k: KState, s: Step)
    requires Core(k) && Enabled(k, s) && Apply(k, s).health == Alive
    ensures TotalWork(Apply(k, s)) + One(s.Execute?) == TotalWork(k) + StepBrings(k, s) + One(EscapedDispatch(k, s))
  {
    StepBelow(k, s);
    NextPid(k, s);
    if Creates(k, s) {
      CreatedWork(k, s);
      OneMorePid(Apply(k, s), k.lastPid);
    }
  }

  lemma OneMorePid(k: KState, n: nat)
    ensures WorkBelow(k, n + 1) == WorkBelow(k, n) + WorkOf(k, n)
  {
  }

  /**
    Main result: on every run the work left and the dispatches of all processes make up the work at the
    start, the work of the processes created, and the dispatches after lost kills.
  */
  lemma {:induction false} TotalWorkIsConserved(k: KState, steps: seq<Step>)
    requires Core(k) && Runs(k, steps) && Run(k, steps).health == Alive
    ensures TotalWork(Run(k, steps)) + AllDispatches(k, steps)
         == TotalWork(k) + Brought(k, steps) + AllEscapedDispatches(k, steps)
    decreases |steps|
  {
    if steps != [] {
      StaysAlive(k, steps);
      StepTotal(k, steps[0]);
      TotalWorkIsConserved(Apply(k, steps[0]), steps[1..]);
    }
  }

  ghost predicate NoKillIsLost(k: KState, steps: seq<Step>)
    requires Runs(k, steps)
    decreases |steps|
  {
    steps != [] ==> !LosesKill(k, steps[0]) && NoKillIsLost(Apply(k, steps[0]), steps[1..])
  }

  ghost predicate NobodyEscaped(k: KState) {
    forall i :: 0 <= i < |k.procs| ==> k.procs[i].pc <= k.procs[i].last || k.procs[i].status == Kill
  }

  lemma NobodyEscapedIff(k: KState)
    requires Core(k)
    ensures NobodyEscaped(k) <==> forall pid: nat :: pid < k.lastPid ==> !Escaped(k, pid)
  {
    if forall pid: nat :: pid < k.lastPid ==> !Escaped(k, pid) {
      forall i | 0 <= i < |k.procs|
        ensures k.procs[i].pc <= k.procs[i].last || k.procs[i].status == Kill
      {
        FindPidSorted(k.procs, i);
        assert !Escaped(k, k.procs[i].pid);
      }
    }
  }

  lemma StepNobodyEscapes(k: KState, s: Step)
    requires Core(k) && Enabled(k, s) && Apply(k, s).health == Alive
    requires NobodyEscaped(k) && !LosesKill(k, s)
    ensures NobodyEscaped(Apply(k, s)) && !EscapedDispatch(k, s)
  {
    StepKeeps(k, s);
    NobodyEscapedIff(k);
    StepKeepsEverybody(k, s);
    NobodyEscapedIff(Apply(k, s));
  }

  lemma StepKeepsEverybody(k: KState, s: Step)
    requires Core(k) && Enabled(k, s) && Apply(k, s).health == Alive && !LosesKill(k, s)
    requires forall pid: nat :: pid < k.lastPid ==> !Escaped(k, pid)
    ensures forall pid: nat :: pid < Apply(k, s).lastPid ==> !Escaped(Apply(k, s), pid)
  {
    NextPid(k, s);
    forall pid: nat | pid < Apply(k, s).lastPid
      ensures !Escaped(Apply(k, s), pid)
    {
      if pid < k.lastPid {
        StepEscapesIff(k, s, pid);
      } else {
        CreatedWork(k, s);
      }
    }
  }

  /** As long as no kill is lost, there are at most as many dispatches as there was and came work. */
  lemma {:induction false} DispatchesAreBounded(k: KState, steps: seq<Step>)
    requires Core(k) && Runs(k, steps) && Run(k, steps).health == Alive
    requires NobodyEscaped(k) && NoKillIsLost(k, steps)
    ensures AllEscapedDispatches(k, steps) == 0
    ensures TotalWork(Run(k, steps)) == TotalWork(k) + Brought(k, steps) - AllDispatches(k, steps)
    decreases |steps|
  {
    if steps != [] {
      StaysAlive(k, steps);
      StepNobodyEscapes(k, steps[0]);
      StepTotal(k, steps[0]);
      DispatchesAreBounded(Apply(k, steps[0]), steps[1..]);
    }
  }

  /** From the start, all processes together are dispatched at most as often as their programs have work. */
  lemma DispatchesFromStart(steps: seq<Step>)
    requires Runs(INIT, steps) && Run(INIT, steps).health == Alive && NoKillIsLost(INIT, steps)
    ensures AllDispatches(INIT, steps) <= Brought(INIT, steps)
    ensures AllDispatches(INIT, steps) == Brought(INIT, steps) <==> TotalWork(Run(INIT, steps)) == 0
  {
    InitOk();
    DispatchesAreBounded(INIT, steps);
  }
}
