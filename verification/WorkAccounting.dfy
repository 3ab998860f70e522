/** How much work a process has left, and that a dispatch uses up exactly one unit of it, if there is any. */
module WorkAccounting {
  import opened Common
  import opened Process
  import opened Scheduler
  import opened Kernel
  import opened KernelInvariant
  import opened SemaphoreRuns
  import opened KernelEffects

  /** Dispatches that an exec takes. */
  function Slices(n: nat): nat {
    if n <= TIME_SLICE then 1 else 1 + Slices(n - TIME_SLICE)
  }

  /** One per started slice, and at least one. */
  lemma {:induction false} SlicesIsCeiling(n: nat)
    ensures Slices(n) == if n == 0 then 1 else (n + 999) / 1000
  {
    if n > TIME_SLICE {
      SlicesIsCeiling(n - TIME_SLICE);
    }
  }

  /** Dispatches owed to a list of commands: an exec takes one per slice, everything else takes one. */
  function CodeWork(cmds: seq<Instr>): nat {
    if cmds == [] then 0
    else (if cmds[0].ExecFor? then Slices(cmds[0].time) else 1) + CodeWork(cmds[1..])
  }

  /** Milliseconds of exec in a list of commands. */
  function CodeTime(cmds: seq<Instr>): nat {
    if cmds == [] then 0
    else (if cmds[0].ExecFor? then cmds[0].time else 0) + CodeTime(cmds[1..])
  }

  /** The commands from PC on. */
  function Rest(p: Proc): seq<Instr> {
    if p.pc <= p.last <= |p.code| then p.code[p.pc..p.last] else []
  }

  /** Killed, or past the last slot: nothing is owed any more. */
  predicate Over(p: Proc) {
    p.status == Kill || p.pc > p.last
  }

  /** Dispatches left, including the one that kills. */
  function Work(p: Proc): nat {
    if Over(p) then 0 else 1 + CodeWork(Rest(p))
  }

  /** Milliseconds of exec left. */
  function Time(p: Proc): nat {
    if Over(p) then 0 else CodeTime(Rest(p))
  }

  /** The milliseconds that one dispatch of a process charges to it. */
  function Charge(p: Proc): nat {
    if p.pc < p.last && Fetch(p).ExecFor? then Burst(p) else 0
  }

  /** A burst never charges more than is left of the command, so the subtraction does not wrap. */
  lemma BurstWithinCommand(p: Proc)
    requires Fetch(p).ExecFor? && p.timeToRun == TIME_SLICE
    ensures Burst(p) <= Fetch(p).time && Burst(p) <= TIME_SLICE
    ensures Sub32(Fetch(p).time, Burst(p)) == Fetch(p).time - Burst(p)
  {
  }

  /** What a dispatch makes of the code from PC on. */
  lemma MovedCode(p: Proc, region: seq<Instr>)
    requires WellLoaded(p) && Fits(p, region) && p.pc < p.last && p.timeToRun == TIME_SLICE
    ensures var m := Moved(p, region);
      && m.last == p.last <= |m.code|
      && (forall j :: p.pc < j < p.last ==> m.code[j] == p.code[j])
      && if Fetch(p).ExecFor? && Fetch(p).time > Burst(p)
         then m.pc == p.pc && m.code[p.pc] == ExecFor(Fetch(p).time - Burst(p))
         else m.pc == p.pc + 1
  {
    if Fetch(p).ExecFor? {
      BurstWithinCommand(p);
    }
  }

  /** The commands left after a dispatch, compared with those left before it. */
  lemma MovedRest(p: Proc, region: seq<Instr>)
    requires WellLoaded(p) && Fits(p, region) && p.pc < p.last && p.timeToRun == TIME_SLICE
    ensures var m := Moved(p, region);
      && m.pc <= m.last == p.last <= |m.code|
      && CodeWork(Rest(p)) == CodeWork(Rest(m)) + 1
      && CodeTime(Rest(p)) == CodeTime(Rest(m)) + Charge(p)
  {
    var m := Moved(p, region);
    MovedCode(p, region);
    assert Rest(p)[1..] == p.code[p.pc + 1..p.last];
    SameSlice(m.code, p.code, p.pc + 1, p.last);
    if m.pc == p.pc {
      assert Rest(m)[1..] == Rest(p)[1..];
    }
    if Fetch(p).ExecFor? {
      BurstWithinCommand(p);
    }
  }

  /** A process past its last command stays there, or is still marked killed. */
  lemma MovedPastEnd(p: Proc, region: seq<Instr>)
    requires WellLoaded(p) && Fits(p, region) && p.pc >= p.last
    ensures var m := Moved(p, region);
      && m.last == p.last <= |m.code|
      && m.pc >= p.pc && (m.pc == p.pc ==> Fetch(p).ExecFor? && m.status == p.status)
  {
  }

  function WorkOf(k: KState, pid: nat): nat {
    match FindPid(k.procs, pid)
    case None => 0
    case Some(i) => Work(k.procs[i])
  }

  function TimeOf(k: KState, pid: nat): nat {
    match FindPid(k.procs, pid)
    case None => 0
    case Some(i) => Time(k.procs[i])
  }

  /** The step dispatches `pid`. */
  ghost predicate DispatchesPid(k: KState, s: Step, pid: nat)
    requires Enabled(k, s)
  {
    s.Execute? && k.procs[k.phase.slot].pid == pid
  }

  /** The milliseconds that a step charges to `pid`. */
  ghost function StepCharge(k: KState, s: Step, pid: nat): nat
    requires Enabled(k, s)
  {
    if DispatchesPid(k, s, pid) then Charge(k.procs[k.phase.slot]) else 0
  }

  /** What a step must leave of the work and time of `pid`. */
  ghost predicate UsesUp(k: KState, k': KState, pid: nat, dispatched: bool, charge: nat) {
    && WorkOf(k', pid) == (if dispatched && WorkOf(k, pid) > 0 then WorkOf(k, pid) - 1 else WorkOf(k, pid))
    && TimeOf(k', pid) == TimeOf(k, pid) - charge
  }

  // One step

  lemma FindSame(procs: seq<Proc>, procs': seq<Proc>, pid: nat)
    requires |procs| == |procs'| && forall l :: 0 <= l < |procs| ==> procs[l].pid == procs'[l].pid
    ensures FindPid(procs, pid) == FindPid(procs', pid)
  {
  }

  lemma SamePlacesUse(k: KState, k': KState, pid: nat)
    requires Core(k) && Core(k') && SamePlaces(k.procs, k'.procs)
    requires SameKills(k.procs, k'.procs)
    ensures UsesUp(k, k', pid, false, 0)
  {
    assert forall l :: 0 <= l < |k.procs| ==> SamePlace(k.procs[l], k'.procs[l]);
    FindSame(k.procs, k'.procs, pid);
    if FindPid(k.procs, pid).Some? {
      var l := FindPid(k.procs, pid).value;
    }
  }

  lemma CreateUses(k: KState, prog: Program, region: seq<Instr>, pid: nat)
    requires Core(k) && Enabled(k, Create(prog, region)) && pid < k.lastPid
    ensures UsesUp(k, CreateProcess(k, prog, region), pid, false, 0)
  {
    CreateKeeps(k, prog, region);
    var k' := CreateProcess(k, prog, region);
    if FindPid(k.procs, pid).Some? {
      FindPidSorted(k'.procs, FindPid(k.procs, pid).value);
    }
  }

  /** A pid is found after reaping exactly if it was there and not killed, and it is the same process. */
  lemma FindSurvivor(procs: seq<Proc>, pid: nat)
    requires Sorted(procs)
    ensures var i, j := FindPid(procs, pid), FindPid(Survivors(procs), pid);
      if i == None || procs[i.value].status == Kill then j == None
      else j.Some? && Survivors(procs)[j.value] == procs[i.value]
  {
    var rest := Survivors(procs);
    SurvivorsNotKilled(procs);
    SurvivorsSorted(procs);
    var i := FindPid(procs, pid);
    if i.Some? && procs[i.value].status != Kill {
      assert procs[i.value] in rest;
      var j :| 0 <= j < |rest| && rest[j] == procs[i.value];
      FindPidSorted(rest, j);
    } else {
      forall j | 0 <= j < |rest|
        ensures rest[j].pid != pid
      {
        assert rest[j] in rest;
        var l :| 0 <= l < |procs| && procs[l] == rest[j];
      }
    }
  }

  lemma ReapUses(k: KState, pid: nat)
    requires Core(k) && k.phase == Reaping
    ensures UsesUp(k, k.(procs := Reap(k.procs), phase := Selecting), pid, false, 0)
  {
    ReapKeeps(k);
    FindSurvivor(k.procs, pid);
  }

  // Statuses along a step

  lemma DispatchStatus(k: KState, i: nat, region: seq<Instr>)
    requires Busy(k, i) && Fits(k.procs[i], region)
    requires Dispatch(k, i, region).health == Alive
    ensures var procs := Dispatch(k, i, region).procs;
      && |procs| == |k.procs| && OnlyKill(procs, i)
      && (Fetch(k.procs[i]).ExecFor? ==> procs[i].status == k.procs[i].status)
      && (k.procs[i].status != Kill ==> procs[i].status != Kill)
  {
    DispatchKeeps(k, i, region);
  }

  /** After an execution only the chosen process can be marked killed, and only if it was at its end. */
  lemma ExecuteStatuses(k: KState, region: seq<Instr>)
    requires Core(k) && Enabled(k, Execute(region)) && Apply(k, Execute(region)).health == Alive
    ensures var i := k.phase.slot;
      var p, procs := k.procs[i], Apply(k, Execute(region)).procs;
      && |procs| == |k.procs| && OnlyKill(procs, i)
      && (p.pc != p.last ==> procs[i].status != Kill)
      && (p.pc == p.last && Fetch(p).ExecFor? ==> procs[i].status == Kill)
  {
    EnteredBusy(k);
    DispatchStatus(Entered(k, k.phase.slot), k.phase.slot, region);
  }

  /** How the place `m` after a dispatch compares with the place of `p` before it. */
  ghost predicate OneDispatchOn(p: Proc, m: Proc) {
    && m.pid == p.pid && m.last == p.last
    && (p.pc < p.last ==>
          && m.pc <= m.last
          && CodeWork(Rest(p)) == CodeWork(Rest(m)) + 1
          && CodeTime(Rest(p)) == CodeTime(Rest(m)) + Charge(p))
    && (p.pc >= p.last ==> m.pc >= p.pc && (m.pc == p.pc ==> Fetch(p).ExecFor?))
  }

  lemma MovedIsOneDispatchOn(p: Proc, region: seq<Instr>)
    requires WellLoaded(p) && Fits(p, region) && p.timeToRun == TIME_SLICE
    ensures OneDispatchOn(p, Moved(p, region))
  {
    if p.pc < p.last {
      MovedRest(p, region);
    } else {
      MovedPastEnd(p, region);
    }
  }

  /** What one dispatch leaves of the process it runs. */
  lemma PlaceLeft(p: Proc, m: Proc, p': Proc)
    requires p.status != Kill
    requires OneDispatchOn(p, m) && SamePlace(m, p')
    requires p.pc != p.last ==> p'.status != Kill
    requires p.pc == p.last && Fetch(p).ExecFor? ==> p'.status == Kill
    ensures Work(p') == if Work(p) > 0 then Work(p) - 1 else 0
    ensures Time(p') == Time(p) - Charge(p)
  {
    assert Rest(p') == Rest(m);
  }

  lemma MovedPids(procs: seq<Proc>, procs': seq<Proc>, i: nat, m: Proc, pid: nat)
    requires MovedAt(procs, procs', i, m) && m.pid == procs[i].pid
    ensures FindPid(procs, pid) == FindPid(procs', pid)
  {
    forall l | 0 <= l < |procs|
      ensures procs[l].pid == procs'[l].pid
    {
      assert l != i ==> SamePlace(procs[l], procs'[l]);
    }
    FindSame(procs, procs', pid);
  }

  /** The same over the table: the chosen process is charged, the others are not. */
  lemma TableUses(k: KState, k': KState, i: nat, m: Proc, pid: nat)
    requires Core(k) && k.phase == Chosen(i)
    requires MovedAt(k.procs, k'.procs, i, m) && OneDispatchOn(k.procs[i], m)
    requires OnlyKill(k'.procs, i)
    requires var p := k.procs[i];
      && (p.pc != p.last ==> k'.procs[i].status != Kill)
      && (p.pc == p.last && Fetch(p).ExecFor? ==> k'.procs[i].status == Kill)
    ensures var dispatched := k.procs[i].pid == pid;
      UsesUp(k, k', pid, dispatched, if dispatched then Charge(k.procs[i]) else 0)
  {
    FindPidSorted(k.procs, i);
    MovedPids(k.procs, k'.procs, i, m, pid);
    if k.procs[i].pid == pid {
      PlaceLeft(k.procs[i], m, k'.procs[i]);
    } else if FindPid(k.procs, pid).Some? {
      var l := FindPid(k.procs, pid).value;
    }
  }

  lemma ExecuteUses(k: KState, region: seq<Instr>, pid: nat)
    requires Core(k) && Enabled(k, Execute(region)) && Apply(k, Execute(region)).health == Alive
    ensures var s := Execute(region);
      UsesUp(k, Apply(k, s), pid, DispatchesPid(k, s, pid), StepCharge(k, s, pid))
  {
    var p := k.procs[k.phase.slot];
    ExecuteEffect(k, region);
    ExecuteStatuses(k, region);
    MovedIsOneDispatchOn(p, region);
    TableUses(k, Apply(k, Execute(region)), k.phase.slot, Moved(p, region), pid);
  }

  ghost predicate SameKills(procs: seq<Proc>, procs': seq<Proc>) {
    |procs'| == |procs| && forall l :: 0 <= l < |procs| ==> (procs[l].status == Kill <==> procs'[l].status == Kill)
  }

  lemma DiskStepKills(k: KState)
    requires Core(k)
    ensures SameKills(k.procs, DiskStep(k).procs)
  {
    DiskBase(k);
  }

  lemma OtherStepKills(k: KState, s: Step)
    requires Core(k) && Enabled(k, s) && (s.Demote? || s.SelectNext? || s.DiskTick? || s.PrinterTick?)
    ensures SameKills(k.procs, Apply(k, s).procs)
  {
    if s.DiskTick? {
      DiskStepKills(k);
    }
  }

  /** Every dispatch uses up one unit of the chosen process's work and no one else's; nothing else does. */
  lemma StepUses(k: KState, s: Step, pid: nat)
    requires Core(k) && Enabled(k, s) && Apply(k, s).health == Alive && pid < k.lastPid
    ensures UsesUp(k, Apply(k, s), pid, DispatchesPid(k, s, pid), StepCharge(k, s, pid))
  {
    match s {
      case Create(prog, region) => CreateUses(k, prog, region, pid);
      case ReapKilled => ReapUses(k, pid);
      case Execute(region) => ExecuteUses(k, region, pid);
      case _ =>
        StepKeeps(k, s);
        OtherEffect(k, s);
        OtherStepKills(k, s);
        SamePlacesUse(k, Apply(k, s), pid);
    }
  }

  // Whole runs

  /** How often a run dispatches `pid`. */
  ghost function Dispatches(k: KState, steps: seq<Step>, pid: nat): nat
    requires Runs(k, steps)
    decreases |steps|
  {
    if steps == [] then 0
    else One(DispatchesPid(k, steps[0], pid)) + Dispatches(Apply(k, steps[0]), steps[1..], pid)
  }

  /** The milliseconds a run charges to `pid`. */
  ghost function Charges(k: KState, steps: seq<Step>, pid: nat): nat
    requires Runs(k, steps)
    decreases |steps|
  {
    if steps == [] then 0
    else StepCharge(k, steps[0], pid) + Charges(Apply(k, steps[0]), steps[1..], pid)
  }

  /** In the table, past its last slot, and not marked killed: its kill has been lost. */
  ghost predicate Escaped(k: KState, pid: nat) {
    match FindPid(k.procs, pid)
    case None => false
    case Some(i) => k.procs[i].pc > k.procs[i].last && k.procs[i].status != Kill
  }

  /** How often a run dispatches `pid` after its kill has been lost. */
  ghost function EscapedDispatches(k: KState, steps: seq<Step>, pid: nat): nat
    requires Runs(k, steps)
    decreases |steps|
  {
    if steps == [] then 0
    else One(DispatchesPid(k, steps[0], pid) && Escaped(k, pid)) + EscapedDispatches(Apply(k, steps[0]), steps[1..], pid)
  }

  /** A process that is dispatched has work left unless its kill has been lost. */
  lemma DispatchedWork(k: KState, s: Step, pid: nat)
    requires Core(k) && Enabled(k, s) && DispatchesPid(k, s, pid)
    ensures WorkOf(k, pid) == 0 <==> Escaped(k, pid)
  {
    FindPidSorted(k.procs, k.phase.slot);
  }

  lemma StepLastPid(k: KState, s: Step)
    requires Enabled(k, s)
    ensures Apply(k, s).lastPid >= k.lastPid
  {
  }

  /**
    Main result: on every run the work left and the dispatches make up the work at the start and the
    dispatches after a lost kill. So after d dispatches a process has exactly d units of work less, down
    to none, and its exec time left has gone down by exactly the milliseconds charged to it.
  */
  lemma {:induction false} WorkCountsDispatches(k: KState, steps: seq<Step>, pid: nat)
    requires Core(k) && Runs(k, steps) && Run(k, steps).health == Alive && pid < k.lastPid
    ensures WorkOf(Run(k, steps), pid) + Dispatches(k, steps, pid) == WorkOf(k, pid) + EscapedDispatches(k, steps, pid)
    ensures var w, d := WorkOf(k, pid), Dispatches(k, steps, pid);
      WorkOf(Run(k, steps), pid) == if d <= w then w - d else 0
    ensures TimeOf(Run(k, steps), pid) + Charges(k, steps, pid) == TimeOf(k, pid)
    decreases |steps|
  {
    if steps != [] {
      StaysAlive(k, steps);
      StepLastPid(k, steps[0]);
      StepUses(k, steps[0], pid);
      if DispatchesPid(k, steps[0], pid) {
        DispatchedWork(k, steps[0], pid);
      }
      WorkCountsDispatches(Apply(k, steps[0]), steps[1..], pid);
    }
  }

  /** The initial work of a process is the whole program and the dispatch that kills. */
  lemma NewWork(pid: nat, prog: Program, region: seq<Instr>)
    requires |prog.body| <= |region|
    ensures var p := NewProc(pid, prog, region);
      Work(p) == 1 + CodeWork(prog.body) && Time(p) == CodeTime(prog.body)
  {
    assert Rest(NewProc(pid, prog, region)) == prog.body;
  }

  /** Work is left exactly for the processes in the table that are neither killed nor past their end. */
  lemma WorkMeansLive(k: KState, pid: nat)
    requires Core(k)
    ensures WorkOf(k, pid) > 0 <==> exists i :: 0 <= i < |k.procs| && k.procs[i].pid == pid && !Over(k.procs[i])
  {
    if i :| 0 <= i < |k.procs| && k.procs[i].pid == pid && !Over(k.procs[i]) {
      FindPidSorted(k.procs, i);
    }
  }
}
