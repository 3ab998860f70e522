/** Mutual exclusion over whole runs, for programs that alternate P and V on a semaphore. */
module MutualExclusion {
  import opened Common
  import opened Process
  import opened Scheduler
  import opened Semaphore
  import opened Kernel
  import opened KernelInvariant
  import opened SemaphoreRuns
  import opened KernelEffects
  import Disk

  /** Ps less Vs on `c` among the first `n` commands. */
  function Open(body: seq<Instr>, c: Name, n: nat): int
    requires n <= |body|
  {
    if n == 0 then 0
    else Open(body, c, n - 1) + (if body[n - 1] == SemP(c) then 1 else if body[n - 1] == SemV(c) then -1 else 0)
  }

  /** On `c`, the program does P, then V, then P again, and so on. */
  ghost predicate Alternates(body: seq<Instr>, c: Name) {
    forall n :: 0 <= n <= |body| ==> 0 <= Open(body, c, n) <= 1
  }

  predicate UsesSem(body: seq<Instr>, c: Name) {
    SemP(c) in body || SemV(c) in body
  }

  /** The programs that are created alternate on `c`, and declare it if they use it. */
  ghost predicate CreationFits(k: KState, s: Step, c: Name) {
    s.Create? ==>
      && Alternates(s.prog.body, c)
      && (UsesSem(s.prog.body, c) ==> Declared(DeclareAll(k.sems, s.prog.sems), c))
  }

  ghost predicate CreationsFit(k: KState, steps: seq<Step>, c: Name)
    requires Runs(k, steps)
    decreases |steps|
  {
    steps != [] ==> CreationFits(k, steps[0], c) && CreationsFit(Apply(k, steps[0]), steps[1..], c)
  }

  /** A command on `c` is dispatched that is not in a program but was left in memory behind its end. */
  ghost predicate StaleOp(k: KState, s: Step, c: Name)
    requires Enabled(k, s)
  {
    s.Execute? && k.procs[k.phase.slot].pc >= k.procs[k.phase.slot].last && OpOn(k, s, c) != NoOp
  }

  ghost predicate NoStaleOps(k: KState, steps: seq<Step>, c: Name)
    requires Runs(k, steps)
    decreases |steps|
  {
    steps != [] ==> !StaleOp(k, steps[0], c) && NoStaleOps(Apply(k, steps[0]), steps[1..], c)
  }

  /** 1 from the dispatch of a process's P until the dispatch of its V, and 0 otherwise. */
  function Level(p: Proc, c: Name): int {
    Open(p.prog.body, c, if p.pc < |p.prog.body| then p.pc else |p.prog.body|)
  }

  function Levels(procs: seq<Proc>, c: Name): int {
    if procs == [] then 0 else Level(procs[0], c) + Levels(procs[1..], c)
  }

  /** Past its P, not yet at its V, and not waiting to get in. */
  ghost predicate InCritical(k: KState, i: nat, c: Name)
    requires i < |k.procs|
  {
    Level(k.procs[i], c) == 1 && k.procs[i].pid !in CellOf(k.sems, c).waiters
  }

  ghost predicate ProgramsFit(procs: seq<Proc>, sems: seq<Sem>, c: Name) {
    forall i :: 0 <= i < |procs| ==>
      && Alternates(procs[i].prog.body, c)
      && (UsesSem(procs[i].prog.body, c) ==> Declared(sems, c))
  }

  ghost predicate WaitersInside(procs: seq<Proc>, waiters: seq<nat>, c: Name) {
    forall i :: 0 <= i < |procs| && procs[i].pid in waiters ==> Level(procs[i], c) == 1
  }

  /**
    The semaphore's value accounts for everyone inside or waiting, and for the `lost` ones that were
    killed inside: at most as many as were reaped.
  */
  ghost predicate Guarded(k: KState, c: Name, lost: int) {
    var cell := CellOf(k.sems, c);
    && Core(k)
    && ProgramsFit(k.procs, k.sems, c)
    && Balanced(cell)
    && WaitersInside(k.procs, cell.waiters, c)
    && 0 <= lost <= k.lastPid - |k.procs|
    && InAccount(k, c, lost)
  }

  ghost predicate InAccount(k: KState, c: Name, lost: int) {
    CellOf(k.sems, c).value + Levels(k.procs, c) + lost == 1
  }

  /** The levels of the killed processes. */
  function KilledInside(procs: seq<Proc>, c: Name): int {
    if procs == [] then 0
    else (if procs[0].status == Kill then Level(procs[0], c) else 0) + KilledInside(procs[1..], c)
  }

  /** What a step takes out of the table without a V. */
  function LostBy(k: KState, s: Step, c: Name): int {
    if s.ReapKilled? then KilledInside(k.procs, c) else 0
  }

  // Levels of tables

  lemma {:induction false} LevelsUpdate(procs: seq<Proc>, i: nat, p: Proc, c: Name)
    requires i < |procs|
    ensures Levels(procs[i := p], c) == Levels(procs, c) - Level(procs[i], c) + Level(p, c)
  {
    if i > 0 {
      assert procs[i := p][1..] == procs[1..][i - 1 := p];
      LevelsUpdate(procs[1..], i - 1, p, c);
    } else {
      assert procs[i := p][1..] == procs[1..];
    }
  }

  lemma {:induction false} LevelsSame(procs: seq<Proc>, procs': seq<Proc>, c: Name)
    requires |procs| == |procs'|
    requires forall l :: 0 <= l < |procs| ==> Level(procs[l], c) == Level(procs'[l], c)
    ensures Levels(procs, c) == Levels(procs', c)
  {
    if procs != [] {
      LevelsSame(procs[1..], procs'[1..], c);
    }
  }

  lemma {:induction false} LevelsAppend(procs: seq<Proc>, p: Proc, c: Name)
    ensures Levels(procs + [p], c) == Levels(procs, c) + Level(p, c)
  {
    if procs == [] {
      assert (procs + [p])[1..] == [];
    } else {
      assert (procs + [p])[1..] == procs[1..] + [p];
      LevelsAppend(procs[1..], p, c);
    }
  }

  ghost predicate AllAlternate(procs: seq<Proc>, c: Name) {
    forall i :: 0 <= i < |procs| ==> Alternates(procs[i].prog.body, c)
  }

  lemma {:induction false} LevelsReaped(procs: seq<Proc>, c: Name)
    requires AllAlternate(procs, c)
    ensures Levels(procs, c) == Levels(Survivors(procs), c) + KilledInside(procs, c)
    ensures 0 <= KilledInside(procs, c) <= |procs| - |Survivors(procs)|
  {
    if procs != [] {
      LevelsReaped(procs[1..], c);
      var rest := Survivors(procs[1..]);
      if procs[0].status != Kill {
        assert Survivors(procs) == [procs[0]] + rest;
        assert Survivors(procs)[1..] == rest;
      } else {
        assert Survivors(procs) == rest;
      }
    }
  }

  /** The pids that are inside or waiting. */
  ghost function Insiders(procs: seq<Proc>, c: Name): set<nat> {
    if procs == [] then {}
    else (if Level(procs[0], c) == 1 then {procs[0].pid} else {}) + Insiders(procs[1..], c)
  }

  ghost predicate InsideAt(procs: seq<Proc>, c: Name, pid: nat) {
    exists i :: 0 <= i < |procs| && procs[i].pid == pid && Level(procs[i], c) == 1
  }

  lemma {:induction false} InsidersMember(procs: seq<Proc>, c: Name, pid: nat)
    ensures pid in Insiders(procs, c) <==> InsideAt(procs, c, pid)
  {
    if procs != [] {
      InsidersMember(procs[1..], c, pid);
      if InsideAt(procs[1..], c, pid) {
        var i :| 0 <= i < |procs[1..]| && procs[1..][i].pid == pid && Level(procs[1..][i], c) == 1;
        assert procs[i + 1].pid == pid && Level(procs[i + 1], c) == 1;
      }
    }
  }

  lemma {:induction false} InsidersCounted(procs: seq<Proc>, c: Name)
    requires Sorted(procs) && AllAlternate(procs, c)
    ensures |Insiders(procs, c)| == Levels(procs, c)
  {
    if procs != [] {
      InsidersCounted(procs[1..], c);
      InsidersMember(procs[1..], c, procs[0].pid);
    }
  }

  // What the guard gives

  lemma RingOfDistinct(k: KState, c: Name)
    requires Base(k)
    ensures Distinct(CellOf(k.sems, c).waiters)
  {
    if Declared(k.sems, c) {
      assert Rings(k.sems)[Find(k.sems, c).value] == CellOf(k.sems, c).waiters;
    }
  }

  lemma WaiterIsInside(k: KState, c: Name, lost: int, pid: nat)
    requires Guarded(k, c, lost) && pid in CellOf(k.sems, c).waiters
    ensures pid in Insiders(k.procs, c)
  {
    RingPidsLive(k, Find(k.sems, c).value, pid);
    var l := FindPid(k.procs, pid).value;
    assert k.procs[l].pid == pid;
    InsidersMember(k.procs, c, pid);
  }

  /** Everyone waiting and everyone in the critical section is counted by the value. */
  lemma WaitersAndCritical(k: KState, c: Name, lost: int, more: seq<nat>)
    requires Guarded(k, c, lost)
    requires Distinct(CellOf(k.sems, c).waiters + more)
    requires forall pid :: pid in more ==> pid in Insiders(k.procs, c)
    ensures |CellOf(k.sems, c).waiters| + |more| <= 1 - CellOf(k.sems, c).value
  {
    var all := CellOf(k.sems, c).waiters + more;
    forall pid | pid in all
      ensures pid in Insiders(k.procs, c)
    {
      if pid !in more {
        WaiterIsInside(k, c, lost, pid);
      }
    }
    DistinctSize(all);
    SubsetSize(Elements(all), Insiders(k.procs, c));
    InsidersCounted(k.procs, c);
  }

  /** Main result: no two processes are ever inside at once. */
  lemma NeverTwoInside(k: KState, c: Name, lost: int, i: nat, j: nat)
    requires Guarded(k, c, lost) && i < j < |k.procs|
    ensures !(InCritical(k, i, c) && InCritical(k, j, c))
  {
    if InCritical(k, i, c) && InCritical(k, j, c) {
      var more := [k.procs[i].pid, k.procs[j].pid];
      RingOfDistinct(k, c);
      InsidersMember(k.procs, c, more[0]);
      InsidersMember(k.procs, c, more[1]);
      WaitersAndCritical(k, c, lost, more);
    }
  }

  /** The value stays between 1 less the number of processes ever created, and 1. */
  lemma ValueRange(k: KState, c: Name, lost: int)
    requires Guarded(k, c, lost)
    ensures 1 - k.lastPid <= CellOf(k.sems, c).value <= 1
  {
    LevelsBounded(k.procs, c);
  }

  lemma {:induction false} LevelsBounded(procs: seq<Proc>, c: Name)
    requires AllAlternate(procs, c)
    ensures 0 <= Levels(procs, c) <= |procs|
  {
    if procs != [] {
      LevelsBounded(procs[1..], c);
    }
  }

  // Every step keeps the guard

  lemma StepSames(k: KState, k': KState, c: Name, lost: int)
    requires Guarded(k, c, lost) && Core(k')
    requires SamePlaces(k.procs, k'.procs) && k'.lastPid == k.lastPid && k'.sems == k.sems
    ensures Guarded(k', c, lost)
  {
    forall l | 0 <= l < |k.procs|
      ensures Level(k'.procs[l], c) == Level(k.procs[l], c)
      ensures k'.procs[l].prog == k.procs[l].prog && k'.procs[l].pid == k.procs[l].pid
    {
      assert SamePlace(k.procs[l], k'.procs[l]);
    }
    LevelsSame(k.procs, k'.procs, c);
  }

  lemma AppendWaiters(procs: seq<Proc>, p: Proc, waiters: seq<nat>, c: Name)
    requires WaitersInside(procs, waiters, c) && p.pid !in waiters
    ensures WaitersInside(procs + [p], waiters, c)
  {
  }

  lemma DeclaredStays(sems: seq<Sem>, names: seq<Name>, c: Name)
    requires Declared(sems, c)
    ensures Declared(DeclareAll(sems, names), c)
  {
    assert DeclareAll(sems, names)[Find(sems, c).value].name == c;
  }

  lemma CreateGuarded(k: KState, prog: Program, region: seq<Instr>, c: Name, lost: int)
    requires Guarded(k, c, lost) && Enabled(k, Create(prog, region)) && CreationFits(k, Create(prog, region), c)
    ensures Guarded(CreateProcess(k, prog, region), c, lost)
  {
    CreateKeeps(k, prog, region);
    if k.curr < Disk.MAX_PCB - 1 {
      var p := NewProc(k.lastPid, prog, region);
      var sems := DeclareAll(k.sems, prog.sems);
      if Declared(k.sems, c) {
        DeclaredStays(k.sems, prog.sems, c);
      }
      FreshNotWaiting(k, c);
      AppendWaiters(k.procs, p, CellOf(k.sems, c).waiters, c);
      CellDeclared(k.sems, prog.sems, c);
      LevelsAppend(k.procs, p, c);
    }
  }

  lemma FreshNotWaiting(k: KState, c: Name)
    requires Base(k)
    ensures k.lastPid !in CellOf(k.sems, c).waiters
  {
    if k.lastPid in CellOf(k.sems, c).waiters {
      RingPidsLive(k, Find(k.sems, c).value, k.lastPid);
    }
  }

  lemma ReapGuarded(k: KState, c: Name, lost: int)
    requires Guarded(k, c, lost) && k.phase == Reaping
    ensures Guarded(k.(procs := Reap(k.procs), phase := Selecting), c, lost + KilledInside(k.procs, c))
  {
    ReapKeeps(k);
    SurvivorsNotKilled(k.procs);
    LevelsReaped(k.procs, c);
    var procs := Survivors(k.procs);
    forall i | 0 <= i < |procs|
      ensures procs[i] in k.procs
    {
      assert procs[i] in procs;
    }
  }

  /** Where the program of the moved process stands afterwards; past its end nothing counts any more. */
  lemma MovedLevel(p: Proc, region: seq<Instr>, c: Name)
    requires WellLoaded(p) && Fits(p, region) && Alternates(p.prog.body, c)
    ensures var m := Moved(p, region);
      && m.prog == p.prog && m.pid == p.pid && m.last == p.last
      && Level(m, c) == Level(p, c) + (if p.pc >= p.last then 0
                                       else if Fetch(p) == SemP(c) then 1 else if Fetch(p) == SemV(c) then -1 else 0)
    ensures p.pc < p.last && (Fetch(p) == SemP(c) || Fetch(p) == SemV(c)) ==> UsesSem(p.prog.body, c)
  {
    var body := p.prog.body;
    if p.pc < p.last {
      assert SameCommand(p.code[p.pc], body[p.pc]);
      assert Open(body, c, p.pc + 1) == Open(body, c, p.pc) +
        (if body[p.pc] == SemP(c) then 1 else if body[p.pc] == SemV(c) then -1 else 0);
    }
  }

  lemma ReplacedDeclared(sems: seq<Sem>, j: nat, s: Sem, c: Name)
    requires Declared(sems, c) && j < |sems| && s.name == sems[j].name
    ensures Declared(sems[j := s], c)
  {
    assert sems[j := s][Find(sems, c).value].name == c;
  }

  lemma SemOpDeclared(k: KState, d: Name, pid: nat, c: Name)
    requires Declared(k.sems, c)
    ensures Declared(SemaphoreP(k, d, pid).sems, c) && Declared(SemaphoreV(k, d).sems, c)
  {
    if Find(k.sems, d).Some? {
      var j := Find(k.sems, d).value;
      ReplacedDeclared(k.sems, j, Down(k.sems[j], pid), c);
      ReplacedDeclared(k.sems, j, Up(k.sems[j]), c);
    }
  }

  lemma StillDeclared(k: KState, i: nat, region: seq<Instr>, c: Name)
    requires i < |k.procs| && Fits(k.procs[i], region) && Declared(k.sems, c)
    ensures Declared(Dispatch(k, i, region).sems, c)
  {
    var p := k.procs[i];
    match Fetch(p) {
      case SemP(d) => SemOpDeclared(k, d, p.pid, c);
      case SemV(d) => SemOpDeclared(k, d, p.pid, c);
      case ExecFor(_) => DeclaredStays(k.sems, p.prog.sems, c);
      case _ =>
    }
  }

  lemma MovedLevels(procs: seq<Proc>, procs': seq<Proc>, i: nat, m: Proc, c: Name)
    requires MovedAt(procs, procs', i, m)
    ensures Levels(procs', c) == Levels(procs, c) - Level(procs[i], c) + Level(m, c)
    ensures forall l :: 0 <= l < |procs| ==> Level(procs'[l], c) == if l == i then Level(m, c) else Level(procs[l], c)
  {
    LevelsUpdate(procs, i, m, c);
    forall l | 0 <= l < |procs|
      ensures Level(procs'[l], c) == Level(procs[i := m][l], c)
    {
      assert l != i ==> SamePlace(procs[l], procs'[l]);
    }
    LevelsSame(procs[i := m], procs', c);
  }

  lemma MovedPrograms(procs: seq<Proc>, procs': seq<Proc>, i: nat, m: Proc, sems: seq<Sem>, c: Name)
    requires MovedAt(procs, procs', i, m) && ProgramsFit(procs, sems, c)
    requires m.prog == procs[i].prog
    ensures ProgramsFit(procs', sems, c)
  {
    forall l | 0 <= l < |procs|
      ensures procs'[l].prog == procs[l].prog
    {
      assert l != i ==> SamePlace(procs[l], procs'[l]);
    }
  }

  /** After an operation, everyone in the ring is still inside. */
  lemma OpWaitersInside(procs: seq<Proc>, procs': seq<Proc>, i: nat, m: Proc, cell: Cell, op: SemOp, c: Name)
    requires MovedAt(procs, procs', i, m) && m.pid == procs[i].pid && Sorted(procs)
    requires WaitersInside(procs, cell.waiters, c) && procs[i].pid !in cell.waiters
    requires op.OpP? ==> op.pid == m.pid && Level(m, c) == 1
    ensures WaitersInside(procs', CellAfter(cell, op).waiters, c)
  {
    MovedLevels(procs, procs', i, m, c);
    forall l | 0 <= l < |procs| && procs'[l].pid in CellAfter(cell, op).waiters
      ensures Level(procs'[l], c) == 1
    {
      assert l != i ==> SamePlace(procs[l], procs'[l]);
    }
  }

  /** The operation a dispatch completes is the one that the program's level records, unless it is stale. */
  lemma OpIsLevelChange(k: KState, region: seq<Instr>, c: Name, lost: int)
    requires Guarded(k, c, lost) && Enabled(k, Execute(region))
    ensures var p := k.procs[k.phase.slot];
      var m, op := Moved(p, region), OpOn(k, Execute(region), c);
      && m.prog == p.prog && m.pid == p.pid && m.last == p.last
      && Level(m, c) == Level(p, c) + (if StaleOp(k, Execute(region), c) then 0 else One(op.OpP?) - One(op.OpV?))
      && 0 <= Level(p, c) <= 1 && 0 <= Level(m, c) <= 1
      && (op.OpP? ==> op.pid == p.pid)
      && p.pid !in CellOf(k.sems, c).waiters
  {
    var p := k.procs[k.phase.slot];
    MovedLevel(p, region, c);
    RunningIsNotWaiting(k, c);
  }

  lemma RunningIsNotWaiting(k: KState, c: Name)
    requires Core(k) && k.phase.Chosen?
    ensures k.procs[k.phase.slot].pid !in CellOf(k.sems, c).waiters
  {
    if Declared(k.sems, c) {
      RingNeverFull(k, k.phase.slot, Find(k.sems, c).value);
    }
  }

  lemma ExecuteDeclared(k: KState, region: seq<Instr>, c: Name)
    requires Core(k) && Enabled(k, Execute(region)) && Declared(k.sems, c)
    ensures Declared(Apply(k, Execute(region)).sems, c)
  {
    EnteredBusy(k);
    StillDeclared(Entered(k, k.phase.slot), k.phase.slot, region, c);
  }

  /** An execution changes the account of who is inside exactly by a stale operation, if it is one. */
  lemma ExecuteAccount(k: KState, region: seq<Instr>, c: Name, lost: int)
    requires Guarded(k, c, lost) && Enabled(k, Execute(region)) && Apply(k, Execute(region)).health == Alive
    ensures var k' := Apply(k, Execute(region));
      CellOf(k'.sems, c).value + Levels(k'.procs, c) + lost
      == 1 + (if StaleOp(k, Execute(region), c) then Change(OpOn(k, Execute(region), c)) else 0)
    ensures Balanced(CellOf(Apply(k, Execute(region)).sems, c))
  {
    var s := Execute(region);
    var i := k.phase.slot;
    var cell, op := CellOf(k.sems, c), OpOn(k, s, c);
    StepCell(k, s, c);
    ExecuteEffect(k, region);
    OpIsLevelChange(k, region, c, lost);
    MovedLevels(k.procs, Apply(k, s).procs, i, Moved(k.procs[i], region), c);
    ValueRange(k, c, lost);
    OpBalanced(cell, op);
  }

  lemma ExecuteGuarded(k: KState, region: seq<Instr>, c: Name, lost: int)
    requires Guarded(k, c, lost) && Enabled(k, Execute(region)) && !StaleOp(k, Execute(region), c)
    requires Apply(k, Execute(region)).health == Alive
    ensures Guarded(Apply(k, Execute(region)), c, lost)
  {
    var s := Execute(region);
    var k', i := Apply(k, s), k.phase.slot;
    var m := Moved(k.procs[i], region);
    StepKeeps(k, s);
    StepCell(k, s, c);
    ExecuteAccount(k, region, c, lost);
    ExecuteEffect(k, region);
    OpIsLevelChange(k, region, c, lost);
    MovedPrograms(k.procs, k'.procs, i, m, k.sems, c);
    if Declared(k.sems, c) {
      ExecuteDeclared(k, region, c);
    }
    OpWaitersInside(k.procs, k'.procs, i, m, CellOf(k.sems, c), OpOn(k, s, c), c);
  }

  lemma OtherGuarded(k: KState, s: Step, c: Name, lost: int)
    requires Guarded(k, c, lost) && Enabled(k, s) && (s.Demote? || s.SelectNext? || s.DiskTick? || s.PrinterTick?)
    ensures Guarded(Apply(k, s), c, lost)
  {
    StepKeeps(k, s);
    OtherEffect(k, s);
    OtherLeavesSems(k, s);
    StepSames(k, Apply(k, s), c, lost);
  }

  lemma OtherLeavesSems(k: KState, s: Step)
    requires Core(k) && Enabled(k, s) && (s.Demote? || s.SelectNext? || s.DiskTick? || s.PrinterTick?)
    ensures Apply(k, s).health == Alive && Apply(k, s).sems == k.sems && Apply(k, s).lastPid == k.lastPid
  {
    if s.DiskTick? {
      DiskKeeps(k);
    }
  }

  /** Every step that dispatches no stale operation and does not stop the simulator keeps the guard. */
  lemma StepGuarded(k: KState, s: Step, c: Name, lost: int)
    requires Guarded(k, c, lost) && Enabled(k, s) && CreationFits(k, s, c) && !StaleOp(k, s, c)
    requires Apply(k, s).health == Alive
    ensures Guarded(Apply(k, s), c, lost + LostBy(k, s, c))
  {
    match s {
      case Create(prog, region) => CreateGuarded(k, prog, region, c, lost);
      case ReapKilled => ReapGuarded(k, c, lost);
      case Execute(region) => ExecuteGuarded(k, region, c, lost);
      case _ => OtherGuarded(k, s, c, lost);
    }
  }

  /** A step leaves the account right if and only if it dispatches no stale operation. */
  lemma StepInAccountIff(k: KState, s: Step, c: Name, lost: int)
    requires Guarded(k, c, lost) && Enabled(k, s) && CreationFits(k, s, c)
    requires Apply(k, s).health == Alive
    ensures InAccount(Apply(k, s), c, lost + LostBy(k, s, c)) <==> !StaleOp(k, s, c)
  {
    if StaleOp(k, s, c) {
      ExecuteAccount(k, s.region, c, lost);
    } else {
      StepGuarded(k, s, c, lost);
    }
  }

  // Whole runs

  ghost function LostIn(k: KState, steps: seq<Step>, c: Name): int
    requires Runs(k, steps)
    decreases |steps|
  {
    if steps == [] then 0 else LostBy(k, steps[0], c) + LostIn(Apply(k, steps[0]), steps[1..], c)
  }

  lemma {:induction false} RunGuarded(k: KState, steps: seq<Step>, c: Name, lost: int)
    requires Guarded(k, c, lost) && Runs(k, steps) && Run(k, steps).health == Alive
    requires CreationsFit(k, steps, c) && NoStaleOps(k, steps, c)
    ensures Guarded(Run(k, steps), c, lost + LostIn(k, steps, c))
    decreases |steps|
  {
    if steps != [] {
      StepGuarded(k, steps[0], c, lost);
      RunGuarded(Apply(k, steps[0]), steps[1..], c, lost + LostBy(k, steps[0], c));
    }
  }

  /** In every state of the run, the value, the levels and those lost to reaping make up 1. */
  ghost predicate AccountKept(k: KState, steps: seq<Step>, c: Name, lost: int)
    requires Runs(k, steps)
    decreases |steps|
  {
    && InAccount(k, c, lost)
    && (steps != [] ==> AccountKept(Apply(k, steps[0]), steps[1..], c, lost + LostBy(k, steps[0], c)))
  }

  /** The guard after the first step of a run, if that step dispatches no stale operation. */
  lemma FirstStepGuarded(k: KState, steps: seq<Step>, c: Name, lost: int) returns (k1: KState, lost1: int)
    requires Guarded(k, c, lost) && Runs(k, steps) && Run(k, steps).health == Alive && steps != []
    requires CreationFits(k, steps[0], c)
    ensures k1 == Apply(k, steps[0]) && lost1 == lost + LostBy(k, steps[0], c)
    ensures if StaleOp(k, steps[0], c) then !InAccount(k1, c, lost1) else Guarded(k1, c, lost1)
  {
    k1, lost1 := Apply(k, steps[0]), lost + LostBy(k, steps[0], c);
    if StaleOp(k, steps[0], c) {
      StepInAccountIff(k, steps[0], c, lost);
    } else {
      StepGuarded(k, steps[0], c, lost);
    }
  }

  lemma GuardedInAccount(k: KState, c: Name, lost: int)
    requires Guarded(k, c, lost)
    ensures InAccount(k, c, lost)
  {
  }

  /** The account is right up to the first stale operation of the run, and wrong right after it. */
  ghost predicate RightUntilStale(k: KState, steps: seq<Step>, c: Name, lost: int)
    requires Runs(k, steps)
    decreases |steps|
  {
    && InAccount(k, c, lost)
    && (steps != [] ==>
          var k1, lost1 := Apply(k, steps[0]), lost + LostBy(k, steps[0], c);
          if StaleOp(k, steps[0], c) then !InAccount(k1, c, lost1) else RightUntilStale(k1, steps[1..], c, lost1))
  }

  lemma {:induction false} RunRightUntilStale(k: KState, steps: seq<Step>, c: Name, lost: int)
    requires Guarded(k, c, lost) && Runs(k, steps) && Run(k, steps).health == Alive
    requires CreationsFit(k, steps, c)
    ensures RightUntilStale(k, steps, c, lost)
    decreases |steps|
  {
    GuardedInAccount(k, c, lost);
    if steps != [] {
      var k1, lost1 := FirstStepGuarded(k, steps, c, lost);
      if !StaleOp(k, steps[0], c) {
        RunRightUntilStale(k1, steps[1..], c, lost1);
      }
    }
  }

  lemma {:induction false} KeptIffClean(k: KState, steps: seq<Step>, c: Name, lost: int)
    requires Runs(k, steps) && RightUntilStale(k, steps, c, lost)
    ensures NoStaleOps(k, steps, c) <==> AccountKept(k, steps, c, lost)
    decreases |steps|
  {
    if steps != [] && !StaleOp(k, steps[0], c) {
      KeptIffClean(Apply(k, steps[0]), steps[1..], c, lost + LostBy(k, steps[0], c));
    }
  }

  /**
    Main result: with alternating programs, the semaphore accounts for everyone inside in every state of
    a run if and only if no dispatch reaches a stale command on it behind the end of a program.
  */
  lemma AccountIsKeptIff(k: KState, steps: seq<Step>, c: Name, lost: int)
    requires Guarded(k, c, lost) && Runs(k, steps) && Run(k, steps).health == Alive
    requires CreationsFit(k, steps, c)
    ensures NoStaleOps(k, steps, c) <==> AccountKept(k, steps, c, lost)
  {
    RunRightUntilStale(k, steps, c, lost);
    KeptIffClean(k, steps, c, lost);
  }

  lemma StartGuarded(c: Name)
    ensures Guarded(INIT, c, 0)
  {
    InitOk();
  }

  /**
    Mutual exclusion over whole runs: whatever the interleaving, in every state reached by processes
    that alternate P(c) and V(c), at most one is inside, and the value is in range, as long as no stale
    command on `c` is dispatched.
  */
  lemma MutualExclusionHolds(steps: seq<Step>, c: Name)
    requires Runs(INIT, steps) && Run(INIT, steps).health == Alive
    requires CreationsFit(INIT, steps, c) && NoStaleOps(INIT, steps, c)
    ensures var k := Run(INIT, steps);
      && (forall i, j :: 0 <= i < j < |k.procs| ==> !(InCritical(k, i, c) && InCritical(k, j, c)))
      && 1 - k.lastPid <= CellOf(k.sems, c).value <= 1
  {
    StartGuarded(c);
    RunGuarded(INIT, steps, c, 0);
    var k, lost := Run(INIT, steps), LostIn(INIT, steps, c);
    forall i, j | 0 <= i < j < |k.procs|
      ensures !(InCritical(k, i, c) && InCritical(k, j, c))
    {
      NeverTwoInside(k, c, lost, i, j);
    }
    ValueRange(k, c, lost);
  }
}
