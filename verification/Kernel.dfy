/**
  The simulated kernel as a state machine. The CPU thread goes round four phases (demote, reap,
  select, execute); creations, disk ticks and printer ticks happen between any two of its steps.
*/
module Kernel {
  import opened Common
  import opened Process
  import opened Scheduler
  import opened Semaphore
  import Disk
  import Printer

  /** Where the CPU thread is; `Chosen(i)` holds on to a table slot. */
  datatype Phase = Demoting | Reaping | Selecting | Chosen(slot: nat)

  /** The simulator exits on a request for a missing track, and would crash on a pid it cannot find. */
  datatype Health = Alive | DiskMiss | LostProcess

  datatype KState = KState(
    procs: seq<Proc>,
    curr: nat,
    lastPid: nat,
    sems: seq<Sem>,
    disk: Disk.DiskState,
    printer: Printer.PrinterState,
    phase: Phase,
    health: Health)

  const INIT: KState := KState([], 0, 0, [], Disk.DiskState([], 0), Printer.PrinterState([], None), Demoting, Alive)

  function FindPid(procs: seq<Proc>, pid: nat): (r: Option<nat>)
    ensures match r
      case Some(i) => i < |procs| && procs[i].pid == pid && forall l :: 0 <= l < i ==> procs[l].pid != pid
      case None => forall l :: 0 <= l < |procs| ==> procs[l].pid != pid
  {
    FindPidFrom(procs, pid, 0)
  }

  function FindPidFrom(procs: seq<Proc>, pid: nat, i: nat): (r: Option<nat>)
    requires i <= |procs|
    requires forall l :: 0 <= l < i ==> procs[l].pid != pid
    ensures match r
      case Some(j) => j < |procs| && procs[j].pid == pid && forall l :: 0 <= l < j ==> procs[l].pid != pid
      case None => forall l :: 0 <= l < |procs| ==> procs[l].pid != pid
    decreases |procs| - i
  {
    if i == |procs| then None else if procs[i].pid == pid then Some(i) else FindPidFrom(procs, pid, i + 1)
  }

  // Status changes by pid

  function SetStatus(k: KState, i: nat, status: Status): (r: KState)
    requires i < |k.procs|
    ensures |r.procs| == |k.procs| && r.lastPid == k.lastPid && r.curr == k.curr
  {
    k.(procs := k.procs[i := k.procs[i].(status := status)])
  }

  /** The process gives up the rest of its slice as well. */
  function Suspend(k: KState, pid: nat, status: Status): (r: KState)
    ensures |r.procs| == |k.procs| && r.lastPid == k.lastPid && r.curr == k.curr
  {
    match FindPid(k.procs, pid)
    case None => k.(health := LostProcess)
    case Some(i) => k.(procs := k.procs[i := k.procs[i].(status := status, timeToRun := 0)])
  }

  function MakeReady(k: KState, pid: nat): (r: KState)
    ensures |r.procs| == |k.procs| && r.lastPid == k.lastPid && r.curr == k.curr
  {
    match FindPid(k.procs, pid)
    case None => k.(health := LostProcess)
    case Some(i) => SetStatus(k, i, Ready)
  }

  /** A pid that is not in the table cannot be killed, and that is only logged. */
  function KillPid(k: KState, pid: nat): (r: KState)
    ensures |r.procs| == |k.procs| && r.lastPid == k.lastPid && r.curr == k.curr
  {
    match FindPid(k.procs, pid)
    case None => k
    case Some(i) => SetStatus(k, i, Kill)
  }

  // System calls

  function SemaphoreP(k: KState, c: Name, pid: nat): (r: KState)
    ensures |r.procs| == |k.procs| && r.lastPid == k.lastPid && r.curr == k.curr
  {
    match Find(k.sems, c)
    case None => k
    case Some(j) =>
      var s := Down(k.sems[j], pid);
      var k1 := k.(sems := k.sems[j := s]);
      if s.value < 0 then Suspend(k1, pid, Waiting) else k1
  }

  function SemaphoreV(k: KState, c: Name): (r: KState)
    ensures |r.procs| == |k.procs| && r.lastPid == k.lastPid && r.curr == k.curr
  {
    match Find(k.sems, c)
    case None => k
    case Some(j) =>
      var s := k.sems[j];
      var k1 := k.(sems := k.sems[j := Up(s)]);
      if s.waiters == [] then k1 else MakeReady(k1, s.waiters[0])
  }

  function DiskRequest(k: KState, pid: nat, track: nat): (r: KState)
    ensures |r.procs| == |k.procs| && r.lastPid == k.lastPid && r.curr == k.curr
  {
    var k1 := Suspend(k, pid, Blocked);
    if k1.health != Alive then k1
    else if track > Disk.TOTAL_TRACKS then k1.(health := DiskMiss)
    else k1.(disk := k1.disk.(queue := k1.disk.queue + [Disk.IoReq(pid, Disk.DISK_SLICE, track)]))
  }

  function PrintRequest(k: KState, pid: nat, time: nat): KState {
    k.(printer := Printer.Submit(k.printer, Printer.Job(time, pid)))
  }

  // Execution of the chosen process

  /** PC++ unless the machine has stopped. */
  function Advance(k: KState, i: nat): (r: KState)
    ensures |r.procs| == |k.procs| && r.lastPid == k.lastPid && r.curr == k.curr
  {
    if i < |k.procs| then k.(procs := k.procs[i := k.procs[i].(pc := k.procs[i].pc + 1)]) else k
  }

  /** An exec command: burst, accounting, possibly a reload, and PC only moves when no time is left. */
  function ExecBurst(k: KState, i: nat, region: seq<Instr>): (r: KState)
    requires i < |k.procs| && Fetch(k.procs[i]).ExecFor? && Fits(k.procs[i], region)
    ensures |r.procs| == |k.procs| && r.lastPid == k.lastPid && r.curr == k.curr
  {
    var p := k.procs[i];
    var r := RunBurst(p, region);
    var k1 := k.(procs := k.procs[i := r],
                 sems := if Burst(p) >= MAX_TIME_MORE_PAGES then DeclareAll(k.sems, p.prog.sems) else k.sems);
    if Fetch(r).ExecFor? && Fetch(r).time > 0 then k1 else Advance(k1, i)
  }

  /** The switch on the command at PC. */
  function Dispatch(k: KState, i: nat, region: seq<Instr>): (r: KState)
    requires i < |k.procs| && Fits(k.procs[i], region)
    ensures |r.procs| == |k.procs| && r.lastPid == k.lastPid && r.curr == k.curr
  {
    var p := k.procs[i];
    match Fetch(p)
    case SemP(c) => Advance(SemaphoreP(k, c, p.pid), i)
    case SemV(c) => Advance(SemaphoreV(k, c), i)
    case ExecFor(_) => ExecBurst(k, i, region)
    case DiskOp(track) =>
      var k1 := k.(procs := k.procs[i := p.(rwCount := p.rwCount + 1)]);
      Advance(DiskRequest(k1, p.pid, track), i)
    case PrintFor(time) => Advance(PrintRequest(k, p.pid, time), i)
    case Unknown => Advance(k, i)
  }

  /**
    `exec_process`. Killing a process that has reached its last slot is not followed by a return:
    whatever that slot decodes to is dispatched as well.
  */
  function ExecProcess(k: KState, i: nat, region: seq<Instr>): (r: KState)
    requires i < |k.procs| && Fits(k.procs[i], region)
    ensures |r.procs| == |k.procs| && r.lastPid == k.lastPid && r.curr == k.curr
  {
    var p := k.procs[i];
    if p.timeToRun == 0 then k
    else if p.pc == p.last then Dispatch(KillPid(k, p.pid), i, region)
    else Dispatch(k, i, region)
  }

  // Steps

  datatype Step =
    | Create(prog: Program, region: seq<Instr>)
    | Demote
    | ReapKilled
    | SelectNext
    | Execute(region: seq<Instr>)
    | DiskTick
    | PrinterTick

  /**
    Creations are only taken up to the first reap (or when the table is full, and nothing happens);
    the memory a program is loaded into must hold it. CPU steps follow their cycle.
  */
  ghost predicate Enabled(k: KState, s: Step) {
    && k.health == Alive
    && match s
       case Create(prog, region) => |prog.body| <= |region| && (k.curr == |k.procs| || k.curr >= Disk.MAX_PCB - 1)
       case Demote => k.phase == Demoting
       case ReapKilled => k.phase == Reaping
       case SelectNext => k.phase == Selecting
       case Execute(region) =>
         k.phase.Chosen? && k.phase.slot < |k.procs| && Fits(k.procs[k.phase.slot], region)
       case DiskTick => true
       case PrinterTick => true
  }

  function CreateProcess(k: KState, prog: Program, region: seq<Instr>): KState
    requires |prog.body| <= |region|
  {
    if k.curr >= Disk.MAX_PCB - 1 then k
    else
      k.(procs := k.procs + [NewProc(k.lastPid, prog, region)],
         curr := k.curr + 1,
         lastPid := k.lastPid + 1,
         sems := DeclareAll(k.sems, prog.sems))
  }

  function SelectProcess(k: KState): KState {
    match Select(k.procs)
    case None => k.(phase := Demoting)
    case Some(i) =>
      k.(procs := k.procs[i := k.procs[i].(status := Running, timeToRun := TIME_SLICE)], phase := Chosen(i))
  }

  function DiskStep(k: KState): KState {
    var t := Disk.Tick(k.disk);
    var k1 := k.(disk := t.state);
    match t.finished
    case None => k1
    case Some(pid) => MakeReady(k1, pid)
  }

  function Apply(k: KState, s: Step): KState
    requires Enabled(k, s)
  {
    match s
    case Create(prog, region) => CreateProcess(k, prog, region)
    case Demote => k.(procs := NoRunning(k.procs), phase := Reaping)
    case ReapKilled => k.(procs := Reap(k.procs), phase := Selecting)
    case SelectNext => SelectProcess(k)
    case Execute(region) => ExecProcess(k, k.phase.slot, region).(phase := Demoting)
    case DiskTick => DiskStep(k)
    case PrinterTick => k.(printer := Printer.Tick(k.printer).state)
  }

  // Runs

  ghost predicate Runs(k: KState, steps: seq<Step>)
    decreases |steps|
  {
    steps != [] ==> Enabled(k, steps[0]) && Runs(Apply(k, steps[0]), steps[1..])
  }

  ghost function Run(k: KState, steps: seq<Step>): KState
    requires Runs(k, steps)
    decreases |steps|
  {
    if steps == [] then k else Run(Apply(k, steps[0]), steps[1..])
  }
}
