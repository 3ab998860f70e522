/**
  The simulator: process table, semaphores, disk and printer, driven by the routines of the CPU, disk
  and printer threads. Every routine is tied to the corresponding step of the kernel's state machine.
*/
module Machine {
  import opened Common
  import opened Process
  import opened Scheduler
  import opened Semaphore
  import opened SemaphoreList
  import opened ProcessTable
  import opened Kernel
  import opened KernelInvariant
  import opened SemaphoreRuns
  import RoundRobin
  import Disk
  import Printer

  class App {
    const pcb: Pcb
    const sems: SemList
    const disk: Disk.DiskDrive
    const printer: Printer.Spooler
    var health: Health
    ghost var phase: Phase

    ghost predicate Wired()
      reads this, pcb, pcb.processStack, sems, sems.l, disk, printer, printer.nodes
    {
      pcb.Valid() && sems.Valid() && disk.Valid() && printer.Valid()
    }

    ghost function State(): KState
      requires Wired()
      reads this, pcb, pcb.processStack, sems, sems.l, SemaphoreList.Rings(sems.l),
            disk, disk.queue, printer, printer.nodes, printer.buffer
    {
      KState(pcb.Procs(), pcb.curr, pcb.lastPid, sems.List(), disk.State(), printer.State(), phase, health)
    }

    constructor ()
      ensures Wired() && State() == INIT
    {
      pcb := new Pcb();
      sems := new SemList();
      disk := new Disk.DiskDrive();
      printer := new Printer.Spooler();
      health, phase := Alive, Demoting;
    }

    /** Moves the CPU thread's position on. */
    ghost method Goto(p: Phase)
      requires Wired()
      modifies this`phase
      ensures Wired() && State() == old(State()).(phase := p)
    {
      phase := p;
    }

    // Changes to one part leave the others alone

    method PSuspend(pid: nat, status: Status)
      requires Wired() && FindPid(State().procs, pid).Some?
      modifies pcb.processStack
      ensures Wired() && State() == Suspend(old(State()), pid, status)
    {
      pcb.PSuspend(pid, status);
    }

    method PUnblock(pid: nat)
      requires Wired() && FindPid(State().procs, pid).Some?
      modifies pcb.processStack
      ensures Wired() && State() == MakeReady(old(State()), pid)
    {
      pcb.PUnblock(pid);
    }

    method PKill(pid: nat)
      requires Wired() && FindPid(State().procs, pid).Some?
      modifies pcb.processStack
      ensures Wired() && State() == KillPid(old(State()), pid)
    {
      pcb.PKill(pid);
    }

    method SetSlot(i: nat, p: Proc)
      requires Wired() && i < pcb.last
      modifies pcb.processStack
      ensures Wired() && State() == old(State()).(procs := old(State()).procs[i := p])
    {
      pcb.SetSlot(i, p);
    }

    method DecrementAt(j: nat, pid: nat) returns (wait: bool)
      requires Wired() && j < |sems.l|
      modifies sems.l[j], sems.l[j].waiters
      ensures Wired()
      ensures var down := Down(old(State()).sems[j], pid);
        wait == (down.value < 0) && State() == old(State()).(sems := old(State()).sems[j := down])
    {
      ghost var k := State();
      wait := sems.DecrementAt(j, pid);
      assert sems.List() == k.sems[j := Down(k.sems[j], pid)];
      assert disk.State() == k.disk && printer.State() == k.printer;
    }

    method IncrementAt(j: nat) returns (waking: Option<nat>)
      requires Wired() && j < |sems.l|
      modifies sems.l[j]
      ensures Wired()
      ensures var before := old(State()).sems[j];
        && waking == (if before.waiters == [] then None else Some(before.waiters[0]))
        && State() == old(State()).(sems := old(State()).sems[j := Up(before)])
    {
      ghost var k := State();
      waking := sems.IncrementAt(j);
      assert sems.List() == k.sems[j := Up(k.sems[j])];
      assert disk.State() == k.disk && printer.State() == k.printer;
    }

    method ReadHeader(names: seq<Name>)
      requires Wired()
      modifies sems
      ensures Wired() && State() == old(State()).(sems := DeclareAll(old(State()).sems, names))
      ensures old(sems.l) <= sems.l
    {
      sems.ReadHeader(names);
    }

    method SimulateIo(pid: nat, track: nat) returns (ok: bool)
      requires Wired() && |State().disk.queue| < Disk.MAX_PCB
      modifies disk, disk.queue
      ensures Wired() && ok == (track <= Disk.TOTAL_TRACKS)
      ensures var d := old(State()).disk;
        State() == old(State()).(disk := if ok then d.(queue := d.queue + [Disk.IoReq(pid, Disk.DISK_SLICE, track)]) else d)
    {
      ok := disk.SimulateIo(pid, track);
    }

    method Halt()
      requires Wired()
      modifies this`health
      ensures Wired() && State() == old(State()).(health := DiskMiss)
    {
      health := DiskMiss;
    }

    // System calls

    /** The caller must be in the table if it has to wait. */
    method SemaphoreP(c: Name, pid: nat)
      requires Wired()
      requires var j := Find(State().sems, c);
        j.Some? && Down(State().sems[j.value], pid).value < 0 ==> FindPid(State().procs, pid).Some?
      modifies pcb.processStack, sems.l, SemaphoreList.Rings(sems.l)
      ensures Wired() && State() == Kernel.SemaphoreP(old(State()), c, pid)
    {
      ghost var k := State();
      var r := sems.GetSemaphoreByName(c);
      assert State() == k;
      if r.Some? {
        var wait := DecrementAt(r.value, pid);
        if wait {
          PSuspend(pid, Waiting);
        }
      }
    }

    method SemaphoreV(c: Name)
      requires Wired()
      requires forall j :: 0 <= j < |State().sems| && State().sems[j].waiters != [] ==>
        FindPid(State().procs, State().sems[j].waiters[0]).Some?
      modifies pcb.processStack, sems.l, SemaphoreList.Rings(sems.l)
      ensures Wired() && State() == Kernel.SemaphoreV(old(State()), c)
    {
      ghost var k := State();
      var r := sems.GetSemaphoreByName(c);
      assert State() == k;
      if r.Some? {
        assert k.sems[r.value].waiters != [] ==> FindPid(k.procs, k.sems[r.value].waiters[0]).Some?;
        var waking := IncrementAt(r.value);
        if waking.Some? {
          PUnblock(waking.value);
        }
      }
    }

    method DiskRequest(pid: nat, track: nat)
      requires Wired() && FindPid(State().procs, pid).Some? && health == Alive
      requires |State().disk.queue| < Disk.MAX_PCB
      modifies this`health, pcb.processStack, disk, disk.queue
      ensures Wired() && State() == Kernel.DiskRequest(old(State()), pid, track)
    {
      PSuspend(pid, Blocked);
      var ok := SimulateIo(pid, track);
      if !ok {
        Halt();
      }
    }

    method PrintRequest(pid: nat, time: nat)
      requires Wired()
      modifies printer, printer.nodes
      ensures Wired() && State() == Kernel.PrintRequest(old(State()), pid, time)
    {
      printer.AddToPrintQueue(time, pid);
    }

    // Execution

    /** PC++ */
    method Advance(i: nat)
      requires Wired() && i < pcb.last
      modifies pcb.processStack
      ensures Wired() && State() == Kernel.Advance(old(State()), i)
    {
      SetSlot(i, pcb.processStack[i].(pc := pcb.processStack[i].pc + 1));
    }

    /** Sleeps through the burst, one millisecond at a time. */
    method SleepWithTime(ms: u32, ts: u32) returns (r: u32)
      requires ms <= ts
      ensures r == ts - ms
    {
      r := ts;
      var i := 0;
      while i < ms
        invariant 0 <= i <= ms && r == ts - i
      {
        r := r - 1;
        i := i + 1;
      }
    }

    /** The burst of an exec command and its accounting, on a copy of the slot. */
    method Burst(p: Proc) returns (r: Proc, l: u32)
      requires Fetch(p).ExecFor?
      ensures r == Charged(p) && l == Process.Burst(p)
    {
      var time := Fetch(p).time;
      r := p;
      if time < TIME_SLICE {
        r := r.(timeToRun := time);
      }
      l := r.timeToRun;
      var left := SleepWithTime(l, r.timeToRun);
      r := r.(timeToRun := left, hUsed := (r.hUsed + 1) % 256);
      r := r.(code := r.code[r.pc := ExecFor(Sub32(time, l))]);
    }

    /** The burst together with the reload that a full slice brings on. */
    method BurstAndReload(p: Proc, region: seq<Instr>) returns (r: Proc, l: u32)
      requires Fetch(p).ExecFor? && Fits(p, region)
      ensures r == RunBurst(p, region) && l == Process.Burst(p)
    {
      r, l := Burst(p);
      if l >= MAX_TIME_MORE_PAGES {
        r := Realloc(r, region);
      }
    }

    /** Writes the slot back; PC only moves when no time is left. */
    method StoreBurst(i: nat, p: Proc)
      requires Wired() && i < pcb.last
      modifies pcb.processStack
      ensures Wired()
      ensures var k := old(State()).(procs := old(State()).procs[i := p]);
        State() == if Fetch(p).ExecFor? && Fetch(p).time > 0 then k else Kernel.Advance(k, i)
    {
      SetSlot(i, p);
      if !(Fetch(p).ExecFor? && Fetch(p).time > 0) {
        Advance(i);
      }
    }

    /** A reload reads the program's header again. */
    method FinishBurst(i: nat, r: Proc, reloaded: bool)
      requires Wired() && i < pcb.last
      modifies pcb.processStack, sems
      ensures Wired() && State() == AfterBurst(old(State()), i, r, reloaded)
    {
      if reloaded {
        ReadHeader(r.prog.sems);
      }
      StoreBurst(i, r);
    }

    method ExecBurst(i: nat, region: seq<Instr>)
      requires Wired() && i < pcb.last
      requires Fetch(State().procs[i]).ExecFor? && Fits(State().procs[i], region)
      modifies pcb.processStack, sems
      ensures Wired() && State() == Kernel.ExecBurst(old(State()), i, region)
    {
      ghost var k := State();
      assert k.procs[i] == pcb.processStack[i];
      var r, l := BurstAndReload(pcb.processStack[i], region);
      BurstInParts(k, i, region, r, l);
      assert State() == k;
      FinishBurst(i, r, l >= MAX_TIME_MORE_PAGES);
    }

    method CountRequest(i: nat)
      requires Wired() && i < pcb.last
      modifies pcb.processStack
      ensures Wired() && State() == Counted(old(State()), i)
    {
      SetSlot(i, pcb.processStack[i].(rwCount := pcb.processStack[i].rwCount + 1));
    }

    /** The command at PC asks for the disk: counted, requested, and passed. */
    method CountedDiskRequest(i: nat, pid: nat, track: nat, ghost k: KState)
      requires Wired() && State() == k && health == Alive && i < pcb.last && State().procs[i].pid == pid
      requires Sorted(State().procs) && |State().disk.queue| < Disk.MAX_PCB
      modifies this`health, pcb.processStack, disk, disk.queue
      ensures Wired()
      ensures State() == Kernel.Advance(Kernel.DiskRequest(Counted(k, i), pid, track), i)
    {
      CountRequest(i);
      FindPidSorted(State().procs, i);
      DiskRequest(pid, track);
      Advance(i);
    }

    method DispatchSemaphore(i: nat, region: seq<Instr>)
      requires Wired() && Busy(State(), i) && Fits(State().procs[i], region)
      requires Fetch(State().procs[i]).SemP? || Fetch(State().procs[i]).SemV?
      modifies pcb.processStack, sems.l, SemaphoreList.Rings(sems.l)
      ensures Wired() && State() == Kernel.Dispatch(old(State()), i, region)
    {
      ghost var k := State();
      BusyCalls(k, i);
      var p := pcb.processStack[i];
      assert p == k.procs[i];
      var c := Fetch(p);
      if c.SemP? {
        SemaphoreP(c.sem, p.pid);
      } else {
        SemaphoreV(c.sem);
      }
      Advance(i);
    }

    method DispatchPrint(i: nat, region: seq<Instr>)
      requires Wired() && Busy(State(), i) && Fits(State().procs[i], region)
      requires Fetch(State().procs[i]).PrintFor?
      modifies pcb.processStack, printer, printer.nodes
      ensures Wired() && State() == Kernel.Dispatch(old(State()), i, region)
    {
      ghost var k := State();
      var p := pcb.processStack[i];
      assert p == k.procs[i];
      PrintAndAdvance(i, p.pid, Fetch(p).time);
      PrintDispatchInParts(k, i, region);
    }

    method PrintAndAdvance(i: nat, pid: nat, time: nat)
      requires Wired() && i < pcb.last
      modifies pcb.processStack, printer, printer.nodes
      ensures Wired() && State() == Kernel.Advance(Kernel.PrintRequest(old(State()), pid, time), i)
    {
      PrintRequest(pid, time);
      Advance(i);
    }

    method DispatchDisk(i: nat, region: seq<Instr>)
      requires Wired() && Busy(State(), i) && Fits(State().procs[i], region)
      requires Fetch(State().procs[i]).DiskOp?
      modifies this`health, pcb.processStack, disk, disk.queue
      ensures Wired() && State() == Kernel.Dispatch(old(State()), i, region)
    {
      ghost var k := State();
      BusyCalls(k, i);
      DiskDispatchInParts(k, i, region);
      var p := pcb.processStack[i];
      assert p == k.procs[i] && State() == k;
      CountedDiskRequest(i, p.pid, Fetch(p).track, k);
    }

    /** The switch on the command at PC. */
    method Dispatch(i: nat, region: seq<Instr>)
      requires Wired() && Busy(State(), i) && Fits(State().procs[i], region)
      modifies this`health, pcb.processStack, sems, sems.l, SemaphoreList.Rings(sems.l),
               disk, disk.queue, printer, printer.nodes
      ensures Wired() && State() == Kernel.Dispatch(old(State()), i, region)
    {
      assert pcb.processStack[i] == State().procs[i];
      match Fetch(pcb.processStack[i]) {
        case SemP(_) => DispatchSemaphore(i, region);
        case SemV(_) => DispatchSemaphore(i, region);
        case ExecFor(_) => ExecBurst(i, region);
        case DiskOp(_) => DispatchDisk(i, region);
        case PrintFor(_) => DispatchPrint(i, region);
        case Unknown => Advance(i);
      }
    }

    /** No return after the kill: the slot at the end is dispatched too. */
    method ExecProcess(i: nat, region: seq<Instr>)
      requires Valid() && phase == Chosen(i) && Fits(State().procs[i], region)
      modifies this`health, pcb.processStack, sems, sems.l, SemaphoreList.Rings(sems.l),
               disk, disk.queue, printer, printer.nodes
      ensures Wired() && State() == Kernel.ExecProcess(old(State()), i, region)
    {
      ExecIsDispatch(State(), i, region);
      KillAtEnd(i);
      Dispatch(i, region);
    }

    method KillAtEnd(i: nat)
      requires Wired() && i < pcb.last && FindPid(State().procs, State().procs[i].pid).Some?
      modifies pcb.processStack
      ensures Wired() && State() == Entered(old(State()), i)
    {
      ghost var k := State();
      var p := pcb.processStack[i];
      assert p == k.procs[i];
      if p.pc == p.last {
        PKill(p.pid);
      }
    }

    // The threads

    /** Between any two steps the kernel invariant holds. */
    ghost predicate Valid()
      reads this, pcb, pcb.processStack, sems, sems.l, SemaphoreList.Rings(sems.l),
            disk, disk.queue, printer, printer.nodes, printer.buffer
    {
      Wired() && Core(State())
    }

    method CpuDemote()
      requires Valid() && phase == Demoting
      modifies this`phase, pcb.processStack
      ensures Valid() && State() == Apply(old(State()), Demote)
    {
      ghost var k' := NextState(State(), Demote);
      DemoteTable();
      Goto(Reaping);
    }

    method DemoteTable()
      requires Wired()
      modifies pcb.processStack
      ensures Wired() && State() == old(State()).(procs := NoRunning(old(State()).procs))
    {
      pcb.SchedulerNoRunning();
    }

    method ReapTable()
      requires Wired()
      modifies pcb.processStack, pcb`last
      ensures Wired() && State() == old(State()).(procs := Reap(old(State()).procs))
    {
      pcb.SchedulerKillProcess();
    }

    method CpuReap()
      requires Valid() && phase == Reaping
      modifies this`phase, pcb.processStack, pcb`last
      ensures Valid() && State() == Apply(old(State()), ReapKilled)
    {
      ghost var k' := NextState(State(), ReapKilled);
      ReapTable();
      Goto(Selecting);
    }

    method SelectInTable() returns (selected: Option<nat>)
      requires Wired()
      modifies pcb.processStack
      ensures Wired() && selected == Select(old(State()).procs)
      ensures State() == match selected
        case None => old(State())
        case Some(i) =>
          var k := old(State());
          k.(procs := k.procs[i := k.procs[i].(status := Running, timeToRun := TIME_SLICE)])
    {
      selected := pcb.SchedulerGetProcess();
    }

    method SelectAndMoveOn() returns (selected: Option<nat>)
      requires Wired()
      modifies this`phase, pcb.processStack
      ensures Wired() && selected == Select(old(State()).procs) && State() == SelectProcess(old(State()))
    {
      selected := SelectInTable();
      if selected.Some? {
        Goto(Chosen(selected.value));
      } else {
        Goto(Demoting);
      }
    }

    method CpuSelect() returns (selected: Option<nat>)
      requires Valid() && phase == Selecting
      modifies this`phase, pcb.processStack
      ensures Valid() && State() == Apply(old(State()), SelectNext)
      ensures selected == Select(old(State()).procs)
    {
      ghost var k' := NextState(State(), SelectNext);
      selected := SelectAndMoveOn();
    }

    method CpuExecute(i: nat, region: seq<Instr>)
      requires Valid() && phase == Chosen(i) && Fits(State().procs[i], region)
      modifies this`health, this`phase, pcb.processStack, sems, sems.l, SemaphoreList.Rings(sems.l),
               disk, disk.queue, printer, printer.nodes
      ensures Wired() && State() == Apply(old(State()), Execute(region))
      ensures health == Alive ==> Valid()
    {
      ghost var k := State();
      ExecProcess(i, region);
      Goto(Demoting);
      StepKeeps(k, Execute(region));
    }

    /**
      One iteration of the CPU thread with nothing in between; `region` is the memory that a reload of
      the process about to run would be given.
    */
    method CpuLoopIteration(region: seq<Instr>)
      requires Valid() && phase == Demoting
      requires var s := RoundRobin.Selected(State());
        s.phase.Chosen? && s.phase.slot < |s.procs| ==> Fits(s.procs[s.phase.slot], region)
      modifies this`health, this`phase, pcb.processStack, pcb`last, sems, sems.l, SemaphoreList.Rings(sems.l),
               disk, disk.queue, printer, printer.nodes
      ensures Wired() && State() == RoundRobin.CpuTick(old(State()), region)
      ensures health == Alive ==> Valid()
    {
      ghost var k := State();
      SelectedCore(k);
      var selected := PickNext();
      if selected.Some? {
        StepKeeps(RoundRobin.Selected(k), Execute(region));
        ExecProcess(selected.value, region);
        Goto(Demoting);
      }
    }

    /** Demotes, reaps and selects. */
    method PickNext() returns (selected: Option<nat>)
      requires Wired()
      modifies this`phase, pcb.processStack, pcb`last
      ensures Wired() && State() == RoundRobin.Selected(old(State()))
      ensures selected == Select(RoundRobin.Offered(old(State())))
    {
      DemoteTable();
      ReapTable();
      Goto(Selecting);
      selected := SelectAndMoveOn();
    }

    method DiskThreadTick()
      requires Valid()
      modifies pcb.processStack, disk, disk.queue
      ensures Valid() && State() == Apply(old(State()), DiskTick)
    {
      ghost var k' := NextState(State(), DiskTick);
      DiskBase(State());
      TickAndWake();
    }

    method TickAndWake()
      requires Wired()
      requires var t := Disk.Tick(State().disk).finished;
        t.Some? ==> FindPid(State().procs, t.value).Some?
      modifies pcb.processStack, disk, disk.queue
      ensures Wired() && State() == DiskStep(old(State()))
    {
      var finished := TickDisk();
      if finished.Some? {
        PUnblock(finished.value);
      }
    }

    method TickDisk() returns (finished: Option<nat>)
      requires Wired()
      modifies disk, disk.queue
      ensures Wired()
      ensures var t := Disk.Tick(old(State()).disk);
        finished == t.finished && State() == old(State()).(disk := t.state)
    {
      finished := disk.DiskLoopTick();
    }

    method PrinterThreadTick()
      requires Valid()
      modifies printer, printer.buffer
      ensures Valid() && State() == Apply(old(State()), PrinterTick)
    {
      ghost var k := State();
      TickPrinter();
      StepKeeps(k, PrinterTick);
    }

    method TickPrinter()
      requires Wired()
      modifies printer, printer.buffer
      ensures Wired() && State() == old(State()).(printer := Printer.Tick(old(State()).printer).state)
    {
      var done := printer.PrinterLoopTick();
    }

    /** Creation, before anything has been reaped; a full table takes no more. */
    method PCreate(prog: Program, region: seq<Instr>) returns (pid: Option<nat>)
      requires Valid() && |prog.body| <= |region|
      requires pcb.curr == pcb.last || pcb.curr >= Disk.MAX_PCB - 1
      modifies pcb, pcb.processStack, sems
      ensures Valid() && State() == Apply(old(State()), Create(prog, region))
      ensures pid == if old(pcb.curr) >= Disk.MAX_PCB - 1 then None else Some(old(pcb.lastPid))
    {
      ghost var k' := NextState(State(), Create(prog, region));
      pid := CreateInTable(prog, region);
    }

    method CreateInTable(prog: Program, region: seq<Instr>) returns (pid: Option<nat>)
      requires Wired() && |prog.body| <= |region|
      requires pcb.curr == pcb.last || pcb.curr >= Disk.MAX_PCB - 1
      modifies pcb, pcb.processStack, sems
      ensures Wired() && State() == CreateProcess(old(State()), prog, region)
      ensures pid == if old(pcb.curr) >= Disk.MAX_PCB - 1 then None else Some(old(pcb.lastPid))
    {
      if pcb.curr >= Disk.MAX_PCB - 1 {
        return None;
      }
      ghost var k := State();
      ReadHeader(prog.sems);
      assert State() == k.(sems := DeclareAll(k.sems, prog.sems));
      var created := InsertProcess(prog, region);
      return Some(created);
    }

    method InsertProcess(prog: Program, region: seq<Instr>) returns (pid: nat)
      requires Wired() && pcb.curr == pcb.last < Disk.MAX_PCB - 1 && |prog.body| <= |region|
      modifies pcb, pcb.processStack
      ensures Wired() && pid == old(pcb.lastPid)
      ensures var k := old(State());
        State() == k.(procs := k.procs + [NewProc(k.lastPid, prog, region)], curr := k.curr + 1, lastPid := k.lastPid + 1)
    {
      pid := pcb.Insert(prog, region);
    }
  }

  /** The state that a step is going to reach. */
  lemma NextState(k: KState, s: Step) returns (k': KState)
    requires Core(k) && Enabled(k, s) && !s.Execute?
    ensures k' == Apply(k, s) && Core(k')
  {
    match s {
      case Create(prog, region) => CreateKeeps(k, prog, region);
      case Demote => DemoteKeeps(k);
      case ReapKilled => ReapKeeps(k);
      case SelectNext => SelectKeeps(k);
      case DiskTick => DiskKeeps(k);
      case PrinterTick =>
    }
    k' := Apply(k, s);
  }

  lemma SelectedCore(k: KState)
    requires Core(k) && k.phase == Demoting
    ensures Core(RoundRobin.Selected(k))
    ensures RoundRobin.Selected(k).phase ==
      match Select(RoundRobin.Offered(k)) case None => Demoting case Some(i) => Chosen(i)
  {
    var demoted := k.(procs := NoRunning(k.procs), phase := Reaping);
    DemoteKeeps(k);
    ReapKeeps(demoted);
    SelectKeeps(demoted.(procs := Reap(demoted.procs), phase := Selecting));
  }

  lemma ExecIsDispatch(k: KState, i: nat, region: seq<Instr>)
    requires Core(k) && k.phase == Chosen(i) && Fits(k.procs[i], region)
    ensures FindPid(k.procs, k.procs[i].pid) == Some(i)
    ensures var e := Entered(k, i);
      Busy(e, i) && Fits(e.procs[i], region) && Kernel.ExecProcess(k, i, region) == Kernel.Dispatch(e, i, region)
  {
    EnteredBusy(k);
    FindPidSorted(k.procs, i);
  }

  /** While slot `i` is executing, every process a system call can name is in the table. */
  lemma BusyCalls(k: KState, i: nat)
    requires Busy(k, i)
    ensures FindPid(k.procs, k.procs[i].pid) == Some(i)
    ensures forall j :: 0 <= j < |k.sems| && k.sems[j].waiters != [] ==> FindPid(k.procs, k.sems[j].waiters[0]).Some?
    ensures |k.disk.queue| + 1 < Disk.MAX_PCB
  {
    FindPidSorted(k.procs, i);
    DiskQueueNeverOverflows(k, i);
    forall j | 0 <= j < |k.sems| && k.sems[j].waiters != []
      ensures FindPid(k.procs, k.sems[j].waiters[0]).Some?
    {
      RingPidsLive(k, j, k.sems[j].waiters[0]);
    }
  }

  /** The kernel after the slot has become `r`. */
  function AfterBurst(k: KState, i: nat, r: Proc, reloaded: bool): KState
    requires i < |k.procs|
  {
    var k1 := k.(procs := k.procs[i := r], sems := if reloaded then DeclareAll(k.sems, r.prog.sems) else k.sems);
    if Fetch(r).ExecFor? && Fetch(r).time > 0 then k1 else Kernel.Advance(k1, i)
  }

  lemma BurstInParts(k: KState, i: nat, region: seq<Instr>, r: Proc, l: u32)
    requires i < |k.procs| && Fetch(k.procs[i]).ExecFor? && Fits(k.procs[i], region)
    requires r == RunBurst(k.procs[i], region) && l == Process.Burst(k.procs[i])
    ensures Kernel.ExecBurst(k, i, region) == AfterBurst(k, i, r, l >= MAX_TIME_MORE_PAGES)
  {
  }

  /** One more disk operation for the process in slot `i`. */
  function Counted(k: KState, i: nat): KState
    requires i < |k.procs|
  {
    k.(procs := k.procs[i := k.procs[i].(rwCount := k.procs[i].rwCount + 1)])
  }

  lemma PrintDispatchInParts(k: KState, i: nat, region: seq<Instr>)
    requires i < |k.procs| && Fits(k.procs[i], region) && Fetch(k.procs[i]).PrintFor?
    ensures Kernel.Dispatch(k, i, region) ==
      Kernel.Advance(Kernel.PrintRequest(k, k.procs[i].pid, Fetch(k.procs[i]).time), i)
  {
  }

  lemma DiskDispatchInParts(k: KState, i: nat, region: seq<Instr>)
    requires i < |k.procs| && Fits(k.procs[i], region) && Fetch(k.procs[i]).DiskOp?
    ensures var p := k.procs[i];
      Kernel.Dispatch(k, i, region) == Kernel.Advance(Kernel.DiskRequest(Counted(k, i), p.pid, Fetch(p).track), i)
  {
  }
}
