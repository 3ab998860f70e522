/** What each step of the kernel leaves behind, spelled out field by field. */
module Commands {
  import opened Common
  import opened Process
  import opened Scheduler
  import opened Semaphore
  import opened Kernel
  import opened KernelInvariant
  import opened SemaphoreRuns
  import opened KernelResults
  import Disk
  import Printer

  /** The command at PC. */
  ghost predicate At(k: KState, c: Instr) {
    && k.phase.Chosen? && k.phase.slot < |k.procs|
    && var p := k.procs[k.phase.slot];
       p.pc < |p.code| && p.code[p.pc] == c
  }

  /** The process that is executed, marked killed already if it is at its last slot. */
  function Executing(k: KState): Proc
    requires k.phase.Chosen? && k.phase.slot < |k.procs|
  {
    var p := k.procs[k.phase.slot];
    if p.pc == p.last then p.(status := Kill) else p
  }

  /** The slot being executed has become `p`, and the CPU thread goes round again; nothing else has changed. */
  function Resumed(k: KState, p: Proc): KState
    requires k.phase.Chosen? && k.phase.slot < |k.procs|
  {
    k.(procs := k.procs[k.phase.slot := p], phase := Demoting)
  }

  lemma ExecutedIs(k: KState, region: seq<Instr>) returns (e: KState)
    requires Core(k) && Enabled(k, Execute(region))
    ensures e == k.(procs := k.procs[k.phase.slot := Executing(k)]) && Busy(e, k.phase.slot)
    ensures Fits(Executing(k), region)
    ensures Apply(k, Execute(region)) == Dispatch(e, k.phase.slot, region).(phase := Demoting)
  {
    EnteredBusy(k);
    e := Entered(k, k.phase.slot);
  }

  /**
    An exec: one use counted, no slice left, the burst taken off the command, and PC only moves when nothing
    is left. A full slice brings on a reload: rw_count 0, the file's commands back in their slots and
    whatever the new block holds behind them. No semaphore, request or print job is touched.
  */
  lemma ExecIs(k: KState, region: seq<Instr>, time: u32)
    requires Core(k) && Enabled(k, Execute(region)) && At(k, ExecFor(time))
    ensures var k', p := Apply(k, Execute(region)), k.procs[k.phase.slot];
      && |k'.procs| == |k.procs|
      && var p' := k'.procs[k.phase.slot];
      && k' == Resumed(k, p')
      && p' == Executing(k).(timeToRun := 0, hUsed := (p.hUsed + 1) % 256, rwCount := if time >= 1000 then 0 else p.rwCount,
                             pc := if time > 1000 then p.pc else p.pc + 1, code := p'.code)
      && |p'.code| == (if time >= 1000 then |region| else |p.code|) && p.pc < |p'.code|
      && p'.code[p.pc] == ExecFor(if time > 1000 then time - 1000 else 0)
      && forall j :: 0 <= j < |p'.code| && j != p.pc ==>
           p'.code[j] == if time < 1000 then p.code[j] else if j < |p.prog.body| then p.prog.body[j] else region[j]
  {
    var e := ExecutedIs(k, region);
    var i := k.phase.slot;
    RedeclarationChangesNothing(e.sems, e.procs[i].prog.sems);
    ExecProcIs(e.procs[i], region, time);
  }

  lemma ExecProcIs(p: Proc, region: seq<Instr>, time: u32)
    requires Fits(p, region) && p.pc < |p.code| && p.code[p.pc] == ExecFor(time) && p.timeToRun == TIME_SLICE
    ensures var r := RunBurst(p, region);
      && r == p.(timeToRun := 0, hUsed := (p.hUsed + 1) % 256, rwCount := if time >= 1000 then 0 else p.rwCount, code := r.code)
      && |r.code| == (if time >= 1000 then |region| else |p.code|) && p.pc < |r.code|
      && r.code[p.pc] == ExecFor(if time > 1000 then time - 1000 else 0)
      && forall j :: 0 <= j < |r.code| && j != p.pc ==>
           r.code[j] == if time < 1000 then p.code[j] else if j < |p.prog.body| then p.prog.body[j] else region[j]
  {
  }

  /** The value after a P, modulo 8 bits, and after a V. */
  function OneLess(v: i8): i8 {
    if v == -128 then 127 else v - 1
  }

  function OneMore(v: i8): i8 {
    if v == 127 then -128 else v + 1
  }

  /**
    A P on a declared semaphore takes one off its value, modulo 8 bits. If that is negative, the process
    joins the end of the ring, waits, and loses its slice; otherwise it goes on. PC moves either way.
  */
  lemma PIs(k: KState, region: seq<Instr>, c: Name, j: nat)
    requires Core(k) && Enabled(k, Execute(region)) && At(k, SemP(c))
    requires j < |k.sems| && k.sems[j].name == c
    ensures var p, s := Executing(k), k.sems[j];
      var v := OneLess(s.value);
      Apply(k, Execute(region)) ==
        Resumed(k, Lowered(p, v)).(sems := k.sems[j := Sem(c, v, if v < 0 then s.waiters + [p.pid] else s.waiters)])
  {
    var e := ExecutedIs(k, region);
    LoweredIs(e, k.phase.slot, region, c, j);
  }

  /** The process after a P that has made the value `v`. */
  function Lowered(p: Proc, v: i8): Proc {
    if v < 0 then p.(status := Waiting, timeToRun := 0, pc := p.pc + 1) else p.(pc := p.pc + 1)
  }

  lemma LoweredIs(k: KState, i: nat, region: seq<Instr>, c: Name, j: nat)
    requires Busy(k, i) && Fits(k.procs[i], region) && Fetch(k.procs[i]) == SemP(c)
    requires j < |k.sems| && k.sems[j].name == c
    ensures var p, s := k.procs[i], k.sems[j];
      var v := OneLess(s.value);
      Dispatch(k, i, region) ==
        k.(procs := k.procs[i := Lowered(p, v)],
           sems := k.sems[j := Sem(c, v, if v < 0 then s.waiters + [p.pid] else s.waiters)])
  {
    FindUnique(k.sems, j);
    FindPidSorted(k.procs, i);
    RingNeverFull(k, i, j);
  }

  /**
    A V on a declared semaphore adds one to its value, modulo 8 bits. If somebody waits, the first in the
    ring leaves it and is ready; otherwise nobody changes but the process itself, whose PC moves.
  */
  lemma VIs(k: KState, region: seq<Instr>, c: Name, j: nat)
    requires Core(k) && Enabled(k, Execute(region)) && At(k, SemV(c))
    requires j < |k.sems| && k.sems[j].name == c
    ensures var k', i, p, s := Apply(k, Execute(region)), k.phase.slot, Executing(k), k.sems[j];
      && |k'.procs| == |k.procs| && k'.procs[i] == p.(pc := p.pc + 1)
      && (forall l :: 0 <= l < |k.procs| && l != i ==> k'.procs[l] == Woken(k.procs[l], s.waiters))
      && k' == k.(procs := k'.procs, phase := Demoting,
                  sems := k.sems[j := Sem(c, OneMore(s.value), if s.waiters == [] then [] else s.waiters[1..])])
  {
    var e := ExecutedIs(k, region);
    var i := k.phase.slot;
    RaisedIs(e, i, c, j);
    forall l | 0 <= l < |k.procs| && l != i
      ensures e.procs[l] == k.procs[l]
    {
    }
  }

  /** The first in the ring is ready, everybody else is as before. */
  function Woken(p: Proc, waiters: seq<nat>): Proc {
    if waiters != [] && p.pid == waiters[0] then p.(status := Ready) else p
  }

  /** The table after a V is the old one but for the process that it readies, which is not the executing one. */
  lemma RaisedIs(k: KState, i: nat, c: Name, j: nat)
    requires Busy(k, i) && j < |k.sems| && k.sems[j].name == c
    ensures var k', s := SemaphoreV(k, c), k.sems[j];
      && |k'.procs| == |k.procs| && k'.procs[i] == k.procs[i]
      && (forall l :: 0 <= l < |k.procs| ==> k'.procs[l] == Woken(k.procs[l], s.waiters))
      && k' == k.(procs := k'.procs,
                  sems := k.sems[j := Sem(c, OneMore(s.value), if s.waiters == [] then [] else s.waiters[1..])])
  {
    FindUnique(k.sems, j);
    if k.sems[j].waiters != [] {
      var pid := k.sems[j].waiters[0];
      RingPidsLive(k, j, pid);
      ReadiedIs(k.(sems := k.sems[j := Up(k.sems[j])]), pid);
    }
  }

  /** A P or V on a semaphore that was never declared only moves PC. */
  lemma UndeclaredIs(k: KState, region: seq<Instr>, c: Instr)
    requires Core(k) && Enabled(k, Execute(region)) && At(k, c) && (c.SemP? || c.SemV?)
    requires forall j :: 0 <= j < |k.sems| ==> k.sems[j].name != c.sem
    ensures Apply(k, Execute(region)) == Resumed(k, Executing(k).(pc := Executing(k).pc + 1))
  {
    var e := ExecutedIs(k, region);
    UndeclaredDispatchIs(e, k.phase.slot, region);
  }

  lemma UndeclaredDispatchIs(k: KState, i: nat, region: seq<Instr>)
    requires i < |k.procs| && Fits(k.procs[i], region)
    requires var c := Fetch(k.procs[i]);
      (c.SemP? || c.SemV?) && forall j :: 0 <= j < |k.sems| ==> k.sems[j].name != c.sem
    ensures Dispatch(k, i, region) == Advance(k, i)
  {
  }

  /** So does a slot that decodes to no command, or lies behind the block. */
  lemma UnknownIs(k: KState, region: seq<Instr>)
    requires Core(k) && Enabled(k, Execute(region))
    requires At(k, Unknown) || k.procs[k.phase.slot].pc >= |k.procs[k.phase.slot].code|
    ensures Apply(k, Execute(region)) == Resumed(k, Executing(k).(pc := Executing(k).pc + 1))
  {
    var e := ExecutedIs(k, region);
    assert Dispatch(e, k.phase.slot, region) == Advance(e, k.phase.slot);
  }

  /** A print command puts its job, with its time, at the end of the printer's queue. */
  lemma PrintIs(k: KState, region: seq<Instr>, time: u32)
    requires Core(k) && Enabled(k, Execute(region)) && At(k, PrintFor(time))
    ensures var p := Executing(k);
      Apply(k, Execute(region)) == Resumed(k, p.(pc := p.pc + 1)).(
        printer := Printer.PrinterState(k.printer.queue + [Printer.Job(time, p.pid)], k.printer.buffer))
  {
    var e := ExecutedIs(k, region);
    var i, p := k.phase.slot, Executing(k);
    assert e.procs[i := p.(pc := p.pc + 1)] == k.procs[i := p.(pc := p.pc + 1)];
    assert Dispatch(e, i, region) == Advance(PrintRequest(e, p.pid, time), i);
  }

  /** A disk command puts a full request at the end of the disk's queue, is counted, and blocks its process. */
  lemma DiskIs(k: KState, region: seq<Instr>, track: u32)
    requires Core(k) && Enabled(k, Execute(region)) && At(k, DiskOp(track)) && track <= 20000
    ensures var p := Executing(k);
      Apply(k, Execute(region)) ==
        Resumed(k, p.(status := Blocked, timeToRun := 0, rwCount := p.rwCount + 1, pc := p.pc + 1)).(
          disk := Disk.DiskState(k.disk.queue + [Disk.IoReq(p.pid, 4000, track)], k.disk.track))
  {
    var e := ExecutedIs(k, region);
    FindPidSorted(e.procs, k.phase.slot);
    DiskFrom(k, e, region, track);
  }

  lemma DiskFrom(k: KState, e: KState, region: seq<Instr>, track: u32)
    requires k.phase.Chosen? && k.phase.slot < |k.procs| && k.health == Alive && track <= 20000
    requires e == k.(procs := k.procs[k.phase.slot := Executing(k)]) && Fits(Executing(k), region)
    requires FindPid(e.procs, Executing(k).pid) == Some(k.phase.slot) && Fetch(Executing(k)) == DiskOp(track)
    ensures var p := Executing(k);
      Dispatch(e, k.phase.slot, region).(phase := Demoting) ==
        Resumed(k, p.(status := Blocked, timeToRun := 0, rwCount := p.rwCount + 1, pc := p.pc + 1)).(
          disk := Disk.DiskState(k.disk.queue + [Disk.IoReq(p.pid, 4000, track)], k.disk.track))
  {
    DiskDispatchIs(e, k.phase.slot, region);
  }

  /**
    A creation with room in the table adds a new process at its end: its commands in the first slots of
    its block, and behind them what the block held before.
  */
  lemma CreateIs(k: KState, prog: Program, region: seq<Instr>)
    requires Enabled(k, Create(prog, region)) && k.curr < 10
    ensures var k' := Apply(k, Create(prog, region));
      && |k'.procs| == |k.procs| + 1
      && var p := k'.procs[|k.procs|];
      && k' == k.(procs := k.procs + [p], curr := k.curr + 1, lastPid := k.lastPid + 1, sems := DeclareAll(k.sems, prog.sems))
      && p == Proc(k.lastPid, New, 1000, 0, 0, p.code, 0, |prog.body|, prog) && |p.code| == |region|
      && forall j :: 0 <= j < |region| ==> p.code[j] == if j < |prog.body| then prog.body[j] else region[j]
  {
  }

  /**
    A selection grants a full slice to the process with the fewest disk operations, the least use and the
    smallest pid, in this order, among those that neither wait nor are blocked, and changes nothing else.
  */
  lemma SelectionIs(k: KState)
    requires Core(k) && Enabled(k, SelectNext)
    ensures var k' := Apply(k, SelectNext);
      if k'.phase.Chosen? then
        var i := k'.phase.slot;
        && i < |k.procs| && k.procs[i].status != Blocked && k.procs[i].status != Waiting
        && (forall j :: 0 <= j < |k.procs| && j != i && k.procs[j].status != Blocked && k.procs[j].status != Waiting ==>
              var p, o := k.procs[i], k.procs[j];
              p.rwCount <= o.rwCount && (p.rwCount == o.rwCount ==>
                p.hUsed <= o.hUsed && (p.hUsed == o.hUsed ==> p.pid < o.pid)))
        && k' == k.(procs := k.procs[i := k.procs[i].(status := Running, timeToRun := 1000)], phase := Chosen(i))
      else
        k' == k.(phase := Demoting) &&
        forall i :: 0 <= i < |k.procs| ==> k.procs[i].status == Blocked || k.procs[i].status == Waiting
  {
    SelectIsMinimum(k.procs);
  }

  /** A disk tick readies exactly the process whose request it finishes, if it finishes one. */
  lemma DiskTickIs(k: KState)
    requires Core(k)
    ensures var k', done := Apply(k, DiskTick), Disk.Tick(k.disk).finished;
      && k'.disk == Disk.Tick(k.disk).state && |k'.procs| == |k.procs|
      && (done.Some? ==> InTable(k.procs, done.value, Blocked))
      && (forall l :: 0 <= l < |k.procs| ==>
            k'.procs[l] == if done == Some(k.procs[l].pid) then k.procs[l].(status := Ready) else k.procs[l])
      && k' == k.(procs := k'.procs, disk := k'.disk)
  {
    DiskBase(k);
    var t := Disk.Tick(k.disk);
    if t.finished.Some? {
      ReadiedIs(k.(disk := t.state), t.finished.value);
    }
  }
}
