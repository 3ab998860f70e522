/** What the invariant means in every state that a run of the kernel can reach. */
module KernelResults {
  import opened Common
  import opened Process
  import opened Scheduler
  import opened Semaphore
  import opened Kernel
  import opened WaitSets
  import opened KernelInvariant
  import opened SemaphoreRuns
  import opened KernelEffects
  import opened WorkAccounting
  import Disk
  import DiskDrain

  /** A state that some run from the start reaches. */
  ghost predicate Reachable(k: KState) {
    exists steps :: Runs(INIT, steps) && Run(INIT, steps) == k
  }

  lemma ReachableOk(k: KState)
    requires Reachable(k)
    ensures Inv(k)
  {
    var steps :| Runs(INIT, steps) && Run(INIT, steps) == k;
    InitOk();
    RunKeeps(INIT, steps);
  }

  lemma {:induction false} OneMoreStep(k: KState, steps: seq<Step>, s: Step)
    requires Runs(k, steps) && Enabled(Run(k, steps), s)
    ensures Runs(k, steps + [s]) && Run(k, steps + [s]) == Apply(Run(k, steps), s)
    decreases |steps|
  {
    if steps == [] {
      assert steps + [s] == [s];
    } else {
      assert (steps + [s])[1..] == steps[1..] + [s];
      OneMoreStep(Apply(k, steps[0]), steps[1..], s);
    }
  }

  lemma StepReaches(k: KState, s: Step) returns (k': KState)
    requires Reachable(k) && Enabled(k, s)
    ensures k' == Apply(k, s) && Reachable(k')
  {
    var steps :| Runs(INIT, steps) && Run(INIT, steps) == k;
    OneMoreStep(INIT, steps, s);
    k' := Apply(k, s);
  }

  lemma StartReached()
    ensures Reachable(INIT)
  {
    assert Runs(INIT, []) && Run(INIT, []) == INIT;
  }

  /** No wake-up ever fails to find its process. */
  lemma NoProcessIsEverLost(k: KState)
    requires Reachable(k)
    ensures k.health != LostProcess
  {
    ReachableOk(k);
  }

  /**
    Blocked processes and disk requests match one to one, waiting processes and ring entries match one
    to one, nobody is in both, and nobody is in either who is not in the table.
  */
  lemma QueuesMatchStatuses(k: KState)
    requires Reachable(k) && k.health == Alive
    ensures forall i :: 0 <= i < |k.procs| ==>
      (k.procs[i].status == Blocked <==> exists a :: 0 <= a < |k.disk.queue| && k.disk.queue[a].id == k.procs[i].pid)
    ensures forall i :: 0 <= i < |k.procs| ==>
      (k.procs[i].status == Waiting <==> exists j :: 0 <= j < |k.sems| && k.procs[i].pid in k.sems[j].waiters)
    ensures forall a :: 0 <= a < |k.disk.queue| ==> InTable(k.procs, k.disk.queue[a].id, Blocked)
    ensures forall j, pid :: 0 <= j < |k.sems| && pid in k.sems[j].waiters ==> InTable(k.procs, pid, Waiting)
    ensures forall a, b :: 0 <= a < b < |k.disk.queue| ==> k.disk.queue[a].id != k.disk.queue[b].id
    ensures forall j :: 0 <= j < |k.sems| ==> Distinct(k.sems[j].waiters)
    ensures forall j, l, pid :: 0 <= j < l < |k.sems| && pid in k.sems[j].waiters ==> pid !in k.sems[l].waiters
  {
    ReachableOk(k);
    var ids, rings := DiskDrain.Ids(k.disk.queue), Rings(k.sems);
    forall i | 0 <= i < |k.procs|
      ensures k.procs[i].status == Blocked <==> exists a :: 0 <= a < |k.disk.queue| && k.disk.queue[a].id == k.procs[i].pid
      ensures k.procs[i].status == Waiting <==> exists j :: 0 <= j < |k.sems| && k.procs[i].pid in k.sems[j].waiters
    {
      StatusMatches(k, i);
    }
    QueuedAreLive(k);
    assert forall a, b :: 0 <= a < b < |ids| ==> ids[a] != ids[b];
    forall j | 0 <= j < |k.sems|
      ensures Distinct(k.sems[j].waiters)
    {
      assert rings[j] == k.sems[j].waiters;
    }
    forall j, l, pid | 0 <= j < l < |k.sems| && pid in k.sems[j].waiters
      ensures pid !in k.sems[l].waiters
    {
      assert pid in rings[j];
      assert rings[l] == k.sems[l].waiters;
    }
  }

  lemma QueuedAreLive(k: KState)
    requires Core(k)
    ensures forall a :: 0 <= a < |k.disk.queue| ==> InTable(k.procs, k.disk.queue[a].id, Blocked)
    ensures forall j, pid :: 0 <= j < |k.sems| && pid in k.sems[j].waiters ==> InTable(k.procs, pid, Waiting)
  {
    forall a | 0 <= a < |k.disk.queue|
      ensures InTable(k.procs, k.disk.queue[a].id, Blocked)
    {
      assert DiskDrain.Ids(k.disk.queue)[a] == k.disk.queue[a].id;
      DiskIdsLive(k, k.disk.queue[a].id);
    }
    forall j, pid | 0 <= j < |k.sems| && pid in k.sems[j].waiters
      ensures InTable(k.procs, pid, Waiting)
    {
      RingPidsLive(k, j, pid);
    }
  }

  lemma StatusMatches(k: KState, i: nat)
    requires Core(k) && i < |k.procs|
    ensures k.procs[i].status == Blocked <==> exists a :: 0 <= a < |k.disk.queue| && k.disk.queue[a].id == k.procs[i].pid
    ensures k.procs[i].status == Waiting <==> exists j :: 0 <= j < |k.sems| && k.procs[i].pid in k.sems[j].waiters
  {
    var pid := k.procs[i].pid;
    var ids, rings := DiskDrain.Ids(k.disk.queue), Rings(k.sems);
    StatusesOf(k.procs);
    assert pid in ids <==> Has(Statuses(k.procs), pid, Blocked);
    assert InSomeRing(rings, pid) <==> Has(Statuses(k.procs), pid, Waiting);
    if pid in ids {
      var a :| 0 <= a < |ids| && ids[a] == pid;
      assert k.disk.queue[a].id == pid;
    }
    if a :| 0 <= a < |k.disk.queue| && k.disk.queue[a].id == pid {
      assert ids[a] == pid;
    }
    if j :| 0 <= j < |k.sems| && pid in k.sems[j].waiters {
      assert pid in rings[j];
    }
  }

  /** The fixed-size disk queue and waiter rings are never full. */
  lemma FixedSizesSuffice(k: KState)
    requires Reachable(k) && k.health == Alive
    ensures |k.disk.queue| < Disk.MAX_PCB
    ensures forall j :: 0 <= j < |k.sems| ==> |k.sems[j].waiters| < Disk.MAX_PCB < DEFAULT_WAITERS_NUM - 1
  {
    ReachableOk(k);
    var ids := DiskDrain.Ids(k.disk.queue);
    forall x | x in ids
      ensures x < k.lastPid
    {
      DiskIdsLive(k, x);
    }
    DistinctBelow(ids, k.lastPid);
    forall j | 0 <= j < |k.sems|
      ensures |k.sems[j].waiters| < Disk.MAX_PCB
    {
      FindUnique(k.sems, j);
      WaitersBounded(k, k.sems[j].name);
    }
  }

  /** If nothing can be selected and the disk is idle, every process waits on a semaphore: a deadlock. */
  lemma IdleMeansDeadlock(k: KState)
    requires Reachable(k) && k.health == Alive
    requires Select(k.procs) == None && k.disk.queue == []
    ensures forall i :: 0 <= i < |k.procs| ==> k.procs[i].status == Waiting
  {
    ReachableOk(k);
    SelectIsMinimum(k.procs);
    forall i | 0 <= i < |k.procs|
      ensures k.procs[i].status == Waiting
    {
      StatusMatches(k, i);
    }
  }

  /** Whenever a run selects, it selects the least process in the policy order. */
  lemma SelectionFollowsThePolicy(k: KState)
    requires Reachable(k) && k.health == Alive
    ensures match Select(k.procs)
      case None => forall j :: 0 <= j < |k.procs| ==> !Eligible(k.procs[j])
      case Some(i) => IsMinimum(k.procs, |k.procs|, i)
  {
    ReachableOk(k);
    SelectIsMinimum(k.procs);
  }

  /** Whenever a run reaps, it removes exactly the killed entries, and at most one. */
  lemma ReapingIsExact(k: KState)
    requires Reachable(k) && k.health == Alive && k.phase == Reaping
    ensures Reap(k.procs) == Survivors(k.procs) && |k.procs| <= |Survivors(k.procs)| + 1
  {
    ReachableOk(k);
    ReapKeeps(k);
    OneKilled(k.procs);
  }

  lemma {:induction false} OneKilled(procs: seq<Proc>)
    requires AtMostOneKill(procs)
    ensures |procs| <= |Survivors(procs)| + 1
  {
    if procs != [] {
      if procs[0].status == Kill {
        assert forall p :: p in procs[1..] ==> p.status != Kill;
        SurvivorsAll(procs[1..]);
      } else {
        OneKilled(procs[1..]);
      }
    }
  }

  /** From any reachable state, with no further requests, the disk is idle again in bounded time. */
  lemma DiskDrainsFromAnyState(k: KState)
    requires Reachable(k) && k.health == Alive
    ensures var t := DiskDrain.DrainTime(k.disk);
      && DiskDrain.Ticks(k.disk, t).queue == []
      && t <= DiskDrain.Service(k.disk.queue) + 2 * Disk.TOTAL_TRACKS
  {
    ReachableOk(k);
    forall i | 0 <= i < |k.disk.queue|
      ensures k.disk.queue[i].track <= Disk.TOTAL_TRACKS
    {
      assert k.disk.queue[i] in k.disk.queue;
    }
    DiskDrain.TravelAtMostTwiceTheDisk(k.disk);
    DiskDrain.DrainTimeExact(k.disk, DiskDrain.DrainTime(k.disk));
  }

  /** The kernel after `n` disk ticks with nothing in between. */
  function DiskTicks(k: KState, n: nat): KState
    decreases n
  {
    if n == 0 then k else DiskTicks(DiskStep(k), n - 1)
  }

  lemma DiskStepTicks(k: KState)
    ensures DiskStep(k).disk == Disk.Tick(k.disk).state
  {
  }

  /** Every queued request is of a process in the table. */
  ghost predicate QueuedInTable(k: KState) {
    Sorted(k.procs) && forall pid :: pid in DiskDrain.Ids(k.disk.queue) ==> PidIn(k.procs, pid)
  }

  function ReadyIf(p: Proc, done: seq<nat>): Proc {
    if p.pid in done then p.(status := Ready) else p
  }

  /** One disk tick readies the process whose request it finishes, and nobody else. */
  lemma OneDiskTick(k: KState) returns (k1: KState)
    requires QueuedInTable(k)
    ensures k1 == DiskStep(k) && QueuedInTable(k1) && k1.health == k.health && |k1.procs| == |k.procs|
    ensures k1.disk == Disk.Tick(k.disk).state
    ensures forall i :: 0 <= i < |k.procs| ==> k1.procs[i] == ReadyIf(k.procs[i], Reported(Disk.Tick(k.disk).finished))
  {
    k1 := DiskStep(k);
    var t := Disk.Tick(k.disk);
    DiskDrain.TickIdsIn(k.disk);
    if t.finished.Some? {
      var pid := t.finished.value;
      var l :| 0 <= l < |k.procs| && k.procs[l].pid == pid;
      FindPidSorted(k.procs, l);
      ReadiedIs(k.(disk := t.state), pid);
    }
  }

  /** Readying a pid of the table changes the status of its process and nothing else. */
  lemma ReadiedIs(k: KState, pid: nat)
    requires Sorted(k.procs) && FindPid(k.procs, pid).Some?
    ensures var k' := MakeReady(k, pid);
      && k' == k.(procs := k'.procs) && |k'.procs| == |k.procs|
      && forall l :: 0 <= l < |k.procs| ==>
           k'.procs[l] == if k.procs[l].pid == pid then k.procs[l].(status := Ready) else k.procs[l]
  {
  }

  /** After any number of disk ticks, exactly the processes whose requests are finished are ready. */
  lemma {:induction false} DiskTicksReady(k: KState, n: nat, i: nat)
    requires QueuedInTable(k) && i < |k.procs|
    ensures var k' := DiskTicks(k, n);
      && k'.health == k.health && |k'.procs| == |k.procs| && k'.disk == DiskDrain.Ticks(k.disk, n)
      && k'.procs[i] == ReadyIf(k.procs[i], DiskDrain.Finished(k.disk, n))
    decreases n
  {
    if n > 0 {
      var k1 := OneDiskTick(k);
      DiskTicksReady(k1, n - 1, i);
    }
  }

  /** From the drain time on, the pids finished are the pids queued. */
  lemma FinishedAreQueued(s: Disk.DiskState, n: nat, pid: nat)
    requires n >= DiskDrain.DrainTime(s)
    ensures pid in DiskDrain.Finished(s, n) <==> pid in DiskDrain.Ids(s.queue)
  {
    DiskDrain.EachFinishedOnce(s);
    DiskDrain.FinishedByThen(s, n);
    assert pid in DiskDrain.Ids(s.queue) <==> pid in multiset(DiskDrain.Ids(s.queue));
    assert pid in DiskDrain.Finished(s, n) <==> pid in multiset(DiskDrain.Finished(s, n));
  }

  lemma ReachableQueued(k: KState)
    requires Core(k)
    ensures QueuedInTable(k)
  {
    forall pid | pid in DiskDrain.Ids(k.disk.queue)
      ensures PidIn(k.procs, pid)
    {
      DiskIdsLive(k, pid);
    }
  }

  /**
    Left alone, the disk readies every blocked process, and changes nobody else, in exactly the time it
    takes to drain its queue.
  */
  lemma EveryBlockedProcessIsReadied(k: KState, n: nat, i: nat)
    requires Reachable(k) && k.health == Alive && i < |k.procs|
    requires n >= DiskDrain.DrainTime(k.disk)
    ensures var k' := DiskTicks(k, n);
      && k'.health == Alive && |k'.procs| == |k.procs|
      && k'.procs[i] == if k.procs[i].status == Blocked then k.procs[i].(status := Ready) else k.procs[i]
  {
    ReachableOk(k);
    ReachableQueued(k);
    DiskTicksReady(k, n, i);
    FinishedAreQueued(k.disk, n, k.procs[i].pid);
    StatusMatches(k, i);
    assert forall a :: 0 <= a < |k.disk.queue| ==> DiskDrain.Ids(k.disk.queue)[a] == k.disk.queue[a].id;
  }

  /** The simulator is stopped by exactly one thing: a dispatched request for a track beyond the last. */
  lemma StopsOnlyOnMissingTrack(k: KState, s: Step)
    requires Core(k) && Enabled(k, s)
    ensures Apply(k, s).health != Alive <==>
      s.Execute? && Fetch(k.procs[k.phase.slot]).DiskOp? && Fetch(k.procs[k.phase.slot]).track > Disk.TOTAL_TRACKS
  {
    match s {
      case Execute(region) =>
        EnteredBusy(k);
        DispatchStops(Entered(k, k.phase.slot), k.phase.slot, region);
      case Create(prog, region) => CreateKeeps(k, prog, region);
      case DiskTick => DiskKeeps(k);
      case _ =>
    }
  }

  lemma DispatchStops(k: KState, i: nat, region: seq<Instr>)
    requires Busy(k, i) && Fits(k.procs[i], region)
    ensures Dispatch(k, i, region).health != Alive <==>
      Fetch(k.procs[i]).DiskOp? && Fetch(k.procs[i]).track > Disk.TOTAL_TRACKS
  {
    var p := k.procs[i];
    match Fetch(p) {
      case SemP(c) => PKeeps(k, c, i);
      case SemV(c) => VKeeps(k, c, i);
      case DiskOp(track) => FindPidSorted(k.procs, i);
      case _ =>
    }
  }

  lemma DiskDispatchIs(k: KState, i: nat, region: seq<Instr>)
    requires i < |k.procs| && Fits(k.procs[i], region) && k.health == Alive
    requires Fetch(k.procs[i]).DiskOp? && Fetch(k.procs[i]).track <= Disk.TOTAL_TRACKS
    requires FindPid(k.procs, k.procs[i].pid) == Some(i)
    ensures var p := k.procs[i];
      Dispatch(k, i, region) == k.(
        procs := k.procs[i := p.(status := Blocked, timeToRun := 0, rwCount := p.rwCount + 1, pc := p.pc + 1)],
        disk := k.disk.(queue := k.disk.queue + [Disk.IoReq(p.pid, Disk.DISK_SLICE, Fetch(p).track)]))
  {
    var p := k.procs[i];
    var counted := k.procs[i := p.(rwCount := p.rwCount + 1)];
    FindSame(k.procs, counted, p.pid);
  }

  // The missing return

  /** The command changes nothing but PC: unrecognised, or on a semaphore that was never declared. */
  predicate Harmless(sems: seq<Sem>, c: Instr) {
    match c
    case Unknown => true
    case SemP(s) => !Declared(sems, s)
    case SemV(s) => !Declared(sems, s)
    case _ => false
  }

  /**
    At its last slot a process is killed, and then whatever that slot decodes to is dispatched too.
    This is the same as killing it (and moving its PC) if and only if the slot is harmless.
  */
  lemma KillFallsThroughHarmlesslyIff(k: KState, region: seq<Instr>)
    requires Core(k) && Enabled(k, Execute(region))
    requires k.procs[k.phase.slot].pc == k.procs[k.phase.slot].last
    ensures var i := k.phase.slot;
      ExecProcess(k, i, region) == Advance(KillPid(k, k.procs[i].pid), i)
      <==> Harmless(k.sems, Fetch(k.procs[i]))
  {
    var i := k.phase.slot;
    EnteredBusy(k);
    DispatchIsAdvanceIff(Entered(k, i), i, region);
  }

  lemma DispatchIsAdvanceIff(k: KState, i: nat, region: seq<Instr>)
    requires Busy(k, i) && Fits(k.procs[i], region)
    ensures Dispatch(k, i, region) == Advance(k, i) <==> Harmless(k.sems, Fetch(k.procs[i]))
  {
    var p := k.procs[i];
    var r := Dispatch(k, i, region);
    match Fetch(p) {
      case SemP(c) =>
        if Find(k.sems, c).Some? {
          var j := Find(k.sems, c).value;
          assert r.sems[j].value != k.sems[j].value;
        }
      case SemV(c) =>
        if Find(k.sems, c).Some? {
          var j := Find(k.sems, c).value;
          assert r.sems[j].value != k.sems[j].value;
        }
      case ExecFor(_) =>
        assert r.procs[i].hUsed != p.hUsed;
      case DiskOp(_) =>
        FindPidSorted(k.procs, i);
        assert r.procs[i].rwCount != p.rwCount;
      case PrintFor(_) =>
        assert |r.printer.queue| != |k.printer.queue|;
      case Unknown =>
    }
  }

  /** The command suspends the process that executes it: a disk request, or a P that has to wait. */
  predicate Suspends(sems: seq<Sem>, c: Instr) {
    c.DiskOp? || (c.SemP? && Declared(sems, c.sem) && -128 < CellOf(sems, c.sem).value <= 0)
  }

  /** At its last slot, the process is still marked killed afterwards unless the slot suspends it. */
  lemma KillSticksIff(k: KState, region: seq<Instr>)
    requires Core(k) && Enabled(k, Execute(region)) && Apply(k, Execute(region)).health == Alive
    requires k.procs[k.phase.slot].pc == k.procs[k.phase.slot].last
    ensures Apply(k, Execute(region)).procs[k.phase.slot].status == Kill
      <==> !Suspends(k.sems, Fetch(k.procs[k.phase.slot]))
  {
    EnteredBusy(k);
    StatusAfterDispatch(Entered(k, k.phase.slot), k.phase.slot, region);
  }

  lemma StatusAfterDispatch(k: KState, i: nat, region: seq<Instr>)
    requires Busy(k, i) && Fits(k.procs[i], region) && Dispatch(k, i, region).health == Alive
    ensures var c, s := Fetch(k.procs[i]), Dispatch(k, i, region).procs[i].status;
      s == if c.DiskOp? then Blocked else if Suspends(k.sems, c) then Waiting else k.procs[i].status
  {
    FindPidSorted(k.procs, i);
    match Fetch(k.procs[i]) {
      case SemP(c) => StatusAfterP(k, i, c);
      case SemV(c) => StatusAfterV(k, i, c);
      case _ =>
    }
  }

  lemma StatusAfterP(k: KState, i: nat, c: Name)
    requires Busy(k, i)
    ensures SemaphoreP(k, c, k.procs[i].pid).procs[i].status ==
      if Suspends(k.sems, SemP(c)) then Waiting else k.procs[i].status
  {
    FindPidSorted(k.procs, i);
  }

  /** A process that executes a V is not the one that it wakes. */
  lemma StatusAfterV(k: KState, i: nat, c: Name)
    requires Busy(k, i)
    ensures SemaphoreV(k, c).procs[i].status == k.procs[i].status
  {
    if Declared(k.sems, c) && CellOf(k.sems, c).waiters != [] {
      RingPidsLive(k, Find(k.sems, c).value, CellOf(k.sems, c).waiters[0]);
    }
  }

  /**
    The dispatch that uses up the last unit of work leaves the process marked killed, and gone after the
    next reaping, if and only if the slot at the end does not suspend it.
  */
  lemma LastDispatchKillsIff(k: KState, region: seq<Instr>)
    requires Core(k) && Enabled(k, Execute(region)) && Apply(k, Execute(region)).health == Alive
    requires WorkOf(k, k.procs[k.phase.slot].pid) == 1
    ensures var i, k' := k.phase.slot, Apply(k, Execute(region));
      (k'.procs[i].status == Kill && FindPid(Reap(NoRunning(k'.procs)), k.procs[i].pid) == None)
      <==> !Suspends(k.sems, Fetch(k.procs[i]))
  {
    var i := k.phase.slot;
    var p := k.procs[i];
    FindPidSorted(k.procs, i);
    WorkIsOneAtTheEnd(p);
    KillSticksIff(k, region);
    var k' := Apply(k, Execute(region));
    StepKeeps(k, Execute(region));
    ExecuteEffect(k, region);
    assert k'.procs[i].pid == p.pid;
    if k'.procs[i].status == Kill {
      KilledIsReaped(k', i);
    }
  }

  lemma KilledIsReaped(k: KState, i: nat)
    requires Core(k) && k.phase == Demoting && i < |k.procs| && k.procs[i].status == Kill
    ensures FindPid(Reap(NoRunning(k.procs)), k.procs[i].pid) == None
  {
    var demoted := k.(procs := NoRunning(k.procs), phase := Reaping);
    DemoteKeeps(k);
    ReapKeeps(demoted);
    FindPidSorted(demoted.procs, i);
    FindSurvivor(demoted.procs, k.procs[i].pid);
  }

  lemma WorkIsOneAtTheEnd(p: Proc)
    requires Work(p) == 1 && p.last <= |p.code|
    ensures p.pc == p.last
  {
  }

  // Both departures are reached from the start

  /** A new process with an empty program, about to execute the slot behind it. */
  lemma EmptyProgramExecutes(region: seq<Instr>) returns (k: KState)
    requires region != []
    ensures Reachable(k) && k.health == Alive && k.phase == Chosen(0) && k.curr == 1 && k.sems == [] && k.disk.queue == []
    ensures k.procs == [NewProc(0, Program([], []), region).(status := Running, timeToRun := TIME_SLICE)]
  {
    StartReached();
    k := StepReaches(INIT, Create(Program([], []), region));
    k := FirstIsChosen(k, NewProc(0, Program([], []), region));
  }

  lemma FirstIsChosen(k: KState, p: Proc) returns (k': KState)
    requires Reachable(k) && k.health == Alive && k.phase == Demoting
    requires k.procs == [p] && p.status == New
    ensures Reachable(k')
    ensures k' == k.(procs := [p.(status := Running, timeToRun := TIME_SLICE)], phase := Chosen(0))
  {
    OneNewProcess(p);
    k' := StepReaches(k, Demote);
    k' := StepReaches(k', ReapKilled);
    k' := StepReaches(k', SelectNext);
  }

  lemma OneNewProcess(p: Proc)
    requires p.status == New
    ensures NoRunning([p]) == [p] && Reap([p]) == [p] && Select([p]) == Some(0)
  {
    assert [p][1..] == [];
    assert SelectAmong([p], 0) == None;
  }

  /** A kill is lost: a live process past its last slot that is blocked instead of marked killed. */
  lemma LostKillIsReached() returns (k: KState)
    ensures Reachable(k) && k.health == Alive
    ensures |k.procs| == 1 && k.procs[0].pc > k.procs[0].last && k.procs[0].status == Blocked
  {
    k := EmptyProgramExecutes([DiskOp(0)]);
    k := StepReaches(k, Execute([DiskOp(0)]));
  }

  /** After a reap the next creation would write behind a free slot. */
  lemma ReapedTableIsReached() returns (k: KState)
    ensures Reachable(k) && k.health == Alive
    ensures |k.procs| < k.curr < Disk.MAX_PCB - 1
  {
    k := EmptyProgramExecutes([Unknown]);
    var p := k.procs[0].(status := Kill, pc := 1);
    k := StepReaches(k, Execute([Unknown]));
    assert k.procs == [p] && k.phase == Demoting;
    k := StepReaches(k, Demote);
    assert k.procs == [p];
    k := StepReaches(k, ReapKilled);
  }
}
