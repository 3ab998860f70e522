/** One invariant of every run of the kernel, and what follows from it. */
module KernelInvariant {
  import opened Common
  import opened Process
  import opened Scheduler
  import opened Semaphore
  import opened Kernel
  import opened WaitSets
  import Disk
  import DiskDrain

  /** The status of every process in the table, by pid. */
  ghost function Statuses(procs: seq<Proc>): map<nat, Status> {
    if procs == [] then map[]
    else Statuses(procs[..|procs| - 1])[procs[|procs| - 1].pid := procs[|procs| - 1].status]
  }

  ghost function Rings(sems: seq<Sem>): (r: seq<seq<nat>>)
    ensures |r| == |sems| && forall j :: 0 <= j < |sems| ==> r[j] == sems[j].waiters
  {
    seq(|sems|, j requires 0 <= j < |sems| => sems[j].waiters)
  }

  ghost predicate NoKill(procs: seq<Proc>) {
    forall i :: 0 <= i < |procs| ==> procs[i].status != Kill
  }

  ghost predicate AtMostOneKill(procs: seq<Proc>) {
    forall i, j :: 0 <= i < j < |procs| ==> !(procs[i].status == Kill && procs[j].status == Kill)
  }

  ghost predicate PhaseOk(procs: seq<Proc>, phase: Phase) {
    match phase
    case Demoting => AtMostOneKill(procs)
    case Reaping => AtMostOneKill(procs)
    case Selecting => NoKill(procs)
    case Chosen(i) =>
      NoKill(procs) && i < |procs| && procs[i].status == Running && procs[i].timeToRun == TIME_SLICE
  }

  ghost predicate TableOk(procs: seq<Proc>, curr: nat, lastPid: nat) {
    && Sorted(procs)
    && (forall i :: 0 <= i < |procs| ==> procs[i].pid < lastPid)
    && lastPid == curr < Disk.MAX_PCB
  }

  ghost predicate ProgramsOk(procs: seq<Proc>, sems: seq<Sem>) {
    forall i :: 0 <= i < |procs| ==> WellLoaded(procs[i]) && AllDeclared(sems, procs[i].prog.sems)
  }

  ghost predicate SemsOk(sems: seq<Sem>) {
    && |sems| <= MAX_SIZE_SEMAPHORES
    && (forall i, j :: 0 <= i < j < |sems| ==> sems[i].name != sems[j].name)
  }

  ghost predicate DiskOk(d: Disk.DiskState) {
    d.track <= Disk.TOTAL_TRACKS && forall r :: r in d.queue ==> r.track <= Disk.TOTAL_TRACKS
  }

  /** Everything but the position of the CPU thread. */
  ghost predicate Base(k: KState) {
    && k.health == Alive
    && TableOk(k.procs, k.curr, k.lastPid)
    && InSync(Statuses(k.procs), DiskDrain.Ids(k.disk.queue), Rings(k.sems))
    && ProgramsOk(k.procs, k.sems)
    && SemsOk(k.sems)
    && DiskOk(k.disk)
  }

  ghost predicate Core(k: KState) {
    Base(k) && PhaseOk(k.procs, k.phase)
  }

  /** The kernel either works properly or was ended by a request for a track the disk does not have. */
  ghost predicate Inv(k: KState) {
    k.health == DiskMiss || Core(k)
  }

  // The status map and the table

  ghost predicate PidIn(procs: seq<Proc>, pid: nat) {
    exists i :: 0 <= i < |procs| && procs[i].pid == pid
  }

  lemma {:induction false} StatusesKeys(procs: seq<Proc>, pid: nat)
    ensures pid in Statuses(procs) <==> PidIn(procs, pid)
  {
    if procs != [] {
      var front, p := procs[..|procs| - 1], procs[|procs| - 1];
      StatusesKeys(front, pid);
      if i :| 0 <= i < |front| && front[i].pid == pid {
        assert procs[i].pid == pid;
      }
      if i :| 0 <= i < |procs| && procs[i].pid == pid {
        assert i < |front| ==> front[i].pid == pid;
      }
      assert procs[|procs| - 1].pid == p.pid;
    }
  }

  lemma {:induction false} StatusesAt(procs: seq<Proc>, i: nat)
    requires Sorted(procs) && i < |procs|
    ensures procs[i].pid in Statuses(procs) && Statuses(procs)[procs[i].pid] == procs[i].status
  {
    var n := |procs| - 1;
    if i < n {
      StatusesAt(procs[..n], i);
    }
  }

  lemma StatusesOf(procs: seq<Proc>)
    requires Sorted(procs)
    ensures forall pid :: pid in Statuses(procs) <==> PidIn(procs, pid)
    ensures forall i :: 0 <= i < |procs| ==> procs[i].pid in Statuses(procs) && Statuses(procs)[procs[i].pid] == procs[i].status
  {
    forall pid
      ensures pid in Statuses(procs) <==> PidIn(procs, pid)
    {
      StatusesKeys(procs, pid);
    }
    forall i | 0 <= i < |procs|
      ensures procs[i].pid in Statuses(procs) && Statuses(procs)[procs[i].pid] == procs[i].status
    {
      StatusesAt(procs, i);
    }
  }

  ghost predicate InTable(procs: seq<Proc>, pid: nat, s: Status) {
    exists i :: 0 <= i < |procs| && procs[i].pid == pid && procs[i].status == s
  }

  lemma HasIffInTable(procs: seq<Proc>, pid: nat, s: Status)
    requires Sorted(procs)
    ensures Has(Statuses(procs), pid, s) <==> InTable(procs, pid, s)
  {
    StatusesKeys(procs, pid);
    if i :| 0 <= i < |procs| && procs[i].pid == pid {
      StatusesAt(procs, i);
      assert forall l :: 0 <= l < |procs| && l != i ==> procs[l].pid != pid;
    }
  }

  /** Two tables with the same blocked and waiting pids are in step with the same queues. */
  lemma SameHeldSameSync(procs: seq<Proc>, procs': seq<Proc>, ids: seq<nat>, rings: seq<seq<nat>>)
    requires Sorted(procs) && Sorted(procs')
    requires forall pid, s :: Held(s) ==> (InTable(procs, pid, s) <==> InTable(procs', pid, s))
    requires InSync(Statuses(procs), ids, rings)
    ensures InSync(Statuses(procs'), ids, rings)
  {
    forall pid, s | Held(s)
      ensures Has(Statuses(procs), pid, s) <==> Has(Statuses(procs'), pid, s)
    {
      HasIffInTable(procs, pid, s);
      HasIffInTable(procs', pid, s);
    }
    SyncSameWaiters(Statuses(procs), Statuses(procs'), ids, rings);
  }

  lemma {:induction false} StatusesUpdate(procs: seq<Proc>, i: nat, p: Proc)
    requires Sorted(procs) && i < |procs| && p.pid == procs[i].pid
    ensures Statuses(procs[i := p]) == Statuses(procs)[p.pid := p.status]
  {
    var n := |procs| - 1;
    if i < n {
      assert procs[i := p][..n] == procs[..n][i := p];
      StatusesUpdate(procs[..n], i, p);
    } else {
      assert procs[i := p][..n] == procs[..n];
    }
  }

  lemma FindPidSorted(procs: seq<Proc>, i: nat)
    requires Sorted(procs) && i < |procs|
    ensures FindPid(procs, procs[i].pid) == Some(i)
  {
  }

  lemma FindPidPresent(procs: seq<Proc>, pid: nat)
    requires Sorted(procs) && pid in Statuses(procs)
    ensures FindPid(procs, pid).Some?
    ensures var i := FindPid(procs, pid).value; procs[i].pid == pid && procs[i].status == Statuses(procs)[pid]
  {
    StatusesOf(procs);
  }

  /** Replacing an entry by one with the same pid and program keeps the table in order. */
  lemma UpdateTable(k: KState, i: nat, p: Proc)
    requires TableOk(k.procs, k.curr, k.lastPid) && ProgramsOk(k.procs, k.sems)
    requires i < |k.procs| && p.pid == k.procs[i].pid && p.prog == k.procs[i].prog && WellLoaded(p)
    ensures TableOk(k.procs[i := p], k.curr, k.lastPid) && ProgramsOk(k.procs[i := p], k.sems)
  {
  }

  lemma WithRing(sems: seq<Sem>, j: nat, s: Sem)
    requires j < |sems|
    ensures Rings(sems[j := s]) == Rings(sems)[j := s.waiters]
  {
  }

  // Sizes

  lemma DiskIdsLive(k: KState, pid: nat)
    requires Base(k) && pid in DiskDrain.Ids(k.disk.queue)
    ensures pid < k.lastPid && FindPid(k.procs, pid).Some?
    ensures k.procs[FindPid(k.procs, pid).value].status == Blocked
  {
    assert Has(Statuses(k.procs), pid, Blocked);
    FindPidPresent(k.procs, pid);
  }

  lemma RingPidsLive(k: KState, j: nat, pid: nat)
    requires Base(k) && j < |k.sems| && pid in k.sems[j].waiters
    ensures pid < k.lastPid && FindPid(k.procs, pid).Some?
    ensures k.procs[FindPid(k.procs, pid).value].status == Waiting
  {
    assert pid in Rings(k.sems)[j] && InSomeRing(Rings(k.sems), pid);
    assert Has(Statuses(k.procs), pid, Waiting);
    FindPidPresent(k.procs, pid);
  }

  /** The disk queue always has room for a request from a process that is not already blocked. */
  lemma DiskQueueNeverOverflows(k: KState, i: nat)
    requires Base(k) && i < |k.procs| && k.procs[i].status != Blocked
    ensures |k.disk.queue| + 1 < Disk.MAX_PCB
  {
    var ids := DiskDrain.Ids(k.disk.queue);
    StatusesOf(k.procs);
    var pid := k.procs[i].pid;
    assert !Has(Statuses(k.procs), pid, Blocked);
    forall x | x in ids + [pid]
      ensures x < k.lastPid
    {
      if x in ids {
        DiskIdsLive(k, x);
      }
    }
    assert pid !in ids;
    DistinctBelow(ids + [pid], k.lastPid);
  }

  /** No ring is ever full when a process that is not already waiting has to be put in. */
  lemma RingNeverFull(k: KState, i: nat, j: nat)
    requires Base(k) && i < |k.procs| && k.procs[i].status != Waiting && j < |k.sems|
    ensures |k.sems[j].waiters| < Disk.MAX_PCB - 1 < DEFAULT_WAITERS_NUM - 1
    ensures k.procs[i].pid !in k.sems[j].waiters
  {
    var ring := k.sems[j].waiters;
    StatusesOf(k.procs);
    var pid := k.procs[i].pid;
    assert !Has(Statuses(k.procs), pid, Waiting);
    assert !InSomeRing(Rings(k.sems), pid);
    assert pid !in Rings(k.sems)[j];
    assert ring == Rings(k.sems)[j];
    forall x | x in ring + [pid]
      ensures x < k.lastPid
    {
      if x in ring {
        RingPidsLive(k, j, x);
      }
    }
    DistinctBelow(ring + [pid], k.lastPid);
  }

  // One step at a time

  /** The CPU is executing slot `i`; if anything in the table is marked killed, it is that slot. */
  ghost predicate Busy(k: KState, i: nat) {
    && Base(k) && i < |k.procs|
    && (k.procs[i].status == Running || k.procs[i].status == Kill)
    && OnlyKill(k.procs, i)
  }

  ghost predicate OnlyKill(procs: seq<Proc>, i: nat) {
    forall l :: 0 <= l < |procs| && l != i ==> procs[l].status != Kill
  }

  /** What executing slot `i` leaves: the same table size, and no kill anywhere else. */
  ghost predicate Executed(k: KState, k': KState, i: nat) {
    k'.health == DiskMiss ||
    (Base(k') && |k'.procs| == |k.procs| && OnlyKill(k'.procs, i) && k'.phase == k.phase)
  }

  predicate Held(s: Status) {
    s == Blocked || s == Waiting
  }

  lemma SameHolders(procs: seq<Proc>, i: nat, p: Proc)
    requires Sorted(procs) && i < |procs| && p.pid == procs[i].pid
    requires p.status == procs[i].status || (!Held(p.status) && !Held(procs[i].status))
    ensures forall pid, s :: Held(s) ==> (Has(Statuses(procs), pid, s) <==> Has(Statuses(procs[i := p]), pid, s))
  {
    StatusesAt(procs, i);
    StatusesUpdate(procs, i, p);
  }

  /** Changing an entry without blocking, releasing, renaming or reprogramming it keeps the base. */
  lemma ReplaceEntry(k: KState, i: nat, p: Proc)
    requires Base(k) && i < |k.procs|
    requires p.pid == k.procs[i].pid && p.prog == k.procs[i].prog && WellLoaded(p)
    requires p.status == k.procs[i].status || (!Held(p.status) && !Held(k.procs[i].status))
    ensures Base(k.(procs := k.procs[i := p]))
  {
    UpdateTable(k, i, p);
    SameHolders(k.procs, i, p);
    SyncSameWaiters(Statuses(k.procs), Statuses(k.procs[i := p]), DiskDrain.Ids(k.disk.queue), Rings(k.sems));
  }

  lemma AdvanceKeeps(k: KState, i: nat)
    requires Base(k)
    ensures Base(Advance(k, i))
  {
    if i < |k.procs| {
      ReplaceEntry(k, i, k.procs[i].(pc := k.procs[i].pc + 1));
    }
  }

  /** Changing one semaphore's value and ring keeps every program's semaphores declared. */
  lemma ReplaceSem(k: KState, j: nat, s: Sem)
    requires Base(k) && j < |k.sems|
    requires s.name == k.sems[j].name
    ensures SemsOk(k.sems[j := s]) && ProgramsOk(k.procs, k.sems[j := s])
    ensures Rings(k.sems[j := s]) == Rings(k.sems)[j := s.waiters]
  {
    WithRing(k.sems, j, s);
    forall l | 0 <= l < |k.procs|
      ensures AllDeclared(k.sems[j := s], k.procs[l].prog.sems)
    {
      DeclaredGrows(k.sems, k.sems[j := s], k.procs[l].prog.sems);
    }
  }

  /** The process in slot `i` joins ring `j`. */
  lemma WaitKeeps(k: KState, i: nat, j: nat, s: Sem)
    requires Busy(k, i) && j < |k.sems|
    requires s.name == k.sems[j].name
    requires s.waiters == k.sems[j].waiters + [k.procs[i].pid]
    ensures var p := k.procs[i].(status := Waiting, timeToRun := 0);
      Base(k.(sems := k.sems[j := s], procs := k.procs[i := p]))
  {
    var p := k.procs[i].(status := Waiting, timeToRun := 0);
    ReplaceSem(k, j, s);
    UpdateTable(k, i, p);
    UpdateTable(k.(sems := k.sems[j := s]), i, p);
    StatusesOf(k.procs);
    StatusesUpdate(k.procs, i, p);
    SyncWait(Statuses(k.procs), DiskDrain.Ids(k.disk.queue), Rings(k.sems), p.pid, j);
  }

  lemma PKeeps(k: KState, c: Name, i: nat)
    requires Busy(k, i)
    ensures Executed(k, SemaphoreP(k, c, k.procs[i].pid), i)
  {
    var pid := k.procs[i].pid;
    if Find(k.sems, c).Some? {
      var j := Find(k.sems, c).value;
      var s := Down(k.sems[j], pid);
      if s.value < 0 {
        FindPidSorted(k.procs, i);
        RingNeverFull(k, i, j);
        WaitKeeps(k, i, j, s);
      } else {
        ReplaceSem(k, j, s);
        assert Rings(k.sems)[j := s.waiters] == Rings(k.sems);
      }
    }
  }

  /** The longest-waiting process of ring `j` leaves it. */
  lemma WakeKeeps(k: KState, j: nat)
    requires Base(k) && j < |k.sems| && k.sems[j].waiters != []
    ensures var k1 := k.(sems := k.sems[j := Up(k.sems[j])]);
      Base(MakeReady(k1, k.sems[j].waiters[0]))
    ensures FindPid(k.procs, k.sems[j].waiters[0]).Some?
  {
    var s := Up(k.sems[j]);
    ReplaceSem(k, j, s);
    var pid := k.sems[j].waiters[0];
    RingPidsLive(k, j, pid);
    var l := FindPid(k.procs, pid).value;
    var p := k.procs[l].(status := Ready);
    UpdateTable(k.(sems := k.sems[j := s]), l, p);
    StatusesUpdate(k.procs, l, p);
    SyncWake(Statuses(k.procs), DiskDrain.Ids(k.disk.queue), Rings(k.sems), j, Ready);
  }

  lemma VKeeps(k: KState, c: Name, i: nat)
    requires Busy(k, i)
    ensures Executed(k, SemaphoreV(k, c), i)
  {
    if Find(k.sems, c).Some? {
      var j := Find(k.sems, c).value;
      if k.sems[j].waiters != [] {
        WakeKeeps(k, j);
      } else {
        ReplaceSem(k, j, Up(k.sems[j]));
        assert Rings(k.sems)[j := Up(k.sems[j]).waiters] == Rings(k.sems);
      }
    }
  }

  lemma DiskRequestKeeps(k: KState, i: nat, track: nat)
    requires Busy(k, i)
    ensures Executed(k, DiskRequest(k, k.procs[i].pid, track), i)
  {
    FindPidSorted(k.procs, i);
    if track <= Disk.TOTAL_TRACKS {
      BlockKeeps(k, i, track);
    }
  }

  /** The process in slot `i` is blocked on a new request. */
  lemma BlockKeeps(k: KState, i: nat, track: nat)
    requires Busy(k, i) && track <= Disk.TOTAL_TRACKS
    ensures var p := k.procs[i].(status := Blocked, timeToRun := 0);
      var r := Disk.IoReq(p.pid, Disk.DISK_SLICE, track);
      Base(k.(procs := k.procs[i := p], disk := k.disk.(queue := k.disk.queue + [r])))
  {
    var pid := k.procs[i].pid;
    var p := k.procs[i].(status := Blocked, timeToRun := 0);
    UpdateTable(k, i, p);
    StatusesOf(k.procs);
    StatusesUpdate(k.procs, i, p);
    SyncBlock(Statuses(k.procs), DiskDrain.Ids(k.disk.queue), Rings(k.sems), pid);
    var r := Disk.IoReq(pid, Disk.DISK_SLICE, track);
    assert DiskDrain.Ids(k.disk.queue + [r]) == DiskDrain.Ids(k.disk.queue) + [pid];
  }

  lemma DispatchExec(k: KState, i: nat, region: seq<Instr>)
    requires Busy(k, i) && Fits(k.procs[i], region) && Fetch(k.procs[i]).ExecFor?
    ensures Executed(k, Dispatch(k, i, region), i)
  {
    var p := k.procs[i];
    RedeclarationChangesNothing(k.sems, p.prog.sems);
    var k1 := k.(procs := k.procs[i := RunBurst(p, region)]);
    ReplaceEntry(k, i, RunBurst(p, region));
    AdvanceKeeps(k1, i);
  }

  lemma CountedRequestKeeps(k: KState, i: nat, track: nat)
    requires Busy(k, i)
    ensures var p := k.procs[i];
      var k1 := k.(procs := k.procs[i := p.(rwCount := p.rwCount + 1)]);
      Executed(k, DiskRequest(k1, p.pid, track), i)
  {
    var p := k.procs[i];
    var p1 := p.(rwCount := p.rwCount + 1);
    ReplaceEntry(k, i, p1);
    DiskRequestKeeps(k.(procs := k.procs[i := p1]), i, track);
  }

  /** Moving PC on after a system call. */
  lemma AdvanceExecuted(k: KState, k1: KState, i: nat)
    requires Executed(k, k1, i) && i < |k.procs|
    ensures Executed(k, Advance(k1, i), i)
  {
    if k1.health != DiskMiss {
      AdvanceKeeps(k1, i);
    }
  }

  lemma DispatchDiskOp(k: KState, i: nat, region: seq<Instr>)
    requires Busy(k, i) && Fits(k.procs[i], region) && Fetch(k.procs[i]).DiskOp?
    ensures Executed(k, Dispatch(k, i, region), i)
  {
    var p := k.procs[i];
    var k1 := k.(procs := k.procs[i := p.(rwCount := p.rwCount + 1)]);
    CountedRequestKeeps(k, i, Fetch(p).track);
    AdvanceExecuted(k, DiskRequest(k1, p.pid, Fetch(p).track), i);
  }

  lemma DispatchSemP(k: KState, i: nat, region: seq<Instr>)
    requires Busy(k, i) && Fits(k.procs[i], region) && Fetch(k.procs[i]).SemP?
    ensures Executed(k, Dispatch(k, i, region), i)
  {
    var c := Fetch(k.procs[i]).sem;
    PKeeps(k, c, i);
    AdvanceExecuted(k, SemaphoreP(k, c, k.procs[i].pid), i);
  }

  lemma DispatchSemV(k: KState, i: nat, region: seq<Instr>)
    requires Busy(k, i) && Fits(k.procs[i], region) && Fetch(k.procs[i]).SemV?
    ensures Executed(k, Dispatch(k, i, region), i)
  {
    var c := Fetch(k.procs[i]).sem;
    VKeeps(k, c, i);
    AdvanceExecuted(k, SemaphoreV(k, c), i);
  }

  lemma DispatchOther(k: KState, i: nat, region: seq<Instr>)
    requires Busy(k, i) && Fits(k.procs[i], region)
    requires Fetch(k.procs[i]).PrintFor? || Fetch(k.procs[i]).Unknown?
    ensures Executed(k, Dispatch(k, i, region), i)
  {
    AdvanceKeeps(k, i);
  }

  lemma DispatchKeeps(k: KState, i: nat, region: seq<Instr>)
    requires Busy(k, i) && Fits(k.procs[i], region)
    ensures Executed(k, Dispatch(k, i, region), i)
  {
    match Fetch(k.procs[i]) {
      case SemP(c) => DispatchSemP(k, i, region);
      case SemV(c) => DispatchSemV(k, i, region);
      case ExecFor(_) => DispatchExec(k, i, region);
      case DiskOp(track) => DispatchDiskOp(k, i, region);
      case PrintFor(time) => DispatchOther(k, i, region);
      case Unknown => DispatchOther(k, i, region);
    }
  }

  lemma ExecProcessKeeps(k: KState, region: seq<Instr>)
    requires Core(k) && k.phase.Chosen? && Fits(k.procs[k.phase.slot], region)
    ensures Inv(ExecProcess(k, k.phase.slot, region).(phase := Demoting))
  {
    var i := k.phase.slot;
    FindPidSorted(k.procs, i);
    if k.procs[i].pc == k.procs[i].last {
      ReplaceEntry(k, i, k.procs[i].(status := Kill));
      DispatchKeeps(SetStatus(k, i, Kill), i, region);
    } else {
      DispatchKeeps(k, i, region);
    }
  }

  lemma AppendNew(procs: seq<Proc>, p: Proc, ids: seq<nat>, rings: seq<seq<nat>>)
    requires Sorted(procs + [p]) && !Held(p.status)
    requires InSync(Statuses(procs), ids, rings)
    ensures InSync(Statuses(procs + [p]), ids, rings)
  {
    var procs' := procs + [p];
    forall pid, s | Held(s)
      ensures InTable(procs, pid, s) <==> InTable(procs', pid, s)
    {
      if InTable(procs, pid, s) {
        var i :| 0 <= i < |procs| && procs[i].pid == pid && procs[i].status == s;
        assert procs'[i] == procs[i];
      }
    }
    assert forall i :: 0 <= i < |procs| ==> procs[i] == procs'[i];
    SameHeldSameSync(procs, procs', ids, rings);
  }

  lemma AppendTable(k: KState, p: Proc, sems: seq<Sem>)
    requires TableOk(k.procs, k.curr, k.lastPid) && ProgramsOk(k.procs, sems)
    requires p.pid == k.lastPid && WellLoaded(p) && AllDeclared(sems, p.prog.sems)
    requires k.curr < Disk.MAX_PCB - 1
    ensures TableOk(k.procs + [p], k.curr + 1, k.lastPid + 1) && ProgramsOk(k.procs + [p], sems)
  {
  }

  lemma CreateBase(k: KState, prog: Program, region: seq<Instr>)
    requires Base(k) && |prog.body| <= |region| && k.curr < Disk.MAX_PCB - 1
    ensures Base(CreateProcess(k, prog, region))
  {
    var p := NewProc(k.lastPid, prog, region);
    var sems := DeclareAll(k.sems, prog.sems);
    var ids := DiskDrain.Ids(k.disk.queue);
    DeclareAllDeclares(k.sems, prog.sems);
    DeclareAllOk(k.sems, prog.sems);
    AppendTable(k, p, sems);
    AppendNew(k.procs, p, ids, Rings(k.sems));
    NewRings(k.sems, prog.sems);
    SyncNewRings(Statuses(k.procs + [p]), ids, Rings(k.sems), Rings(sems));
  }

  lemma NewRings(sems: seq<Sem>, names: seq<Name>)
    requires SemsOk(sems)
    ensures var more := DeclareAll(sems, names);
      Rings(sems) <= Rings(more) && forall j :: |sems| <= j < |more| ==> Rings(more)[j] == []
  {
    DeclareAllOk(sems, names);
  }

  lemma CreateKeeps(k: KState, prog: Program, region: seq<Instr>)
    requires Core(k) && Enabled(k, Create(prog, region))
    ensures Core(CreateProcess(k, prog, region))
  {
    if k.curr < Disk.MAX_PCB - 1 {
      CreateBase(k, prog, region);
      AppendPhase(k.procs, NewProc(k.lastPid, prog, region), k.phase);
    }
  }

  lemma AppendPhase(procs: seq<Proc>, p: Proc, phase: Phase)
    requires PhaseOk(procs, phase) && p.status == New
    ensures PhaseOk(procs + [p], phase)
  {
  }

  lemma {:induction false} DeclareAllOk(sems: seq<Sem>, names: seq<Name>)
    requires SemsOk(sems)
    ensures SemsOk(DeclareAll(sems, names))
    ensures forall j :: |sems| <= j < |DeclareAll(sems, names)| ==>
      DeclareAll(sems, names)[j].value == 1 && DeclareAll(sems, names)[j].waiters == []
    decreases |names|
  {
    if names != [] {
      DeclareAllOk(Declare(sems, names[0]), names[1..]);
    }
  }

  lemma DemoteKeeps(k: KState)
    requires Core(k) && k.phase == Demoting
    ensures Core(k.(procs := NoRunning(k.procs), phase := Reaping))
  {
    forall pid, s | Held(s)
      ensures InTable(k.procs, pid, s) <==> InTable(NoRunning(k.procs), pid, s)
    {
    }
    SameHeldSameSync(k.procs, NoRunning(k.procs), DiskDrain.Ids(k.disk.queue), Rings(k.sems));
  }

  lemma SurvivorsHeld(procs: seq<Proc>, pid: nat, s: Status)
    requires Held(s)
    ensures InTable(procs, pid, s) <==> InTable(Survivors(procs), pid, s)
  {
    SurvivorsNotKilled(procs);
    if i :| 0 <= i < |procs| && procs[i].pid == pid && procs[i].status == s {
      assert procs[i] in Survivors(procs);
    }
    if i :| 0 <= i < |Survivors(procs)| && Survivors(procs)[i].pid == pid && Survivors(procs)[i].status == s {
      assert Survivors(procs)[i] in Survivors(procs);
    }
  }

  lemma SurvivorsKeep(k: KState)
    requires Base(k)
    ensures Base(k.(procs := Survivors(k.procs))) && NoKill(Survivors(k.procs))
  {
    var procs := Survivors(k.procs);
    SurvivorsNotKilled(k.procs);
    SurvivorsSorted(k.procs);
    forall pid, s | Held(s)
      ensures InTable(k.procs, pid, s) <==> InTable(procs, pid, s)
    {
      SurvivorsHeld(k.procs, pid, s);
    }
    SameHeldSameSync(k.procs, procs, DiskDrain.Ids(k.disk.queue), Rings(k.sems));
    forall i | 0 <= i < |procs|
      ensures procs[i] in k.procs && procs[i].status != Kill
    {
      assert procs[i] in procs;
    }
  }

  /** With at most one kill in the table, reaping is a filter and keeps everything else. */
  lemma ReapKeeps(k: KState)
    requires Core(k) && k.phase == Reaping
    ensures Reap(k.procs) == Survivors(k.procs)
    ensures Core(k.(procs := Reap(k.procs), phase := Selecting))
  {
    ReapIsFilterIff(k.procs);
    SurvivorsKeep(k);
  }

  lemma SelectKeeps(k: KState)
    requires Core(k) && k.phase == Selecting
    ensures Core(SelectProcess(k))
  {
    if Select(k.procs).Some? {
      var i := Select(k.procs).value;
      ReplaceEntry(k, i, k.procs[i].(status := Running, timeToRun := TIME_SLICE));
    }
  }

  /** Removing the front request and waking its process. */
  lemma FinishKeeps(k: KState)
    requires Base(k) && k.disk.queue != []
    ensures Base(MakeReady(k.(disk := k.disk.(queue := k.disk.queue[1..])), k.disk.queue[0].id))
    ensures var l := FindPid(k.procs, k.disk.queue[0].id);
      l.Some? && k.procs[l.value].status == Blocked
  {
    var q := k.disk.queue;
    var ids := DiskDrain.Ids(q);
    assert ids[0] in ids;
    DiskIdsLive(k, ids[0]);
    var l := FindPid(k.procs, ids[0]).value;
    var p := k.procs[l].(status := Ready);
    UpdateTable(k, l, p);
    StatusesUpdate(k.procs, l, p);
    SyncUnblock(Statuses(k.procs), ids, Rings(k.sems), Ready);
    assert DiskDrain.Ids(q[1..]) == ids[1..];
  }

  lemma SortKeeps(k: KState)
    requires Base(k)
    ensures Base(k.(disk := k.disk.(queue := Disk.SortFront(k.disk.queue, k.disk.track))))
  {
    var q := Disk.SortFront(k.disk.queue, k.disk.track);
    DiskDrain.IdsSorted(k.disk.queue, k.disk.track);
    SyncReorder(Statuses(k.procs), DiskDrain.Ids(k.disk.queue), DiskDrain.Ids(q), Rings(k.sems));
  }

  /** A tick that finishes nothing leaves the same ids queued. */
  lemma ServeKeeps(k: KState, t: Disk.DiskState)
    requires Base(k) && DiskOk(t) && DiskDrain.Ids(t.queue) == DiskDrain.Ids(k.disk.queue)
    ensures Base(k.(disk := t))
  {
  }

  lemma DiskBase(k: KState)
    requires Base(k)
    ensures Base(DiskStep(k))
    ensures var t := Disk.Tick(k.disk).finished; t.Some? ==>
      var l := FindPid(k.procs, t.value);
      l.Some? && k.procs[l.value].status == Blocked
  {
    if k.disk.queue != [] {
      var q := Disk.SortFront(k.disk.queue, k.disk.track);
      var k1 := k.(disk := k.disk.(queue := q));
      var t := Disk.Tick(k.disk);
      SortKeeps(k);
      assert q[0] in q;
      if t.finished.Some? {
        FinishKeeps(k1);
      } else {
        assert DiskDrain.Ids(t.state.queue) == DiskDrain.Ids(q);
        ServeKeeps(k1, t.state);
      }
    }
  }

  lemma DiskKeeps(k: KState)
    requires Core(k)
    ensures Core(DiskStep(k))
  {
    DiskBase(k);
  }

  lemma StepKeeps(k: KState, s: Step)
    requires Inv(k) && Enabled(k, s)
    ensures Inv(Apply(k, s))
  {
    match s {
      case Create(prog, region) => CreateKeeps(k, prog, region);
      case Demote => DemoteKeeps(k);
      case ReapKilled => ReapKeeps(k);
      case SelectNext => SelectKeeps(k);
      case Execute(region) => ExecProcessKeeps(k, region);
      case DiskTick => DiskKeeps(k);
      case PrinterTick =>
    }
  }

  lemma InitOk()
    ensures Core(INIT)
  {
  }

  /** Main result: the invariant holds after every run. */
  lemma {:induction false} RunKeeps(k: KState, steps: seq<Step>)
    requires Inv(k) && Runs(k, steps)
    ensures Inv(Run(k, steps))
    decreases |steps|
  {
    if steps != [] {
      StepKeeps(k, steps[0]);
      RunKeeps(Apply(k, steps[0]), steps[1..]);
    }
  }
}
