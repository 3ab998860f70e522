/**
  Where each step leaves every process: only an execution moves a program, and only its own. Statuses
  and slices are left aside here, so that the accounts of work and of semaphores need not follow them.
*/
module KernelEffects {
  import opened Process
  import opened Semaphore
  import opened Kernel
  import opened KernelInvariant
  import opened SemaphoreRuns
  import Disk

  /** Equal up to the status and the time left of the slice. */
  predicate SamePlace(a: Proc, b: Proc) {
    a.(status := b.status, timeToRun := b.timeToRun) == b
  }

  /** The place of a process after one dispatch. */
  function Moved(p: Proc, region: seq<Instr>): Proc
    requires Fits(p, region)
  {
    match Fetch(p)
    case ExecFor(_) =>
      var r := RunBurst(p, region);
      if Fetch(r).ExecFor? && Fetch(r).time > 0 then r else r.(pc := r.pc + 1)
    case DiskOp(_) => p.(rwCount := p.rwCount + 1, pc := p.pc + 1)
    case _ => p.(pc := p.pc + 1)
  }

  /** The same processes at the same places, whatever their statuses. */
  ghost predicate SamePlaces(procs: seq<Proc>, procs': seq<Proc>) {
    |procs| == |procs'| && forall l :: 0 <= l < |procs| ==> SamePlace(procs[l], procs'[l])
  }

  ghost predicate MovedAt(procs: seq<Proc>, procs': seq<Proc>, i: nat, p: Proc)
  {
    && |procs| == |procs'| && i < |procs|
    && (forall l :: 0 <= l < |procs| && l != i ==> SamePlace(procs[l], procs'[l]))
    && SamePlace(p, procs'[i])
  }

  lemma SuspendPlaces(k: KState, pid: nat, s: Status)
    ensures SamePlaces(k.procs, Suspend(k, pid, s).procs)
    ensures SamePlaces(k.procs, MakeReady(k, pid).procs)
    ensures SamePlaces(k.procs, KillPid(k, pid).procs)
  {
  }

  lemma AdvancePlaces(k: KState, k1: KState, i: nat)
    requires SamePlaces(k.procs, k1.procs) && i < |k.procs|
    ensures MovedAt(k.procs, Advance(k1, i).procs, i, k.procs[i].(pc := k.procs[i].pc + 1))
  {
  }

  lemma DiskOpPlaces(k: KState, i: nat, track: nat)
    requires i < |k.procs|
    ensures var p := k.procs[i].(rwCount := k.procs[i].rwCount + 1);
      var k1 := k.(procs := k.procs[i := p]);
      SamePlaces(k1.procs, DiskRequest(k1, p.pid, track).procs)
  {
    var p := k.procs[i].(rwCount := k.procs[i].rwCount + 1);
    SuspendPlaces(k.(procs := k.procs[i := p]), p.pid, Blocked);
  }

  lemma DiskOpEffect(k: KState, i: nat, region: seq<Instr>)
    requires i < |k.procs| && Fits(k.procs[i], region) && Fetch(k.procs[i]).DiskOp?
    ensures MovedAt(k.procs, Dispatch(k, i, region).procs, i, Moved(k.procs[i], region))
  {
    var p := k.procs[i].(rwCount := k.procs[i].rwCount + 1);
    var k1 := k.(procs := k.procs[i := p]);
    var track := Fetch(p).track;
    DiskOpPlaces(k, i, track);
    AdvancePlaces(k1, DiskRequest(k1, p.pid, track), i);
    MovedFromUpdated(k.procs, p, Dispatch(k, i, region).procs, i, Moved(k.procs[i], region));
  }

  lemma MovedFromUpdated(procs: seq<Proc>, p: Proc, procs': seq<Proc>, i: nat, m: Proc)
    requires i < |procs| && MovedAt(procs[i := p], procs', i, m)
    ensures MovedAt(procs, procs', i, m)
  {
    forall l | 0 <= l < |procs| && l != i
      ensures SamePlace(procs[l], procs'[l])
    {
      assert procs[i := p][l] == procs[l];
    }
  }

  lemma BurstEffect(k: KState, i: nat, region: seq<Instr>)
    requires i < |k.procs| && Fetch(k.procs[i]).ExecFor? && Fits(k.procs[i], region)
    ensures MovedAt(k.procs, Dispatch(k, i, region).procs, i, Moved(k.procs[i], region))
  {
  }

  lemma SemEffect(k: KState, i: nat, region: seq<Instr>)
    requires i < |k.procs| && Fits(k.procs[i], region)
    requires Fetch(k.procs[i]).SemP? || Fetch(k.procs[i]).SemV?
    ensures MovedAt(k.procs, Dispatch(k, i, region).procs, i, Moved(k.procs[i], region))
  {
    var p := k.procs[i];
    var c := Fetch(p).sem;
    AdvancePlaces(k, if Fetch(p).SemP? then SemaphoreP(k, c, p.pid) else SemaphoreV(k, c), i);
  }

  lemma OtherCommandEffect(k: KState, i: nat, region: seq<Instr>)
    requires i < |k.procs| && Fits(k.procs[i], region)
    requires Fetch(k.procs[i]).PrintFor? || Fetch(k.procs[i]).Unknown?
    ensures MovedAt(k.procs, Dispatch(k, i, region).procs, i, Moved(k.procs[i], region))
  {
    AdvancePlaces(k, k, i);
  }

  lemma DispatchEffect(k: KState, i: nat, region: seq<Instr>)
    requires i < |k.procs| && Fits(k.procs[i], region)
    ensures MovedAt(k.procs, Dispatch(k, i, region).procs, i, Moved(k.procs[i], region))
  {
    match Fetch(k.procs[i]) {
      case SemP(_) => SemEffect(k, i, region);
      case SemV(_) => SemEffect(k, i, region);
      case ExecFor(_) => BurstEffect(k, i, region);
      case DiskOp(_) => DiskOpEffect(k, i, region);
      case PrintFor(_) => OtherCommandEffect(k, i, region);
      case Unknown => OtherCommandEffect(k, i, region);
    }
  }

  lemma MovedWhateverStatus(p: Proc, s: Status, region: seq<Instr>)
    requires Fits(p, region)
    ensures Moved(p.(status := s), region) == Moved(p, region).(status := s)
  {
  }

  /** Executing moves the chosen process by one dispatch and nobody else. */
  lemma ExecuteEffect(k: KState, region: seq<Instr>)
    requires Core(k) && Enabled(k, Execute(region))
    ensures var i := k.phase.slot;
      MovedAt(k.procs, Apply(k, Execute(region)).procs, i, Moved(k.procs[i], region))
  {
    var i := k.phase.slot;
    var p := k.procs[i];
    var e := Entered(k, i);
    EnteredBusy(k);
    DispatchEffect(e, i, region);
    if p.pc == p.last {
      MovedWhateverStatus(p, Kill, region);
      MovedFromUpdated(k.procs, p.(status := Kill), Dispatch(e, i, region).procs, i, Moved(p, region).(status := Kill));
    }
  }

  /** Steps other than creating, reaping and executing move nobody. */
  lemma OtherEffect(k: KState, s: Step)
    requires Enabled(k, s) && (s.Demote? || s.SelectNext? || s.DiskTick? || s.PrinterTick?)
    ensures SamePlaces(k.procs, Apply(k, s).procs)
  {
    if s.DiskTick? {
      var t := Disk.Tick(k.disk);
      if t.finished.Some? {
        SuspendPlaces(k.(disk := t.state), t.finished.value, Ready);
      }
    }
  }
}
