/** Disk requests over whole runs of the kernel: every request is finished at most once, and none is lost. */
module DiskRuns {
  import opened Common
  import opened Process
  import opened Kernel
  import opened KernelInvariant
  import opened SemaphoreRuns
  import opened KernelResults
  import opened Commands
  import Disk
  import DiskDrain

  /** The pid whose request a step queues, if any. */
  ghost function QueuedBy(k: KState, s: Step): seq<nat>
    requires Enabled(k, s)
  {
    if s.Execute? && Fetch(k.procs[k.phase.slot]).DiskOp? then [k.procs[k.phase.slot].pid] else []
  }

  /** The pid whose request a step finishes, if any. */
  ghost function FinishedBy(k: KState, s: Step): seq<nat>
    requires Enabled(k, s)
  {
    if s.DiskTick? then Reported(Disk.Tick(k.disk).finished) else []
  }

  ghost function QueuedIn(k: KState, steps: seq<Step>): seq<nat>
    requires Runs(k, steps)
    decreases |steps|
  {
    if steps == [] then [] else QueuedBy(k, steps[0]) + QueuedIn(Apply(k, steps[0]), steps[1..])
  }

  ghost function FinishedIn(k: KState, steps: seq<Step>): seq<nat>
    requires Runs(k, steps)
    decreases |steps|
  {
    if steps == [] then [] else FinishedBy(k, steps[0]) + FinishedIn(Apply(k, steps[0]), steps[1..])
  }

  lemma OtherCommandLeavesDisk(k: KState, i: nat, region: seq<Instr>)
    requires i < |k.procs| && Fits(k.procs[i], region) && !Fetch(k.procs[i]).DiskOp?
    ensures Dispatch(k, i, region).disk == k.disk
  {
  }

  /** A step that is no disk tick changes the queue exactly by the request it dispatches. */
  lemma StepQueues(k: KState, s: Step)
    requires Core(k) && Enabled(k, s) && Apply(k, s).health == Alive && !s.DiskTick?
    ensures DiskDrain.Ids(Apply(k, s).disk.queue) == DiskDrain.Ids(k.disk.queue) + QueuedBy(k, s)
  {
    if s.Execute? {
      var i := k.phase.slot;
      if Fetch(k.procs[i]).DiskOp? {
        StopsOnlyOnMissingTrack(k, s);
        DiskIs(k, s.region, Fetch(k.procs[i]).track);
      } else {
        EnteredBusy(k);
        OtherCommandLeavesDisk(Entered(k, i), i, s.region);
      }
    }
  }

  lemma StepKeepsRequests(k: KState, s: Step)
    requires Core(k) && Enabled(k, s) && Apply(k, s).health == Alive
    ensures multiset(FinishedBy(k, s)) + multiset(DiskDrain.Ids(Apply(k, s).disk.queue))
         == multiset(DiskDrain.Ids(k.disk.queue)) + multiset(QueuedBy(k, s))
  {
    if s.DiskTick? {
      DiskStepTicks(k);
      if k.disk.queue != [] {
        DiskDrain.TickIds(k.disk);
      }
    } else {
      StepQueues(k, s);
    }
  }

  /** Two balances in a row are one. */
  lemma Balance(f: seq<nat>, fs: seq<nat>, q0: seq<nat>, q1: seq<nat>, q2: seq<nat>, r: seq<nat>, rs: seq<nat>)
    requires multiset(f) + multiset(q1) == multiset(q0) + multiset(r)
    requires multiset(fs) + multiset(q2) == multiset(q1) + multiset(rs)
    ensures multiset(f + fs) + multiset(q2) == multiset(q0) + multiset(r + rs)
  {
    assert multiset(f + fs) + multiset(q2) == multiset(f) + (multiset(fs) + multiset(q2));
    assert multiset(f) + (multiset(q1) + multiset(rs)) == (multiset(f) + multiset(q1)) + multiset(rs);
    assert multiset(q0) + multiset(r + rs) == (multiset(q0) + multiset(r)) + multiset(rs);
  }

  /**
    On every run, the requests finished and those still queued are the ones queued at the start and the
    ones dispatched, each as often.
  */
  lemma {:induction false} RequestsAreConserved(k: KState, steps: seq<Step>)
    requires Core(k) && Runs(k, steps) && Run(k, steps).health == Alive
    ensures multiset(FinishedIn(k, steps)) + multiset(DiskDrain.Ids(Run(k, steps).disk.queue))
         == multiset(DiskDrain.Ids(k.disk.queue)) + multiset(QueuedIn(k, steps))
    decreases |steps|
  {
    if steps != [] {
      var k1, rest := Apply(k, steps[0]), steps[1..];
      StaysAlive(k, steps);
      StepKeepsRequests(k, steps[0]);
      RequestsAreConserved(k1, rest);
      Balance(FinishedBy(k, steps[0]), FinishedIn(k1, rest), DiskDrain.Ids(k.disk.queue), DiskDrain.Ids(k1.disk.queue),
              DiskDrain.Ids(Run(k1, rest).disk.queue), QueuedBy(k, steps[0]), QueuedIn(k1, rest));
    }
  }
}
