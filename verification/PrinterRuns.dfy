/** Print jobs across whole runs of the kernel: every job is printed once, in the order of the print commands. */
module PrinterRuns {
  import opened Common
  import opened Process
  import opened Kernel
  import opened KernelInvariant
  import opened SemaphoreRuns
  import Printer

  /** The job that a step submits, if any. */
  ghost function JobOf(k: KState, s: Step): Option<Printer.Job>
    requires Enabled(k, s)
  {
    if s.Execute? && Fetch(k.procs[k.phase.slot]).PrintFor?
    then Some(Printer.Job(Fetch(k.procs[k.phase.slot]).time, k.procs[k.phase.slot].pid))
    else None
  }

  /** What a step does to the printer alone. */
  ghost function PrinterAfter(k: KState, s: Step): Printer.PrinterState
    requires Enabled(k, s)
  {
    if s.PrinterTick? then Printer.Tick(k.printer).state
    else match JobOf(k, s) case None => k.printer case Some(j) => Printer.Submit(k.printer, j)
  }

  lemma DispatchPrinter(k: KState, i: nat, region: seq<Instr>)
    requires i < |k.procs| && Fits(k.procs[i], region)
    ensures Dispatch(k, i, region).printer ==
      if Fetch(k.procs[i]).PrintFor?
      then Printer.Submit(k.printer, Printer.Job(Fetch(k.procs[i]).time, k.procs[i].pid)) else k.printer
  {
  }

  lemma StepPrinter(k: KState, s: Step)
    requires Core(k) && Enabled(k, s)
    ensures Apply(k, s).printer == PrinterAfter(k, s)
  {
    if s.Execute? {
      EnteredBusy(k);
      DispatchPrinter(Entered(k, k.phase.slot), k.phase.slot, s.region);
    }
  }

  /** The pid whose job a step completes. */
  ghost function PrintedBy(k: KState, s: Step): seq<nat>
    requires Enabled(k, s)
  {
    if s.PrinterTick? then Reported(Printer.Tick(k.printer).done) else []
  }

  ghost function RequestedBy(k: KState, s: Step): seq<nat>
    requires Enabled(k, s)
  {
    match JobOf(k, s) case None => [] case Some(j) => [j.pid]
  }

  ghost function PrintedIn(k: KState, steps: seq<Step>): seq<nat>
    requires Runs(k, steps)
    decreases |steps|
  {
    if steps == [] then [] else PrintedBy(k, steps[0]) + PrintedIn(Apply(k, steps[0]), steps[1..])
  }

  ghost function RequestedIn(k: KState, steps: seq<Step>): seq<nat>
    requires Runs(k, steps)
    decreases |steps|
  {
    if steps == [] then [] else RequestedBy(k, steps[0]) + RequestedIn(Apply(k, steps[0]), steps[1..])
  }

  lemma StepKeepsOrder(k: KState, s: Step)
    requires Core(k) && Enabled(k, s)
    ensures PrintedBy(k, s) + Printer.Pending(Apply(k, s).printer) == Printer.Pending(k.printer) + RequestedBy(k, s)
  {
    StepPrinter(k, s);
    match JobOf(k, s) {
      case Some(j) => Printer.ArrivalKeepsOrder(k.printer, j);
      case None =>
        if s.PrinterTick? {
          Printer.TickKeepsOrder(k.printer);
        }
    }
  }

  /**
    On every run, what was printed followed by what is pending is what was pending followed by the pids of
    the dispatched print commands, in the order of their dispatch.
  */
  lemma {:induction false} PrintedInOrder(k: KState, steps: seq<Step>)
    requires Core(k) && Runs(k, steps) && Run(k, steps).health == Alive
    ensures PrintedIn(k, steps) + Printer.Pending(Run(k, steps).printer)
         == Printer.Pending(k.printer) + RequestedIn(k, steps)
    decreases |steps|
  {
    if steps != [] {
      var k1, rest := Apply(k, steps[0]), steps[1..];
      StaysAlive(k, steps);
      StepKeepsOrder(k, steps[0]);
      PrintedInOrder(k1, rest);
      Printer.Regroup(PrintedBy(k, steps[0]), PrintedIn(k1, rest), Printer.Pending(Run(k1, rest).printer),
                      Printer.Pending(k1.printer), RequestedIn(k1, rest), Printer.Pending(k.printer), RequestedBy(k, steps[0]));
    }
  }

  /** The step is a tick of a printer that has something to do. */
  ghost predicate BusyTick(k: KState, s: Step) {
    s.PrinterTick? && k.printer != Printer.PrinterState([], None)
  }

  /** The ticks that a step asks of the printer: a job's time, at least one, and one more to wake it. */
  ghost function TicksAsked(k: KState, s: Step): nat
    requires Enabled(k, s)
  {
    if s.Execute? && Fetch(k.procs[k.phase.slot]).PrintFor? then
      var time := Fetch(k.procs[k.phase.slot]).time;
      (if time == 0 then 1 else time) + One(k.printer == Printer.PrinterState([], None))
    else 0
  }

  ghost function BusyTicks(k: KState, steps: seq<Step>): nat
    requires Runs(k, steps)
    decreases |steps|
  {
    if steps == [] then 0 else One(BusyTick(k, steps[0])) + BusyTicks(Apply(k, steps[0]), steps[1..])
  }

  ghost function TicksAskedIn(k: KState, steps: seq<Step>): nat
    requires Runs(k, steps)
    decreases |steps|
  {
    if steps == [] then 0 else TicksAsked(k, steps[0]) + TicksAskedIn(Apply(k, steps[0]), steps[1..])
  }

  lemma StepPrintTime(k: KState, s: Step)
    requires Core(k) && Enabled(k, s)
    ensures Printer.DrainTime(Apply(k, s).printer) + One(BusyTick(k, s))
         == Printer.DrainTime(k.printer) + TicksAsked(k, s)
  {
    StepPrinter(k, s);
    match JobOf(k, s) {
      case Some(j) => Printer.SubmitTakes(k.printer, j.time, j.pid);
      case None => Printer.TickTakesOne(k.printer);
    }
  }

  /** On every run, the ticks the printer was busy and those it still needs are the ones asked for. */
  lemma {:induction false} PrintTimeIsConserved(k: KState, steps: seq<Step>)
    requires Core(k) && Runs(k, steps) && Run(k, steps).health == Alive
    ensures Printer.DrainTime(Run(k, steps).printer) + BusyTicks(k, steps)
         == Printer.DrainTime(k.printer) + TicksAskedIn(k, steps)
    decreases |steps|
  {
    if steps != [] {
      StaysAlive(k, steps);
      StepPrintTime(k, steps[0]);
      PrintTimeIsConserved(Apply(k, steps[0]), steps[1..]);
    }
  }
}
