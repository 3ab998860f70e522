/** What a whole run does to one semaphore: exact accounting of its value and its waiters. */
module SemaphoreRuns {
  import opened Common
  import opened Process
  import opened Semaphore
  import opened Kernel
  import opened KernelInvariant
  import Disk

  /** The value and the waiters of the semaphore named `c`; undeclared, it would start at 1. */
  datatype Cell = Cell(value: i8, waiters: seq<nat>)

  function CellOf(sems: seq<Sem>, c: Name): Cell {
    match Find(sems, c)
    case None => Cell(1, [])
    case Some(j) => Cell(sems[j].value, sems[j].waiters)
  }

  /** The semaphore operation that a step completes, if any. */
  datatype SemOp = NoOp | OpP(pid: nat) | OpV

  ghost function OpOn(k: KState, s: Step, c: Name): SemOp
    requires Enabled(k, s)
  {
    if s.Execute? && Declared(k.sems, c) then
      var p := k.procs[k.phase.slot];
      if Fetch(p) == SemP(c) then OpP(p.pid) else if Fetch(p) == SemV(c) then OpV else NoOp
    else NoOp
  }

  function CellAfter(cell: Cell, op: SemOp): Cell {
    match op
    case NoOp => cell
    case OpP(pid) =>
      var v := Wrap8(cell.value - 1);
      Cell(v, if v < 0 then cell.waiters + [pid] else cell.waiters)
    case OpV =>
      Cell(Wrap8(cell.value + 1), if cell.waiters != [] then cell.waiters[1..] else cell.waiters)
  }

  lemma FindUnique(sems: seq<Sem>, j: nat)
    requires SemsOk(sems) && j < |sems|
    ensures Find(sems, sems[j].name) == Some(j)
  {
  }

  lemma CellUpdate(sems: seq<Sem>, j: nat, s: Sem, c: Name)
    requires SemsOk(sems) && j < |sems| && s.name == sems[j].name
    ensures CellOf(sems[j := s], c) == if c == s.name then Cell(s.value, s.waiters) else CellOf(sems, c)
  {
    FindUnique(sems, j);
    FindUnique(sems[j := s], j);
    assert forall l :: 0 <= l < |sems| ==> sems[j := s][l].name == sems[l].name;
    if c != s.name && Declared(sems, c) {
      var l := Find(sems, c).value;
      FindUnique(sems[j := s], l);
    }
  }

  lemma {:induction false} CellDeclared(sems: seq<Sem>, names: seq<Name>, c: Name)
    requires SemsOk(sems)
    ensures CellOf(DeclareAll(sems, names), c) == CellOf(sems, c)
    decreases |names|
  {
    if names != [] {
      var more := Declare(sems, names[0]);
      assert CellOf(more, c) == CellOf(sems, c) by {
        if Declared(sems, c) {
          FindUnique(more, Find(sems, c).value);
        } else if Declared(more, c) {
          assert Find(more, c) == Some(|sems|);
        }
      }
      CellDeclared(more, names[1..], c);
    }
  }

  lemma PCell(k: KState, c: Name, i: nat, d: Name)
    requires Busy(k, i)
    ensures var pid := k.procs[i].pid;
      CellOf(SemaphoreP(k, c, pid).sems, d) ==
      if c == d && Declared(k.sems, d) then CellAfter(CellOf(k.sems, d), OpP(pid)) else CellOf(k.sems, d)
  {
    if Find(k.sems, c).Some? {
      var j := Find(k.sems, c).value;
      RingNeverFull(k, i, j);
      CellUpdate(k.sems, j, Down(k.sems[j], k.procs[i].pid), d);
    }
  }

  lemma VCell(k: KState, c: Name, d: Name)
    requires Base(k)
    ensures CellOf(SemaphoreV(k, c).sems, d) ==
      if c == d && Declared(k.sems, d) then CellAfter(CellOf(k.sems, d), OpV) else CellOf(k.sems, d)
  {
    if Find(k.sems, c).Some? {
      var j := Find(k.sems, c).value;
      CellUpdate(k.sems, j, Up(k.sems[j]), d);
    }
  }

  lemma DispatchCell(k: KState, i: nat, region: seq<Instr>, c: Name)
    requires Busy(k, i) && Fits(k.procs[i], region)
    ensures var p := k.procs[i];
      var op := if !Declared(k.sems, c) then NoOp
                else if Fetch(p) == SemP(c) then OpP(p.pid) else if Fetch(p) == SemV(c) then OpV else NoOp;
      CellOf(Dispatch(k, i, region).sems, c) == CellAfter(CellOf(k.sems, c), op)
  {
    var p := k.procs[i];
    match Fetch(p) {
      case SemP(d) => PCell(k, d, i, c);
      case SemV(d) => VCell(k, d, c);
      case ExecFor(_) => CellDeclared(k.sems, p.prog.sems, c);
      case DiskOp(track) =>
      case PrintFor(time) =>
      case Unknown =>
    }
  }

  /** The state in which the command at PC is dispatched: the victim is already marked if it is at its end. */
  function Entered(k: KState, i: nat): KState
    requires i < |k.procs|
  {
    if k.procs[i].pc == k.procs[i].last then KillPid(k, k.procs[i].pid) else k
  }

  lemma EnteredBusy(k: KState)
    requires Core(k) && k.phase.Chosen?
    ensures var i := k.phase.slot;
      var e := Entered(k, i);
      && Busy(e, i)
      && e == (if k.procs[i].pc == k.procs[i].last then SetStatus(k, i, Kill) else k)
      && e.sems == k.sems && Fetch(e.procs[i]) == Fetch(k.procs[i])
      && forall region :: Fits(k.procs[i], region) ==>
           Fits(e.procs[i], region) && ExecProcess(k, i, region) == Dispatch(e, i, region)
  {
    var i := k.phase.slot;
    FindPidSorted(k.procs, i);
    if k.procs[i].pc == k.procs[i].last {
      ReplaceEntry(k, i, k.procs[i].(status := Kill));
    }
  }

  /** Every step changes the semaphore exactly by the operation it completes. */
  lemma StepCell(k: KState, s: Step, c: Name)
    requires Core(k) && Enabled(k, s)
    ensures CellOf(Apply(k, s).sems, c) == CellAfter(CellOf(k.sems, c), OpOn(k, s, c))
  {
    match s {
      case Create(prog, region) =>
        if k.curr < Disk.MAX_PCB - 1 {
          CellDeclared(k.sems, prog.sems, c);
        }
      case Execute(region) =>
        EnteredBusy(k);
        DispatchCell(Entered(k, k.phase.slot), k.phase.slot, region, c);
      case DiskTick =>
      case _ =>
    }
  }

  // Whole runs

  ghost function Ps(k: KState, steps: seq<Step>, c: Name): nat
    requires Runs(k, steps)
    decreases |steps|
  {
    if steps == [] then 0
    else One(OpOn(k, steps[0], c).OpP?) + Ps(Apply(k, steps[0]), steps[1..], c)
  }

  ghost function Vs(k: KState, steps: seq<Step>, c: Name): nat
    requires Runs(k, steps)
    decreases |steps|
  {
    if steps == [] then 0
    else One(OpOn(k, steps[0], c).OpV?) + Vs(Apply(k, steps[0]), steps[1..], c)
  }

  function One(b: bool): nat { if b then 1 else 0 }

  /**
    On every run the value is the initial one, less the Ps, plus the Vs, up to a multiple of 256 for each
    time it wrapped; it is exactly that number if and only if that number fits in 8 bits.
  */
  lemma {:induction false} ValueIsAccount(k: KState, steps: seq<Step>, c: Name) returns (wraps: int)
    requires Core(k) && Runs(k, steps) && Run(k, steps).health == Alive
    ensures var account := CellOf(k.sems, c).value - Ps(k, steps, c) + Vs(k, steps, c);
      && CellOf(Run(k, steps).sems, c).value == account + 256 * wraps
      && (wraps == 0 <==> -128 <= account <= 127)
    decreases |steps|
  {
    if steps == [] {
      wraps := 0;
    } else {
      var k1 := Apply(k, steps[0]);
      StaysAlive(k, steps);
      StepCell(k, steps[0], c);
      wraps := ValueIsAccount(k1, steps[1..], c);
      var op := OpOn(k, steps[0], c);
      if op.OpP? && CellOf(k.sems, c).value == -128 {
        wraps := wraps + 1;
      } else if op.OpV? && CellOf(k.sems, c).value == 127 {
        wraps := wraps - 1;
      }
    }
  }

  /** A run that is still going had not stopped after its first step. */
  lemma StaysAlive(k: KState, steps: seq<Step>)
    requires Core(k) && Runs(k, steps) && steps != []
    requires Run(k, steps).health == Alive
    ensures Core(Apply(k, steps[0]))
  {
    StepKeeps(k, steps[0]);
  }

  /** As many processes wait as the value is below zero. */
  predicate Balanced(cell: Cell) {
    |cell.waiters| == if cell.value < 0 then -(cell.value as int) else 0
  }

  lemma WaitersBounded(k: KState, c: Name)
    requires Base(k)
    ensures |CellOf(k.sems, c).waiters| < Disk.MAX_PCB
  {
    if Declared(k.sems, c) {
      var j := Find(k.sems, c).value;
      forall x | x in k.sems[j].waiters
        ensures x < k.lastPid
      {
        RingPidsLive(k, j, x);
      }
      assert Rings(k.sems)[j] == k.sems[j].waiters;
      DistinctBelow(k.sems[j].waiters, k.lastPid);
    }
  }

  /** A V keeps the balance if and only if the value is not already the largest there is. */
  lemma VBalancedIff(cell: Cell)
    requires Balanced(cell)
    ensures Balanced(CellAfter(cell, OpV)) <==> cell.value != 127
  {
  }

  lemma OpBalanced(cell: Cell, op: SemOp)
    requires Balanced(cell) && -128 < cell.value && cell.value + One(op.OpV?) <= 127
    ensures Balanced(CellAfter(cell, op))
    ensures CellAfter(cell, op).value == cell.value - One(op.OpP?) + One(op.OpV?)
  {
  }

  /** By how much an operation changes the account. */
  function Change(op: SemOp): int {
    if op.OpP? then -1 else if op.OpV? then 1 else 0
  }

  /** In no state of the run has `account`, less the Ps and plus the Vs up to there, passed 127. */
  ghost predicate NeverAbove127(k: KState, steps: seq<Step>, c: Name, account: int)
    requires Runs(k, steps)
    decreases |steps|
  {
    && account <= 127
    && (steps != [] ==> NeverAbove127(Apply(k, steps[0]), steps[1..], c, account + Change(OpOn(k, steps[0], c))))
  }

  /**
    In every state of the run the value is `account`, less the Ps and plus the Vs up to there, and
    exactly as many processes wait as it is below zero.
  */
  ghost predicate ExactThroughout(k: KState, steps: seq<Step>, c: Name, account: int)
    requires Runs(k, steps)
    decreases |steps|
  {
    && CellOf(k.sems, c).value == account && Balanced(CellOf(k.sems, c))
    && (steps != [] ==> ExactThroughout(Apply(k, steps[0]), steps[1..], c, account + Change(OpOn(k, steps[0], c))))
  }

  /** A run's last state is one of its states. */
  lemma {:induction false} ExactAtTheEnd(k: KState, steps: seq<Step>, c: Name, account: int)
    requires Runs(k, steps) && ExactThroughout(k, steps, c, account)
    ensures CellOf(Run(k, steps).sems, c).value == account - Ps(k, steps, c) + Vs(k, steps, c)
    ensures Balanced(CellOf(Run(k, steps).sems, c))
    decreases |steps|
  {
    if steps != [] {
      ExactAtTheEnd(Apply(k, steps[0]), steps[1..], c, account + Change(OpOn(k, steps[0], c)));
    }
  }

  /**
    Main result: the value is the exact account, and the number of waiters exactly what the value is
    below zero, in every state of a run if and only if the account never passes 127.
  */
  lemma {:induction false} AccountIsExactIff(k: KState, steps: seq<Step>, c: Name)
    requires Core(k) && Runs(k, steps) && Run(k, steps).health == Alive
    requires Balanced(CellOf(k.sems, c))
    ensures var v := CellOf(k.sems, c).value;
      NeverAbove127(k, steps, c, v) <==> ExactThroughout(k, steps, c, v)
    decreases |steps|
  {
    if steps != [] {
      var k1, rest := Apply(k, steps[0]), steps[1..];
      var cell, op := CellOf(k.sems, c), OpOn(k, steps[0], c);
      StaysAlive(k, steps);
      StepCell(k, steps[0], c);
      WaitersBounded(k, c);
      if op.OpV? && cell.value == 127 {
        VBalancedIff(cell);
      } else {
        OpBalanced(cell, op);
        AccountIsExactIff(k1, rest, c);
      }
    }
  }

  /** From the start: value = 1 - #P + #V for any semaphore, in every state if and only if that never passes 127. */
  lemma AccountFromStart(steps: seq<Step>, c: Name)
    requires Runs(INIT, steps) && Run(INIT, steps).health == Alive
    ensures NeverAbove127(INIT, steps, c, 1) <==> ExactThroughout(INIT, steps, c, 1)
    ensures NeverAbove127(INIT, steps, c, 1) ==>
      var cell := CellOf(Run(INIT, steps).sems, c);
      cell.value == 1 - Ps(INIT, steps, c) + Vs(INIT, steps, c) && Balanced(cell)
  {
    InitOk();
    AccountIsExactIff(INIT, steps, c);
    if NeverAbove127(INIT, steps, c, 1) {
      ExactAtTheEnd(INIT, steps, c, 1);
    }
  }

  /**
    A V with waiters readies exactly the longest-waiting process: every other process keeps its
    status, and the others keep their order in the ring.
  */
  lemma VWakesTheLongestWaiting(k: KState, c: Name)
    requires Base(k) && Declared(k.sems, c) && CellOf(k.sems, c).waiters != []
    ensures var w := CellOf(k.sems, c).waiters;
      var k' := SemaphoreV(k, c);
      && k'.health == Alive
      && w[0] in Statuses(k.procs) && Statuses(k.procs)[w[0]] == Waiting
      && Statuses(k'.procs) == Statuses(k.procs)[w[0] := Ready]
      && CellOf(k'.sems, c).waiters == w[1..]
  {
    var j := Find(k.sems, c).value;
    var pid := k.sems[j].waiters[0];
    RingPidsLive(k, j, pid);
    var l := FindPid(k.procs, pid).value;
    StatusesOf(k.procs);
    StatusesUpdate(k.procs, l, k.procs[l].(status := Ready));
    VCell(k, c, c);
  }
}
