/** Processes that only use the CPU are dispatched strictly in turn, until the 8-bit counter wraps. */
module RoundRobin {
  import opened Common
  import opened Process
  import opened Scheduler
  import opened Kernel
  import opened KernelInvariant
  import opened KernelEffects
  import opened WorkAccounting
  import opened Termination
  import opened KernelResults
  import DiskDrain

  /** One iteration of the CPU thread with nothing in between. */
  ghost function CpuTick(k: KState, region: seq<Instr>): KState {
    var s := Selected(k);
    if s.phase.Chosen? && s.phase.slot < |s.procs| && Fits(s.procs[s.phase.slot], region)
    then ExecProcess(s, s.phase.slot, region).(phase := Demoting)
    else s
  }

  /** It is its four steps, one after the other. */
  lemma CpuTickIsFourSteps(k: KState, region: seq<Instr>)
    requires k.health == Alive && k.phase == Demoting
    requires var s := Selected(k);
      s.phase.Chosen? && s.phase.slot < |s.procs| && Fits(s.procs[s.phase.slot], region)
    ensures Enabled(k, Demote)
    ensures var k1 := Apply(k, Demote);
      Enabled(k1, ReapKilled) &&
      var k2 := Apply(k1, ReapKilled);
      Enabled(k2, SelectNext) &&
      var k3 := Apply(k2, SelectNext);
      Enabled(k3, Execute(region)) && Apply(k3, Execute(region)) == CpuTick(k, region)
  {
  }

  /** Nothing but exec commands from PC on, and no disk operations so far. */
  ghost predicate CpuOnly(p: Proc) {
    && p.rwCount == 0
    && !Held(p.status) && p.status != Kill
    && p.pc <= p.last <= |p.code|
    && forall j :: p.pc <= j < p.last ==> p.code[j].ExecFor?
  }

  /** Dispatched `used` times, with work for more than `rounds` dispatches in all. */
  ghost predicate InTurn(p: Proc, used: nat, rounds: nat) {
    CpuOnly(p) && p.hUsed == used && Work(p) + used > rounds
  }

  /** A turn in the rotation: `round` full rounds and `slot` turns of the next one have been taken. */
  datatype Place = Place(round: nat, slot: nat)

  function Next(t: Place, n: nat): Place {
    if t.slot + 1 == n then Place(t.round + 1, 0) else Place(t.round, t.slot + 1)
  }

  /** How often slot `j` has been dispatched when it is turn `t`. */
  function UsedAt(t: Place, j: nat): nat {
    if j < t.slot then t.round + 1 else t.round
  }

  ghost predicate TurnTable(procs: seq<Proc>, t: Place, rounds: nat) {
    t.slot < |procs| && forall j :: 0 <= j < |procs| ==> InTurn(procs[j], UsedAt(t, j), rounds)
  }

  /** At any point of the CPU thread's cycle: it is turn `t`, and only its slot can be held on to. */
  ghost predicate OnTurn(k: KState, t: Place, rounds: nat) {
    Core(k) && TurnTable(k.procs, t, rounds) && (k.phase.Chosen? ==> k.phase.slot == t.slot)
  }

  /** At the point of selection. */
  ghost function Offered(k: KState): seq<Proc> {
    Reap(NoRunning(k.procs))
  }

  ghost function Selected(k: KState): KState {
    SelectProcess(k.(procs := Offered(k), phase := Selecting))
  }

  // Tables

  lemma DemotedInTurn(procs: seq<Proc>, t: Place, rounds: nat)
    requires TurnTable(procs, t, rounds)
    ensures TurnTable(NoRunning(procs), t, rounds)
  {
    forall j | 0 <= j < |procs|
      ensures InTurn(NoRunning(procs)[j], UsedAt(t, j), rounds)
    {
      assert InTurn(procs[j], UsedAt(t, j), rounds);
    }
  }

  lemma NothingToReap(procs: seq<Proc>)
    requires forall j :: 0 <= j < |procs| ==> procs[j].status != Kill
    ensures Reap(procs) == procs
  {
    SurvivorsAll(procs);
    ReapIsFilterIff(procs);
  }

  /** The process whose turn it is precedes all others, and nobody is reaped. */
  lemma TurnIsMinimum(procs: seq<Proc>, t: Place, rounds: nat)
    requires Sorted(procs) && TurnTable(procs, t, rounds)
    ensures Reap(procs) == procs && Select(procs) == Some(t.slot)
  {
    NothingToReap(procs);
    SelectIs(procs, t.slot);
  }

  /** The entry as it is when it is executed. */
  function Granted(p: Proc): Proc {
    p.(status := Running, timeToRun := TIME_SLICE)
  }

  lemma TableGranted(procs: seq<Proc>, t: Place, rounds: nat)
    requires TurnTable(procs, t, rounds)
    ensures TurnTable(procs[t.slot := Granted(procs[t.slot])], t, rounds)
  {
    assert InTurn(procs[t.slot], t.round, rounds);
  }

  lemma TablePassed(procs: seq<Proc>, t: Place, rounds: nat, m: Proc)
    requires TurnTable(procs, t, rounds) && InTurn(m, t.round + 1, rounds)
    ensures TurnTable(procs[t.slot := m], Next(t, |procs|), rounds)
  {
    var passed := procs[t.slot := m];
    forall j | 0 <= j < |procs|
      ensures InTurn(passed[j], UsedAt(Next(t, |procs|), j), rounds)
    {
      if j != t.slot {
        assert InTurn(procs[j], UsedAt(t, j), rounds);
      }
    }
  }

  /** What a dispatched exec leaves of the entry, apart from its code and PC. */
  lemma ExecMovedFields(p: Proc, region: seq<Instr>)
    requires Fetch(p).ExecFor? && Fits(p, region) && p.rwCount == 0 && p.hUsed <= 255
    ensures var m := Moved(p, region);
      && m.pid == p.pid && m.prog == p.prog && m.status == p.status && m.rwCount == 0
      && m.hUsed == if p.hUsed == 255 then 0 else p.hUsed + 1
  {
  }

  /** One dispatch of a process with CPU work left. */
  lemma CpuOnlyMoved(p: Proc, region: seq<Instr>)
    requires WellLoaded(p) && CpuOnly(p) && p.pc < p.last && p.timeToRun == TIME_SLICE && Fits(p, region)
    requires p.hUsed < 255
    ensures var m := Moved(p, region);
      && CpuOnly(m) && m.pid == p.pid && m.prog == p.prog && m.hUsed == p.hUsed + 1
      && Work(m) == Work(p) - 1
  {
    var m := Moved(p, region);
    MovedCode(p, region);
    ExecMovedFields(p, region);
    MovedRest(p, region);
  }

  lemma ExecutedInTurn(k: KState, r: nat, region: seq<Instr>)
    requires Core(k) && k.phase == Chosen(r) && Fits(k.procs[r], region)
    requires k.procs[r].pc < k.procs[r].last && Fetch(k.procs[r]).ExecFor?
    ensures var k' := ExecProcess(k, r, region).(phase := Demoting);
      Core(k') && k'.procs == k.procs[r := Moved(k.procs[r], region)] && k'.health == Alive
  {
    ExecProcessKeeps(k, region);
  }

  // One step

  /** With nobody blocked, the disk has nothing to do. */
  lemma DiskIsIdle(k: KState)
    requires Core(k) && forall j :: 0 <= j < |k.procs| ==> !Held(k.procs[j].status)
    ensures DiskStep(k) == k
  {
    if k.disk.queue != [] {
      assert DiskDrain.Ids(k.disk.queue)[0] == k.disk.queue[0].id;
      DiskIdsLive(k, k.disk.queue[0].id);
    }
  }

  lemma DemoteRotates(k: KState, t: Place, rounds: nat)
    requires OnTurn(k, t, rounds) && Enabled(k, Demote)
    ensures OnTurn(Apply(k, Demote), t, rounds)
  {
    DemoteKeeps(k);
    DemotedInTurn(k.procs, t, rounds);
  }

  lemma ReapRotates(k: KState, t: Place, rounds: nat)
    requires OnTurn(k, t, rounds) && Enabled(k, ReapKilled)
    ensures OnTurn(Apply(k, ReapKilled), t, rounds) && Apply(k, ReapKilled).procs == k.procs
  {
    ReapKeeps(k);
    TurnIsMinimum(k.procs, t, rounds);
  }

  lemma SelectRotates(k: KState, t: Place, rounds: nat)
    requires OnTurn(k, t, rounds) && k.phase == Selecting
    ensures OnTurn(SelectProcess(k), t, rounds)
    ensures SelectProcess(k).procs == k.procs[t.slot := Granted(k.procs[t.slot])]
  {
    TurnIsMinimum(k.procs, t, rounds);
    SelectKeeps(k);
    TableGranted(k.procs, t, rounds);
  }

  lemma ExecuteRotates(k: KState, region: seq<Instr>, t: Place, rounds: nat)
    requires OnTurn(k, t, rounds) && Enabled(k, Execute(region)) && t.round < rounds && t.round < 255
    ensures OnTurn(Apply(k, Execute(region)), Next(t, |k.procs|), rounds)
    ensures |Apply(k, Execute(region)).procs| == |k.procs|
  {
    var p := k.procs[t.slot];
    assert InTurn(p, t.round, rounds);
    ExecutedInTurn(k, t.slot, region);
    CpuOnlyMoved(p, region);
    TablePassed(k.procs, t, rounds, Moved(p, region));
  }

  /** The turn after a step. */
  function After(t: Place, s: Step, n: nat): Place {
    if s.Execute? then Next(t, n) else t
  }

  /**
    Main step: no step but an execution, of the CPU thread or of a device, takes the turn away from the
    slot that has it; an execution is of this slot, and then it is the next slot's turn.
  */
  lemma RotationStep(k: KState, s: Step, t: Place, rounds: nat) returns (k': KState)
    requires OnTurn(k, t, rounds) && Enabled(k, s) && !s.Create?
    requires s.Execute? ==> t.round < rounds && t.round < 255
    ensures k' == Apply(k, s) && OnTurn(k', After(t, s, |k.procs|), rounds) && |k'.procs| == |k.procs|
    ensures s.Execute? ==> k.phase == Chosen(t.slot)
  {
    k' := Apply(k, s);
    match s {
      case Demote => DemoteRotates(k, t, rounds);
      case ReapKilled => ReapRotates(k, t, rounds);
      case SelectNext => SelectRotates(k, t, rounds);
      case Execute(region) => ExecuteRotates(k, region, t, rounds);
      case DiskTick =>
        DiskIsIdle(k);
      case PrinterTick => StepKeeps(k, s);
    }
  }

  // Whole runs

  ghost predicate NoCreations(steps: seq<Step>) {
    forall i :: 0 <= i < |steps| ==> !steps[i].Create?
  }

  /** The turn `d` dispatches later, among `n` processes. */
  function Later(t: Place, n: nat, d: nat): Place
    decreases d
  {
    if d == 0 then t else Later(Next(t, n), n, d - 1)
  }

  /** The next `d` dispatches all belong to one of the first `b` rounds. */
  predicate InRounds(t: Place, n: nat, d: nat, b: nat)
    decreases d
  {
    d > 0 ==> t.round < b && InRounds(Next(t, n), n, d - 1, b)
  }

  lemma {:induction false} Multiples(a: nat, b: nat, n: nat)
    requires a < b
    ensures a * n + n <= b * n
  {
    if a + 1 < b {
      Multiples(a, b - 1, n);
    }
    assert b * n == (b - 1) * n + n;
  }

  /** The rotation counts in rounds of `n`. */
  lemma {:induction false} LaterIsDivision(t: Place, n: nat, d: nat, q: nat, r: nat)
    requires t.slot < n && r < n && t.round * n + t.slot + d == q * n + r
    ensures Later(t, n, d) == Place(q, r)
    decreases d
  {
    if d == 0 {
      if t.round < q {
        Multiples(t.round, q, n);
      } else if q < t.round {
        Multiples(q, t.round, n);
      }
    } else {
      assert (t.round + 1) * n == t.round * n + n;
      LaterIsDivision(Next(t, n), n, d - 1, q, r);
    }
  }

  lemma {:induction false} DivisionInRounds(t: Place, n: nat, d: nat, b: nat)
    requires t.slot < n && t.round * n + t.slot + d <= b * n
    ensures InRounds(t, n, d, b)
    decreases d
  {
    if d > 0 {
      if b < t.round {
        Multiples(b, t.round, n);
      }
      assert (t.round + 1) * n == t.round * n + n;
      DivisionInRounds(Next(t, n), n, d - 1, b);
    }
  }

  const START: Place := Place(0, 0)

  /** Dispatch q*n + r is turn `r` of round `q`, and those before it belong to at most `b` rounds. */
  lemma TurnsFromStart(n: nat, d: nat, q: nat, r: nat, b: nat)
    requires r < n && d == q * n + r && (q < b || (q == b && r == 0))
    ensures Later(START, n, d) == Place(q, r) && InRounds(START, n, d, b)
  {
    LaterIsDivision(START, n, d, q, r);
    if q < b {
      Multiples(q, b, n);
    }
    DivisionInRounds(START, n, d, b);
  }

  lemma {:induction false} MoreRounds(t: Place, n: nat, d: nat, b: nat, b': nat)
    requires InRounds(t, n, d, b) && b <= b'
    ensures InRounds(t, n, d, b')
    decreases d
  {
    if d > 0 {
      MoreRounds(Next(t, n), n, d - 1, b, b');
    }
  }

  /** Where the rotation stands after a run. */
  lemma {:induction false} RotationRun(k: KState, steps: seq<Step>, t: Place, rounds: nat, n: nat)
    requires OnTurn(k, t, rounds) && Runs(k, steps) && NoCreations(steps) && n == |k.procs|
    requires InRounds(t, n, AllDispatches(k, steps), rounds) && InRounds(t, n, AllDispatches(k, steps), 255)
    ensures |Run(k, steps).procs| == n
    ensures OnTurn(Run(k, steps), Later(t, n, AllDispatches(k, steps)), rounds)
    decreases |steps|
  {
    if steps != [] {
      var k1 := RotationStep(k, steps[0], t, rounds);
      RotationRun(k1, steps[1..], After(t, steps[0], n), rounds, n);
    }
  }

  /** Slot `i` is the one that is about to be selected, or has been. */
  ghost predicate Upcoming(k: KState, i: nat) {
    && (k.phase == Demoting ==> Select(Offered(k)) == Some(i))
    && (k.phase == Reaping ==> Select(Reap(k.procs)) == Some(i))
    && (k.phase == Selecting ==> Select(k.procs) == Some(i))
    && (k.phase.Chosen? ==> k.phase.slot == i)
  }

  lemma TurnUpcoming(k: KState, t: Place, rounds: nat)
    requires OnTurn(k, t, rounds)
    ensures Upcoming(k, t.slot)
  {
    DemotedInTurn(k.procs, t, rounds);
    assert Sorted(NoRunning(k.procs));
    TurnIsMinimum(k.procs, t, rounds);
    TurnIsMinimum(NoRunning(k.procs), t, rounds);
  }

  /**
    Main result: among n processes that only use the CPU and have not run before, on every run of the CPU
    thread and the devices, whatever their interleaving, dispatch q*n + r goes to slot r, and no two of
    them have been dispatched more than once apart, for up to 255 rounds.
  */
  lemma RoundRobinIsExact(k: KState, steps: seq<Step>, rounds: nat, q: nat, r: nat)
    requires OnTurn(k, START, rounds) && rounds <= 255 && Runs(k, steps) && NoCreations(steps)
    requires r < |k.procs| && AllDispatches(k, steps) == q * |k.procs| + r
    requires q < rounds || (q == rounds && r == 0)
    ensures var k' := Run(k, steps);
      && k'.health == Alive && |k'.procs| == |k.procs| && Upcoming(k', r)
      && forall j :: 0 <= j < |k.procs| ==> k'.procs[j].hUsed == if j < r then q + 1 else q
  {
    var n, d := |k.procs|, AllDispatches(k, steps);
    TurnsFromStart(n, d, q, r, rounds);
    MoreRounds(START, n, d, rounds, 255);
    RotationRun(k, steps, START, rounds, n);
    TurnUpcoming(Run(k, steps), Place(q, r), rounds);
  }

  // After 255 rounds the 8-bit counter wraps

  /** Slot 0 has been dispatched 256 times and its counter has wrapped, the others' have not. */
  ghost predicate Wrapped(k: KState) {
    Core(k) && k.procs != [] && OnlyFirstWrapped(k.procs) && (k.phase.Chosen? ==> k.phase.slot == 0)
  }

  ghost predicate OnlyFirstWrapped(procs: seq<Proc>) {
    forall j :: 0 <= j < |procs| ==>
      && !Held(procs[j].status) && procs[j].status != Kill && procs[j].rwCount == 0
      && procs[j].hUsed == if j == 0 then 0 else 255
  }

  /** Then slot 0 precedes all others, and nobody is reaped. */
  lemma WrappedIsMinimum(procs: seq<Proc>)
    requires Sorted(procs) && procs != [] && OnlyFirstWrapped(procs)
    ensures Reap(procs) == procs && Select(procs) == Some(0)
  {
    NothingToReap(procs);
    SelectIs(procs, 0);
  }

  /** The first execution of round 256 wraps the counter of slot 0. */
  lemma ExecuteWraps(k: KState, region: seq<Instr>) returns (k': KState)
    requires OnTurn(k, Place(255, 0), 256) && Enabled(k, Execute(region))
    ensures k' == Apply(k, Execute(region)) && Wrapped(k')
  {
    k' := Apply(k, Execute(region));
    var p := k.procs[0];
    assert InTurn(p, 255, 256);
    ExecutedInTurn(k, 0, region);
    ExecMovedFields(p, region);
  }

  lemma StepWrapped(k: KState, s: Step) returns (k': KState)
    requires Wrapped(k) && Enabled(k, s) && !s.Create? && !s.Execute?
    ensures k' == Apply(k, s) && Wrapped(k')
  {
    k' := Apply(k, s);
    match s {
      case Demote => DemoteKeeps(k);
      case ReapKilled =>
        ReapKeeps(k);
        WrappedIsMinimum(k.procs);
      case SelectNext => SelectWrapped(k);
      case DiskTick => DiskIsIdle(k);
      case PrinterTick => StepKeeps(k, s);
    }
  }

  lemma SelectWrapped(k: KState)
    requires Wrapped(k) && k.phase == Selecting
    ensures Wrapped(SelectProcess(k))
  {
    SelectKeeps(k);
    WrappedIsMinimum(k.procs);
  }

  lemma {:induction false} RunWrapped(k: KState, steps: seq<Step>)
    requires Wrapped(k) && Runs(k, steps) && NoCreations(steps) && AllDispatches(k, steps) == 0
    ensures Wrapped(Run(k, steps))
    decreases |steps|
  {
    if steps != [] {
      var k1 := StepWrapped(k, steps[0]);
      RunWrapped(k1, steps[1..]);
    }
  }

  /** A run that begins with the first dispatch of round 256 and has no other. */
  lemma RunWraps(k: KState, steps: seq<Step>)
    requires OnTurn(k, Place(255, 0), 256) && Runs(k, steps) && NoCreations(steps)
    requires steps != [] && steps[0].Execute? && AllDispatches(k, steps) == 1
    ensures Wrapped(Run(k, steps))
  {
    var k1 := ExecuteWraps(k, steps[0].region);
    RunWrapped(k1, steps[1..]);
  }

  /** A run that ends one dispatch after 255 rounds. */
  lemma {:induction false} RunBreaks(k: KState, steps: seq<Step>, t: Place, n: nat, d: nat)
    requires OnTurn(k, t, 256) && Runs(k, steps) && NoCreations(steps) && n == |k.procs|
    requires AllDispatches(k, steps) == d + 1 && InRounds(t, n, d, 255) && Later(t, n, d) == Place(255, 0)
    ensures Wrapped(Run(k, steps))
    decreases |steps|
  {
    var s := steps[0];
    if s.Execute? && d == 0 {
      RunWraps(k, steps);
    } else {
      var k1 := RotationStep(k, s, t, 256);
      RunBreaks(k1, steps[1..], After(t, s, n), n, if s.Execute? then d - 1 else d);
    }
  }

  lemma WrappedUpcoming(k: KState)
    requires Wrapped(k)
    ensures Upcoming(k, 0)
  {
    assert Sorted(NoRunning(k.procs)) && OnlyFirstWrapped(NoRunning(k.procs));
    WrappedIsMinimum(k.procs);
    WrappedIsMinimum(NoRunning(k.procs));
  }

  /**
    After 255 rounds the rotation breaks: among processes that have work for more than 256 dispatches,
    dispatches 255*n and 255*n + 1 both go to slot 0.
  */
  lemma RoundRobinBreaksAt255(k: KState, steps: seq<Step>)
    requires OnTurn(k, START, 256) && Runs(k, steps) && NoCreations(steps)
    requires 255 * |k.procs| <= AllDispatches(k, steps) <= 255 * |k.procs| + 1
    ensures Upcoming(Run(k, steps), 0)
  {
    var n := |k.procs|;
    TurnsFromStart(n, 255 * n, 255, 0, 255);
    if AllDispatches(k, steps) == 255 * n {
      MoreRounds(START, n, 255 * n, 255, 256);
      RotationRun(k, steps, START, 256, n);
      TurnUpcoming(Run(k, steps), Place(255, 0), 256);
    } else {
      RunBreaks(k, steps, START, n, 255 * n);
      WrappedUpcoming(Run(k, steps));
    }
  }

  // A state to start from

  const LONG: Program := Program([], [ExecFor(257000)])

  lemma LongWork(pid: nat, region: seq<Instr>)
    requires 1 <= |region|
    ensures InTurn(NewProc(pid, LONG, region), 0, 256)
  {
    SlicesIsCeiling(257000);
    NewWork(pid, LONG, region);
    assert LONG.body[1..] == [];
  }

  lemma OneCreated(prog: Program, region: seq<Instr>) returns (k: KState)
    requires |prog.body| <= |region|
    ensures Reachable(k) && k.health == Alive && k.phase == Demoting && k.curr == 1 && k.lastPid == 1
    ensures k.procs == [NewProc(0, prog, region)]
  {
    StartReached();
    k := StepReaches(INIT, Create(prog, region));
  }

  /** Two processes with 257 slices of work each can be created and are then about to start rotating. */
  lemma RotationCanStart(region: seq<Instr>) returns (k: KState)
    requires 1 <= |region|
    ensures Reachable(k) && k.health == Alive && |k.procs| == 2 && OnTurn(k, START, 256)
  {
    var first := OneCreated(LONG, region);
    k := StepReaches(first, Create(LONG, region));
    ReachableOk(k);
    LongWork(0, region);
    LongWork(1, region);
  }
}
