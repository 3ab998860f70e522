/** The printer: a linked list with a tail pointer and one job in the buffer. */
module Printer {
  import opened Common

  datatype Job = Job(time: nat, pid: nat)

  datatype PrinterState = PrinterState(queue: seq<Job>, buffer: Option<Job>)

  function Submit(s: PrinterState, j: Job): PrinterState {
    s.(queue := s.queue + [j])
  }

  function Pop(s: PrinterState): PrinterState {
    if s.queue == [] then s.(buffer := None) else PrinterState(s.queue[1..], Some(s.queue[0]))
  }

  /** What one tick leaves behind, and the pid of the job it completed, if any. */
  datatype PrintTick = PrintTick(state: PrinterState, done: Option<nat>)

  function Tick(s: PrinterState): PrintTick {
    var served := match s.buffer
      case None => PrintTick(s, None)
      case Some(j) =>
        if j.time <= 1 then PrintTick(s.(buffer := None), Some(j.pid))
        else PrintTick(s.(buffer := Some(j.(time := j.time - 1))), None);
    if served.state.buffer == None && s.queue != [] then served.(state := Pop(served.state)) else served
  }

  class Node {
    var time: nat
    const pid: nat
    var prox: Node?

    constructor (time: nat, pid: nat)
      ensures this.time == time && this.pid == pid && prox == null
    {
      this.time, this.pid, this.prox := time, pid, null;
    }

    ghost function Get(): Job
      reads this
    {
      Job(time, pid)
    }
  }

  class Spooler {
    var head: Node?
    var tail: Node?
    var buffer: Node?
    ghost var nodes: seq<Node>

    ghost predicate Valid()
      reads this, nodes
    {
      && Distinct(nodes)
      && (buffer != null ==> buffer !in nodes)
      && head == (if nodes == [] then null else nodes[0])
      && tail == (if nodes == [] then null else nodes[|nodes| - 1])
      && (nodes != [] ==> nodes[|nodes| - 1].prox == null)
      && (forall i, j :: 0 <= i < j < |nodes| && j == i + 1 ==> nodes[i].prox == nodes[j])
    }

    ghost function State(): PrinterState
      reads this, nodes, buffer
    {
      PrinterState(
        seq(|nodes|, i requires 0 <= i < |nodes| reads this, nodes => nodes[i].Get()),
        if buffer == null then None else Some(buffer.Get()))
    }

    constructor ()
      ensures Valid() && State() == PrinterState([], None)
    {
      head, tail, buffer, nodes := null, null, null, [];
    }

    method AddToPrintQueue(time: nat, pid: nat)
      requires Valid()
      modifies this, nodes
      ensures Valid() && nodes == old(nodes) + [tail] && fresh(tail) && buffer == old(buffer)
      ensures State() == Submit(old(State()), Job(time, pid))
      ensures State().queue == old(State().queue) + [Job(time, pid)] && State().buffer == old(State().buffer)
    {
      var n := new Node(time, pid);
      if head == null {
        head := n;
        tail := n;
      } else {
        tail.prox := n;
        tail := n;
      }
      nodes := nodes + [n];
    }

    method PopFromPrintQueue() returns (r: Node?)
      requires Valid()
      modifies this
      ensures Valid() && buffer == old(buffer)
      ensures old(nodes) == [] ==> r == null && nodes == []
      ensures old(nodes) != [] ==> r == old(nodes)[0] && nodes == old(nodes)[1..]
    {
      if head == null {
        return null;
      }
      r := head;
      head := head.prox;
      assert |nodes| > 1 ==> nodes[0].prox == nodes[1];
      nodes := nodes[1..];
      if head == null {
        tail := null;
      }
    }

    method PopPrint()
      requires Valid()
      modifies this
      ensures Valid() && Elements(nodes) <= Elements(old(nodes))
      ensures buffer != null ==> buffer in old(nodes)
      ensures State() == Pop(old(State()))
    {
      ghost var was := State();
      buffer := PopFromPrintQueue();
      assert Valid();
      assert State().queue == if was.queue == [] then [] else was.queue[1..];
    }

    /** One iteration of the printer thread; a completed job is reported by its pid. */
    method PrinterLoopTick() returns (done: Option<nat>)
      requires Valid()
      modifies this, buffer
      ensures Valid()
      ensures PrintTick(State(), done) == Tick(old(State()))
    {
      done := None;
      if buffer != null {
        if buffer.time > 0 {
          buffer.time := buffer.time - 1;
        }
        if buffer.time == 0 {
          done := Some(buffer.pid);
          buffer := null;
        }
      }
      if buffer == null && head != null {
        PopPrint();
      }
    }
  }

  // Runs with arrivals: first in, first out

  function Step(s: PrinterState, e: Event<Job>): PrintTick {
    match e
    case Arrive(j) => PrintTick(Submit(s, j), None)
    case Elapse => Tick(s)
  }

  function Play(s: PrinterState, es: seq<Event<Job>>): PrinterState
    decreases |es|
  {
    if es == [] then s else Play(Step(s, es[0]).state, es[1..])
  }

  function Printed(s: PrinterState, es: seq<Event<Job>>): seq<nat>
    decreases |es|
  {
    if es == [] then [] else Reported(Step(s, es[0]).done) + Printed(Step(s, es[0]).state, es[1..])
  }

  function Pids(q: seq<Job>): seq<nat> {
    seq(|q|, i requires 0 <= i < |q| => q[i].pid)
  }

  function Submitted(es: seq<Event<Job>>): seq<nat> {
    if es == [] then []
    else (match es[0] case Arrive(j) => [j.pid] case Elapse => []) + Submitted(es[1..])
  }

  /** Everything not printed yet, in the order in which it will leave. */
  function Pending(s: PrinterState): seq<nat> {
    (match s.buffer case None => [] case Some(j) => [j.pid]) + Pids(s.queue)
  }

  lemma PidsHead(q: seq<Job>)
    requires q != []
    ensures Pids(q) == [q[0].pid] + Pids(q[1..])
  {
  }

  lemma ArrivalKeepsOrder(s: PrinterState, j: Job)
    ensures Pending(Submit(s, j)) == Pending(s) + [j.pid]
  {
  }

  lemma TickKeepsOrder(s: PrinterState)
    ensures Reported(Tick(s).done) + Pending(Tick(s).state) == Pending(s)
  {
    if s.queue != [] {
      PidsHead(s.queue);
    }
  }

  lemma StepKeepsOrder(s: PrinterState, e: Event<Job>)
    ensures Reported(Step(s, e).done) + Pending(Step(s, e).state) == Pending(s) + Submitted([e])
  {
    match e {
      case Arrive(j) =>
        ArrivalKeepsOrder(s, j);
        assert Submitted([e]) == [j.pid] + Submitted([]);
      case Elapse =>
        TickKeepsOrder(s);
        assert Submitted([e]) == [];
    }
  }

  lemma Regroup(a: seq<nat>, b: seq<nat>, c: seq<nat>, d: seq<nat>, e: seq<nat>, f: seq<nat>, g: seq<nat>)
    requires b + c == d + e && a + d == f + g
    ensures (a + b) + c == f + (g + e)
  {
    assert (a + b) + c == a + (b + c);
    assert a + (d + e) == (a + d) + e;
  }

  /** On every run, what was printed followed by what is pending is what was pending followed by what arrived. */
  lemma {:induction false} FirstInFirstOut(s: PrinterState, es: seq<Event<Job>>)
    ensures Printed(s, es) + Pending(Play(s, es)) == Pending(s) + Submitted(es)
    decreases |es|
  {
    if es != [] {
      var t := Step(s, es[0]);
      StepKeepsOrder(s, es[0]);
      FirstInFirstOut(t.state, es[1..]);
      Regroup(Reported(t.done), Printed(t.state, es[1..]), Pending(Play(t.state, es[1..])),
              Pending(t.state), Submitted(es[1..]), Pending(s), Submitted([es[0]]));
      assert Submitted([es[0]]) + Submitted(es[1..]) == Submitted(es);
    }
  }

  // Draining with no arrivals

  function Cost(j: Job): nat { if j.time == 0 then 1 else j.time }

  function Costs(q: seq<Job>): nat {
    if q == [] then 0 else Cost(q[0]) + Costs(q[1..])
  }

  function DrainTime(s: PrinterState): nat {
    match s.buffer
    case Some(j) => Cost(j) + Costs(s.queue)
    case None => if s.queue == [] then 0 else 1 + Costs(s.queue)
  }

  function Wait(n: nat): (es: seq<Event<Job>>)
    ensures |es| == n && forall i :: 0 <= i < n ==> es[i].Elapse?
  {
    if n == 0 then [] else [Elapse] + Wait(n - 1)
  }

  /** The printer is idle exactly from tick `DrainTime` on. */
  lemma {:induction false} DrainTimeExact(s: PrinterState, n: nat)
    ensures Play(s, Wait(n)) == PrinterState([], None) <==> n >= DrainTime(s)
    decreases n
  {
    if n > 0 {
      assert Wait(n)[1..] == Wait(n - 1);
      DrainTimeExact(Tick(s).state, n - 1);
    }
  }

  lemma {:induction false} NothingSubmitted(n: nat)
    ensures Submitted(Wait(n)) == []
  {
    if n > 0 {
      assert Wait(n)[1..] == Wait(n - 1);
      NothingSubmitted(n - 1);
    }
  }

  /** From an empty buffer, `q` leaves in order, each job once, in exactly 1 + the sum of max(1, time) ticks. */
  lemma DrainsInOrder(q: seq<Job>)
    requires q != []
    ensures var s := PrinterState(q, None);
      && DrainTime(s) == 1 + Costs(q)
      && Printed(s, Wait(DrainTime(s))) == Pids(q)
  {
    var s := PrinterState(q, None);
    var n := DrainTime(s);
    DrainTimeExact(s, n);
    NothingSubmitted(n);
    FirstInFirstOut(s, Wait(n));
    assert Pending(s) == Pids(q);
    assert Pending(PrinterState([], None)) == [];
    assert Pids(q) + [] == Pids(q);
    assert Printed(s, Wait(n)) + [] == Printed(s, Wait(n));
  }

  // When each job is done

  lemma {:induction false} CostsAppend(q: seq<Job>, j: Job)
    ensures Costs(q + [j]) == Costs(q) + Cost(j)
  {
    if q == [] {
      assert (q + [j])[1..] == [];
    } else {
      assert (q + [j])[1..] == q[1..] + [j];
      CostsAppend(q[1..], j);
    }
  }

  /** A submitted job keeps the printer busy for its time, or one tick, and wakes an idle one a tick earlier. */
  lemma SubmitTakes(s: PrinterState, time: nat, pid: nat)
    ensures DrainTime(Submit(s, Job(time, pid))) ==
      DrainTime(s) + (if time == 0 then 1 else time) + (if s == PrinterState([], None) then 1 else 0)
  {
    CostsAppend(s.queue, Job(time, pid));
  }

  /** A tick takes one off the drain time, until the printer is idle. */
  lemma TickTakesOne(s: PrinterState)
    ensures DrainTime(Tick(s).state) == if s == PrinterState([], None) then 0 else DrainTime(s) - 1
  {
  }

  lemma {:induction false} NothingYet(q: seq<Job>, j: Job, n: nat)
    requires n < Cost(j)
    ensures Printed(PrinterState(q, Some(j)), Wait(n)) == []
    decreases n
  {
    if n > 0 {
      NothingYet(q, j.(time := j.time - 1), n - 1);
    }
  }

  lemma {:induction false} IdlePrintsNothing(n: nat)
    ensures Printed(PrinterState([], None), Wait(n)) == []
    decreases n
  {
    if n > 0 {
      IdlePrintsNothing(n - 1);
    }
  }

  lemma FirstJobs(q: seq<Job>, i: nat)
    requires 0 < i <= |q|
    ensures Costs(q[..i]) == Cost(q[0]) + Costs(q[1..][..i - 1])
    ensures Pids(q[..i]) == [q[0].pid] + Pids(q[1..][..i - 1])
  {
    assert q[..i][1..] == q[1..][..i - 1];
    PidsHead(q[..i]);
  }

  lemma {:induction false} DoneAfter(q: seq<Job>, j: Job, n: nat, i: nat)
    requires i <= |q| && Cost(j) + Costs(q[..i]) <= n
    requires i < |q| ==> n < Cost(j) + Costs(q[..i + 1])
    ensures Printed(PrinterState(q, Some(j)), Wait(n)) == [j.pid] + Pids(q[..i])
    decreases n
  {
    if j.time > 1 {
      DoneAfter(q, j.(time := j.time - 1), n - 1, i);
    } else if q == [] {
      IdlePrintsNothing(n - 1);
    } else {
      if i < |q| {
        FirstJobs(q, i + 1);
      }
      if i == 0 {
        NothingYet(q[1..], q[0], n - 1);
      } else {
        FirstJobs(q, i);
        DoneAfter(q[1..], q[0], n - 1, i - 1);
      }
    }
  }

  /**
    Main result: from an empty buffer, the first `i` jobs and no others are done after `n` ticks exactly
    while `n` lies between 1 + the sum of their max(1, time) and that of one more.
  */
  lemma EachJobInTime(q: seq<Job>, n: nat, i: nat)
    requires 0 < i <= |q| && 1 + Costs(q[..i]) <= n
    requires i < |q| ==> n < 1 + Costs(q[..i + 1])
    ensures Printed(PrinterState(q, None), Wait(n)) == Pids(q[..i])
  {
    FirstJobs(q, i);
    if i < |q| {
      FirstJobs(q, i + 1);
    }
    DoneAfter(q[1..], q[0], n - 1, i - 1);
  }
}
