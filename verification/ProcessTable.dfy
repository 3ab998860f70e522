/**
  The process control block: a fixed table of slots, searched, filled, scanned and shifted in place.
  The live entries come first; creation writes at one index and the scheduler stops at another.
*/
module ProcessTable {
  import opened Common
  import opened Process
  import opened Scheduler
  import opened Kernel
  import opened Disk

  class Pcb {
    const processStack: array<Proc>
    var curr: nat
    var last: nat
    var lastPid: nat

    /** The slots from `last` on are zeroed. */
    ghost predicate Valid()
      reads this, processStack
    {
      && processStack.Length == MAX_PCB
      && last <= curr < MAX_PCB
      && forall i :: last <= i < processStack.Length ==> processStack[i] == ZERO_SLOT
    }

    ghost function Procs(): seq<Proc>
      requires Valid()
      reads this, processStack
    {
      processStack[..last]
    }

    constructor ()
      ensures Valid() && Procs() == [] && curr == 0 && lastPid == 0
      ensures fresh(processStack)
    {
      processStack := new Proc[MAX_PCB](i => ZERO_SLOT);
      curr, last, lastPid := 0, 0, 0;
    }

    /** Scans the whole table, unused slots included. */
    method PFind(pid: nat) returns (r: Option<nat>)
      requires processStack.Length == MAX_PCB
      ensures match r
        case Some(i) => i < MAX_PCB && processStack[i].pid == pid && forall l :: 0 <= l < i ==> processStack[l].pid != pid
        case None => forall l :: 0 <= l < MAX_PCB ==> processStack[l].pid != pid
    {
      var i := 0;
      while i < MAX_PCB
        invariant 0 <= i <= MAX_PCB
        invariant forall l :: 0 <= l < i ==> processStack[l].pid != pid
      {
        if processStack[i].pid == pid {
          return Some(i);
        }
        i := i + 1;
      }
      return None;
    }

    /** Overwriting a live slot changes that entry of the table and nothing else. */
    method SetSlot(i: nat, p: Proc)
      requires Valid() && i < last
      modifies processStack
      ensures Valid() && Procs() == old(Procs())[i := p]
    {
      processStack[i] := p;
    }

    /** Takes the process off the CPU: blocked on the disk, or waiting for a semaphore. */
    method PSuspend(pid: nat, status: Status)
      requires Valid() && FindPid(Procs(), pid).Some?
      modifies processStack
      ensures Valid()
      ensures var i := FindPid(old(Procs()), pid).value;
        Procs() == old(Procs())[i := old(Procs())[i].(status := status, timeToRun := 0)]
    {
      var r := PFind(pid);
      SetSlot(r.value, processStack[r.value].(status := status, timeToRun := 0));
    }

    method PUnblock(pid: nat)
      requires Valid() && FindPid(Procs(), pid).Some?
      modifies processStack
      ensures Valid()
      ensures var i := FindPid(old(Procs()), pid).value;
        Procs() == old(Procs())[i := old(Procs())[i].(status := Ready)]
    {
      var r := PFind(pid);
      SetSlot(r.value, processStack[r.value].(status := Ready));
    }

    /** A pid that no slot holds is ignored. */
    method PKill(pid: nat)
      requires Valid()
      modifies processStack
      ensures FindPid(old(processStack[..]), pid) == None ==> processStack[..] == old(processStack[..])
      ensures FindPid(old(processStack[..]), pid).Some? ==>
        var i := FindPid(old(processStack[..]), pid).value;
        processStack[..] == old(processStack[..])[i := old(processStack[i]).(status := Kill)]
      ensures FindPid(old(Procs()), pid).Some? ==>
        var i := FindPid(old(Procs()), pid).value;
        Valid() && Procs() == old(Procs())[i := old(Procs())[i].(status := Kill)]
    {
      var r := PFind(pid);
      if r.Some? {
        processStack[r.value] := processStack[r.value].(status := Kill);
      }
    }

    /**
      Takes a pid and writes the new process at `curr`; the table is then taken to be one longer. Only
      when nothing has been reaped is the new process the new last entry.
    */
    method Insert(prog: Program, region: seq<Instr>) returns (pid: nat)
      requires Valid() && curr < MAX_PCB - 1 && |prog.body| <= |region|
      modifies this, processStack
      ensures pid == old(lastPid) && lastPid == pid + 1
      ensures curr == old(curr) + 1 && last == old(last) + 1
      ensures processStack[..] == old(processStack[..])[old(curr) := NewProc(pid, prog, region)]
      ensures old(curr) == old(last) ==> Valid() && Procs() == old(Procs()) + [NewProc(pid, prog, region)]
    {
      pid := lastPid;
      lastPid := lastPid + 1;
      var code, parsed := InitCodeSection(prog, region);
      processStack[curr] := Proc(pid, New, TIME_SLICE, 0, 0, code, 0, parsed, prog);
      curr := curr + 1;
      last := last + 1;
    }

    // Scheduler routines

    method SchedulerNoRunning()
      requires Valid()
      modifies processStack
      ensures Valid() && Procs() == NoRunning(old(Procs()))
    {
      var i := 0;
      while i < last
        invariant 0 <= i <= last
        invariant forall l :: 0 <= l < i ==> processStack[l] == Demoted(old(processStack[l]))
        invariant forall l :: i <= l < processStack.Length ==> processStack[l] == old(processStack[l])
      {
        if processStack[i].status == Running {
          processStack[i] := processStack[i].(status := Ready);
        }
        i := i + 1;
      }
      assert Procs() == NoRunning(old(Procs()));
    }

    /** Moves every slot after `i` down by one. */
    method ShiftDown(i: nat)
      requires i < processStack.Length
      modifies processStack
      ensures processStack[..] == Without(old(processStack[..]), i) + [old(processStack[processStack.Length - 1])]
    {
      ghost var s := processStack[..];
      var j := i + 1;
      while j < processStack.Length
        invariant i + 1 <= j <= processStack.Length
        invariant processStack[..] == Shifted(s, i, j)
      {
        ShiftedNext(s, i, j);
        ghost var t := processStack[..];
        assert t[j] == processStack[j];
        processStack[j - 1] := processStack[j];
        assert processStack[..] == t[j - 1 := t[j]];
        j := j + 1;
      }
      ShiftedAll(s, i);
    }

    /** One pass of the reaping loop at a killed slot of a table that was `was`. */
    method RemoveSlot(i: nat, ghost was: seq<Proc>)
      requires Valid() && i < last && processStack[i].status == Kill && ReapedTo(processStack[..], last, i, was)
      modifies processStack, this`last
      ensures Valid() && ReapedTo(processStack[..], last, i + 1, was)
    {
      ghost var s := processStack[..];
      ShiftDown(i);
      last := last - 1;
      ReapStep(s, processStack[..], i, last + 1, was);
      ZerosShift(s, processStack[..], i, last + 1);
      ghost var t := processStack[..];
      assert forall l :: 0 <= l < |t| ==> processStack[l] == t[l];
    }

    method SchedulerKillProcess()
      requires Valid()
      modifies processStack, this`last
      ensures Valid() && Procs() == Reap(old(Procs()))
    {
      var i := 0;
      while i < MAX_PCB
        invariant 0 <= i <= MAX_PCB
        invariant Valid()
        invariant ReapedTo(processStack[..], last, i, old(Procs()))
      {
        if processStack[i].status == Kill {
          RemoveSlot(i, old(Procs()));
        } else {
          PassStep(processStack[..], last, i, old(Procs()));
        }
        i := i + 1;
      }
    }

    /** Takes the best eligible process, marks it running and grants it a full slice. */
    method SchedulerGetProcess() returns (selected: Option<nat>)
      requires Valid()
      modifies processStack
      ensures Valid() && selected == Select(old(Procs()))
      ensures Procs() == match selected
        case None => old(Procs())
        case Some(i) => old(Procs())[i := old(Procs())[i].(status := Running, timeToRun := TIME_SLICE)]
    {
      selected := None;
      var i := 0;
      while i < last
        invariant 0 <= i <= last
        invariant selected == SelectAmong(Procs(), i)
      {
        var candidate := processStack[i];
        if candidate.status != Blocked && candidate.status != Waiting {
          if selected == None || candidate.rwCount < processStack[selected.value].rwCount {
            selected := Some(i);
          } else if candidate.hUsed < processStack[selected.value].hUsed
                    && candidate.rwCount == processStack[selected.value].rwCount {
            selected := Some(i);
          } else if candidate.rwCount == processStack[selected.value].rwCount
                    && candidate.pid < processStack[selected.value].pid {
            selected := Some(i);
          }
        }
        i := i + 1;
      }
      if selected.Some? {
        SetSlot(selected.value, processStack[selected.value].(status := Running, timeToRun := TIME_SLICE));
      }
    }
  }

  /** The entries between `i` and `j` have moved down by one. */
  ghost function Shifted(s: seq<Proc>, i: nat, j: nat): (r: seq<Proc>)
    requires i < j <= |s|
    ensures |r| == |s|
  {
    s[..i] + s[i + 1..j] + s[j - 1..]
  }

  lemma ShiftedNext(s: seq<Proc>, i: nat, j: nat)
    requires i < j < |s|
    ensures Shifted(s, i, j + 1) == Shifted(s, i, j)[j - 1 := Shifted(s, i, j)[j]]
  {
    var t := Shifted(s, i, j);
    assert t[j] == s[j];
    assert s[i + 1..j + 1] == s[i + 1..j] + [s[j]];
    assert t[..j - 1] == s[..i] + s[i + 1..j];
  }

  lemma ShiftedAll(s: seq<Proc>, i: nat)
    requires i < |s|
    ensures Shifted(s, i, |s|) == Without(s, i) + [s[|s| - 1]]
  {
    assert s[|s| - 1..] == [s[|s| - 1]];
  }

  /** The sequence without its entry `i`. */
  function Without(s: seq<Proc>, i: nat): seq<Proc>
    requires i < |s|
  {
    s[..i] + s[i + 1..]
  }

  lemma ZerosShift(s: seq<Proc>, t: seq<Proc>, i: nat, n: nat)
    requires i < n < |s| && t == Without(s, i) + [s[|s| - 1]]
    requires forall l :: n <= l < |s| ==> s[l] == ZERO_SLOT
    ensures |t| == |s| && forall l :: n - 1 <= l < |s| ==> t[l] == ZERO_SLOT
  {
    forall l | n - 1 <= l < |s|
      ensures t[l] == ZERO_SLOT
    {
      assert t[l] == if l + 1 < |s| then s[l + 1] else s[l];
    }
  }

  /** The reaping loop has dealt with the slots before `i` of a table that was `was`. */
  ghost predicate ReapedTo(stack: seq<Proc>, last: nat, i: nat, was: seq<Proc>) {
    && i <= |stack| && last <= |stack|
    && if i <= last then stack[..i] + Reap(stack[i..last]) == Reap(was) else stack[..last] == Reap(was)
  }

  /** Removing a killed entry and passing over its successor is one unfolding of the reaping. */
  lemma ReapStep(s: seq<Proc>, t: seq<Proc>, i: nat, n: nat, was: seq<Proc>)
    requires i < n <= |s| && s[i].status == Kill
    requires t == Without(s, i) + [s[|s| - 1]]
    requires ReapedTo(s, n, i, was)
    ensures ReapedTo(t, n - 1, i + 1, was)
  {
    if i + 1 < n {
      assert s[i..n][2..] == s[i + 2..n];
      assert t[i + 1..n - 1] == s[i + 2..n];
      assert t[..i + 1] == s[..i] + [s[i + 1]];
    } else {
      assert t[..n - 1] == s[..i];
    }
  }

  lemma PassStep(s: seq<Proc>, n: nat, i: nat, was: seq<Proc>)
    requires i < |s| && s[i].status != Kill
    requires ReapedTo(s, n, i, was)
    ensures ReapedTo(s, n, i + 1, was)
  {
    if i < n {
      assert s[i..n][1..] == s[i + 1..n];
      assert s[..i] + [s[i]] == s[..i + 1];
    }
  }

  /**
    The table that the scheduler sees after a creation is the old one with the new process at the end
    if and only if no process has been reaped before: otherwise a zeroed slot takes its place.
  */
  lemma CreationAppendsIff(stack: seq<Proc>, last: nat, curr: nat, p: Proc)
    requires last <= curr < |stack| && p.status == New
    requires forall i :: last <= i < |stack| ==> stack[i] == ZERO_SLOT
    ensures stack[curr := p][..last + 1] == stack[..last] + [p] <==> curr == last
  {
    var table := stack[curr := p][..last + 1];
    assert table[last] == if curr == last then p else ZERO_SLOT;
    assert (stack[..last] + [p])[last] == p;
  }
}
