/**
  Counting semaphores whose waiters sit in a fixed ring of slots, and the list of declared ones. A value
  is a signed 8-bit number; the ring holds 63 waiters in its 64 slots.
*/
module Semaphore {
  import opened Common
  import opened Process

  const DEFAULT_WAITERS_NUM: nat := 64
  const MAX_SIZE_SEMAPHORES: nat := 32

  type i8 = v: int | -128 <= v <= 127

  /** Values are signed 8-bit numbers; one step past either end wraps around. */
  function Wrap8(v: int): i8
    requires -129 <= v <= 128
  {
    if v < -128 then v + 256 else if v > 127 then v - 256 else v
  }

  /** A semaphore as its callers see it: a value and a first-in first-out queue of pids. */
  datatype Sem = Sem(name: Name, value: i8, waiters: seq<nat>)

  function Pushed(waiters: seq<nat>, pid: nat): seq<nat> {
    if |waiters| < DEFAULT_WAITERS_NUM - 1 then waiters + [pid] else waiters
  }

  /** P: the caller has to wait when the new value is negative. */
  function Down(s: Sem, pid: nat): Sem {
    var v := Wrap8(s.value - 1);
    Sem(s.name, v, if v < 0 then Pushed(s.waiters, pid) else s.waiters)
  }

  /** V: the longest-waiting process is released, if there is one. */
  function Up(s: Sem): Sem {
    Sem(s.name, Wrap8(s.value + 1), if s.waiters != [] then s.waiters[1..] else s.waiters)
  }

  // The list of declared semaphores

  predicate Declared(sems: seq<Sem>, c: Name) {
    exists j :: 0 <= j < |sems| && sems[j].name == c
  }

  /** Declaring a name again changes nothing, and neither does declaring one too many. */
  function Declare(sems: seq<Sem>, c: Name): (r: seq<Sem>)
    ensures sems <= r
    ensures Declared(r, c) || |r| >= MAX_SIZE_SEMAPHORES
  {
    if Declared(sems, c) || |sems| >= MAX_SIZE_SEMAPHORES then sems
    else
      var r := sems + [Sem(c, 1, [])];
      assert r[|sems|].name == c;
      r
  }

  function DeclareAll(sems: seq<Sem>, names: seq<Name>): (r: seq<Sem>)
    ensures sems <= r
    decreases |names|
  {
    if names == [] then sems else DeclareAll(Declare(sems, names[0]), names[1..])
  }

  ghost predicate AllDeclared(sems: seq<Sem>, names: seq<Name>) {
    |sems| >= MAX_SIZE_SEMAPHORES || forall c :: c in names ==> Declared(sems, c)
  }

  /** The names of a header are declared one after the other, so the first ones get in when the list fills up. */
  lemma {:induction false} DeclareInOrder(sems: seq<Sem>, names: seq<Name>, c: Name)
    ensures var before := DeclareAll(sems, names);
      DeclareAll(sems, names + [c]) ==
        if (exists j :: 0 <= j < |before| && before[j].name == c) || |before| >= 32 then before else before + [Sem(c, 1, [])]
    decreases |names|
  {
    if names == [] {
      assert ([c])[1..] == [] && names + [c] == [c];
    } else {
      assert (names + [c])[1..] == names[1..] + [c];
      DeclareInOrder(Declare(sems, names[0]), names[1..], c);
    }
  }

  lemma DeclaredGrows(sems: seq<Sem>, more: seq<Sem>, names: seq<Name>)
    requires AllDeclared(sems, names) && |sems| <= |more|
    requires forall j :: 0 <= j < |sems| ==> more[j].name == sems[j].name
    ensures AllDeclared(more, names)
  {
    if |sems| < MAX_SIZE_SEMAPHORES {
      forall c | c in names
        ensures Declared(more, c)
      {
        var j :| 0 <= j < |sems| && sems[j].name == c;
        assert more[j].name == c;
      }
    }
  }

  lemma {:induction false} DeclareAllDeclares(sems: seq<Sem>, names: seq<Name>)
    ensures AllDeclared(DeclareAll(sems, names), names)
    decreases |names|
  {
    if names != [] {
      var first := Declare(sems, names[0]);
      var r := DeclareAll(first, names[1..]);
      DeclareAllDeclares(first, names[1..]);
      if |r| < MAX_SIZE_SEMAPHORES {
        var j :| 0 <= j < |first| && first[j].name == names[0];
        assert r[j].name == names[0];
        assert names == [names[0]] + names[1..];
      }
    }
  }

  /** Reading a header again, as every reload does, resets no semaphore. */
  lemma {:induction false} RedeclarationChangesNothing(sems: seq<Sem>, names: seq<Name>)
    requires AllDeclared(sems, names)
    ensures DeclareAll(sems, names) == sems
    decreases |names|
  {
    if names != [] {
      assert names[0] in names;
      RedeclarationChangesNothing(sems, names[1..]);
    }
  }

  function Find(sems: seq<Sem>, c: Name): (r: Option<nat>)
    ensures match r
      case Some(j) => j < |sems| && sems[j].name == c && forall l :: 0 <= l < j ==> sems[l].name != c
      case None => !Declared(sems, c)
  {
    FindFrom(sems, c, 0)
  }

  function FindFrom(sems: seq<Sem>, c: Name, i: nat): (r: Option<nat>)
    requires i <= |sems|
    requires forall l :: 0 <= l < i ==> sems[l].name != c
    ensures match r
      case Some(j) => j < |sems| && sems[j].name == c && forall l :: 0 <= l < j ==> sems[l].name != c
      case None => !Declared(sems, c)
    decreases |sems| - i
  {
    if i == |sems| then None else if sems[i].name == c then Some(i) else FindFrom(sems, c, i + 1)
  }

  // The ring

  /** The slot `i` places after `head`, wrapping round once. */
  function SlotAfter(head: nat, i: nat, slots: nat): nat
    requires head < slots && i <= slots
  {
    if head + i < slots then head + i else head + i - slots
  }

  /** The pids in a ring from the head on, `size` of them. */
  ghost function Contents(slots: seq<nat>, head: nat, size: nat): (r: seq<nat>)
    requires head < |slots| && size <= |slots|
    ensures |r| == size
    ensures forall i :: 0 <= i < size ==> r[i] == slots[SlotAfter(head, i, |slots|)]
  {
    seq(size, i requires 0 <= i < size => slots[SlotAfter(head, i, |slots|)])
  }

  /** The slot after the last entry, and how many there are once the tail has moved past it. */
  lemma RingGrows(head: nat, tail: nat)
    requires head < DEFAULT_WAITERS_NUM && tail < DEFAULT_WAITERS_NUM
    ensures var n, next := RingSize(head, tail), (tail + 1) % DEFAULT_WAITERS_NUM;
      && tail == SlotAfter(head, n, DEFAULT_WAITERS_NUM)
      && if next == head then n + 1 == DEFAULT_WAITERS_NUM else RingSize(head, next) == n + 1
  {
  }

  /** tail - head, modulo the ring. */
  function RingSize(head: nat, tail: nat): (n: nat)
    requires head < DEFAULT_WAITERS_NUM && tail < DEFAULT_WAITERS_NUM
    ensures n < DEFAULT_WAITERS_NUM && (head + n) % DEFAULT_WAITERS_NUM == tail
  {
    (tail + DEFAULT_WAITERS_NUM - head) % DEFAULT_WAITERS_NUM
  }

  class SemaphoreCell {
    const name: Name
    var value: i8
    const waiters: array<nat>
    var head: nat
    var tail: nat

    ghost predicate Valid()
      reads this
    {
      && waiters.Length == DEFAULT_WAITERS_NUM
      && head < DEFAULT_WAITERS_NUM && tail < DEFAULT_WAITERS_NUM
    }

    function GetWaitersSize(): (n: nat)
      requires Valid()
      reads this
      ensures n < DEFAULT_WAITERS_NUM && (head + n) % DEFAULT_WAITERS_NUM == tail
    {
      RingSize(head, tail)
    }

    ghost function State(): Sem
      requires Valid()
      reads this, waiters
    {
      Sem(name, value, Contents(waiters[..], head, GetWaitersSize()))
    }

    constructor (name: Name, value: nat)
      requires value <= 127
      ensures Valid() && fresh(waiters)
      ensures State() == Sem(name, value, [])
    {
      this.name := name;
      this.value := value;
      this.waiters := new nat[DEFAULT_WAITERS_NUM](i => 0);
      this.head := 0;
      this.tail := 0;
    }

    method WaiterPush(pid: nat)
      requires Valid()
      modifies this`tail, waiters
      ensures Valid()
      ensures State() == old(State()).(waiters := Pushed(old(State()).waiters, pid))
      ensures State().waiters == old(State().waiters) + (if |old(State().waiters)| < 63 then [pid] else [])
    {
      RingGrows(head, tail);
      if (tail + 1) % DEFAULT_WAITERS_NUM == head {
        return;
      }
      ghost var n, before := GetWaitersSize(), waiters[..];
      waiters[tail] := pid;
      assert waiters[..] == before[tail := pid];
      tail := (tail + 1) % DEFAULT_WAITERS_NUM;
      assert GetWaitersSize() == n + 1;
    }

    method WaiterPop() returns (pid: Option<nat>)
      requires Valid()
      modifies this`head
      ensures Valid()
      ensures var before := old(State()).waiters;
        if before == [] then pid == None && State() == old(State())
        else pid == Some(before[0]) && State() == old(State()).(waiters := before[1..])
    {
      if head == tail {
        return None;
      }
      ghost var n := GetWaitersSize();
      pid := Some(waiters[head]);
      head := (head + 1) % DEFAULT_WAITERS_NUM;
      assert GetWaitersSize() == n - 1;
    }

    /** The semaphore's half of P; the caller must wait if `wait` is returned. */
    method Decrement(pid: nat) returns (wait: bool)
      requires Valid()
      modifies this, waiters
      ensures Valid()
      ensures State() == Down(old(State()), pid) && wait == (State().value < 0)
    {
      value := Wrap8(value - 1);
      wait := value < 0;
      if wait {
        WaiterPush(pid);
      }
    }

    /** The semaphore's half of V: the pid to wake, if any. */
    method Increment() returns (waking: Option<nat>)
      requires Valid()
      modifies this
      ensures Valid()
      ensures State() == Up(old(State()))
      ensures var before := old(State()).waiters;
        waking == if before == [] then None else Some(before[0])
    {
      value := Wrap8(value + 1);
      waking := None;
      if GetWaitersSize() > 0 {
        waking := WaiterPop();
      }
    }
  }
}
