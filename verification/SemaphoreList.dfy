/** The list of declared semaphores, growing in place. */
module SemaphoreList {
  import opened Common
  import opened Process
  import opened Semaphore

  ghost function Rings(cells: seq<SemaphoreCell>): set<object> {
    set c | c in cells :: c.waiters
  }

  ghost function States(cells: seq<SemaphoreCell>): (r: seq<Sem>)
    requires forall j :: 0 <= j < |cells| ==> cells[j].Valid()
    reads cells, Rings(cells)
    ensures |r| == |cells| && forall j :: 0 <= j < |cells| ==> r[j] == cells[j].State()
  {
    seq(|cells|, j requires 0 <= j < |cells| && cells[j].Valid() reads cells, Rings(cells) => cells[j].State())
  }

  class SemList {
    var l: seq<SemaphoreCell>

    /** No two semaphores share a record or a ring. */
    ghost predicate Valid()
      reads this, l
    {
      && (forall j :: 0 <= j < |l| ==> l[j].Valid())
      && (forall i, j :: 0 <= i < j < |l| ==> l[i] != l[j] && l[i].waiters != l[j].waiters)
    }

    ghost function List(): (r: seq<Sem>)
      requires Valid()
      reads this, l, Rings(l)
      ensures |r| == |l| && forall j :: 0 <= j < |l| ==> r[j] == l[j].State()
    {
      States(l)
    }

    constructor ()
      ensures Valid() && l == [] && List() == []
    {
      l := [];
    }

    method GetSemaphoreByName(c: Name) returns (r: Option<nat>)
      requires Valid()
      ensures r == Find(List(), c)
    {
      var i := 0;
      while i < |l|
        invariant 0 <= i <= |l|
        invariant forall j :: 0 <= j < i ==> List()[j].name != c
      {
        if l[i].name == c {
          return Some(i);
        }
        i := i + 1;
      }
      return None;
    }

    method DecrementAt(j: nat, pid: nat) returns (wait: bool)
      requires Valid() && j < |l|
      modifies l[j], l[j].waiters
      ensures Valid()
      ensures var down := Down(old(List())[j], pid);
        wait == (down.value < 0) && List() == old(List())[j := down]
    {
      wait := l[j].Decrement(pid);
    }

    method IncrementAt(j: nat) returns (waking: Option<nat>)
      requires Valid() && j < |l|
      modifies l[j]
      ensures Valid()
      ensures var before := old(List())[j];
        && waking == (if before.waiters == [] then None else Some(before.waiters[0]))
        && List() == old(List())[j := Up(before)]
    {
      waking := l[j].Increment();
    }

    method InitSemaphore(name: Name)
      requires Valid()
      modifies this
      ensures Valid() && List() == Declare(old(List()), name)
      ensures List() == old(List()) +
        (if (exists j :: 0 <= j < |old(l)| && old(List())[j].name == name) || |old(l)| >= 32 then [] else [Sem(name, 1, [])])
      ensures old(l) <= l && forall j :: |old(l)| <= j < |l| ==> fresh(l[j]) && fresh(l[j].waiters)
    {
      var r := GetSemaphoreByName(name);
      if r.Some? || |l| >= MAX_SIZE_SEMAPHORES {
        return;
      }
      Append(name);
    }

    method Append(name: Name)
      requires Valid()
      modifies this
      ensures Valid() && List() == old(List()) + [Sem(name, 1, [])]
      ensures old(l) <= l && forall j :: |old(l)| <= j < |l| ==> fresh(l[j]) && fresh(l[j].waiters)
    {
      var s := new SemaphoreCell(name, 1);
      l := l + [s];
    }

    /** The part of reading a program header that matters here: declaring its semaphores. */
    method ReadHeader(names: seq<Name>)
      requires Valid()
      modifies this
      ensures Valid() && List() == DeclareAll(old(List()), names)
      ensures old(l) <= l && forall j :: |old(l)| <= j < |l| ==> fresh(l[j]) && fresh(l[j].waiters)
    {
      var i := 0;
      while i < |names|
        invariant 0 <= i <= |names|
        invariant Valid() && DeclareAll(List(), names[i..]) == DeclareAll(old(List()), names)
        invariant old(l) <= l && forall j :: |old(l)| <= j < |l| ==> fresh(l[j]) && fresh(l[j].waiters)
      {
        InitSemaphore(names[i]);
        i := i + 1;
      }
    }
  }
}
