/** The disk: a bounded request queue served shortest-seek-first, one tick at a time. */
module Disk {
  import opened Common

  const MAX_PCB: nat := 11
  const DISK_SLICE: nat := 4000
  const TOTAL_TRACKS: nat := 20000

  datatype IoReq = IoReq(id: nat, timeToRun: nat, track: nat)

  datatype DiskState = DiskState(queue: seq<IoReq>, track: nat)

  /** What one tick leaves behind, and the pid whose request it completed, if any. */
  datatype TickResult = TickResult(state: DiskState, finished: Option<nat>)

  /** `k` is the earliest of the requests nearest to `base`. */
  ghost predicate IsFirstClosest(q: seq<IoReq>, base: nat, k: int) {
    && 0 <= k < |q|
    && (forall i :: 0 <= i < |q| ==> AbsDiff(base, q[k].track) <= AbsDiff(base, q[i].track))
    && (forall i :: 0 <= i < k ==> AbsDiff(base, q[k].track) < AbsDiff(base, q[i].track))
  }

  /** `r` is `q` with the request at `k` exchanged with the front, and `k` is the earliest of the nearest. */
  ghost predicate Fronted(q: seq<IoReq>, base: nat, k: int, r: seq<IoReq>) {
    && IsFirstClosest(q, base, k) && |r| == |q| && r[0] == q[k]
    && forall i :: 0 < i < |q| ==> r[i] == if i == k then q[0] else q[i]
  }

  function Closest(q: seq<IoReq>, base: nat): (k: nat)
    requires q != []
    ensures IsFirstClosest(q, base, k)
  {
    if |q| == 1 then 0
    else
      var last := |q| - 1;
      var k := Closest(q[..last], base);
      if AbsDiff(base, q[last].track) < AbsDiff(base, q[k].track) then last else k
  }

  function Swap<T>(s: seq<T>, i: nat, j: nat): (r: seq<T>)
    requires i < |s| && j < |s|
    ensures |r| == |s| && multiset(r) == multiset(s)
  {
    s[i := s[j]][j := s[i]]
  }

  /** The queue after the nearest request has been swapped to the front. */
  function SortFront(q: seq<IoReq>, base: nat): (r: seq<IoReq>)
    ensures |r| == |q| && multiset(r) == multiset(q)
    ensures q != [] ==> IsFirstClosest(r, base, 0)
  {
    if q == [] then q
    else
      var k := Closest(q, base);
      var r := Swap(q, 0, k);
      assert forall i :: 0 <= i < |q| ==> r[i] == if i == 0 then q[k] else if i == k then q[0] else q[i];
      r
  }

  /** Of several nearest requests the earliest is taken, and only it and the former front change places. */
  lemma SortFrontIs(q: seq<IoReq>, base: nat, k: nat)
    requires IsFirstClosest(q, base, k)
    ensures Fronted(q, base, k, SortFront(q, base))
  {
    assert k == Closest(q, base);
  }

  function Toward(track: nat, target: nat): nat {
    if target > track then track + 1 else if target < track then track - 1 else track
  }

  function Tick(s: DiskState): TickResult {
    if s.queue == [] then TickResult(s, None)
    else
      var q := SortFront(s.queue, s.track);
      if q[0].track != s.track then
        TickResult(DiskState(q, Toward(s.track, q[0].track)), None)
      else if q[0].timeToRun > 0 then
        TickResult(DiskState(q[0 := q[0].(timeToRun := q[0].timeToRun - 1)], s.track), None)
      else
        TickResult(DiskState(q[1..], s.track), Some(q[0].id))
  }

  /**
    What a tick makes of the earliest of the nearest requests, `p`, at place `k`: it is exchanged with the
    front; on its track it loses a unit of service, or is taken out and reported when it has none left;
    elsewhere the head moves one track towards it.
  */
  lemma TickIs(s: DiskState, k: nat)
    requires IsFirstClosest(s.queue, s.track, k)
    ensures var q, p, t, next := s.queue, s.queue[k], Tick(s).finished, Tick(s).state;
      if p.track == s.track && p.timeToRun == 0 then
        && t == Some(p.id) && next.track == s.track && |next.queue| == |q| - 1
        && forall i :: 0 < i < |q| ==> next.queue[i - 1] == if i == k then q[0] else q[i]
      else
        && t == None && |next.queue| == |q|
        && next.queue[0] == (if p.track == s.track then p.(timeToRun := p.timeToRun - 1) else p)
        && (forall i :: 0 < i < |q| ==> next.queue[i] == if i == k then q[0] else q[i])
        && next.track == if p.track > s.track then s.track + 1 else if p.track < s.track then s.track - 1 else s.track
  {
    SortFrontIs(s.queue, s.track, k);
  }

  /** The request that is already in front stays there if it is nearest. */
  lemma SortFrontFixed(q: seq<IoReq>, base: nat)
    requires q != []
    requires IsFirstClosest(q, base, 0)
    ensures SortFront(q, base) == q
  {
  }

  /** The queue and head of the simulator, updated in place. */
  class DiskDrive {
    const queue: array<IoReq>
    var len: nat
    var currentTrack: nat

    ghost predicate Valid()
      reads this
    {
      queue.Length == MAX_PCB && len <= queue.Length
    }

    ghost function State(): DiskState
      reads this, queue
      requires Valid()
    {
      DiskState(queue[..len], currentTrack)
    }

    constructor ()
      ensures Valid() && fresh(queue)
      ensures State() == DiskState([], 0)
    {
      queue := new IoReq[MAX_PCB](i => IoReq(0, 0, 0));
      len := 0;
      currentTrack := 0;
    }

    method SortDisk(base: nat)
      requires Valid() && len > 0
      modifies queue
      ensures queue[..len] == SortFront(old(queue[..len]), base)
      ensures exists k :: Fronted(old(queue[..len]), base, k, queue[..len])
    {
      var closest := 0;
      var minDiff := AbsDiff(base, queue[0].track);
      var i := 1;
      while i < len
        invariant 1 <= i <= len
        invariant queue[..] == old(queue[..])
        invariant closest == Closest(queue[..i], base)
        invariant minDiff == AbsDiff(base, queue[closest].track)
      {
        var currentDiff := AbsDiff(base, queue[i].track);
        assert queue[..i + 1][..i] == queue[..i];
        if currentDiff < minDiff {
          minDiff := currentDiff;
          closest := i;
        }
        i := i + 1;
      }
      if closest != 0 {
        queue[0], queue[closest] := queue[closest], queue[0];
      }
      assert queue[..len] == Swap(old(queue[..len]), 0, closest);
      SortFrontIs(old(queue[..len]), base, closest);
    }

    method MoveHeader(target: nat)
      modifies this`currentTrack
      ensures currentTrack == Toward(old(currentTrack), target)
    {
      if target > currentTrack {
        currentTrack := currentTrack + 1;
      }
      if target < currentTrack {
        currentTrack := currentTrack - 1;
      }
    }

    method QPut(p: IoReq)
      requires Valid() && len < queue.Length
      modifies this`len, queue
      ensures Valid()
      ensures State() == old(State()).(queue := old(State()).queue + [p])
    {
      queue[len] := p;
      len := len + 1;
    }

    method QRemove()
      requires Valid() && len > 0
      modifies this`len, queue
      ensures Valid()
      ensures State() == old(State()).(queue := old(State()).queue[1..])
    {
      var i := 0;
      while i < len - 1
        invariant 0 <= i <= len - 1
        invariant len == old(len)
        invariant forall j :: 0 <= j < i ==> queue[j] == old(queue[j + 1])
        invariant forall j :: i <= j < queue.Length ==> queue[j] == old(queue[j])
      {
        queue[i] := queue[i + 1];
        i := i + 1;
      }
      len := len - 1;
      queue[len] := IoReq(0, 0, 0);
      assert queue[..len] == old(queue[1..len]);
    }

    /** A request for a track the disk does not have ends the simulator (`ok` is false). */
    method SimulateIo(pid: nat, track: nat) returns (ok: bool)
      requires Valid() && len < queue.Length
      modifies this`len, queue
      ensures Valid()
      ensures ok == (track <= TOTAL_TRACKS)
      ensures State() == if ok then old(State()).(queue := old(State()).queue + [IoReq(pid, DISK_SLICE, track)])
                         else old(State())
    {
      if track > TOTAL_TRACKS {
        return false;
      }
      QPut(IoReq(pid, DISK_SLICE, track));
      return true;
    }

    /** Serves the front request for one unit; a request with nothing left is removed and reported. */
    method ExecIo() returns (finished: Option<nat>)
      requires Valid() && len > 0
      modifies this, queue
      ensures Valid()
      ensures var q := old(State()).queue;
        if q[0].timeToRun > 0
        then finished == None &&
             State() == DiskState(q[0 := q[0].(timeToRun := q[0].timeToRun - 1)], q[0].track)
        else finished == Some(q[0].id) && State() == DiskState(q[1..], old(currentTrack))
    {
      var local := queue[0];
      if local.timeToRun > 0 {
        queue[0] := local.(timeToRun := local.timeToRun - 1);
        currentTrack := local.track;
        return None;
      }
      QRemove();
      return Some(local.id);
    }

    /** One iteration of the disk thread. */
    method DiskLoopTick() returns (finished: Option<nat>)
      requires Valid()
      modifies this, queue
      ensures Valid()
      ensures TickResult(State(), finished) == Tick(old(State()))
    {
      if len > 1 {
        SortDisk(currentTrack);
      }
      finished := None;
      if len > 0 {
        if len == 1 {
          SortFrontFixed(queue[..len], currentTrack);
        }
        if queue[0].track == currentTrack {
          finished := ExecIo();
          return;
        }
        MoveHeader(queue[0].track);
      }
    }
  }
}
