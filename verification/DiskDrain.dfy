/** Draining the disk: how long it takes, how far the head travels, and what arrivals cannot change. */
module DiskDrain {
  import opened Common
  import opened Disk

  /** Units of service left, counting the tick that removes each request. */
  function Service(q: seq<IoReq>): nat {
    if q == [] then 0 else Service(q[..|q| - 1]) + q[|q| - 1].timeToRun + 1
  }

  function Nearest(s: DiskState): nat {
    if s.queue == [] then 0 else AbsDiff(s.track, SortFront(s.queue, s.track)[0].track)
  }

  lemma {:induction false} ServiceSplit(a: seq<IoReq>, b: seq<IoReq>)
    ensures Service(a + b) == Service(a) + Service(b)
  {
    if b == [] {
      assert a + b == a;
    } else {
      var b' := b[..|b| - 1];
      assert (a + b)[..|a + b| - 1] == a + b';
      ServiceSplit(a, b');
    }
  }

  lemma ServiceUpdate(q: seq<IoReq>, i: nat, r: IoReq)
    requires i < |q|
    ensures Service(q[i := r]) + q[i].timeToRun == Service(q) + r.timeToRun
  {
    assert q == q[..i] + ([q[i]] + q[i + 1..]);
    assert q[i := r] == q[..i] + ([r] + q[i + 1..]);
    ServiceSplit(q[..i], [q[i]] + q[i + 1..]);
    ServiceSplit(q[..i], [r] + q[i + 1..]);
    ServiceSplit([q[i]], q[i + 1..]);
    ServiceSplit([r], q[i + 1..]);
  }

  lemma ServiceSorted(q: seq<IoReq>, base: nat)
    ensures Service(SortFront(q, base)) == Service(q)
  {
    if q != [] {
      var k := Closest(q, base);
      ServiceUpdate(q, 0, q[k]);
      ServiceUpdate(q[0 := q[k]], k, q[0]);
    }
  }

  lemma ServiceHead(q: seq<IoReq>)
    requires q != []
    ensures Service(q) == q[0].timeToRun + 1 + Service(q[1..])
    ensures q[0].timeToRun > 0 ==> Service(q[0 := q[0].(timeToRun := q[0].timeToRun - 1)]) == Service(q) - 1
  {
    assert q == [q[0]] + q[1..];
    ServiceSplit([q[0]], q[1..]);
    if q[0].timeToRun > 0 {
      ServiceUpdate(q, 0, q[0].(timeToRun := q[0].timeToRun - 1));
    }
  }

  /** A tick on the track of the nearest request serves one unit. */
  lemma TickServes(s: DiskState)
    requires s.queue != [] && Nearest(s) == 0
    ensures Tick(s).state.track == s.track
    ensures Service(Tick(s).state.queue) == Service(s.queue) - 1
  {
    ServiceSorted(s.queue, s.track);
    ServiceHead(SortFront(s.queue, s.track));
  }

  /** Any other tick moves the head one track closer to the nearest request, which stays the nearest. */
  lemma TickMoves(s: DiskState)
    requires s.queue != [] && Nearest(s) > 0
    ensures var q := SortFront(s.queue, s.track);
      var t := Toward(s.track, q[0].track);
      && Tick(s) == TickResult(DiskState(q, t), None)
      && AbsDiff(s.track, t) == 1
      && SortFront(q, t) == q
      && Service(q) == Service(s.queue)
      && AbsDiff(t, q[0].track) == Nearest(s) - 1
  {
    ServiceSorted(s.queue, s.track);
    var q := SortFront(s.queue, s.track);
    SortFrontFixed(q, Toward(s.track, q[0].track));
  }

  lemma TickProgress(s: DiskState)
    requires s.queue != []
    ensures Service(Tick(s).state.queue) < Service(s.queue) ||
      (Service(Tick(s).state.queue) == Service(s.queue) && Nearest(Tick(s).state) < Nearest(s))
  {
    if Nearest(s) == 0 {
      TickServes(s);
    } else {
      TickMoves(s);
    }
  }

  /** The state after `n` ticks without arrivals. */
  function Ticks(s: DiskState, n: nat): DiskState
    decreases n
  {
    if n == 0 then s else Ticks(Tick(s).state, n - 1)
  }

  /** The pids reported finished by the first `n` ticks, in order. */
  function Finished(s: DiskState, n: nat): seq<nat>
    decreases n
  {
    if n == 0 then []
    else Reported(Tick(s).finished) + Finished(Tick(s).state, n - 1)
  }

  /** Tracks crossed by the head during the first `n` ticks. */
  function Travel(s: DiskState, n: nat): nat
    decreases n
  {
    if n == 0 then 0 else AbsDiff(s.track, Tick(s).state.track) + Travel(Tick(s).state, n - 1)
  }

  /** Ticks until the queue is empty. */
  function DrainTime(s: DiskState): nat
    decreases Service(s.queue), Nearest(s)
  {
    if s.queue == [] then 0
    else
      TickProgress(s);
      1 + DrainTime(Tick(s).state)
  }

  /** `DrainTime` really is the first moment at which the queue is empty. */
  lemma {:induction false} DrainTimeExact(s: DiskState, n: nat)
    ensures Ticks(s, n).queue == [] <==> n >= DrainTime(s)
    decreases n
  {
    if n > 0 {
      DrainTimeExact(Tick(s).state, n - 1);
    }
  }

  /** Draining takes one tick per unit of service, one per removal and one per track travelled. */
  lemma {:induction false} DrainTimeIsServicePlusTravel(s: DiskState)
    ensures DrainTime(s) == Service(s.queue) + Travel(s, DrainTime(s))
    decreases DrainTime(s)
  {
    if s.queue != [] {
      if Nearest(s) == 0 {
        TickServes(s);
      } else {
        TickMoves(s);
      }
      DrainTimeIsServicePlusTravel(Tick(s).state);
    }
  }

  function Ids(q: seq<IoReq>): (ids: seq<nat>)
    ensures |ids| == |q| && forall i :: 0 <= i < |q| ==> ids[i] == q[i].id
  {
    seq(|q|, i requires 0 <= i < |q| => q[i].id)
  }

  lemma IdsSorted(q: seq<IoReq>, base: nat)
    ensures multiset(Ids(SortFront(q, base))) == multiset(Ids(q))
  {
    if q != [] {
      var k := Closest(q, base);
      assert Ids(SortFront(q, base)) == Swap(Ids(q), 0, k);
    }
  }

  lemma TickIds(s: DiskState)
    requires s.queue != []
    ensures multiset(Ids(s.queue)) ==
      multiset(Ids(Tick(s).state.queue)) + multiset(Reported(Tick(s).finished))
  {
    var q := SortFront(s.queue, s.track);
    IdsSorted(s.queue, s.track);
    assert Ids(q) == [q[0].id] + Ids(q[1..]);
    if q[0].track == s.track && q[0].timeToRun > 0 {
      assert Ids(Tick(s).state.queue) == Ids(q);
    }
  }

  /** Every queued request is reported finished exactly as often as it was queued, and nothing else is. */
  lemma {:induction false} EachFinishedOnce(s: DiskState)
    ensures multiset(Finished(s, DrainTime(s))) == multiset(Ids(s.queue))
    decreases DrainTime(s)
  {
    if s.queue == [] {
      assert Ids(s.queue) == [];
    } else {
      var t := Tick(s);
      TickIds(s);
      EachFinishedOnce(t.state);
      DrainTimeNext(s, t.state);
      FinishedNext(s, t.state, DrainTime(t.state));
    }
  }

  /** A tick keeps or reports only requests that were queued. */
  lemma TickIdsIn(s: DiskState)
    ensures forall pid :: pid in Ids(Tick(s).state.queue) ==> pid in Ids(s.queue)
    ensures Tick(s).finished.Some? ==> Tick(s).finished.value in Ids(s.queue)
  {
    if s.queue != [] {
      TickIds(s);
      var ids, left, done := Ids(s.queue), Ids(Tick(s).state.queue), Reported(Tick(s).finished);
      forall pid | pid in left || pid in done
        ensures pid in ids
      {
        assert pid in multiset(left) + multiset(done);
      }
    }
  }

  lemma FinishedNext(s: DiskState, t: DiskState, n: nat)
    requires t == Tick(s).state
    ensures Finished(s, n + 1) == Reported(Tick(s).finished) + Finished(t, n)
  {
  }

  lemma {:induction false} IdleFinishesNothing(s: DiskState, n: nat)
    requires s.queue == []
    ensures Finished(s, n) == []
    decreases n
  {
    if n > 0 {
      IdleFinishesNothing(s, n - 1);
    }
  }

  lemma {:induction false} FinishedByThen(s: DiskState, n: nat)
    requires n >= DrainTime(s)
    ensures Finished(s, n) == Finished(s, DrainTime(s))
    decreases n
  {
    if s.queue == [] {
      IdleFinishesNothing(s, n);
    } else {
      var t := TickOf(s);
      DrainTimeNext(s, t);
      FinishedNext(s, t, n - 1);
      FinishedNext(s, t, DrainTime(t));
      FinishedByThen(t, n - 1);
    }
  }

  lemma TickOf(s: DiskState) returns (t: DiskState)
    ensures t == Tick(s).state
  {
    t := Tick(s).state;
  }

  /**
    The bookkeeping for the travel bound: every pending track and the head lie in [lo, hi],
    and nothing is pending within `left` below the head nor within `right` above it.
  */
  ghost predicate Clear(s: DiskState, lo: nat, hi: nat, left: nat, right: nat) {
    && lo <= s.track - left && s.track + right <= hi
    && (forall i {:trigger s.queue[i]} :: 0 <= i < |s.queue| ==>
          && lo <= s.queue[i].track <= hi
          && !(s.track - left < s.queue[i].track < s.track)
          && !(s.track < s.queue[i].track < s.track + right))
  }

  lemma ClearSorted(s: DiskState, lo: nat, hi: nat, left: nat, right: nat)
    requires Clear(s, lo, hi, left, right)
    ensures Clear(s.(queue := SortFront(s.queue, s.track)), lo, hi, left, right)
  {
    var q := SortFront(s.queue, s.track);
    forall i | 0 <= i < |q|
      ensures q[i] in s.queue
    {
      assert q[i] in multiset(q);
      assert q[i] in multiset(s.queue);
    }
  }

  /** A serving tick leaves the clear zones as they were. */
  lemma ClearServed(s: DiskState, lo: nat, hi: nat, left: nat, right: nat)
    requires s.queue != [] && Nearest(s) == 0
    requires Clear(s, lo, hi, left, right)
    ensures Clear(Tick(s).state, lo, hi, left, right)
  {
    ClearSorted(s, lo, hi, left, right);
  }

  function Max(a: nat, b: nat): nat { if a > b then a else b }

  /** `d` tracks to the right, the nearest request: one step towards it pays for itself. */
  lemma StepRight(s: DiskState, lo: nat, hi: nat, left: nat, right: nat)
    returns (lo': nat, left': nat, right': nat)
    requires Clear(s, lo, hi, left, right)
    requires s.queue != [] && IsFirstClosest(s.queue, s.track, 0) && s.queue[0].track > s.track
    ensures Clear(s.(track := s.track + 1), lo', hi, left', right')
    ensures 1 + 2 * (hi - lo') - Max(left', right') <= 2 * (hi - lo) - Max(left, right)
  {
    var d := s.queue[0].track - s.track;
    right' := if right > 0 then right - 1 else 0;
    if s.track - lo >= d {
      // everything nearer than d on the left is clear as well
      lo', left' := lo, Max(left, d) + 1;
    } else {
      // nothing at all is pending on the left
      lo', left' := s.track + 1, 0;
    }
  }

  lemma StepLeft(s: DiskState, lo: nat, hi: nat, left: nat, right: nat)
    returns (hi': nat, left': nat, right': nat)
    requires Clear(s, lo, hi, left, right)
    requires s.queue != [] && IsFirstClosest(s.queue, s.track, 0) && s.queue[0].track < s.track
    ensures Clear(s.(track := s.track - 1), lo, hi', left', right')
    ensures 1 + 2 * (hi' - lo) - Max(left', right') <= 2 * (hi - lo) - Max(left, right)
  {
    var d := s.track - s.queue[0].track;
    left' := if left > 0 then left - 1 else 0;
    if hi - s.track >= d {
      hi', right' := hi, Max(right, d) + 1;
    } else {
      hi', right' := s.track - 1, 0;
    }
  }

  lemma DrainTimeNext(s: DiskState, t: DiskState)
    requires s.queue != [] && t == Tick(s).state
    ensures DrainTime(s) == DrainTime(t) + 1
  {
  }

  lemma TravelNext(s: DiskState, t: DiskState, n: nat)
    requires t == Tick(s).state
    ensures Travel(s, n + 1) == AbsDiff(s.track, t.track) + Travel(t, n)
  {
  }

  lemma DrainStep(s: DiskState, t: DiskState)
    requires s.queue != [] && t == Tick(s).state
    ensures DrainTime(t) < DrainTime(s)
    ensures Travel(s, DrainTime(s)) == AbsDiff(s.track, t.track) + Travel(t, DrainTime(t))
  {
    DrainTimeNext(s, t);
    TravelNext(s, t, DrainTime(t));
  }

  /**
    The potential argument. A tick towards the nearest request widens the clear zone behind the
    head by one; turning back never pays off sooner than the zone it has to cross again.
  */
  lemma {:induction false} TravelPotential(s: DiskState, lo: nat, hi: nat, left: nat, right: nat)
    requires Clear(s, lo, hi, left, right)
    ensures Travel(s, DrainTime(s)) + Max(left, right) <= 2 * (hi - lo)
    decreases DrainTime(s)
  {
    if s.queue != [] {
      var lo', hi', left', right' := ClearTick(s, lo, hi, left, right);
      DrainStep(s, Tick(s).state);
      TravelPotential(Tick(s).state, lo', hi', left', right');
    }
  }

  lemma ClearTick(s: DiskState, lo: nat, hi: nat, left: nat, right: nat)
    returns (lo': nat, hi': nat, left': nat, right': nat)
    requires s.queue != []
    requires Clear(s, lo, hi, left, right)
    ensures Clear(Tick(s).state, lo', hi', left', right')
    ensures AbsDiff(s.track, Tick(s).state.track) + 2 * (hi' - lo') - Max(left', right')
         <= 2 * (hi - lo) - Max(left, right)
  {
    lo', hi', left', right' := lo, hi, left, right;
    if Nearest(s) == 0 {
      TickServes(s);
      ClearServed(s, lo, hi, left, right);
    } else {
      TickMoves(s);
      ClearSorted(s, lo, hi, left, right);
      var sorted := s.(queue := SortFront(s.queue, s.track));
      if sorted.queue[0].track > s.track {
        lo', left', right' := StepRight(sorted, lo, hi, left, right);
      } else {
        hi', left', right' := StepLeft(sorted, lo, hi, left, right);
      }
    }
  }

  /** Main result: draining moves the head at most twice the span of the start and pending tracks. */
  lemma TravelAtMostTwiceTheSpan(s: DiskState, lo: nat, hi: nat)
    requires lo <= s.track <= hi
    requires forall i :: 0 <= i < |s.queue| ==> lo <= s.queue[i].track <= hi
    ensures Travel(s, DrainTime(s)) <= 2 * (hi - lo)
  {
    TravelPotential(s, lo, hi, 0, 0);
  }

  /** Hence at most twice the disk, for every queue that `SimulateIo` can build. */
  lemma TravelAtMostTwiceTheDisk(s: DiskState)
    requires s.track <= TOTAL_TRACKS
    requires forall i :: 0 <= i < |s.queue| ==> s.queue[i].track <= TOTAL_TRACKS
    ensures Travel(s, DrainTime(s)) <= 2 * TOTAL_TRACKS
    ensures DrainTime(s) <= Service(s.queue) + 2 * TOTAL_TRACKS
  {
    TravelAtMostTwiceTheSpan(s, 0, TOTAL_TRACKS);
    DrainTimeIsServicePlusTravel(s);
  }

  /**
    The tick form refines a hop: the request chosen now is the one still in front, in an otherwise
    unchanged queue, when the head reaches its track, one tick per track later and with nothing
    finished on the way.
  */
  lemma {:induction false} TicksAreAHop(s: DiskState)
    requires s.queue != [] && Nearest(s) > 0
    ensures var q := SortFront(s.queue, s.track);
      Ticks(s, Nearest(s)) == DiskState(q, q[0].track)
    ensures Finished(s, Nearest(s)) == [] && Travel(s, Nearest(s)) == Nearest(s)
    decreases Nearest(s)
  {
    TickMoves(s);
    var q := SortFront(s.queue, s.track);
    var next := DiskState(q, Toward(s.track, q[0].track));
    assert Nearest(next) == Nearest(s) - 1;
    assert Ticks(s, Nearest(s)) == Ticks(next, Nearest(next));
    if Nearest(next) > 0 {
      TicksAreAHop(next);
    }
  }

  // Arrivals

  function Step(s: DiskState, e: Event<IoReq>): DiskState {
    match e
    case Arrive(r) => s.(queue := s.queue + [r])
    case Elapse => Tick(s).state
  }

  function Play(s: DiskState, es: seq<Event<IoReq>>): DiskState
    decreases |es|
  {
    if es == [] then s else Play(Step(s, es[0]), es[1..])
  }

  function Elapsed(es: seq<Event<IoReq>>): nat {
    if es == [] then 0 else (if es[0].Elapse? then 1 else 0) + Elapsed(es[1..])
  }

  /**
    Once the head is on the front request's track, no arrivals displace it: after any events it has
    been served once per elapsed tick, and the tick after its last unit reports exactly this request.
  */
  lemma {:induction false} ServiceNotPreempted(s: DiskState, es: seq<Event<IoReq>>)
    requires s.queue != [] && s.queue[0].track == s.track
    requires Elapsed(es) <= s.queue[0].timeToRun
    ensures var r := s.queue[0];
      var s' := Play(s, es);
      && s'.queue != [] && s'.track == s.track
      && s'.queue[0] == r.(timeToRun := r.timeToRun - Elapsed(es))
      && (Elapsed(es) == r.timeToRun ==> Tick(s').finished == Some(r.id) && Tick(s').state.queue == s'.queue[1..])
      && (Elapsed(es) < r.timeToRun ==> Tick(s').finished == None)
    decreases es
  {
    if es == [] {
      SortFrontFixed(s.queue, s.track);
    } else {
      if es[0].Elapse? {
        SortFrontFixed(s.queue, s.track);
      }
      ServiceNotPreempted(Step(s, es[0]), es[1..]);
    }
  }
}
