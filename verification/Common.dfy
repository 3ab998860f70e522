/**
  The option type, events, track distance, and counting facts that several components share, such as
  the pigeonhole principle by which the fixed-size queues never overflow.
*/
module Common {
  datatype Option<+T> = None | Some(value: T)

  /** What happens to a device: a request arrives, or a tick goes by. */
  datatype Event<+T> = Arrive(item: T) | Elapse

  /** The pid that a device's tick reports, as a sequence. */
  function Reported(finished: Option<nat>): seq<nat> {
    match finished case None => [] case Some(pid) => [pid]
  }

  /** The absolute difference that the disk uses as its distance between tracks. */
  function AbsDiff(a: nat, b: nat): nat {
    if a > b then a - b else b - a
  }

  lemma SameSlice<T>(a: seq<T>, b: seq<T>, lo: nat, hi: nat)
    requires lo <= hi <= |a| && hi <= |b|
    requires forall j :: lo <= j < hi ==> a[j] == b[j]
    ensures a[lo..hi] == b[lo..hi]
  {
  }

  ghost predicate Distinct<T>(s: seq<T>) {
    forall i, j :: 0 <= i < j < |s| ==> s[i] != s[j]
  }

  ghost function Elements<T>(s: seq<T>): set<T> {
    set x | x in s
  }

  /** A sequence without repetitions has as many entries as its set of entries. */
  lemma {:induction false} DistinctSize<T>(s: seq<T>)
    requires Distinct(s)
    ensures |Elements(s)| == |s|
  {
    if s == [] {
      assert Elements(s) == {};
    } else {
      var front, z := s[..|s| - 1], s[|s| - 1];
      DistinctSize(front);
      assert s == front + [z];
      assert Elements(s) == Elements(front) + {z};
    }
  }

  lemma SubsetSize<T>(a: set<T>, b: set<T>)
    requires a <= b
    ensures |a| <= |b|
  {
    assert b == a + (b - a);
  }

  /** The numbers smaller than `n`. */
  ghost function Below(n: nat): (r: set<nat>)
    ensures |r| == n
    ensures forall x: nat :: x in r <==> x < n
  {
    if n == 0 then {} else Below(n - 1) + {n - 1}
  }

  /** Pigeonhole: distinct numbers below `n` are at most `n` many. */
  lemma DistinctBelow(s: seq<nat>, n: nat)
    requires Distinct(s)
    requires forall x :: x in s ==> x < n
    ensures |s| <= n
  {
    DistinctSize(s);
    SubsetSize(Elements(s), Below(n));
  }
}
