/**
  Selection and reaping over the process table, as functions: what the three scheduler routines make of
  any table, and when that is what their names promise.
*/
module Scheduler {
  import opened Common
  import opened Process

  ghost predicate Sorted(procs: seq<Proc>) {
    forall i, j :: 0 <= i < j < |procs| ==> procs[i].pid < procs[j].pid
  }

  // Demotion of the running process

  function Demoted(p: Proc): Proc {
    if p.status == Running then p.(status := Ready) else p
  }

  function NoRunning(procs: seq<Proc>): (r: seq<Proc>)
    ensures |r| == |procs| && forall i :: 0 <= i < |procs| ==> r[i] == Demoted(procs[i])
    ensures forall i :: 0 <= i < |procs| ==>
      r[i] == if procs[i].status == Running then procs[i].(status := Ready) else procs[i]
  {
    seq(|procs|, i requires 0 <= i < |procs| => Demoted(procs[i]))
  }

  // Reaping

  /** The reaping loop: the entry that moves into a freed slot is passed over without a look. */
  function Reap(procs: seq<Proc>): seq<Proc> {
    if procs == [] then []
    else if procs[0].status != Kill then [procs[0]] + Reap(procs[1..])
    else if |procs| == 1 then []
    else [procs[1]] + Reap(procs[2..])
  }

  function Survivors(procs: seq<Proc>): seq<Proc> {
    if procs == [] then []
    else (if procs[0].status == Kill then [] else [procs[0]]) + Survivors(procs[1..])
  }

  ghost predicate NoAdjacentKills(procs: seq<Proc>) {
    forall i, j :: 0 <= i < j < |procs| && j == i + 1 ==> !(procs[i].status == Kill && procs[j].status == Kill)
  }

  lemma {:induction false} SurvivorsNotKilled(procs: seq<Proc>)
    ensures forall p :: p in Survivors(procs) <==> p in procs && p.status != Kill
  {
    if procs != [] {
      SurvivorsNotKilled(procs[1..]);
      assert procs == [procs[0]] + procs[1..];
    }
  }

  lemma {:induction false} ReapFiltersIfApart(procs: seq<Proc>)
    requires NoAdjacentKills(procs)
    ensures Reap(procs) == Survivors(procs)
  {
    if procs == [] {
    } else if procs[0].status != Kill {
      ReapFiltersIfApart(procs[1..]);
    } else if |procs| > 1 {
      assert procs[1].status != Kill;
      ReapFiltersIfApart(procs[2..]);
      assert procs[1..][1..] == procs[2..];
    }
  }

  lemma {:induction false} ReapLeavesAdjacentKills(procs: seq<Proc>)
    requires forall p :: p in Reap(procs) ==> p.status != Kill
    ensures NoAdjacentKills(procs)
  {
    if procs == [] {
    } else if procs[0].status != Kill {
      assert Reap(procs) == [procs[0]] + Reap(procs[1..]);
      ReapLeavesAdjacentKills(procs[1..]);
      assert forall j :: 1 <= j < |procs| ==> procs[j] == procs[1..][j - 1];
    } else if |procs| > 1 {
      assert Reap(procs) == [procs[1]] + Reap(procs[2..]);
      assert procs[1] in Reap(procs);
      ReapLeavesAdjacentKills(procs[2..]);
      assert forall j :: 2 <= j < |procs| ==> procs[j] == procs[2..][j - 2];
    }
  }

  /** Reaping removes exactly the killed entries if and only if no two of them are neighbours. */
  lemma ReapIsFilterIff(procs: seq<Proc>)
    ensures Reap(procs) == Survivors(procs) <==> NoAdjacentKills(procs)
  {
    if Reap(procs) == Survivors(procs) {
      SurvivorsNotKilled(procs);
      ReapLeavesAdjacentKills(procs);
    } else if NoAdjacentKills(procs) {
      ReapFiltersIfApart(procs);
    }
  }

  /** Two killed neighbours: the second one survives the reaping. */
  lemma ReapMissesOne(a: Proc, b: Proc)
    requires a.status == Kill && b.status == Kill
    ensures Reap([a, b]) == [b]
  {
    assert [a, b][2..] == [];
  }

  /** The killed entries directly before entry `i`. */
  function KillsBefore(procs: seq<Proc>, i: nat): nat
    requires i <= |procs|
  {
    if i == 0 || procs[i - 1].status != Kill then 0 else 1 + KillsBefore(procs, i - 1)
  }

  /** The entries among the first `n` that are not killed, or are every second one of a row of killed ones. */
  function Staying(procs: seq<Proc>, n: nat): seq<Proc>
    requires n <= |procs|
  {
    if n == 0 then []
    else if procs[n - 1].status != Kill || KillsBefore(procs, n - 1) % 2 == 1 then Staying(procs, n - 1) + [procs[n - 1]]
    else Staying(procs, n - 1)
  }

  /** After an even number of kills, a killed entry goes, and the one after it stays. */
  lemma KillsAfter(procs: seq<Proc>, i: nat)
    requires i + 1 < |procs| && procs[i].status == Kill && KillsBefore(procs, i) % 2 == 0
    ensures KillsBefore(procs, i + 2) % 2 == 0
    ensures Staying(procs, i + 2) == Staying(procs, i) + [procs[i + 1]]
  {
    assert KillsBefore(procs, i + 1) == KillsBefore(procs, i) + 1;
    assert Staying(procs, i + 1) == Staying(procs, i);
  }

  lemma {:induction false} ReapFrom(procs: seq<Proc>, i: nat)
    requires i <= |procs| && KillsBefore(procs, i) % 2 == 0
    ensures Staying(procs, i) + Reap(procs[i..]) == Staying(procs, |procs|)
    decreases |procs| - i
  {
    if i < |procs| {
      var rest := procs[i..];
      if procs[i].status != Kill {
        assert rest[1..] == procs[i + 1..];
        assert Reap(rest) == [procs[i]] + Reap(procs[i + 1..]);
        ReapFrom(procs, i + 1);
        assert Staying(procs, i + 1) == Staying(procs, i) + [procs[i]];
      } else if i + 1 < |procs| {
        assert rest[2..] == procs[i + 2..];
        assert Reap(rest) == [procs[i + 1]] + Reap(procs[i + 2..]);
        KillsAfter(procs, i);
        ReapFrom(procs, i + 2);
      }
    }
  }

  /** On any table, reaping keeps who is not killed and every second one of a row of killed entries, in order. */
  lemma ReapIs(procs: seq<Proc>)
    ensures Reap(procs) == Staying(procs, |procs|)
  {
    ReapFrom(procs, 0);
    assert procs[0..] == procs;
  }

  lemma {:induction false} SurvivorsSorted(procs: seq<Proc>)
    requires Sorted(procs)
    ensures Sorted(Survivors(procs))
  {
    if procs != [] {
      SurvivorsSorted(procs[1..]);
      SurvivorsNotKilled(procs[1..]);
    }
  }

  lemma {:induction false} SurvivorsAll(procs: seq<Proc>)
    requires forall p :: p in procs ==> p.status != Kill
    ensures Survivors(procs) == procs
  {
    if procs != [] {
      SurvivorsAll(procs[1..]);
    }
  }

  lemma {:induction false} SurvivorsSize(procs: seq<Proc>)
    ensures |Survivors(procs)| <= |procs|
  {
    if procs != [] {
      SurvivorsSize(procs[1..]);
    }
  }

  // Selection

  predicate Eligible(p: Proc) {
    p.status != Blocked && p.status != Waiting
  }

  /** The comparison chain by which a candidate replaces the entry selected so far. */
  predicate Beats(c: Proc, s: Proc) {
    || c.rwCount < s.rwCount
    || (c.hUsed < s.hUsed && c.rwCount == s.rwCount)
    || (c.rwCount == s.rwCount && c.pid < s.pid)
  }

  function SelectAmong(procs: seq<Proc>, n: nat): (r: Option<nat>)
    requires n <= |procs|
    ensures r.Some? ==> r.value < n && Eligible(procs[r.value])
  {
    if n == 0 then None
    else
      var s := SelectAmong(procs, n - 1);
      if !Eligible(procs[n - 1]) then s
      else if s == None || Beats(procs[n - 1], procs[s.value]) then Some(n - 1)
      else s
  }

  function Select(procs: seq<Proc>): Option<nat> {
    SelectAmong(procs, |procs|)
  }

  /** The policy: fewest disk operations, then least use, then the oldest pid. */
  predicate Precedes(a: Proc, b: Proc) {
    || a.rwCount < b.rwCount
    || (a.rwCount == b.rwCount && a.hUsed < b.hUsed)
    || (a.rwCount == b.rwCount && a.hUsed == b.hUsed && a.pid < b.pid)
  }

  ghost predicate IsMinimum(procs: seq<Proc>, n: nat, i: nat)
    requires n <= |procs|
  {
    && i < n && Eligible(procs[i])
    && forall j :: 0 <= j < n && j != i && Eligible(procs[j]) ==> Precedes(procs[i], procs[j])
  }

  lemma {:induction false} SelectAmongIsMinimum(procs: seq<Proc>, n: nat)
    requires n <= |procs| && Sorted(procs)
    ensures match SelectAmong(procs, n)
      case None => forall j :: 0 <= j < n ==> !Eligible(procs[j])
      case Some(i) => IsMinimum(procs, n, i)
  {
    if n > 0 {
      SelectAmongIsMinimum(procs, n - 1);
    }
  }

  /**
    On a pid-sorted table the selected process is the least one in the policy order, and nothing is
    selected only if nothing is eligible.
  */
  lemma SelectIsMinimum(procs: seq<Proc>)
    requires Sorted(procs)
    ensures match Select(procs)
      case None => forall j :: 0 <= j < |procs| ==> !Eligible(procs[j])
      case Some(i) => IsMinimum(procs, |procs|, i)
  {
    SelectAmongIsMinimum(procs, |procs|);
  }

  /** Off the sorted tables the chain is not the policy: a later, smaller pid wins whatever its use. */
  lemma SelectNeedsSorting(a: Proc, b: Proc)
    requires a.status == Ready && b.status == Ready
    requires a.rwCount == b.rwCount && a.hUsed < b.hUsed && b.pid < a.pid
    ensures Precedes(a, b) && Select([a, b]) == Some(1)
  {
    assert SelectAmong([a, b], 1) == Some(0);
  }

  /** A minimum is unique, so `Select` is determined by it. */
  lemma SelectIs(procs: seq<Proc>, i: nat)
    requires Sorted(procs) && IsMinimum(procs, |procs|, i)
    ensures Select(procs) == Some(i)
  {
    SelectIsMinimum(procs);
  }
}
