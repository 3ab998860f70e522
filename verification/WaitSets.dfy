/**
  Who waits for what. The process statuses, the ids in the disk queue and the pids in the semaphore
  rings are kept in separate structures; `InSync` says that they tell the same story.
*/
module WaitSets {
  import opened Common
  import opened Process

  ghost predicate InSomeRing(rings: seq<seq<nat>>, pid: nat) {
    exists j :: 0 <= j < |rings| && pid in rings[j]
  }

  ghost predicate Has(st: map<nat, Status>, pid: nat, s: Status) {
    pid in st && st[pid] == s
  }

  /** The blocked pids are the disk ids, once each; the waiting pids are the ring entries, in one ring once each. */
  ghost predicate InSync(st: map<nat, Status>, ids: seq<nat>, rings: seq<seq<nat>>) {
    && Distinct(ids)
    && (forall pid :: pid in ids <==> Has(st, pid, Blocked))
    && (forall j :: 0 <= j < |rings| ==> Distinct(rings[j]))
    && (forall j, l, pid :: 0 <= j < l < |rings| && pid in rings[j] ==> pid !in rings[l])
    && (forall pid :: InSomeRing(rings, pid) <==> Has(st, pid, Waiting))
  }

  lemma SyncSameWaiters(st: map<nat, Status>, st': map<nat, Status>, ids: seq<nat>, rings: seq<seq<nat>>)
    requires InSync(st, ids, rings)
    requires forall pid :: Has(st, pid, Blocked) <==> Has(st', pid, Blocked)
    requires forall pid :: Has(st, pid, Waiting) <==> Has(st', pid, Waiting)
    ensures InSync(st', ids, rings)
  {
  }

  lemma SyncBlock(st: map<nat, Status>, ids: seq<nat>, rings: seq<seq<nat>>, pid: nat)
    requires InSync(st, ids, rings)
    requires pid in st && st[pid] != Blocked && st[pid] != Waiting
    ensures InSync(st[pid := Blocked], ids + [pid], rings)
  {
    var st' := st[pid := Blocked];
    assert pid !in ids;
    forall x
      ensures x in ids + [pid] <==> Has(st', x, Blocked)
      ensures InSomeRing(rings, x) <==> Has(st', x, Waiting)
    {
      assert x in ids <==> Has(st, x, Blocked);
      assert InSomeRing(rings, x) <==> Has(st, x, Waiting);
    }
  }

  lemma SyncUnblock(st: map<nat, Status>, ids: seq<nat>, rings: seq<seq<nat>>, s: Status)
    requires InSync(st, ids, rings)
    requires ids != [] && s != Blocked && s != Waiting
    ensures ids[0] in st && InSync(st[ids[0] := s], ids[1..], rings)
  {
    assert ids[0] in ids;
    assert Has(st, ids[0], Blocked);
    var st' := st[ids[0] := s];
    forall x
      ensures x in ids[1..] <==> Has(st', x, Blocked)
      ensures InSomeRing(rings, x) <==> Has(st', x, Waiting)
    {
      assert x in ids <==> x == ids[0] || x in ids[1..];
      assert x in ids <==> Has(st, x, Blocked);
      assert InSomeRing(rings, x) <==> Has(st, x, Waiting);
    }
  }

  lemma SyncReorder(st: map<nat, Status>, ids: seq<nat>, ids': seq<nat>, rings: seq<seq<nat>>)
    requires InSync(st, ids, rings)
    requires multiset(ids) == multiset(ids')
    ensures InSync(st, ids', rings)
  {
    forall x
      ensures x in ids' <==> x in ids
    {
      assert x in ids' <==> x in multiset(ids');
      assert x in ids <==> x in multiset(ids);
    }
    DistinctReorder(ids, ids');
  }

  lemma DistinctReorder(s: seq<nat>, t: seq<nat>)
    requires Distinct(s) && multiset(s) == multiset(t)
    ensures Distinct(t)
  {
    forall i, j | 0 <= i < j < |t|
      ensures t[i] != t[j]
    {
      if t[i] == t[j] {
        assert t == t[..i] + [t[i]] + t[i + 1..j] + [t[j]] + t[j + 1..];
        assert multiset(t)[t[i]] >= 2;
        DistinctOnce(s, t[i]);
      }
    }
  }

  lemma {:induction false} DistinctOnce(s: seq<nat>, x: nat)
    requires Distinct(s)
    ensures multiset(s)[x] <= 1
  {
    if s != [] {
      assert s == [s[0]] + s[1..];
      DistinctOnce(s[1..], x);
      if s[0] == x {
        assert x !in s[1..];
      }
    }
  }

  lemma SyncWait(st: map<nat, Status>, ids: seq<nat>, rings: seq<seq<nat>>, pid: nat, j: nat)
    requires InSync(st, ids, rings) && j < |rings|
    requires pid in st && st[pid] != Blocked && st[pid] != Waiting
    ensures InSync(st[pid := Waiting], ids, rings[j := rings[j] + [pid]])
  {
    var st' := st[pid := Waiting];
    var rings' := rings[j := rings[j] + [pid]];
    assert !InSomeRing(rings, pid);
    forall x
      ensures InSomeRing(rings', x) <==> Has(st', x, Waiting)
      ensures x in ids <==> Has(st', x, Blocked)
    {
      assert x in ids <==> Has(st, x, Blocked);
      assert InSomeRing(rings, x) <==> Has(st, x, Waiting);
      if x == pid {
        assert x in rings'[j];
      } else if InSomeRing(rings, x) {
        var l :| 0 <= l < |rings| && x in rings[l];
        assert x in rings'[l];
      }
    }
  }

  lemma SyncWake(st: map<nat, Status>, ids: seq<nat>, rings: seq<seq<nat>>, j: nat, s: Status)
    requires InSync(st, ids, rings) && j < |rings| && rings[j] != []
    requires s != Blocked && s != Waiting
    ensures rings[j][0] in st && InSync(st[rings[j][0] := s], ids, rings[j := rings[j][1..]])
  {
    var pid := rings[j][0];
    assert pid in rings[j] && InSomeRing(rings, pid) && Has(st, pid, Waiting);
    var st' := st[pid := s];
    var rings' := rings[j := rings[j][1..]];
    assert pid !in rings'[j];
    forall x
      ensures InSomeRing(rings', x) <==> Has(st', x, Waiting)
      ensures x in ids <==> Has(st', x, Blocked)
    {
      assert x in ids <==> Has(st, x, Blocked);
      assert InSomeRing(rings, x) <==> Has(st, x, Waiting);
      if x == pid {
        assert forall l :: 0 <= l < |rings'| ==> x !in rings'[l];
      } else if InSomeRing(rings, x) {
        var l :| 0 <= l < |rings| && x in rings[l];
        assert x in rings'[l];
      }
    }
  }

  lemma SyncNewRings(st: map<nat, Status>, ids: seq<nat>, rings: seq<seq<nat>>, rings': seq<seq<nat>>)
    requires InSync(st, ids, rings) && rings <= rings'
    requires forall j :: |rings| <= j < |rings'| ==> rings'[j] == []
    ensures InSync(st, ids, rings')
  {
    forall x
      ensures InSomeRing(rings', x) <==> InSomeRing(rings, x)
    {
      if InSomeRing(rings, x) {
        var j :| 0 <= j < |rings| && x in rings[j];
        assert x in rings'[j];
      }
    }
  }
}
