/** Which locks a release reports as complete. */
module Reports {
  import opened LockModel
  import opened WalkFacts
  import opened Guarantees

  /** The release of `id` completes the lock `x`. */
  ghost predicate Completes(m: Model, u: Model, id: int, x: int) {
    x in m.locks && x != id && x in u.locks && m.locks[x].stop < m.locks[x].end == u.locks[x].stop
  }

  /** Each lock is reported once or not at all. */
  lemma DoneCounts(m: Model, id: int, done: seq<int>, x: int)
    requires Inv(m) && id in m.locks && Known(m.locks, m.queue) && LockModel.Unlock(m, id).done == m.done + done
    ensures multiset(done)[x] == if Completes(m, LockModel.Unlock(m, id), id, x) then 1 else 0
  {
    var u := LockModel.Unlock(m, id);
    UnlockLedger(m, id);
    UnlockInv(m, id);
    assert multiset(u.done) == multiset(m.done) + multiset(done);
    if x in m.locks && x != id {
      UnlockReports(m, id, x);
    } else {
      Elsewhere(m, u, id, x);
      assert Ledger(m)[x] == Ledger(u)[x] + (if x == id && id in m.queue then 1 else 0);
    }
  }

  lemma Elsewhere(m: Model, u: Model, id: int, x: int)
    requires Inv(m) && Inv(u) && u.locks.Keys == m.locks.Keys - {id} && (x !in m.locks || x == id)
    ensures multiset(m.queue)[x] == if x == id && id in m.queue then 1 else 0
    ensures multiset(u.queue)[x] == 0
  {
    DistinctCounts(m.queue, x);
    DistinctCounts(u.queue, x);
    assert x in u.queue ==> x in u.locks.Keys;
  }

  lemma CountBefore(q: seq<int>, i: nat)
    requires i < |q| && q[i] in q[..i]
    ensures multiset(q)[q[i]] >= 2
  {
    assert q == q[..i] + [q[i]] + q[i + 1..];
    assert multiset(q) == multiset(q[..i]) + multiset([q[i]]) + multiset(q[i + 1..]);
  }

  lemma DoneOnce(m: Model, id: int, done: seq<int>, i: nat)
    requires Inv(m) && id in m.locks && Known(m.locks, m.queue) && LockModel.Unlock(m, id).done == m.done + done
    requires i < |done|
    ensures done[i] !in done[..i]
    ensures Completes(m, LockModel.Unlock(m, id), id, done[i])
  {
    DoneCounts(m, id, done, done[i]);
    hide LockModel.Unlock, Inv;
    assert done[i] in done;
    if done[i] in done[..i] {
      CountBefore(done, i);
    }
  }

  lemma ShapedAt(m: Model, x: int)
    requires Inv(m) && x in m.locks
    ensures m.locks[x].start <= m.locks[x].stop <= m.locks[x].end
  {
  }

  /** The log of completions only grows. */
  lemma {:induction false} WalkExtends(m: Model, id: int, k: nat)
    requires id in m.locks && Known(m.locks, m.queue) && k <= |m.queue|
    ensures m.done <= Walk(m, id, k).done
    decreases k
  {
    hide *;
    WalkUnfolds(m, id, k);
    if k > 0 && Stop(m, k - 1) >= m.locks[id].start {
      var t := Truncate(m, id, Stop(m, k - 1));
      var n := Advance(t, m.queue[k - 1]);
      AdvanceExtends(t, m.queue[k - 1]);
      WalkExtends(n, id, k - 1);
      PrefixTrans(m.done, n.done, Walk(m, id, k).done);
    }
  }

  lemma PrefixTrans(a: seq<int>, b: seq<int>, c: seq<int>)
    requires a <= b && b <= c
    ensures a <= c
  {
  }

  lemma WalkUnfolds(m: Model, id: int, k: nat)
    requires id in m.locks && Known(m.locks, m.queue) && k <= |m.queue|
    ensures k > 0 ==> m.queue[k - 1] in m.locks
    ensures k > 0 && Stop(m, k - 1) >= m.locks[id].start ==>
      Truncate(m, id, Stop(m, k - 1)).done == m.done &&
      Walk(m, id, k) == Walk(Advance(Truncate(m, id, Stop(m, k - 1)), m.queue[k - 1]), id, k - 1)
    ensures k == 0 || Stop(m, k - 1) < m.locks[id].start ==> Walk(m, id, k).done == m.done
  {
  }

  lemma AdvanceExtends(m: Model, id: int)
    requires id in m.locks && Known(m.locks, m.queue)
    ensures m.done <= Advance(m, id).done
  {
  }

  /** The locks that the release of `id` reports, in order. */
  ghost function Reported(m: Model, id: int): seq<int>
    requires id in m.locks && Known(m.locks, m.queue)
  {
    var u := LockModel.Unlock(m, id);
    if m.done <= u.done then u.done[|m.done|..] else []
  }

  lemma ReportedIs(m: Model, id: int)
    requires id in m.locks && Known(m.locks, m.queue)
    ensures LockModel.Unlock(m, id).done == m.done + Reported(m, id)
  {
    WalkExtends(Cancel(m, id), id, Below(Cancel(m, id), m.locks[id].stop));
  }

  lemma ReportedAre(m: Model, id: int, done: seq<int>)
    requires id in m.locks && Known(m.locks, m.queue) && LockModel.Unlock(m, id).done == m.done + done
    ensures done == Reported(m, id)
  {
    hide LockModel.Unlock;
    assert (m.done + done)[|m.done|..] == done;
  }

  /** Theorem: a release reports exactly the locks that it completes, each of them once. */
  lemma ReportedExactly(m: Model, id: int, x: int)
    requires Inv(m) && id in m.locks && Known(m.locks, m.queue)
    ensures multiset(Reported(m, id))[x] == if Completes(m, LockModel.Unlock(m, id), id, x) then 1 else 0
  {
    ReportedIs(m, id);
    DoneCounts(m, id, Reported(m, id), x);
  }
}
