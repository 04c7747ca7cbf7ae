/** Whole runs: what holds after every sequence of commands, and why no run gets stuck. */
module Runs {
  import opened LockModel
  import opened LockFacts
  import opened WalkFacts
  import opened Guarantees

  datatype Command =
    | LockRange(id: int, start: int, end: int, write: bool, priority: int)
    | TryLockRange(id: int, start: int, end: int, write: bool, priority: int)
    | UnlockRange(id: int)

  const EMPTY := Model(map[], [], [])

  /** Callers use a fresh identity for a non-empty range, and release what they locked. */
  predicate Allowed(m: Model, c: Command) {
    match c
    case LockRange(id, start, end, _, _) => id !in m.locks && start < end
    case TryLockRange(id, start, end, _, _) => id !in m.locks && start < end
    case UnlockRange(id) => id in m.locks
  }

  function Do(m: Model, c: Command): Model
    requires Known(m.locks, m.queue) && Allowed(m, c)
  {
    match c
    case LockRange(id, start, end, write, priority) => Acquire(m, id, Request(start, end, write, priority))
    case TryLockRange(id, start, end, write, priority) => TryAcquire(m, id, Request(start, end, write, priority))
    case UnlockRange(id) => Unlock(m, id)
  }

  ghost predicate Legal(m: Model, cs: seq<Command>)
    decreases |cs|
  {
    cs != [] ==> Known(m.locks, m.queue) && Allowed(m, cs[0]) && Legal(Do(m, cs[0]), cs[1..])
  }

  ghost function Run(m: Model, cs: seq<Command>): Model
    requires Legal(m, cs)
    decreases |cs|
  {
    if cs == [] then m else Run(Do(m, cs[0]), cs[1..])
  }

  lemma DoInv(m: Model, c: Command)
    requires Inv(m) && Allowed(m, c)
    ensures Inv(Do(m, c))
  {
    match c
    case LockRange(id, start, end, write, priority) => AcquireInv(m, id, Request(start, end, write, priority));
    case TryLockRange(id, start, end, write, priority) => AcquireInv(m, id, Request(start, end, write, priority));
    case UnlockRange(id) => UnlockInv(m, id);
  }

  lemma {:induction false} RunsFrom(m: Model, cs: seq<Command>)
    requires Inv(m) && Legal(m, cs)
    ensures Inv(Run(m, cs))
    decreases |cs|
  {
    if cs != [] {
      DoInv(m, cs[0]);
      hide Inv, Do;
      RunsFrom(Do(m, cs[0]), cs[1..]);
    }
  }

  lemma EmptyInv()
    ensures Inv(EMPTY)
  {
  }

  /** Theorem: after every run no two locks conflict and no waiter could proceed. */
  lemma RunInv(cs: seq<Command>)
    requires Legal(EMPTY, cs)
    ensures Inv(Run(EMPTY, cs))
  {
    EmptyInv();
    RunsFrom(EMPTY, cs);
  }

  // ----- Deadlock freedom

  predicate Complete(l: Lock) {
    l.stop >= l.end
  }

  /** The lock `a` waits at an index that `b` holds. */
  predicate WaitsFor(m: Model, a: int, b: int) {
    a in m.locks && b in m.locks && !Complete(m.locks[a]) && Clash(m.locks[b], m.locks[a].write, m.locks[a].stop)
  }

  /** Theorem: every waiter has a blocker, and the blocker is complete or waits further up. */
  lemma Blocker(m: Model, j: int) returns (b: int)
    requires Inv(m) && j in m.locks && !Complete(m.locks[j])
    ensures b in m.locks && b != j && WaitsFor(m, j, b)
    ensures Complete(m.locks[b]) || m.locks[b].stop > m.locks[j].stop
  {
    assert j in m.queue;
    b :| b in m.locks.Keys && Clash(m.locks[b], m.locks[j].write, m.locks[j].stop);
  }

  /** Theorem: nobody waits, however indirectly, for itself. */
  lemma {:induction false} WaitsForIsAcyclic(m: Model, path: seq<int>)
    requires |path| >= 2 && forall i | 0 <= i < |path| - 1 :: WaitsFor(m, path[i], path[i + 1])
    ensures path[0] in m.locks && path[|path| - 1] in m.locks && m.locks[path[0]].stop < m.locks[path[|path| - 1]].stop
    ensures path[0] != path[|path| - 1]
  {
    assert WaitsFor(m, path[0], path[1]);
    if |path| > 2 {
      var rest := path[1..];
      forall i | 0 <= i < |rest| - 1
        ensures WaitsFor(m, rest[i], rest[i + 1])
      {
        assert WaitsFor(m, path[i + 1], path[i + 2]);
      }
      WaitsForIsAcyclic(m, rest);
    }
  }

  /** Theorem: as long as there is a lock, some lock is complete. */
  lemma SomeComplete(m: Model, x: int) returns (id: int)
    requires Inv(m) && x in m.locks
    ensures id in m.locks && Complete(m.locks[id])
  {
    id := x;
    if m.queue != [] {
      var j := m.queue[|m.queue| - 1];
      assert j in m.queue;
      id := Blocker(m, j);
      LastIsHighest(m, id);
    }
  }

  lemma LastIsHighest(m: Model, x: int)
    requires Inv(m) && x in m.locks
    ensures x in m.queue ==> m.locks[x].stop <= m.locks[m.queue[|m.queue| - 1]].stop
  {
  }

  lemma SomeLock(locks: map<int, Lock>) returns (x: int)
    requires locks != map[]
    ensures x in locks
  {
    if forall x :: x !in locks {
      assert false;
    }
    x :| x in locks;
  }

  lemma NobodyWaits(m: Model)
    requires Inv(m)
    ensures m.queue != [] ==> m.locks != map[]
  {
    if m.queue != [] {
      assert m.queue[0] in m.locks;
    }
  }

  ghost predicate Drains(m: Model, ids: seq<int>)
    decreases |ids|
  {
    ids != [] ==>
      && ids[0] in m.locks && Complete(m.locks[ids[0]]) && Known(m.locks, m.queue)
      && Drains(Unlock(m, ids[0]), ids[1..])
  }

  ghost function Drained(m: Model, ids: seq<int>): Model
    requires Drains(m, ids)
    decreases |ids|
  {
    if ids == [] then m else Drained(Unlock(m, ids[0]), ids[1..])
  }

  /** Theorem: releasing complete locks, in whatever order they are picked, goes on until nothing is
      left: neither locks nor waiters. */
  lemma {:induction false} DrainEnds(m: Model, ids: seq<int>)
    requires Inv(m) && Drains(m, ids)
    ensures |ids| + |Drained(m, ids).locks| == |m.locks|
    ensures var d := Drained(m, ids);
      Inv(d) && ((exists x <- d.locks.Keys :: Complete(d.locks[x])) || (d.locks == map[] && d.queue == []))
    decreases |ids|
  {
    if ids == [] {
      if m.locks != map[] {
        var x := SomeLock(m.locks);
        var id := SomeComplete(m, x);
        assert id in m.locks.Keys;
      } else {
        NobodyWaits(m);
      }
    } else {
      var u := Unlock(m, ids[0]);
      UnlockInv(m, ids[0]);
      assert u.locks.Keys == m.locks.Keys - {ids[0]};
      assert |u.locks.Keys| == |m.locks.Keys| - 1;
      hide Unlock, Inv;
      DrainEnds(u, ids[1..]);
    }
  }

  // ----- A failed try

  /** `a` is `m` with one more lock, which nobody waits for. */
  ghost predicate Extra(m: Model, a: Model, id: int) {
    Inv(m) && id !in m.locks && id in a.locks && a.locks - {id} == m.locks && a.queue == m.queue && a.done == m.done
  }

  lemma ExtraStep(m: Model, a: Model, id: int, k: nat)
    requires Extra(m, a, id) && 0 < k <= |m.queue| && Known(a.locks, a.queue)
    ensures var t := Truncate(a, id, Stop(a, k - 1)); Extra(m, t, id) && Advance(t, a.queue[k - 1]) == t
  {
  }

  lemma ExtraIs(m: Model, a: Model, id: int)
    requires Extra(m, a, id)
    ensures id in a.locks && a.queue == m.queue && Drop(a, id) == m
  {
  }

  lemma {:induction false} ExtraWalk(m: Model, a: Model, id: int, k: nat)
    requires Extra(m, a, id) && Known(a.locks, a.queue) && k <= |m.queue|
    ensures a.queue == m.queue && id in a.locks && Walk(a, id, k) == m
    decreases k
  {
    hide Truncate, Advance, Extra, Known;
    ExtraIs(m, a, id);
    if k > 0 && Stop(a, k - 1) >= a.locks[id].start {
      ExtraStep(m, a, id, k);
      ExtraWalk(m, Truncate(a, id, Stop(a, k - 1)), id, k - 1);
    }
  }

  lemma PositionIs(r: seq<int>, k: nat, id: int)
    requires k < |r| && r[k] == id && forall i | 0 <= i < k :: r[i] != id
    ensures Position(r, id) == k && Without(r, id) == r[..k] + r[k + 1..]
  {
  }

  /** Theorem: a lock that is given up before anything else happens leaves no trace.  A failed try,
      which changes nothing, therefore equals a lock followed by its release. */
  lemma LockUnlock(m: Model, id: int, l: Lock)
    requires Inv(m) && id !in m.locks && l.start <= l.end
    ensures Known(Acquire(m, id, l).locks, Acquire(m, id, l).queue) && Unlock(Acquire(m, id, l), id) == m
  {
    hide Inv, Extra, Acquire, Cancel, Below, Walk;
    InvSound(m);
    AcquireInv(m, id, l);
    GivenUp(m, id, l);
    var a := Acquire(m, id, l);
    var c := Cancel(a, id);
    ExtraWalk(m, c, id, Below(c, a.locks[id].stop));
  }

  lemma GivenUp(m: Model, id: int, l: Lock)
    requires Inv(m) && id !in m.locks && l.start <= l.end
    ensures Known(m.locks, m.queue)
    ensures var a := Acquire(m, id, l);
      && Known(a.locks, a.queue) && id in a.locks && Extra(m, Cancel(a, id), id)
      && Known(Cancel(a, id).locks, Cancel(a, id).queue) && Cancel(a, id).queue == m.queue
  {
    hide Inv, Sound, Acquire, Cancel;
    InvSound(m);
    AcquireInv(m, id, l);
    GivenUpQueue(m, id, l);
    GivenUpLocks(m, id, l);
  }

  lemma GivenUpQueue(m: Model, id: int, l: Lock)
    requires Sound(m) && id !in m.locks
    ensures var a := Acquire(m, id, l);
      Known(a.locks, a.queue) && id in a.locks && Cancel(a, id).queue == m.queue
  {
    NotWaiting(m, id);
    hide Sound, Enqueue, Without, FirstBlocked;
    var a := Acquire(m, id, l);
    if FirstBlocked(m.locks, l.write, l.start, l.end) < l.end {
      EnqueueWithout(a.locks, m.queue, id);
    } else {
      WithoutNobody(m.queue, id);
    }
  }

  lemma GivenUpLocks(m: Model, id: int, l: Lock)
    requires Known(m.locks, m.queue) && id !in m.locks
    requires Known(Acquire(m, id, l).locks, Acquire(m, id, l).queue) && id in Acquire(m, id, l).locks
    ensures var c := Cancel(Acquire(m, id, l), id);
      c.locks - {id} == m.locks && c.done == m.done && id in c.locks && Known(c.locks, c.queue)
  {
  }

  // ----- Completion tokens over a run

  /** The token made by this command, if its lock has to wait. */
  ghost function Issued(m: Model, c: Command): multiset<int>
    requires Known(m.locks, m.queue) && Allowed(m, c)
  {
    if c.LockRange? && c.id in Do(m, c).queue then multiset{c.id} else multiset{}
  }

  /** The token handed back by this command, if its lock was still waiting. */
  ghost function Returned(m: Model, c: Command): multiset<int> {
    if c.UnlockRange? && c.id in m.queue then multiset{c.id} else multiset{}
  }

  ghost function AllIssued(m: Model, cs: seq<Command>): multiset<int>
    requires Legal(m, cs)
    decreases |cs|
  {
    if cs == [] then multiset{} else Issued(m, cs[0]) + AllIssued(Do(m, cs[0]), cs[1..])
  }

  ghost function AllReturned(m: Model, cs: seq<Command>): multiset<int>
    requires Legal(m, cs)
    decreases |cs|
  {
    if cs == [] then multiset{} else Returned(m, cs[0]) + AllReturned(Do(m, cs[0]), cs[1..])
  }

  lemma AcquireLedger(m: Model, id: int, l: Lock)
    requires Inv(m) && id !in m.locks && l.start <= l.end
    ensures var a := Acquire(m, id, l);
      Ledger(a) == Ledger(m) + (if id in a.queue then multiset{id} else multiset{})
  {
    var a := Acquire(m, id, l);
    AcquireSound(m, id, l);
    assert id !in m.queue;
    if FirstBlocked(m.locks, l.write, l.start, l.end) < l.end {
      EnqueueCounts(a.locks, m.queue, id);
    }
  }

  lemma DoLedger(m: Model, c: Command)
    requires Inv(m) && Allowed(m, c)
    ensures Ledger(m) + Issued(m, c) == Ledger(Do(m, c)) + Returned(m, c)
  {
    hide Unlock, Acquire, Ledger, Inv;
    match c
    case LockRange(id, start, end, write, priority) => AcquireLedger(m, id, Request(start, end, write, priority));
    case TryLockRange(id, start, end, write, priority) => TryLedger(m, id, Request(start, end, write, priority));
    case UnlockRange(id) => UnlockLedger(m, id);
  }

  lemma TryLedger(m: Model, id: int, l: Lock)
    requires Inv(m) && id !in m.locks && l.start <= l.end
    ensures Known(m.locks, m.queue) && Ledger(TryAcquire(m, id, l)) == Ledger(m)
  {
  }

  lemma Carry(a: multiset<int>, i: multiset<int>, b: multiset<int>, r: multiset<int>, more: multiset<int>,
          c: multiset<int>, rs: multiset<int>)
    requires a + i == b + r && b + more == c + rs
    ensures a + (i + more) == c + (r + rs)
  {
    assert a + (i + more) == (a + i) + more == (b + more) + r;
  }

  lemma {:induction false} LedgerFrom(m: Model, cs: seq<Command>)
    requires Inv(m) && Legal(m, cs)
    ensures Ledger(m) + AllIssued(m, cs) == Ledger(Run(m, cs)) + AllReturned(m, cs)
    decreases |cs|
  {
    if cs != [] {
      hide Inv, Do, Issued, Returned, Ledger, Known, Allowed;
      var n, rest := Do(m, cs[0]), cs[1..];
      DoLedger(m, cs[0]);
      DoInv(m, cs[0]);
      LedgerFrom(n, rest);
      var l, i, r := Ledger(Run(n, rest)), AllIssued(n, rest), AllReturned(n, rest);
      Carry(Ledger(m), Issued(m, cs[0]), Ledger(n), Returned(m, cs[0]), i, l, r);
    }
  }

  /** Theorem: after every run each token ever made is in exactly one place: with a lock that still
      waits, reported complete, or handed back. */
  lemma TokensConserved(cs: seq<Command>)
    requires Legal(EMPTY, cs)
    ensures var r := Run(EMPTY, cs);
      AllIssued(EMPTY, cs) == multiset(r.queue) + multiset(r.done) + AllReturned(EMPTY, cs)
  {
    EmptyInv();
    LedgerFrom(EMPTY, cs);
  }
}
