/** What a request is entitled to, told by who holds which index. */
module Requests {
  import opened LockModel
  import opened LockFacts
  import opened WalkFacts

  /** No lock holds index `i` in a mode that conflicts. */
  ghost predicate Free(locks: map<int, Lock>, write: bool, i: int) {
    forall x <- locks.Keys :: Holds(locks[x], i) ==> !write && !locks[x].write
  }

  ghost predicate AllFree(locks: map<int, Lock>, write: bool, start: int, end: int) {
    forall i | start <= i < end :: Free(locks, write, i)
  }

  /** A request gets as far as `stop`: everything before is free, and `stop` itself is not. */
  ghost predicate Reaches(locks: map<int, Lock>, write: bool, start: int, end: int, stop: int) {
    start <= stop <= end && AllFree(locks, write, start, stop) && (stop < end ==> !Free(locks, write, stop))
  }

  /** From `m` to `r` only the lock `id` is new. */
  ghost predicate Added(m: Model, r: Model, id: int) {
    && r.locks.Keys == m.locks.Keys + {id} && (forall x <- m.locks.Keys :: r.locks[x] == m.locks[x])
    && Without(r.queue, id) == m.queue && r.done == m.done
  }

  lemma BlockedIff(locks: map<int, Lock>, write: bool, i: int)
    ensures Blocked(locks, write, i) <==> !Free(locks, write, i)
  {
  }

  lemma FreeRun(locks: map<int, Lock>, write: bool, lo: int, hi: int)
    requires lo <= hi
    ensures var s := FirstBlocked(locks, write, lo, hi);
      Reaches(locks, write, lo, hi, s) && (s == hi <==> AllFree(locks, write, lo, hi))
  {
    hide Free, Blocked, FirstBlocked;
    forall i: int
      ensures Blocked(locks, write, i) <==> !Free(locks, write, i)
    {
      BlockedIff(locks, write, i);
    }
  }

  /** Theorem: a request is answered by exactly the lock that was asked for, up to the first index that
      someone else holds in a conflicting mode, where it waits; nothing else changes. */
  lemma AcquireMakes(m: Model, id: int, start: int, end: int, write: bool, priority: int)
    requires Sound(m) && Known(m.locks, m.queue) && id !in m.locks && start <= end
    ensures var r := Acquire(m, id, Request(start, end, write, priority));
      && Added(m, r, id) && r.locks[id] == Lock(start, end, write, priority, r.locks[id].stop)
      && Reaches(m.locks, write, start, end, r.locks[id].stop)
      && (id in r.queue <==> r.locks[id].stop < end)
      && (r.locks[id].stop == end <==> AllFree(m.locks, write, start, end))
  {
    hide Sound, Free, AllFree, Reaches, FirstBlocked, Enqueue, Without;
    NotWaiting(m, id);
    FreeRun(m.locks, write, start, end);
    var r := Acquire(m, id, Request(start, end, write, priority));
    if r.locks[id].stop < end {
      EnqueueWithout(r.locks, m.queue, id);
      EnqueueOnly(r.locks, m.queue, id);
      EnqueueHas(r.locks, m.queue, id);
    } else {
      WithoutNobody(m.queue, id);
    }
  }

  lemma EnqueueHas(locks: map<int, Lock>, q: seq<int>, id: int)
    requires id in locks && Known(locks, q)
    ensures id in Enqueue(locks, q, id)
  {
    var k := Place(locks, q, locks[id]);
    assert Enqueue(locks, q, id)[k] == id;
  }

  /** Theorem: a try takes all of its range, which must be free, or changes nothing. */
  lemma TryMakes(m: Model, id: int, start: int, end: int, write: bool, priority: int)
    requires Sound(m) && Known(m.locks, m.queue) && id !in m.locks && start <= end
    ensures var r := TryAcquire(m, id, Request(start, end, write, priority));
      if AllFree(m.locks, write, start, end)
      then Added(m, r, id) && r.locks[id] == Lock(start, end, write, priority, end) && r.queue == m.queue
      else r == m
  {
    AcquireMakes(m, id, start, end, write, priority);
    FreeRun(m.locks, write, start, end);
    NotWaiting(m, id);
    hide Sound, Free, AllFree, Reaches, FirstBlocked, Enqueue;
  }
}
