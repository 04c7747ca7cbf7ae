/** What each operation on the lock model keeps. */
module LockFacts {
  import opened LockModel

  // ----- The queue

  lemma SoundSorted(m: Model)
    requires Sound(m)
    ensures Known(m.locks, m.queue) && Distinct(m.queue) && Sorted(m.locks, m.queue)
  {
  }

  lemma InQueueIff(m: Model, x: int)
    requires Sound(m) && x in m.locks
    ensures x in m.queue <==> m.locks[x].stop < m.locks[x].end
  {
    assert x in m.locks.Keys;
  }

  lemma WithoutFacts(q: seq<int>, id: int)
    requires Distinct(q)
    ensures Distinct(Without(q, id)) && id !in Without(q, id)
    ensures forall j :: j in Without(q, id) <==> j in q && j != id
  {
  }

  lemma WithoutSorted(locks: map<int, Lock>, q: seq<int>, id: int)
    requires Known(locks, q) && Sorted(locks, q)
    ensures Known(locks, Without(q, id)) && Sorted(locks, Without(q, id))
  {
  }

  /** Sortedness depends only on the keys of those queued. */
  lemma SortedAgree(l1: map<int, Lock>, l2: map<int, Lock>, q: seq<int>)
    requires Known(l1, q) && Known(l2, q) && Sorted(l1, q)
    requires forall i | 0 <= i < |q| :: l2[q[i]].stop == l1[q[i]].stop && l2[q[i]].priority == l1[q[i]].priority
    ensures Sorted(l2, q)
  {
  }

  lemma EnqueueMembers(locks: map<int, Lock>, q: seq<int>, id: int)
    requires id in locks && Known(locks, q) && id !in q && Distinct(q)
    ensures Distinct(Enqueue(locks, q, id))
    ensures forall j :: j in Enqueue(locks, q, id) <==> j in q || j == id
  {
  }

  lemma EnqueueSorted(locks: map<int, Lock>, q: seq<int>, id: int)
    requires id in locks && Known(locks, q) && Sorted(locks, q)
    ensures Sorted(locks, Enqueue(locks, q, id))
  {
  }

  /** A key greater than the first `n` keys goes behind them. */
  lemma EnqueueBehind(locks: map<int, Lock>, q: seq<int>, id: int, n: nat)
    requires id in locks && Known(locks, q) && n <= |q|
    requires forall i | 0 <= i < n :: !Le(locks[id], locks[q[i]])
    ensures n <= Place(locks, q, locks[id]) && Enqueue(locks, q, id)[..n] == q[..n]
  {
  }

  lemma EnqueueWithout(locks: map<int, Lock>, q: seq<int>, id: int)
    requires id in locks && Known(locks, q) && id !in q
    ensures Without(Enqueue(locks, q, id), id) == q
  {
  }

  lemma WithoutNobody(q: seq<int>, id: int)
    requires id !in q
    ensures Without(q, id) == q
  {
  }

  // ----- Conflicts

  lemma FirstBlockedIs(locks: map<int, Lock>, write: bool, lo: int, hi: int, r: int)
    requires lo <= r <= hi && (forall i | lo <= i < r :: !Blocked(locks, write, i))
    requires (r < hi ==> Blocked(locks, write, r))
    ensures FirstBlocked(locks, write, lo, hi) == r
  {
  }

  /** Growing locks keep blocking. */
  lemma BlockedGrows(l1: map<int, Lock>, l2: map<int, Lock>, write: bool, i: int)
    requires Blocked(l1, write, i)
    requires forall id <- l1.Keys ::
      id in l2 && l2[id].start == l1[id].start && l2[id].write == l1[id].write && l2[id].stop >= l1[id].stop
    ensures Blocked(l2, write, i)
  {
  }

  /** A lock that changes where it does not hold `i` does not matter at `i`. */
  lemma BlockedAgrees(l1: map<int, Lock>, l2: map<int, Lock>, id: int, write: bool, i: int)
    requires l1.Keys - {id} == l2.Keys - {id} && forall j <- l1.Keys - {id} :: l2[j] == l1[j]
    requires id in l1 ==> !Holds(l1[id], i)
    requires id in l2 ==> !Holds(l2[id], i)
    ensures Blocked(l1, write, i) <==> Blocked(l2, write, i)
  {
    if Blocked(l1, write, i) {
      var j :| j in l1.Keys && Clash(l1[j], write, i);
      assert j in l1.Keys - {id};
      assert Clash(l2[j], write, i);
    }
    if Blocked(l2, write, i) {
      var j :| j in l2.Keys && Clash(l2[j], write, i);
      assert j in l2.Keys - {id};
      assert Clash(l1[j], write, i);
    }
  }

  /** Taking unblocked indices keeps the exclusion. */
  lemma ExclusiveGrows(l1: map<int, Lock>, id: int, l: Lock)
    requires Exclusive(l1)
    requires forall i | Holds(l, i) && !(id in l1 && Holds(l1[id], i)) :: !Blocked(l1, l.write, i)
    requires id in l1 ==> l1[id].write == l.write
    ensures Exclusive(l1[id := l])
  {
  }

  /** Giving up indices keeps it too. */
  lemma ExclusiveShrinks(l1: map<int, Lock>, l2: map<int, Lock>)
    requires Exclusive(l1) && l2.Keys <= l1.Keys
    requires forall id <- l2.Keys ::
      l2[id].start == l1[id].start && l2[id].write == l1[id].write && l2[id].stop <= l1[id].stop
    ensures Exclusive(l2)
  {
    forall a <- l2.Keys, b <- l2.Keys, i: int | a != b && Holds(l2[a], i) && Holds(l2[b], i)
      ensures !l2[a].write && !l2[b].write
    {
      assert a in l1.Keys && b in l1.Keys;
      assert Holds(l1[a], i) && Holds(l1[b], i);
    }
  }

  // ----- Every operation is sound

  lemma ShiftQueued(m: Model, id: int, s: int)
    requires Queued(m.locks, m.queue) && id in m.locks && m.locks[id].stop < s
    ensures var r := Shift(m, id, s); Queued(r.locks, r.queue)
  {
    var q, locks := Without(m.queue, id), m.locks[id := m.locks[id].(stop := s)];
    WithoutFacts(m.queue, id);
    WithoutSorted(m.locks, m.queue, id);
    assert forall i | 0 <= i < |q| :: q[i] in q && locks[q[i]] == m.locks[q[i]];
    SortedAgree(m.locks, locks, q);
    if s < m.locks[id].end {
      EnqueueMembers(locks, q, id);
      EnqueueSorted(locks, q, id);
    }
  }

  lemma AdvanceSound(m: Model, id: int)
    requires Sound(m) && id in m.locks
    ensures Sound(Advance(m, id))
  {
    var l := m.locks[id];
    var s := FirstBlocked(m.locks, l.write, l.stop, l.end);
    if s != l.stop {
      ShiftQueued(m, id, s);
      ExclusiveGrows(m.locks, id, l.(stop := s));
    }
  }

  lemma AcquireSound(m: Model, id: int, l: Lock)
    requires Sound(m) && id !in m.locks && l.start <= l.end
    ensures Sound(Acquire(m, id, l))
  {
    var s := FirstBlocked(m.locks, l.write, l.start, l.end);
    var locks := m.locks[id := l.(stop := s)];
    ExclusiveGrows(m.locks, id, l.(stop := s));
    SortedAgree(m.locks, locks, m.queue);
    assert id !in m.queue;
    if s < l.end {
      EnqueueMembers(locks, m.queue, id);
      EnqueueSorted(locks, m.queue, id);
    }
  }

  lemma CancelSound(m: Model, id: int)
    requires Sound(m) && id in m.locks
    ensures Sound(Cancel(m, id)) && id !in Cancel(m, id).queue
  {
    var r := Cancel(m, id);
    WithoutFacts(m.queue, id);
    WithoutSorted(m.locks, m.queue, id);
    SortedAgree(m.locks, r.locks, r.queue);
    ExclusiveShrinks(m.locks, r.locks);
  }

  lemma TruncateSound(m: Model, id: int, p: int)
    requires Sound(m) && id in m.locks && id !in m.queue && m.locks[id].start <= p <= m.locks[id].stop
    ensures Sound(Truncate(m, id, p))
  {
  }

  lemma DropSound(m: Model, id: int)
    requires Sound(m) && id !in m.queue
    ensures Sound(Drop(m, id))
  {
  }
}
