/** The release walk: what one pass down the queue achieves. */
module WalkFacts {
  import opened LockModel
  import opened LockFacts

  // ----- One resumed waiter

  lemma AdvanceFrame(m: Model, id: int)
    requires id in m.locks && Known(m.locks, m.queue)
    ensures var r, l := Advance(m, id), m.locks[id];
      && (forall x <- m.locks.Keys :: x != id ==> r.locks[x] == m.locks[x])
      && r.locks[id] == l.(stop := r.locks[id].stop) && r.locks[id].stop >= l.stop
  {
  }

  /** Whoever advances goes to the back of everything below its old place. */
  lemma AdvancePrefix(m: Model, k: nat)
    requires Queued(m.locks, m.queue) && k < |m.queue|
    ensures var r := Advance(m, m.queue[k]);
      && k <= |r.queue| && (forall i | 0 <= i < k :: r.queue[i] == m.queue[i])
      && forall x <- r.queue :: x in m.queue
  {
    var id := m.queue[k];
    var l := m.locks[id];
    var s := FirstBlocked(m.locks, l.write, l.stop, l.end);
    if s != l.stop {
      ShiftPrefix(m, k, s);
    }
  }

  lemma WithoutPrefix(q: seq<int>, k: nat)
    requires Distinct(q) && k < |q|
    ensures var r := Without(q, q[k]); k <= |r| && forall i | 0 <= i < k :: r[i] == q[i]
  {
  }

  lemma ShiftPrefix(m: Model, k: nat, s: int)
    requires Queued(m.locks, m.queue) && k < |m.queue| && Stop(m, k) < s
    ensures var r := Shift(m, m.queue[k], s);
      && k <= |r.queue| && (forall i | 0 <= i < k :: r.queue[i] == m.queue[i])
      && forall x <- r.queue :: x in m.queue
  {
    var id := m.queue[k];
    var q, l := Without(m.queue, id), m.locks[id].(stop := s);
    var locks := m.locks[id := l];
    assert Known(locks, q);
    WithoutPrefix(m.queue, k);
    forall i | 0 <= i < k
      ensures !Le(l, locks[q[i]])
    {
      assert Le(m.locks[m.queue[i]], m.locks[id]);
    }
    WithoutFacts(m.queue, id);
    hide *;
    if s < m.locks[id].end {
      EnqueueBehind(locks, q, id, k);
      EnqueueOnly(locks, q, id);
    }
    ShiftQueue(m, id, s);
  }

  lemma ShiftQueue(m: Model, id: int, s: int)
    requires id in m.locks && Known(m.locks, m.queue)
    ensures var q, locks := Without(m.queue, id), m.locks[id := m.locks[id].(stop := s)];
      Known(locks, q) && Shift(m, id, s).queue == if s < m.locks[id].end then Enqueue(locks, q, id) else q
  {
  }

  lemma EnqueueOnly(locks: map<int, Lock>, q: seq<int>, id: int)
    requires id in locks && Known(locks, q)
    ensures forall x <- Enqueue(locks, q, id) :: x in q || x == id
  {
  }

  /** After the resumed waiter moved, the part of the queue from its old place on holds only it and
      those that stood behind it. */
  lemma AdvanceSuffix(m: Model, k: nat, i: nat)
    requires Sound(m) && k < |m.queue|
    requires k <= i < |Advance(m, m.queue[k]).queue|
    ensures exists n :: k <= n < |m.queue| && m.queue[n] == Advance(m, m.queue[k]).queue[i]
  {
    hide Advance, Sound;
    SoundQueued(m);
    var r := Advance(m, m.queue[k]);
    AdvancePrefix(m, k);
    AdvanceSound(m, m.queue[k]);
    SoundQueued(r);
    hide Known, Sorted, Waiting;
    InQueue(r.queue, i);
    var n :| 0 <= n < |m.queue| && m.queue[n] == r.queue[i];
  }

  lemma SoundQueued(m: Model)
    requires Sound(m)
    ensures Queued(m.locks, m.queue) && Known(m.locks, m.queue) && Distinct(m.queue)
  {
  }

  lemma InQueue(q: seq<int>, i: nat)
    requires i < |q|
    ensures q[i] in q
  {
  }

  lemma AdvanceStuck(m: Model, id: int, x: int)
    requires id in m.locks && x in m.locks && Known(m.locks, m.queue) && Stuck(m.locks, x)
    requires x == id ==> m.locks[x].stop < m.locks[x].end
    ensures Stuck(Advance(m, id).locks, x)
  {
  }

  /** A waiter that was resumed and still waits is stuck. */
  lemma AdvancedStuck(m: Model, id: int)
    requires id in m.locks && Known(m.locks, m.queue)
    ensures var r := Advance(m, id); m.locks[id].stop <= r.locks[id].stop < r.locks[id].end ==> Stuck(r.locks, id)
  {
  }

  // ----- The invariant of the walk

  function Stop(m: Model, i: nat): int
    requires Known(m.locks, m.queue) && i < |m.queue|
  {
    m.locks[m.queue[i]].stop
  }

  /** From `k` on everyone is stuck, at or above what is still held; before `k` everyone is stuck
      or yet to be visited. */
  ghost predicate Walking(m: Model, id: int, k: nat) {
    && Sound(m) && id in m.locks && id !in m.queue && k <= |m.queue|
    && (forall i | k <= i < |m.queue| :: Stop(m, i) >= m.locks[id].stop && Stuck(m.locks, m.queue[i]))
    && (forall i | 0 <= i < k :: Stop(m, i) <= m.locks[id].stop)
    && (forall i | 0 <= i < k :: Stop(m, i) >= m.locks[id].start || Stuck(m.locks, m.queue[i]))
  }

  lemma TruncateStuck(m: Model, id: int, p: int, x: int)
    requires Known(m.locks, m.queue) && id in m.locks && x in m.locks && x != id && Stuck(m.locks, x)
    requires m.locks[id].start <= p <= m.locks[id].stop && (m.locks[x].stop < p || m.locks[x].stop >= m.locks[id].stop)
    ensures Stuck(Truncate(m, id, p).locks, x)
  {
  }

  /** Shrunk to the index of the waiter at position `n`, who is now to be resumed. */
  ghost predicate Stepping(t: Model, id: int, n: nat) {
    && Sound(t) && id in t.locks && id !in t.queue && n < |t.queue| && Stop(t, n) == t.locks[id].stop
    && (forall i | n < i < |t.queue| :: Stop(t, i) >= t.locks[id].stop && Stuck(t.locks, t.queue[i]))
    && (forall i | 0 <= i < n :: Stop(t, i) <= t.locks[id].stop)
    && (forall i | 0 <= i < n :: Stop(t, i) >= t.locks[id].start || Stuck(t.locks, t.queue[i]))
  }

  lemma WalkTruncates(m: Model, id: int, k: nat)
    requires Walking(m, id, k) && k > 0 && Stop(m, k - 1) >= m.locks[id].start
    ensures Stepping(Truncate(m, id, Stop(m, k - 1)), id, k - 1)
  {
    var p := Stop(m, k - 1);
    var t := Truncate(m, id, p);
    assert forall i | 0 <= i < |m.queue| :: m.queue[i] in m.queue;
    TruncateSound(m, id, p);
    forall i | 0 <= i < |m.queue|
      ensures i < k ==> Stop(t, i) <= p && (Stop(t, i) >= t.locks[id].start || Stuck(t.locks, t.queue[i]))
      ensures i >= k ==> Stop(t, i) >= p && Stuck(t.locks, t.queue[i])
    {
      assert i < k - 1 ==> Le(m.locks[m.queue[i]], m.locks[m.queue[k - 1]]);
      if i >= k || Stop(m, i) < m.locks[id].start {
        TruncateStuck(m, id, p, m.queue[i]);
      }
    }
  }

  lemma StepFrame(t: Model, id: int, n: nat)
    requires Stepping(t, id, n)
    ensures var r := Advance(t, t.queue[n]);
      && Sound(r) && id in r.locks && id !in r.queue && r.locks[id] == t.locks[id]
      && n <= |r.queue| && forall i | 0 <= i < n :: r.queue[i] == t.queue[i]
  {
    var j := t.queue[n];
    assert j in t.queue;
    hide Advance, Stuck;
    AdvanceFrame(t, j);
    AdvanceSound(t, j);
    AdvancePrefix(t, n);
  }

  lemma StepBefore(t: Model, id: int, n: nat, i: nat)
    requires Stepping(t, id, n) && i < n
    ensures var r := Advance(t, t.queue[n]);
      Known(r.locks, r.queue) && i < |r.queue| && id in r.locks && Stop(r, i) == Stop(t, i) &&
      (Stop(r, i) < r.locks[id].start ==> Stuck(r.locks, r.queue[i]))
  {
    StepFrame(t, id, n);
    var j, x := t.queue[n], t.queue[i];
    assert x != j;
    AdvanceFrame(t, j);
    if Stop(t, i) < t.locks[id].start {
      AdvanceStuck(t, j, x);
    }
  }

  lemma StepAfter(t: Model, id: int, n: nat, i: nat)
    requires Stepping(t, id, n) && n <= i < |Advance(t, t.queue[n]).queue|
    ensures var r := Advance(t, t.queue[n]);
      Known(r.locks, r.queue) && id in r.locks && Stop(r, i) >= t.locks[id].stop && Stuck(r.locks, r.queue[i])
  {
    StepFrame(t, id, n);
    var j := t.queue[n];
    var r := Advance(t, j);
    AdvanceSuffix(t, n, i);
    var x :| n <= x < |t.queue| && t.queue[x] == r.queue[i];
    assert r.queue[i] in r.queue && t.queue[x] in t.queue;
    AdvanceFrame(t, j);
    hide Advance, Stuck;
    if x == n {
      AdvancedStuck(t, j);
    } else {
      AdvanceStuck(t, j, t.queue[x]);
    }
  }

  lemma StepWalks(t: Model, id: int, n: nat)
    requires Stepping(t, id, n)
    ensures Walking(Advance(t, t.queue[n]), id, n)
  {
    var r := Advance(t, t.queue[n]);
    StepFrame(t, id, n);
    hide Advance, Stuck, Sound;
    forall i | 0 <= i < n
      ensures Stop(r, i) <= r.locks[id].stop && (Stop(r, i) >= r.locks[id].start || Stuck(r.locks, r.queue[i]))
    {
      StepBefore(t, id, n, i);
    }
    forall i | n <= i < |r.queue|
      ensures Stop(r, i) >= r.locks[id].stop && Stuck(r.locks, r.queue[i])
    {
      StepAfter(t, id, n, i);
    }
  }

  lemma WalkEnds(m: Model, id: int, k: nat)
    requires Walking(m, id, k) && (k == 0 || Stop(m, k - 1) < m.locks[id].start)
    ensures Inv(Drop(m, id))
  {
    var r := Drop(m, id);
    DropSound(m, id);
    forall i | 0 <= i < |m.queue|
      ensures Stuck(r.locks, r.queue[i])
    {
      assert m.queue[i] in m.queue;
      assert i < k - 1 ==> Le(m.locks[m.queue[i]], m.locks[m.queue[k - 1]]);
      BlockedAgrees(m.locks, r.locks, id, m.locks[m.queue[i]].write, m.locks[m.queue[i]].stop);
    }
  }

  lemma WalkingKnown(m: Model, id: int, k: nat)
    requires Walking(m, id, k)
    ensures id in m.locks && id !in m.queue && Known(m.locks, m.queue) && k <= |m.queue| && Sound(m)
  {
  }

  lemma SteppingKnown(t: Model, id: int, n: nat)
    requires Stepping(t, id, n)
    ensures id in t.locks && id !in t.queue && Known(t.locks, t.queue) && n < |t.queue| && Sound(t)
  {
  }

  /** One downward pass is enough, although it never revisits the waiters it moved up. */
  lemma {:induction false} WalkInv(m: Model, id: int, k: nat)
    requires Walking(m, id, k)
    ensures Inv(Walk(m, id, k)) && Walk(m, id, k).locks.Keys == m.locks.Keys - {id}
    decreases k
  {
    WalkingKnown(m, id, k);
    if k == 0 || Stop(m, k - 1) < m.locks[id].start {
      WalkEnds(m, id, k);
    } else {
      WalkTruncates(m, id, k);
      var t := Truncate(m, id, Stop(m, k - 1));
      hide Walking, Stepping, Inv, Known, Truncate, Advance;
      StepWalks(t, id, k - 1);
      WalkInv(Advance(t, m.queue[k - 1]), id, k - 1);
    }
  }

  lemma CancelWalks(m: Model, id: int)
    requires Inv(m) && id in m.locks
    ensures var c := Cancel(m, id); Walking(c, id, Below(c, m.locks[id].stop))
  {
    hide Inv, Sound, Cancel, Stuck, Below;
    InvSound(m);
    var c := Cancel(m, id);
    var k := Below(c, m.locks[id].stop);
    CancelSound(m, id);
    CancelAt(m, id);
    forall i | 0 <= i < |c.queue|
      ensures Stuck(c.locks, c.queue[i])
    {
      CancelStuck(m, id, i);
    }
    forall i | k <= i < |c.queue|
      ensures Stop(c, i) >= m.locks[id].stop
    {
      BelowOn(c, m.locks[id].stop, i);
    }
  }

  lemma InvSound(m: Model)
    requires Inv(m)
    ensures Sound(m) && Known(m.locks, m.queue)
  {
  }

  lemma CancelAt(m: Model, id: int)
    requires Sound(m) && id in m.locks
    ensures var c := Cancel(m, id);
      && id in c.locks && c.locks[id].stop == m.locks[id].stop && c.locks[id].start == m.locks[id].start
      && c.locks[id].start <= c.locks[id].stop
  {
  }

  lemma CancelStuck(m: Model, id: int, i: nat)
    requires Inv(m) && id in m.locks && Known(Cancel(m, id).locks, Cancel(m, id).queue) && i < |Cancel(m, id).queue|
    ensures Stuck(Cancel(m, id).locks, Cancel(m, id).queue[i])
  {
    var c := Cancel(m, id);
    WithoutFacts(m.queue, id);
    InQueue(c.queue, i);
    var x := c.queue[i];
    StuckAt(m, x);
    BlockedGrows(m.locks, c.locks, m.locks[x].write, m.locks[x].stop);
  }

  /** From the cut on, everyone waits at the index or above. */
  lemma BelowOn(m: Model, p: int, i: nat)
    requires Sound(m) && Below(m, p) <= i < |m.queue|
    ensures Stop(m, i) >= p
  {
  }

  /** Theorem: releasing a lock leaves no waiter that could proceed. */
  lemma UnlockInv(m: Model, id: int)
    requires Inv(m) && id in m.locks
    ensures Inv(Unlock(m, id)) && Unlock(m, id).locks.Keys == m.locks.Keys - {id}
  {
    CancelWalks(m, id);
    WalkInv(Cancel(m, id), id, Below(Cancel(m, id), m.locks[id].stop));
  }

  /** Theorem: so does asking for one. */
  lemma AcquireInv(m: Model, id: int, l: Lock)
    requires Inv(m) && id !in m.locks && l.start <= l.end
    ensures Inv(Acquire(m, id, l)) && Acquire(m, id, l).locks.Keys == m.locks.Keys + {id}
  {
    var r := Acquire(m, id, l);
    AcquireSound(m, id, l);
    AcquireGrows(m, id, l);
    hide Sound, Acquire, FirstBlocked, Blocked;
    forall i | 0 <= i < |r.queue|
      ensures Stuck(r.locks, r.queue[i])
    {
      AcquireStuck(m, id, l, i);
    }
  }

  lemma AcquireGrows(m: Model, id: int, l: Lock)
    requires Sound(m) && id !in m.locks && l.start <= l.end
    ensures var r := Acquire(m, id, l);
      && r.locks.Keys == m.locks.Keys + {id} && (forall x <- r.queue :: x == id || x in m.queue)
      && (forall x <- m.locks.Keys :: x in r.locks && r.locks[x] == m.locks[x])
      && (id in r.queue ==> Blocked(m.locks, l.write, r.locks[id].stop)) && r.locks[id].write == l.write
  {
  }

  lemma NotWaiting(m: Model, id: int)
    requires Sound(m) && id !in m.locks
    ensures id !in m.queue
  {
  }

  lemma AcquireStuck(m: Model, id: int, l: Lock, i: nat)
    requires Inv(m) && id !in m.locks && l.start <= l.end
    requires Known(Acquire(m, id, l).locks, Acquire(m, id, l).queue) && i < |Acquire(m, id, l).queue|
    ensures Stuck(Acquire(m, id, l).locks, Acquire(m, id, l).queue[i])
  {
    AcquireGrows(m, id, l);
    var r := Acquire(m, id, l);
    var x := r.queue[i];
    InQueue(r.queue, i);
    if x != id {
      StuckAt(m, x);
    }
    hide Acquire, Sound, Inv, Blocked;
    BlockedGrows(m.locks, r.locks, r.locks[x].write, r.locks[x].stop);
  }

  lemma StuckAt(m: Model, x: int)
    requires Inv(m) && x in m.queue
    ensures x in m.locks && Stuck(m.locks, x)
  {
  }
}
