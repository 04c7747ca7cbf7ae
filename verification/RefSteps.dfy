/** How the array machine's waiting lists follow the queue of the lock model. */
module RefSteps {
  import opened Options
  import opened LockModel
  import opened LockFacts
  import opened WalkFacts
  import opened RefViews

  /** `id` is the last who came to the index where it waits. */
  ghost predicate Newest(ls: map<int, Interval>, id: int) {
    id in ls && ls[id].order.Some? &&
    forall x <- ls.Keys | x != id && ls[x].order.Some? && ls[x].pos == ls[id].pos ::
      ls[x].order.value < ls[id].order.value
  }

  ghost predicate Ordered(ls: map<int, Interval>, locks: map<int, Lock>, a: int, b: int) {
    a in ls && b in ls && a in locks && b in locks && ls[a].order.Some? && ls[b].order.Some? &&
    (SameKey(locks[a], locks[b]) ==> ls[a].order.value > ls[b].order.value)
  }

  lemma FifoAt(ls: map<int, Interval>, locks: map<int, Lock>, q: seq<int>, cut: nat, x: nat, y: nat)
    requires Known(locks, q) && Fifo(ls, locks, q, cut) && x < y < |q| && !(x < cut <= y)
    ensures Ordered(ls, locks, q[x], q[y])
  {
  }

  lemma FifoMade(ls: map<int, Interval>, locks: map<int, Lock>, q: seq<int>, cut: nat)
    requires Known(locks, q) && (forall x | 0 <= x < |q| :: q[x] in ls && ls[q[x]].order.Some?)
    requires forall x, y | 0 <= x < y < |q| && !(x < cut <= y) :: Ordered(ls, locks, q[x], q[y])
    ensures Fifo(ls, locks, q, cut)
  {
  }

  lemma FifoWaits(ls: map<int, Interval>, locks: map<int, Lock>, q: seq<int>, cut: nat, x: nat)
    requires Known(locks, q) && Fifo(ls, locks, q, cut) && x < |q|
    ensures q[x] in ls && ls[q[x]].order.Some? && q[x] in locks
  {
  }

  /** Nothing changes but at a lock that is not in the queue. */
  lemma FifoAgrees(ls: map<int, Interval>, l2: map<int, Interval>, k1: map<int, Lock>, k2: map<int, Lock>, q: seq<int>,
          cut: nat)
    requires Known(k1, q) && Known(k2, q) && Fifo(ls, k1, q, cut)
    requires forall x | 0 <= x < |q| :: q[x] in ls && q[x] in l2 && l2[q[x]] == ls[q[x]] && k2[q[x]] == k1[q[x]]
    ensures Fifo(l2, k2, q, cut)
  {
  }

  /** The waiter at the cut leaves the queue. */
  lemma FifoWithout(ls: map<int, Interval>, locks: map<int, Lock>, q: seq<int>, c: nat, cut: nat, now: nat)
    requires Known(locks, q) && Fifo(ls, locks, q, cut) && Distinct(q) && c < |q|
    requires (cut == 0 && now == 0) || (cut == c + 1 && now == c)
    ensures Known(locks, Without(q, q[c])) && Fifo(ls, locks, Without(q, q[c]), now)
  {
    var r := Without(q, q[c]);
    assert Position(q, q[c]) == c;
    assert |r| == |q| - 1 && forall i | 0 <= i < |r| :: r[i] == q[if i < c then i else i + 1];
    hide Fifo, Without, Position;
    forall x | 0 <= x < |r|
      ensures r[x] in locks && r[x] in ls && ls[r[x]].order.Some?
    {
      FifoWaits(ls, locks, q, cut, if x < c then x else x + 1);
    }
    forall x, y | 0 <= x < y < |r| && !(x < now <= y)
      ensures Ordered(ls, locks, r[x], r[y])
    {
      FifoAt(ls, locks, q, cut, if x < c then x else x + 1, if y < c then y else y + 1);
    }
    FifoMade(ls, locks, r, now);
  }

  /** The newest waiter of an index enters the queue. */
  lemma FifoEnqueued(ls: map<int, Interval>, locks: map<int, Lock>, q: seq<int>, id: int, cut: nat)
    requires id in locks && Known(locks, q) && Fifo(ls, locks, q, cut) && Newest(ls, id) && id !in q
    requires cut <= Place(locks, q, locks[id])
    requires ls[id].pos == locks[id].stop && forall x | 0 <= x < |q| :: q[x] in ls && ls[q[x]].pos == locks[q[x]].stop
    ensures Fifo(ls, locks, Enqueue(locks, q, id), cut)
  {
    var k, r := Place(locks, q, locks[id]), Enqueue(locks, q, id);
    assert forall i | 0 <= i < k :: !Le(locks[id], locks[q[i]]);
    assert |r| == |q| + 1 && r[k] == id && forall i | 0 <= i < |r| && i != k :: r[i] == q[if i < k then i else i - 1];
    hide Fifo, Enqueue, Place;
    forall x | 0 <= x < |r|
      ensures r[x] in ls && ls[r[x]].order.Some?
    {
      if x != k {
        FifoWaits(ls, locks, q, cut, if x < k then x else x - 1);
      }
    }
    forall x, y | 0 <= x < y < |r| && !(x < cut <= y)
      ensures Ordered(ls, locks, r[x], r[y])
    {
      if x == k {
        FifoWaits(ls, locks, q, cut, y - 1);
        assert q[y - 1] in q && r[y] in ls.Keys;
      } else if y == k {
        FifoWaits(ls, locks, q, cut, x);
        assert !Le(locks[id], locks[q[x]]);
      } else {
        FifoAt(ls, locks, q, cut, if x < k then x else x - 1, if y < k then y else y - 1);
      }
    }
    FifoMade(ls, locks, r, cut);
  }

  /** The waiter at the cut stays where it is but comes last again. */
  lemma FifoRenewed(ls: map<int, Interval>, l2: map<int, Interval>, locks: map<int, Lock>, q: seq<int>, c: nat)
    requires Known(locks, q) && Fifo(ls, locks, q, c + 1) && Distinct(q) && c < |q| && Newest(l2, q[c])
    requires l2[q[c]].pos == locks[q[c]].stop
    requires forall x | 0 <= x < |q| && x != c ::
      q[x] in ls && q[x] in l2 && l2[q[x]] == ls[q[x]] && l2[q[x]].pos == locks[q[x]].stop
    ensures Fifo(l2, locks, q, c)
  {
  }

  // ----- One lock resumes

  /** The array machine let the lock `id` take indices up to the first that is blocked. */
  ghost predicate Resumed(rws: seq<RwLock>, ls: map<int, Interval>, l2: map<int, Interval>, ml: map<int, Lock>,
          id: int) {
    && id in ml && id in ls && id in l2 && l2 == ls[id := l2[id]]
    && var s := FirstBlocked(ml, ml[id].write, ml[id].stop, ml[id].end);
    && Owners(rws, ml[id := ml[id].(stop := s)]) && Waits(rws, l2)
    && l2[id] == ls[id].(pos := s, order := l2[id].order)
    && (l2[id].order.Some? <==> s < ml[id].end) && (l2[id].order.Some? ==> Newest(l2, id))
  }

  lemma ResumedIs(rws: seq<RwLock>, ls: map<int, Interval>, l2: map<int, Interval>, ml: map<int, Lock>, id: int, s: int)
    requires Resumed(rws, ls, l2, ml, id) && s == FirstBlocked(ml, ml[id].write, ml[id].stop, ml[id].end)
    ensures id in ls && id in l2 && l2 == ls[id := l2[id]] && Owners(rws, ml[id := ml[id].(stop := s)])
    ensures Waits(rws, l2)
    ensures l2[id] == ls[id].(pos := s, order := l2[id].order)
    ensures (l2[id].order.Some? <==> s < ml[id].end) && (l2[id].order.Some? ==> Newest(l2, id))
  {
  }

  /** How the queue changes when the waiter at position `c` resumes. */
  lemma AdvanceQueue(m: Model, c: nat, s: int)
    requires Sound(m) && c < |m.queue| && m.queue[c] in m.locks
    requires var l := m.locks[m.queue[c]]; s == FirstBlocked(m.locks, l.write, l.stop, l.end)
    ensures var id := m.queue[c];
      var r, q, locks := Advance(m, id), Without(m.queue, id), m.locks[id := m.locks[id].(stop := s)];
      && m.locks[id].stop <= s <= m.locks[id].end && r.locks == locks && Known(locks, q) && id !in q
      && (forall x :: x in q <==> x in m.queue && x != id)
      && (s == m.locks[id].stop ==> r == m)
      && (m.locks[id].stop < s < m.locks[id].end ==>
          r.queue == Enqueue(locks, q, id) && c <= Place(locks, q, locks[id]))
      && (s == m.locks[id].end ==> r.queue == q)
  {
    var id := m.queue[c];
    var q, locks := Without(m.queue, id), m.locks[id := m.locks[id].(stop := s)];
    hide Sound, Without, FirstBlocked, Place, Enqueue, Advance;
    WaitingAt(m, id);
    SoundDistinct(m);
    WithoutFacts(m.queue, id);
    WithoutPrefix(m.queue, c);
    hide Distinct, Known, Le;
    AdvanceIs(m, id, s);
    if m.locks[id].stop < s < m.locks[id].end {
      forall i | 0 <= i < c
        ensures !Le(locks[id], locks[q[i]])
      {
        SortedAt(m, i, c);
      }
      EnqueueBehind(locks, q, id, c);
    }
  }

  lemma SortedAt(m: Model, i: nat, j: nat)
    requires Sound(m) && i < j < |m.queue|
    ensures m.queue[i] in m.locks && m.queue[j] in m.locks && Le(m.locks[m.queue[i]], m.locks[m.queue[j]])
  {
  }

  lemma AdvanceIs(m: Model, id: int, s: int)
    requires id in m.locks && Known(m.locks, m.queue) && m.locks[id].stop <= m.locks[id].end
    requires s == FirstBlocked(m.locks, m.locks[id].write, m.locks[id].stop, m.locks[id].end)
    ensures var r, q, locks := Advance(m, id), Without(m.queue, id), m.locks[id := m.locks[id].(stop := s)];
      && m.locks[id].stop <= s <= m.locks[id].end && r.locks == locks && Known(locks, q)
      && (s == m.locks[id].stop ==> r == m)
      && (m.locks[id].stop < s < m.locks[id].end ==> r.queue == Enqueue(locks, q, id))
      && (m.locks[id].stop < s == m.locks[id].end ==> r.queue == q)
  {
  }

  /** The entries after the lock `id` moved to `s`. */
  lemma EntriesMoved(ls: map<int, Interval>, l2: map<int, Interval>, k1: map<int, Lock>, k2: map<int, Lock>,
          q: seq<int>, r: seq<int>, gone: Option<int>, id: int)
    requires Entries(ls, k1, q, gone) && id in ls && id in l2 && l2 == ls[id := l2[id]] && id in k1 && id in k2
    requires k2 == k1[id := k2[id]]
    requires Entry(l2[id], k2[id]) && (l2[id].order.Some? <==> id in r)
    requires forall x: int :: x != id ==> (x in q <==> x in r)
    ensures Entries(l2, k2, r, gone)
  {
  }

  /** The positions of all waiters are where the model has them. */
  lemma EntriesAt(ls: map<int, Interval>, locks: map<int, Lock>, q: seq<int>, gone: Option<int>, cut: nat, x: nat)
    requires Known(locks, q) && Entries(ls, locks, q, gone) && Fifo(ls, locks, q, cut) && x < |q|
    ensures q[x] in ls && q[x] in locks && ls[q[x]].pos == locks[q[x]].stop
  {
    FifoWaits(ls, locks, q, cut, x);
    var id := q[x];
    assert id in ls.Keys;
  }

  lemma AdvanceFifo(ls: map<int, Interval>, l2: map<int, Interval>, m: Model, gone: Option<int>, c: nat, s: int)
    requires Sound(m) && Known(m.locks, m.queue) && Fifo(ls, m.locks, m.queue, c + 1)
    requires Entries(ls, m.locks, m.queue, gone)
    requires c < |m.queue| && m.queue[c] in m.locks && m.queue[c] in ls && m.queue[c] in l2
    requires var l := m.locks[m.queue[c]];
      s == FirstBlocked(m.locks, l.write, l.stop, l.end) && (s < l.end ==> Newest(l2, m.queue[c]))
    requires l2 == ls[m.queue[c] := l2[m.queue[c]]] && l2[m.queue[c]].pos == s
    ensures Fifo(l2, Advance(m, m.queue[c]).locks, Advance(m, m.queue[c]).queue, c)
  {
    var id := m.queue[c];
    var l, r, q, locks := m.locks[id], Advance(m, id), Without(m.queue, id), m.locks[id := m.locks[id].(stop := s)];
    AdvanceQueue(m, c, s);
    SoundDistinct(m);
    hide Advance, Without, Enqueue, Fifo, Sound, Entries, Newest, FirstBlocked, Known, Place;
    forall x | 0 <= x < |m.queue|
      ensures m.queue[x] in ls && m.queue[x] in m.locks && ls[m.queue[x]].pos == m.locks[m.queue[x]].stop
    {
      EntriesAt(ls, m.locks, m.queue, gone, c + 1, x);
    }
    if s == l.stop {
      DistinctAt(m, c);
      assert s < l.end;
      FifoRenewed(ls, l2, m.locks, m.queue, c);
    } else {
      FifoWithout(ls, m.locks, m.queue, c, c + 1, c);
      forall x | 0 <= x < |q|
        ensures q[x] in ls && q[x] in l2 && l2[q[x]] == ls[q[x]] && q[x] in m.locks && q[x] in locks
        ensures locks[q[x]] == m.locks[q[x]] && l2[q[x]].pos == locks[q[x]].stop
      {
        WithoutIn(m.queue, c, x);
      }
      FifoAgrees(ls, l2, m.locks, locks, q, c);
      if s < l.end {
        FifoEnqueued(l2, locks, q, id, c);
      }
    }
  }

  lemma WithoutIn(q: seq<int>, c: nat, x: nat)
    requires Distinct(q) && c < |q| && x < |Without(q, q[c])|
    ensures Without(q, q[c])[x] != q[c] && exists n :: 0 <= n < |q| && n != c && Without(q, q[c])[x] == q[n]
  {
  }

  lemma SoundDistinct(m: Model)
    requires Sound(m)
    ensures Distinct(m.queue) && Known(m.locks, m.queue) && Shaped(m.locks)
    ensures forall i | 0 <= i < |m.queue| :: m.locks[m.queue[i]].stop < m.locks[m.queue[i]].end
  {
    forall i | 0 <= i < |m.queue|
      ensures m.locks[m.queue[i]].stop < m.locks[m.queue[i]].end
    {
      WaitingAt(m, m.queue[i]);
    }
  }

  lemma WaitingAt(m: Model, j: int)
    requires Sound(m) && j in m.queue
    ensures j in m.locks && m.locks[j].stop < m.locks[j].end
  {
  }

  lemma DistinctAt(m: Model, c: nat)
    requires Distinct(m.queue) && c < |m.queue|
    ensures forall x | 0 <= x < |m.queue| && x != c :: m.queue[x] != m.queue[c]
  {
  }

  // ----- The whole machine

  lemma RefViewIs(rws: seq<RwLock>, ls: map<int, Interval>, m: Model, gone: Option<int>, cut: nat)
    ensures RefView(rws, ls, m, gone, cut) <==>
      && Known(m.locks, m.queue) && Inside(m.locks, |rws|) && Owners(rws, m.locks)
      && Entries(ls, m.locks, m.queue, gone) && Waits(rws, ls) && Fifo(ls, m.locks, m.queue, cut)
  {
  }

  lemma InsideMoved(locks: map<int, Lock>, id: int, l: Lock, n: int)
    requires Inside(locks, n) && 0 <= l.start && l.end <= n
    ensures Inside(locks[id := l], n)
  {
  }

  lemma EntryAt(ls: map<int, Interval>, locks: map<int, Lock>, q: seq<int>, gone: Option<int>, id: int)
    requires Entries(ls, locks, q, gone) && id in locks && Some(id) != gone
    ensures id in ls && Entry(ls[id], locks[id]) && (ls[id].order.Some? <==> id in q)
  {
  }

  /** Resuming the waiter at position `c` keeps the two in step. */
  lemma AdvanceView(r1: seq<RwLock>, r2: seq<RwLock>, ls: map<int, Interval>, l2: map<int, Interval>, m: Model,
          gone: Option<int>, c: nat)
    requires RefView(r1, ls, m, gone, c + 1) && Sound(m) && |r2| == |r1| && c < |m.queue|
    requires m.queue[c] in m.locks && Some(m.queue[c]) != gone && Resumed(r2, ls, l2, m.locks, m.queue[c])
    ensures Known(m.locks, m.queue) && RefView(r2, l2, Advance(m, m.queue[c]), gone, c)
  {
    var id := m.queue[c];
    var l := m.locks[id];
    var s := FirstBlocked(m.locks, l.write, l.stop, l.end);
    var r, q, locks := Advance(m, id), Without(m.queue, id), m.locks[id := l.(stop := s)];
    RefViewIs(r1, ls, m, gone, c + 1);
    RefViewIs(r2, l2, r, gone, c);
    ResumedIs(r2, ls, l2, m.locks, id, s);
    hide RefView, Resumed, Owners, Waits, Fifo, Sound, Advance, Without, Enqueue, Newest, FirstBlocked, Place, Entries;
    hide Inside, Known;
    AdvanceQueue(m, c, s);
    EntryAt(ls, m.locks, m.queue, gone, id);
    InsideAt(m.locks, id, |r1|);
    InsideMoved(m.locks, id, l.(stop := s), |r1|);
    AdvanceFifo(ls, l2, m, gone, c, s);
    AdvanceMembers(m, c, s);
    EntriesMoved(ls, l2, m.locks, locks, m.queue, r.queue, gone, id);
  }

  lemma InsideAt(locks: map<int, Lock>, id: int, n: int)
    requires Inside(locks, n) && id in locks
    ensures 0 <= locks[id].start && locks[id].end <= n
  {
  }

  lemma AdvanceMembers(m: Model, c: nat, s: int)
    requires Sound(m) && c < |m.queue| && m.queue[c] in m.locks && Known(m.locks, m.queue)
    requires var l := m.locks[m.queue[c]]; s == FirstBlocked(m.locks, l.write, l.stop, l.end)
    ensures var id, r := m.queue[c], Advance(m, m.queue[c]);
      (id in r.queue <==> s < m.locks[id].end) && forall x: int :: x != id ==> (x in m.queue <==> x in r.queue)
  {
    var id := m.queue[c];
    var q, locks := Without(m.queue, id), m.locks[id := m.locks[id].(stop := s)];
    WaitingAt(m, id);
    AdvanceQueue(m, c, s);
    SoundDistinct(m);
    WithoutFacts(m.queue, id);
    hide Advance, Sound, FirstBlocked, Without;
    if m.locks[id].stop < s < m.locks[id].end {
      EnqueueMembers(locks, q, id);
    }
  }

  /** A new entry that holds nothing yet. */
  lemma NewEntry(rws: seq<RwLock>, ls: map<int, Interval>, m: Model, id: int, l: Lock, e: Interval)
    requires RefView(rws, ls, m, None, 0) && Sound(m) && id !in m.locks && 0 <= l.start == l.stop <= l.end <= |rws|
    requires Entry(e, l) && e.order.None?
    ensures RefView(rws, ls[id := e], m.(locks := m.locks[id := l]), None, 0) && id !in m.queue
  {
    RefViewIs(rws, ls, m, None, 0);
    RefViewIs(rws, ls[id := e], m.(locks := m.locks[id := l]), None, 0);
    NotQueued(m, id);
    hide RefView, Waits, Fifo, Owners, Sound;
    WaitsIgnore(rws, ls, ls[id := e], id);
    OwnersAgree(rws, m.locks, rws, m.locks[id := l]);
    forall x | 0 <= x < |m.queue|
      ensures m.queue[x] in ls && m.queue[x] != id
    {
      FifoWaits(ls, m.locks, m.queue, 0, x);
    }
    FifoAgrees(ls, ls[id := e], m.locks, m.locks[id := l], m.queue, 0);
  }

  lemma NotQueued(m: Model, id: int)
    requires Sound(m) && id !in m.locks
    ensures id !in m.queue
  {
  }

  /** A new lock that took what it could waits behind everyone of its priority. */
  lemma AcquireView(rws: seq<RwLock>, ls: map<int, Interval>, l2: map<int, Interval>, m: Model, id: int, l: Lock,
          r0: seq<RwLock>)
    requires Sound(m) && Known(m.locks, m.queue) && id !in m.locks && 0 <= l.start == l.stop <= l.end <= |rws| == |r0|
    requires RefView(r0, ls, m.(locks := m.locks[id := l]), None, 0) && Resumed(rws, ls, l2, m.locks[id := l], id)
    ensures RefView(rws, l2, Acquire(m, id, l), None, 0)
  {
    var ml, s := m.locks[id := l], FirstBlocked(m.locks, l.write, l.start, l.end);
    var r, locks := Acquire(m, id, l), m.locks[id := l.(stop := s)];
    BlockedFresh(m.locks, id, l);
    NotQueued(m, id);
    RefViewIs(r0, ls, m.(locks := ml), None, 0);
    RefViewIs(rws, l2, r, None, 0);
    ResumedIs(rws, ls, l2, ml, id, s);
    SoundDistinct(m);
    hide RefView, Resumed, Owners, Waits, Fifo, Sound, Newest, FirstBlocked, Entries, Inside;
    assert ml[id := l.(stop := s)] == locks;
    InsideMoved(ml, id, l.(stop := s), |rws|);
    forall x | 0 <= x < |m.queue|
      ensures m.queue[x] in ls && m.queue[x] != id && m.queue[x] in locks
      ensures ls[m.queue[x]].pos == locks[m.queue[x]].stop
    {
      EntriesAt(ls, ml, m.queue, None, 0, x);
      InQueue(m.queue, x);
    }
    FifoAgrees(ls, l2, ml, locks, m.queue, 0);
    if s < l.end {
      FifoEnqueued(l2, locks, m.queue, id, 0);
      EnqueueMembers(locks, m.queue, id);
    }
    hide Enqueue;
    EntriesMoved(ls, l2, ml, locks, m.queue, r.queue, None, id);
  }

  /** A lock that holds nothing blocks nobody. */
  lemma BlockedFresh(locks: map<int, Lock>, id: int, l: Lock)
    requires id !in locks && l.stop == l.start <= l.end
    ensures FirstBlocked(locks[id := l], l.write, l.start, l.end) == FirstBlocked(locks, l.write, l.start, l.end)
  {
    var s := FirstBlocked(locks, l.write, l.start, l.end);
    var now := locks[id := l];
    forall i | l.start <= i <= s
      ensures Blocked(now, l.write, i) <==> Blocked(locks, l.write, i)
    {
      BlockedAgrees(locks, now, id, l.write, i);
    }
    FirstBlockedIs(now, l.write, l.start, l.end, s);
  }
}
