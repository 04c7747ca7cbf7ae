/** An array of readers-writer locks as the same lock model. */
module RefViews {
  import opened Options
  import opened LockModel

  /** Someone who waits for one lock of the array. */
  datatype Waiter = Waiter(id: int, write: bool, priority: int, order: int)

  datatype RwLock = RwLock(owners: set<(int, bool)>, waits: set<Waiter>, nextOrder: int)

  /** An interval lock: it owns the array's locks up to `pos`; `order` is the one of its waiter. */
  datatype Interval = Interval(start: int, end: int, write: bool, pos: int, priority: int, order: Option<int>)

  /** By priority, highest first, then by order. */
  predicate Earlier(a: Waiter, b: Waiter) {
    a.priority > b.priority || (a.priority == b.priority && a.order < b.order)
  }

  predicate Owner(locks: map<int, Lock>, id: int, write: bool, i: int) {
    id in locks && locks[id].write == write && Holds(locks[id], i)
  }

  /** Index `i` is owned by exactly the locks that hold it. */
  ghost predicate Owned(rw: RwLock, locks: map<int, Lock>, i: int) {
    forall id: int, write: bool :: (id, write) in rw.owners <==> Owner(locks, id, write, i)
  }

  ghost predicate Owners(rws: seq<RwLock>, locks: map<int, Lock>) {
    forall i | 0 <= i < |rws| :: Owned(rws[i], locks, i)
  }

  function WaiterOf(id: int, l: Interval): Waiter
    requires l.order.Some?
  {
    Waiter(id, l.write, l.priority, l.order.value)
  }

  /** The entry of a lock says what the model says. */
  ghost predicate Entry(e: Interval, l: Lock) {
    e.start == l.start && e.end == l.end && e.write == l.write && e.pos == l.stop && e.priority == l.priority
  }

  /** Every lock has its entry, except for the one that is being released. */
  ghost predicate Entries(ls: map<int, Interval>, locks: map<int, Lock>, q: seq<int>, gone: Option<int>) {
    && (forall id <- ls.Keys ::
        Some(id) != gone && id in locks && Entry(ls[id], locks[id]) && (ls[id].order.Some? <==> id in q))
    && (forall id <- locks.Keys :: Some(id) != gone ==> id in ls)
  }

  ghost predicate WaitsAt(rw: RwLock, ls: map<int, Interval>, i: int) {
    forall w <- rw.waits ::
      w.id in ls && ls[w.id].order.Some? && ls[w.id].pos == i && w == WaiterOf(w.id, ls[w.id]) && w.order < rw.nextOrder
  }

  /** The waiters of each index are exactly the locks that stopped there. */
  ghost predicate Waits(rws: seq<RwLock>, ls: map<int, Interval>) {
    && (forall i | 0 <= i < |rws| :: WaitsAt(rws[i], ls, i))
    && (forall id <- ls.Keys :: ls[id].order.Some? ==>
        0 <= ls[id].pos < |rws| && WaiterOf(id, ls[id]) in rws[ls[id].pos].waits)
  }

  ghost predicate SameKey(a: Lock, b: Lock) {
    a.stop == b.stop && a.priority == b.priority
  }

  /** Among equals, who stands lower in the queue came later.  Equals on different sides of `cut`
      are not compared. */
  ghost predicate Fifo(ls: map<int, Interval>, locks: map<int, Lock>, q: seq<int>, cut: nat)
    requires Known(locks, q)
  {
    && (forall x | 0 <= x < |q| :: q[x] in ls && ls[q[x]].order.Some?)
    && (forall x, y | 0 <= x < y < |q| && !(x < cut <= y) && SameKey(locks[q[x]], locks[q[y]]) ::
      ls[q[x]].order.value > ls[q[y]].order.value)
  }

  /** No lock reaches outside the array. */
  ghost predicate Inside(locks: map<int, Lock>, n: int) {
    forall id <- locks.Keys :: 0 <= locks[id].start && locks[id].end <= n
  }

  ghost predicate RefView(rws: seq<RwLock>, ls: map<int, Interval>, m: Model, gone: Option<int>, cut: nat) {
    && Known(m.locks, m.queue) && Inside(m.locks, |rws|) && Owners(rws, m.locks)
    && Entries(ls, m.locks, m.queue, gone) && Waits(rws, ls) && Fifo(ls, m.locks, m.queue, cut)
  }

  // ----- Who is blocked

  lemma OwnerIs(rws: seq<RwLock>, locks: map<int, Lock>, i: int, id: int, write: bool)
    requires Owners(rws, locks) && 0 <= i < |rws|
    ensures (id, write) in rws[i].owners <==> Owner(locks, id, write, i)
  {
  }

  /** A writer is blocked by any owner. */
  lemma WriterBlocked(rws: seq<RwLock>, locks: map<int, Lock>, i: int)
    requires Owners(rws, locks) && 0 <= i < |rws|
    ensures Blocked(locks, true, i) <==> rws[i].owners != {}
  {
    hide Owners;
    if Blocked(locks, true, i) {
      var id :| id in locks.Keys && Clash(locks[id], true, i);
      OwnerIs(rws, locks, i, id, locks[id].write);
    }
    if rws[i].owners != {} {
      var o :| o in rws[i].owners;
      OwnerIs(rws, locks, i, o.0, o.1);
      assert o == (o.0, o.1);
      assert Clash(locks[o.0], true, i);
    }
  }

  /** A reader is blocked by a writer; any one owner tells whether there is one. */
  lemma ReaderBlocked(rws: seq<RwLock>, locks: map<int, Lock>, i: int)
    requires Owners(rws, locks) && Exclusive(locks) && 0 <= i < |rws|
    ensures Blocked(locks, false, i) ==> rws[i].owners != {}
    ensures forall o <- rws[i].owners :: o.1 <==> Blocked(locks, false, i)
  {
    hide Owners;
    if Blocked(locks, false, i) {
      var id :| id in locks.Keys && Clash(locks[id], false, i);
      OwnerIs(rws, locks, i, id, true);
    }
    forall o <- rws[i].owners
      ensures o.1 <==> Blocked(locks, false, i)
    {
      OwnerIs(rws, locks, i, o.0, o.1);
      assert o == (o.0, o.1);
      if o.1 {
        assert Clash(locks[o.0], false, i);
      } else {
        BesideReader(locks, o.0, i);
      }
    }
  }

  lemma BesideReader(locks: map<int, Lock>, a: int, i: int)
    requires Exclusive(locks) && a in locks && Holds(locks[a], i) && !locks[a].write
    ensures !Blocked(locks, false, i)
  {
  }

  // ----- Owning one index more or less

  /** The lock `id` takes index `p`, where it stopped. */
  lemma OwnMore(rws: seq<RwLock>, locks: map<int, Lock>, id: int, p: int)
    requires Owners(rws, locks) && id in locks && locks[id].start <= locks[id].stop == p && 0 <= p < |rws|
    ensures Owners(rws[p := rws[p].(owners := rws[p].owners + {(id, locks[id].write)})],
      locks[id := locks[id].(stop := p + 1)])
  {
  }

  /** The lock `id` gives back its last index. */
  lemma OwnLess(rws: seq<RwLock>, locks: map<int, Lock>, id: int, p: int, l: Lock)
    requires Owners(rws, locks) && id in locks && locks[id].start <= p == locks[id].stop - 1 && 0 <= p < |rws|
    requires l.start == locks[id].start && l.write == locks[id].write && l.stop == p
    ensures Owners(rws[p := rws[p].(owners := rws[p].owners - {(id, l.write)})], locks[id := l])
  {
  }

  /** Only who holds what matters. */
  lemma OwnersAgree(r1: seq<RwLock>, l1: map<int, Lock>, r2: seq<RwLock>, l2: map<int, Lock>)
    requires Owners(r1, l1) && |r2| == |r1| && forall i | 0 <= i < |r1| :: r2[i].owners == r1[i].owners
    requires forall id: int, write: bool, i: int :: Owner(l2, id, write, i) <==> Owner(l1, id, write, i)
    ensures Owners(r2, l2)
  {
  }

  // ----- Waiting and not waiting

  ghost predicate SameWaits(a: seq<RwLock>, b: seq<RwLock>) {
    |a| == |b| && forall i | 0 <= i < |a| :: b[i].waits == a[i].waits && b[i].nextOrder == a[i].nextOrder
  }

  lemma WaitsIs(rws: seq<RwLock>, ls: map<int, Interval>, id: int)
    requires Waits(rws, ls) && id in ls && ls[id].order.Some?
    ensures 0 <= ls[id].pos < |rws| && WaiterOf(id, ls[id]) in rws[ls[id].pos].waits
    ensures ls[id].order.value < rws[ls[id].pos].nextOrder
  {
  }

  lemma WaiterIs(rws: seq<RwLock>, ls: map<int, Interval>, i: int, w: Waiter)
    requires Waits(rws, ls) && 0 <= i < |rws| && w in rws[i].waits
    ensures w.id in ls && ls[w.id].order.Some? && ls[w.id].pos == i && w == WaiterOf(w.id, ls[w.id])
    ensures w.order < rws[i].nextOrder
  {
  }

  lemma WaitsAgree(r1: seq<RwLock>, r2: seq<RwLock>, ls: map<int, Interval>)
    requires Waits(r1, ls) && SameWaits(r1, r2)
    ensures Waits(r2, ls)
  {
  }

  lemma WaitRemoved(rws: seq<RwLock>, ls: map<int, Interval>, id: int)
    requires Waits(rws, ls) && id in ls && ls[id].order.Some?
    ensures 0 <= ls[id].pos < |rws|
    ensures var p := ls[id].pos;
      Waits(rws[p := rws[p].(waits := rws[p].waits - {WaiterOf(id, ls[id])})], ls[id := ls[id].(order := None)])
  {
  }

  lemma WaitAdded(rws: seq<RwLock>, ls: map<int, Interval>, id: int)
    requires Waits(rws, ls) && id in ls && ls[id].order.None? && 0 <= ls[id].pos < |rws|
    ensures var p := ls[id].pos;
      var l := ls[id].(order := Some(rws[p].nextOrder));
      Waits(rws[p := rws[p].(nextOrder := rws[p].nextOrder + 1, waits := rws[p].waits + {WaiterOf(id, l)})],
        ls[id := l])
  {
  }

  /** Entries of locks that do not wait do not matter. */
  lemma WaitsIgnore(rws: seq<RwLock>, ls: map<int, Interval>, l2: map<int, Interval>, id: int)
    requires Waits(rws, ls) && (id in ls ==> ls[id].order.None?) && (id in l2 ==> l2[id].order.None?)
    requires forall x: int :: x != id ==> (x in ls <==> x in l2)
    requires forall x: int :: x != id && x in ls && x in l2 ==> l2[x] == ls[x]
    ensures Waits(rws, l2)
  {
  }
}
