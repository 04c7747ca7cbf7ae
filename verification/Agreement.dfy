/** What it means for the core and the array of locks to agree: field by field, the nodes of the core's
    trees say what the array says. */
module Agreement {
  import opened Options
  import opened Ordering
  import opened LockModel
  import opened WalkFacts
  import opened RefViews
  import opened RefSteps
  import Core
  import Subject
  import Reference

  /** The nodes stored in `st` cover index `i`. */
  ghost predicate Covers(st: Core.LockState, i: int)
    reads st, st.range, st.lower, st.upper
  {
    if st.write then st.range != null && st.range.element.start <= i < st.range.element.end
    else st.lower != null && st.upper != null && st.lower.element.index <= i < st.upper.element.index
  }

  /** Both machines are at the same point. */
  ghost predicate Alike(s: Subject.RwLockSet, r: Reference.RwLockSet)
    reads s, s.core, s.core.states.Values, s.core.pendings, s.core.pendings.mem.Keys, s.core.readers
    reads s.core.readers.tree
    reads s.core.readers.tree.mem.Keys, s.core.writers, s.core.writers.tree, s.core.writers.tree.mem.Keys, r, r.rwlocks
  {
    s.Valid() && r.Valid() && s.core.model == r.model
  }

  lemma AlikeIs(s: Subject.RwLockSet, r: Reference.RwLockSet)
    requires Alike(s, r)
    ensures s.Valid() && s.core.Linked() && Sound(r.model) && Inv(r.model) && s.core.model == r.model
    ensures Known(r.model.locks, r.model.queue)
    ensures RefView(r.rwlocks[..], r.locks, r.model, None, 0) && s.states == s.core.states
  {
    hide Subject.Flagged, RefView, Core.LockCore.Linked;
  }

  /** Theorem: an index of the array is owned by exactly those locks whose nodes cover it, each in its mode. */
  lemma SameOwners(s: Subject.RwLockSet, r: Reference.RwLockSet, id: int, write: bool, i: int)
    requires Alike(s, r) && 0 <= i < r.rwlocks.Length
    ensures (id, write) in r.rwlocks[i].owners <==>
      id in s.states && s.states[id].write == write && Covers(s.states[id], i)
  {
    AlikeIs(s, r);
    hide *;
    RefViewIs(r.rwlocks[..], r.locks, r.model, None, 0);
    SameIds(s, r, id);
    OwnedBy(r.rwlocks[..], r.model.locks, id, write, i);
    if id in s.states {
      CoversIs(s.core, id, i);
    }
  }

  lemma OwnedBy(rws: seq<RwLock>, locks: map<int, Lock>, id: int, write: bool, i: int)
    requires Owners(rws, locks) && 0 <= i < |rws|
    ensures (id, write) in rws[i].owners <==> id in locks && locks[id].write == write && Holds(locks[id], i)
  {
    OwnerIs(rws, locks, i, id, write);
  }

  lemma CoversIs(c: Core.LockCore, id: int, i: int)
    requires c.Linked() && Sound(c.model) && id in c.model.locks
    ensures id in c.states && c.states[id].write == c.model.locks[id].write
    ensures Covers(c.states[id], i) <==> Holds(c.model.locks[id], i)
  {
    hide Core.LockCore.Tracked, Core.LockCore.RegionView, Core.LockCore.QueueView, Sound;
    c.StateTable(id);
  }

  /** Theorem: both have the same locks; a lock's mode is the same, and the region that its nodes cover
      reaches from its start to its position in the array.  It waits there at the index, with the priority
      and up to the end that its pending node has, and is complete if it has no such node. */
  lemma SameLock(s: Subject.RwLockSet, r: Reference.RwLockSet, id: int)
    requires Alike(s, r)
    ensures id in s.states <==> id in r.locks
    ensures id in s.states ==>
      && r.locks[id].write == s.states[id].write
      && (forall i :: Covers(s.states[id], i) <==> r.locks[id].start <= i < r.locks[id].pos)
      && (s.states[id].pending != null <==> r.locks[id].order.Some?)
      && (s.states[id].pending != null ==> var p := s.states[id].pending.element;
        r.locks[id].pos == p.start && r.locks[id].end == p.end && r.locks[id].priority == p.priority && p.token == id)
      && (s.states[id].pending == null ==> r.locks[id].pos == r.locks[id].end)
  {
    AlikeIs(s, r);
    hide Subject.RwLockSet.Valid, Reference.RwLockSet.Valid, RefView, Alike, Inv, Covers;
    RefViewIs(r.rwlocks[..], r.locks, r.model, None, 0);
    SameIds(s, r, id);
    if id in s.states {
      s.core.StateTable(id);
      forall i: int
        ensures Covers(s.states[id], i) <==> Holds(r.model.locks[id], i)
      {
        CoversIs(s.core, id, i);
      }
      hide Core.LockCore.Linked;
      EntryAt(r.locks, r.model.locks, r.model.queue, None, id);
    }
  }

  lemma SameIds(s: Subject.RwLockSet, r: Reference.RwLockSet, id: int)
    requires s.core.Linked() && s.states == s.core.states && s.core.model == r.model
    requires Known(r.model.locks, r.model.queue)
    requires Entries(r.locks, r.model.locks, r.model.queue, None)
    ensures id in s.states <==> id in r.locks
    ensures id in s.states <==> id in r.model.locks
  {
  }

  /** Theorem: of two locks that wait at the same index the array resumes first the one whose pending
      node stands later in the core's tree, which is the one that the downward walk meets first. */
  lemma SameOrder(s: Subject.RwLockSet, r: Reference.RwLockSet, a: int, b: int)
    requires Alike(s, r) && a in s.states && b in s.states && a != b
    requires s.states[a].pending != null && s.states[b].pending != null
    requires s.states[a].pending.element.start == s.states[b].pending.element.start
    ensures a in r.locks && b in r.locks && r.locks[a].order.Some? && r.locks[b].order.Some?
    ensures var its, wa, wb := s.core.pendings.Seq(), WaiterOf(a, r.locks[a]), WaiterOf(b, r.locks[b]);
      Earlier(wa, wb) <==> Index(its, s.states[a].pending) > Index(its, s.states[b].pending)
  {
    AlikeIs(s, r);
    hide *;
    var x := PlaceIn(s, r, a);
    var y := PlaceIn(s, r, b);
    RefViewIs(r.rwlocks[..], r.locks, r.model, None, 0);
    if x < y {
      QueueOrder(r.locks, r.model, x, y);
    } else {
      QueueOrder(r.locks, r.model, y, x);
    }
  }

  /** Where a waiter stands, in the tree and in the queue. */
  lemma PlaceIn(s: Subject.RwLockSet, r: Reference.RwLockSet, id: int) returns (k: nat)
    requires Alike(s, r) && id in s.states && s.states[id].pending != null
    ensures Known(r.model.locks, r.model.queue) && k < |r.model.queue| && r.model.queue[k] == id
    ensures Index(s.core.pendings.Seq(), s.states[id].pending) == k
    ensures Stop(r.model, k) == s.states[id].pending.element.start
    ensures id in r.locks && Entry(r.locks[id], r.model.locks[id])
  {
    AlikeIs(s, r);
    hide *;
    RefViewIs(r.rwlocks[..], r.locks, r.model, None, 0);
    SameIds(s, r, id);
    EntryAt(r.locks, r.model.locks, r.model.queue, None, id);
    k := PlaceOf(s.core, id);
    StopAt(r.model, k);
  }

  lemma StopAt(m: Model, k: nat)
    requires Known(m.locks, m.queue) && k < |m.queue|
    ensures m.queue[k] in m.locks && Stop(m, k) == m.locks[m.queue[k]].stop
  {
  }

  /** Where the node of a waiter stands. */
  lemma PlaceOf(c: Core.LockCore, id: int) returns (k: nat)
    requires c.Linked() && Sound(c.model) && id in c.model.locks && id in c.states && c.states[id].pending != null
    ensures k < |c.model.queue| && c.model.queue[k] == id && Index(c.pendings.Seq(), c.states[id].pending) == k
    ensures c.states[id].pending.element.start == c.model.locks[id].stop
  {
    hide Core.LockCore.Tracked, Core.LockCore.RegionView, Core.LockCore.QueueView, Index;
    c.StateTable(id);
    c.CellOf(id);
    assert id in c.model.queue;
    k := Position(c.model.queue, id);
    hide Sound;
    c.WaiterAt(c.model.locks, c.model.queue, k);
  }

  lemma QueueOrder(ls: map<int, Interval>, m: Model, x: nat, y: nat)
    requires Known(m.locks, m.queue) && Sound(m) && Fifo(ls, m.locks, m.queue, 0) && x < y < |m.queue|
    requires Stop(m, x) == Stop(m, y) && m.queue[x] in ls && m.queue[y] in ls
    requires Entry(ls[m.queue[x]], m.locks[m.queue[x]]) && Entry(ls[m.queue[y]], m.locks[m.queue[y]])
    ensures ls[m.queue[x]].order.Some? && ls[m.queue[y]].order.Some?
    ensures var a, b := WaiterOf(m.queue[x], ls[m.queue[x]]), WaiterOf(m.queue[y], ls[m.queue[y]]);
      Earlier(b, a) && !Earlier(a, b)
  {
  }
}
