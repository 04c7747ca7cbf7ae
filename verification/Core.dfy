/** The interval lock core: three trees of nodes that live in the lock states of its users. */
module Core {
  import opened Options
  import opened Shapes
  import opened Ordering
  import opened RbTree
  import opened LockModel
  import opened LockFacts
  import opened WalkFacts
  import opened Release
  import opened Guarantees
  import opened Requests
  import opened ReadSpans
  import opened ReadBorrows
  import WriteSpans
  import opened WriteBorrows
  import opened Waiters
  import opened CoreViews

  type Wait = Pending<LockState>

  /** Storage for one lock.  The nodes live here while they are linked to the trees of `parent`. */
  class LockState {
    const write: bool
    var parent: LockCore?
    var pending: Node?<Wait>
    var lower: Node?<ReadEnd>
    var upper: Node?<ReadEnd>
    var range: Node?<Range>

    constructor (write: bool)
      ensures this.write == write && parent == null && Read() == Fields(null, null, null, null)
    {
      this.write := write;
      parent, pending, lower, upper, range := null, null, null, null, null;
    }

    ghost function Read(): Fields<Wait>
      reads this
    {
      Fields(pending, lower, upper, range)
    }
  }

  /** The node of the waiter just below position `k`, unless it waits below `start`. */
  ghost function Cursor(m: Model, cells: Cells<Wait>, k: nat, start: int): Node?<Wait> {
    if Known(m.locks, m.queue) && 0 < k <= |m.queue| && Stop(m, k - 1) >= start && m.queue[k - 1] in cells
    then cells[m.queue[k - 1]].pending else null
  }

  /** The states are of the kinds of the locks they store. */
  ghost predicate Kinds(locks: map<int, Lock>, states: map<int, LockState>) {
    && (forall id <- states.Keys :: id in locks && states[id].write == locks[id].write)
    && (forall id <- locks.Keys :: id in states)
  }

  class LockCore {
    const readers: ReadTree
    const writers: WriteTree
    const pendings: Tree<Wait>
    ghost var model: Model
    /** The state that stores each lock, and what it stores. */
    ghost var states: map<int, LockState>
    ghost var cells: Cells<Wait>

    constructor ()
      ensures Linked() && Inv(model) && model == Model(map[], [], []) && states == map[]
      ensures fresh(readers) && fresh(readers.tree) && fresh(writers) && fresh(writers.tree) && fresh(pendings)
      ensures readers.tree.mem.Keys == {} && writers.tree.mem.Keys == {} && pendings.mem.Keys == {}
    {
      hide ReadTree.Valid, WriteTree.Valid, Tree.Valid, Tree.Seq;
      readers := new ReadTree();
      writers := new WriteTree();
      pendings := new Tree<Wait>(NoWeight, GoesBefore);
      model := Model(map[], [], []);
      states, cells := map[], map[];
      new;
    }

    ghost predicate Tracked()
      reads `states, `cells, states.Values
    {
      && (forall id <- states.Keys :: id in cells && states[id].parent == this && states[id].Read() == cells[id])
      && (forall id <- cells.Keys :: id in states)
      && (forall a <- states.Keys, b <- states.Keys | a != b :: states[a] != states[b])
    }

    ghost predicate RegionView(locks: map<int, Lock>)
      reads `cells, readers, readers.tree, readers.tree.mem.Keys, writers, writers.tree, writers.tree.mem.Keys
    {
      readers.Valid() && writers.Valid() && Regions(locks, cells, readers.spans, writers.holds)
    }

    ghost predicate QueueView(locks: map<int, Lock>, q: seq<int>)
      reads `states, `cells, pendings, pendings.mem.Keys
    {
      && pendings.Valid() && pendings.before == GoesBefore && pendings.weight == NoWeight
      && Waitlist(pendings.Seq(), locks, q, states) && PendingCells(pendings.Seq(), q, cells)
    }

    ghost predicate Linked()
      reads `model, `states, `cells, states.Values, pendings, pendings.mem.Keys
      reads readers, readers.tree, readers.tree.mem.Keys, writers, writers.tree, writers.tree.mem.Keys
    {
      Tracked() && Kinds(model.locks, states) && RegionView(model.locks) && QueueView(model.locks, model.queue)
    }

    // ----- Conflicts

    /** The least index of `[lo, hi)` where a borrow of this kind meets a conflict. */
    method FirstConflict(write: bool, lo: int, hi: int, ghost locks: map<int, Lock>) returns (r: Option<int>)
      requires RegionView(locks) && lo < hi
      ensures var s := FirstBlocked(locks, write, lo, hi); r == if s < hi then Some(s) else None
    {
      hide ReadTree.Valid, WriteTree.Valid, Regions, FirstBlocked, Blocked, Covered, WriteSpans.Written;
      r := writers.First(lo, hi);
      if write {
        var other := readers.First(lo, hi);
        if other.Some? && (r.None? || other.value < r.value) {
          r := other;
        }
      }
      ghost var s := if r.Some? then r.value else hi;
      forall i | lo <= i <= s && i < hi
        ensures Blocked(locks, write, i) <==> i == s
      {
        if write {
          BlockedWrite(locks, cells, readers.spans, writers.holds, i);
        } else {
          BlockedRead(locks, cells, readers.spans, writers.holds, i);
        }
      }
      FirstBlockedIs(locks, write, lo, hi, s);
    }

    // ----- One lock state

    method SetRange(st: LockState, ghost id: int, n: Node?<Range>)
      requires Tracked() && id in states && states[id] == st
      modifies this`cells, st`range
      ensures Tracked() && id in old(cells) && cells == old(cells)[id := old(cells)[id].(range := n)]
    {
      st.range := n;
      cells := cells[id := cells[id].(range := n)];
    }

    method SetEnds(st: LockState, ghost id: int, lower: Node?<ReadEnd>, upper: Node?<ReadEnd>)
      requires Tracked() && id in states && states[id] == st
      modifies this`cells, st`lower, st`upper
      ensures Tracked() && id in old(cells)
      ensures cells == old(cells)[id := old(cells)[id].(lower := lower, upper := upper)]
    {
      st.lower, st.upper := lower, upper;
      cells := cells[id := cells[id].(lower := lower, upper := upper)];
    }

    method SetPending(st: LockState, ghost id: int, n: Node?<Wait>)
      requires Tracked() && id in states && states[id] == st
      modifies this`cells, st`pending
      ensures Tracked() && id in old(cells) && cells == old(cells)[id := old(cells)[id].(pending := n)]
    {
      st.pending := n;
      cells := cells[id := cells[id].(pending := n)];
    }

    // ----- Borrowed regions

    /** A writer's region grows up to `stop`; if it was empty its node is made now. */
    method ExtendWrite(st: LockState, ghost id: int, ghost locks: map<int, Lock>, start: int, stop: int)
      requires Tracked() && RegionView(locks) && id in locks && id in states && states[id] == st
      requires locks[id].write && locks[id].start <= locks[id].stop < stop
      requires locks[id].start == locks[id].stop ==> start == locks[id].start
      requires Exclusive(locks[id := locks[id].(stop := stop)])
      modifies this`cells, st`range, writers, writers.tree, writers.tree.mem.Keys
      ensures Tracked() && RegionView(locks[id := locks[id].(stop := stop)])
      ensures id in cells && id in old(cells) && cells == old(cells)[id := cells[id]]
      ensures cells[id].pending == old(cells[id].pending)
      ensures (forall n <- writers.tree.mem.Keys :: n in old(writers.tree.mem.Keys) || fresh(n))
    {
      hide Tracked, WriteTree.Valid, ReadTree.Valid, Regions, Exclusive, WriteSpans.Free;
      RegionAt(locks, cells, readers.spans, writers.holds, id);
      FreeFor(locks, cells, readers.spans, writers.holds, id, stop);
      ghost var h1, c1 := writers.holds, cells;
      CellOf(id);
      if st.range != null {
        writers.Resize(id, st.range, stop);
      } else {
        var n := writers.Add(id, start, stop);
        SetRange(st, id, n);
      }
      assert cells == c1[id := cells[id]];
      RegionsSet(locks, c1, readers.spans, h1, id, locks[id].(stop := stop), cells[id], readers.spans, writers.holds);
    }

    lemma CellOf(id: int)
      requires Tracked() && id in states
      ensures id in cells && cells[id] == states[id].Read() && states[id].parent == this
    {
    }

    /** A reader's region grows up to `stop`; if it was empty its nodes are made now. */
    method ExtendRead(st: LockState, ghost id: int, ghost locks: map<int, Lock>, start: int, stop: int)
      requires Tracked() && RegionView(locks) && id in locks && id in states && states[id] == st
      requires !locks[id].write && locks[id].start <= locks[id].stop < stop
      requires locks[id].start == locks[id].stop ==> start == locks[id].start
      modifies this`cells, st`lower, st`upper, readers, readers.tree, readers.tree.mem.Keys
      ensures Tracked() && RegionView(locks[id := locks[id].(stop := stop)])
      ensures id in cells && id in old(cells) && cells == old(cells)[id := cells[id]]
      ensures cells[id].pending == old(cells[id].pending)
      ensures (forall n <- readers.tree.mem.Keys :: n in old(readers.tree.mem.Keys) || fresh(n))
    {
      hide Tracked, WriteTree.Valid, ReadTree.Valid, Regions;
      RegionAt(locks, cells, readers.spans, writers.holds, id);
      ghost var s1, c1 := readers.spans, cells;
      CellOf(id);
      if st.upper != null {
        readers.Move(id, st.upper, stop);
      } else {
        var lower, upper := readers.Add(id, start, stop);
        SetEnds(st, id, lower, upper);
      }
      assert cells == c1[id := cells[id]];
      RegionsSet(locks, c1, s1, writers.holds, id, locks[id].(stop := stop), cells[id], readers.spans, writers.holds);
    }

    // ----- The queue

    ghost predicate Configured()
      reads pendings, pendings.mem.Keys
    {
      pendings.Valid() && pendings.before == GoesBefore && pendings.weight == NoWeight
    }

    lemma QueueOpened(locks: map<int, Lock>, q: seq<int>)
      requires QueueView(locks, q)
      ensures Configured() && Waitlist(pendings.Seq(), locks, q, states) && PendingCells(pendings.Seq(), q, cells)
      ensures Known(locks, q) && |pendings.Seq()| == |q|
    {
    }

    /** The node of a waiter stands at its place in the queue. */
    lemma WaiterAt(locks: map<int, Lock>, q: seq<int>, k: nat)
      requires QueueView(locks, q) && k < |q|
      ensures var its := pendings.Seq();
        && |its| == |q| && q[k] in locks && q[k] in cells && q[k] in states && its[k].node in pendings.mem
        && cells[q[k]].pending == its[k].node && Index(its, its[k].node) == k
        && its[k].node.element == Entry(locks[q[k]], states[q[k]], q[k])
    {
      hide Tree.Valid, Tree.Seq, Waitlist, PendingCells;
      QueueOpened(locks, q);
      pendings.Listed();
      WaitAt(pendings.Seq(), locks, q, states, k);
      PendingAt(pendings.Seq(), q, cells, k);
      UniqueIndex(pendings.Seq(), k);
    }

    /** Take the node of the waiter at position `k` out of the tree. */
    method TakeOut(node: Node<Wait>, ghost locks: map<int, Lock>, ghost q: seq<int>, ghost k: nat)
      requires QueueView(locks, q) && Distinct(q) && k < |q| && q[k] in cells && cells[q[k]].pending == node
      modifies pendings, pendings.mem.Keys
      ensures Configured() && pendings.mem.Keys == old(pendings.mem.Keys) - {node} && node in old(pendings.mem)
      ensures node.element == old(node.element) && q[k] in locks && q[k] in states
      ensures node.element == Entry(locks[q[k]], states[q[k]], q[k])
      ensures Waitlist(pendings.Seq(), locks, Without(q, q[k]), states)
      ensures PendingCells(pendings.Seq(), Without(q, q[k]), cells[q[k] := cells[q[k]].(pending := null)])
    {
      hide Tree.Valid, Tree.Seq, Waitlist, PendingCells, Distinct, Without, QueueView, Entry;
      QueueOpened(locks, q);
      WaiterAt(locks, q, k);
      ghost var its := pendings.Seq();
      pendings.Remove(node);
      WaitlistRemoved(its, locks, q, states, k);
      PendingRemoved(its, q, cells, k);
    }

    /** The range of a detached pending borrow now starts at `s`. */
    method SetStart(node: Node<Wait>, s: int)
      requires Configured() && node !in pendings.mem
      modifies node`element, node`summary
      ensures Configured() && pendings.Seq() == old(pendings.Seq())
      ensures node.element == old(node.element).(start := s) && node.summary == 0
    {
      hide *;
      node.element := node.element.(start := s);
      node.summary := 0;
    }

    /** Insert the node of a new waiter. */
    method PutIn(node: Node<Wait>, ghost id: int, ghost locks: map<int, Lock>, ghost q: seq<int>, ghost c: Cells<Wait>)
      requires Configured() && Waitlist(pendings.Seq(), locks, q, states) && PendingCells(pendings.Seq(), q, c)
      requires Known(locks, q) && Sorted(locks, q) && id in locks && id in states && id !in q && id in c
      requires node !in pendings.mem && node.summary == 0 && node.element == Entry(locks[id], states[id], id)
      modifies pendings, pendings.mem.Keys, node`left, node`right, node`parent, node`red, node`summary
      ensures Configured() && pendings.mem.Keys == old(pendings.mem.Keys) + {node}
      ensures Waitlist(pendings.Seq(), locks, Enqueue(locks, q, id), states)
      ensures PendingCells(pendings.Seq(), Enqueue(locks, q, id), c[id := c[id].(pending := node)])
    {
      hide Tree.Valid, Tree.Seq, Waitlist, PendingCells, Sorted, Monotone, Split, Place;
      ghost var its, f, e := pendings.Seq(), pendings.Precedes(node.element), node.element;
      PlaceIs(its, locks, q, states, e, locks[id], f);
      ghost var k := Place(locks, q, locks[id]);
      PendingInserted(its, q, c, id, k, Item(node, e));
      WaitlistInserted(its, locks, q, states, id, node);
      pendings.Insert(node);
    }

    lemma LinkedIs()
      ensures Linked() <==>
        Tracked() && Kinds(model.locks, states) && RegionView(model.locks) && QueueView(model.locks, model.queue)
    {
    }

    lemma QueueMade(locks: map<int, Lock>, q: seq<int>)
      requires Configured() && Waitlist(pendings.Seq(), locks, q, states) && PendingCells(pendings.Seq(), q, cells)
      ensures QueueView(locks, q)
    {
    }

    /** Move the node of the waiter at position `k` to the new index `s`. */
    method Requeue(node: Node<Wait>, s: int, ghost m: Model, ghost k: nat)
      requires QueueView(m.locks, m.queue) && Queued(m.locks, m.queue) && k < |m.queue|
      requires m.queue[k] in cells && cells[m.queue[k]].pending == node
      requires m.locks[m.queue[k]].stop < s < m.locks[m.queue[k]].end
      modifies pendings, pendings.mem.Keys
      ensures var r := Shift(m, m.queue[k], s); QueueView(r.locks, r.queue)
      ensures pendings.mem.Keys == old(pendings.mem.Keys)
    {
      hide QueueView, Configured, Waitlist, PendingCells, Without, Enqueue, Distinct, Sorted, Waiting;
      QueueOpened(m.locks, m.queue);
      WaiterAt(m.locks, m.queue, k);
      ghost var id := m.queue[k];
      ghost var locks, q := m.locks[id := m.locks[id].(stop := s)], Without(m.queue, id);
      ShiftedQueue(m, id, s);
      TakeOut(node, m.locks, m.queue, k);
      WaitlistAgrees(pendings.Seq(), m.locks, locks, q, states, states);
      SetStart(node, s);
      PutIn(node, id, locks, q, cells[id := cells[id].(pending := null)]);
      assert cells[id := cells[id].(pending := null)][id := cells[id]] == cells;
      QueueMade(locks, Enqueue(locks, q, id));
    }

    lemma QueueAgrees(l1: map<int, Lock>, l2: map<int, Lock>, q: seq<int>)
      requires QueueView(l1, q) && forall i | 0 <= i < |q| :: q[i] in l1 && q[i] in l2 && l2[q[i]] == l1[q[i]]
      ensures QueueView(l2, q)
    {
    }

    /** Take the pending borrow at position `k` out of the queue and out of its lock state. */
    method Delist(st: LockState, node: Node<Wait>, ghost locks: map<int, Lock>, ghost q: seq<int>, ghost k: nat)
      requires Tracked() && QueueView(locks, q) && Distinct(q) && k < |q| && q[k] in states && states[q[k]] == st
      requires st.pending == node
      modifies `cells, st`pending, pendings, pendings.mem.Keys
      ensures Tracked() && QueueView(locks, Without(q, q[k]))
      ensures q[k] in old(cells) && cells == old(cells)[q[k] := old(cells)[q[k]].(pending := null)]
      ensures pendings.mem.Keys == old(pendings.mem.Keys) - {node} && node.element == old(node.element)
      ensures q[k] in locks && node.element == Entry(locks[q[k]], st, q[k])
    {
      hide Tracked, QueueView, Configured, Waitlist, PendingCells, Without, Distinct, Entry;
      CellOf(q[k]);
      TakeOut(node, locks, q, k);
      ghost var c := cells;
      SetPending(st, q[k], null);
      QueueMade(locks, Without(q, q[k]));
    }

    lemma RegionsKeep(locks: map<int, Lock>, c1: Cells<Wait>, id: int)
      requires readers.Valid() && writers.Valid() && Regions(locks, c1, readers.spans, writers.holds) && id in locks
      requires id in c1
      requires id in cells && cells == c1[id := c1[id].(pending := cells[id].pending)]
      ensures RegionView(locks)
    {
    }

    lemma QueueKeeps(locks: map<int, Lock>, q: seq<int>, c1: Cells<Wait>, id: int)
      requires Configured() && Waitlist(pendings.Seq(), locks, q, states) && PendingCells(pendings.Seq(), q, c1)
      requires id in c1 && id in cells && cells == c1[id := cells[id]] && cells[id].pending == c1[id].pending
      ensures QueueView(locks, q)
    {
    }

    /** A lock's region grows up to `stop`. */
    method Extend(st: LockState, ghost id: int, ghost locks: map<int, Lock>, ghost q: seq<int>, start: int, stop: int)
      requires id in locks && id in states && states[id] == st && locks[id].start <= locks[id].stop < stop
      requires Tracked() && Kinds(locks, states) && RegionView(locks)
      requires QueueView(locks[id := locks[id].(stop := stop)], q)
      requires locks[id].start == locks[id].stop ==> start == locks[id].start
      requires Exclusive(locks[id := locks[id].(stop := stop)])
      modifies `cells, st`range, st`lower, st`upper
      modifies writers, writers.tree, writers.tree.mem.Keys, readers, readers.tree, readers.tree.mem.Keys
      ensures var now := locks[id := locks[id].(stop := stop)]; Tracked() && RegionView(now) && QueueView(now, q)
      ensures OnlyAt(old(cells), cells, id)
      ensures (forall n <- writers.tree.mem.Keys :: n in old(writers.tree.mem.Keys) || fresh(n))
      ensures (forall n <- readers.tree.mem.Keys :: n in old(readers.tree.mem.Keys) || fresh(n))
    {
      hide Tracked, RegionView, QueueView, Configured, Waitlist, PendingCells, Exclusive;
      ghost var c1, now := cells, locks[id := locks[id].(stop := stop)];
      QueueOpened(now, q);
      if st.write {
        ExtendWrite(st, id, locks, start, stop);
      } else {
        ExtendRead(st, id, locks, start, stop);
      }
      QueueKeeps(now, q, c1, id);
    }

    lemma ResumeReads(k: nat)
      requires Linked() && Sound(model) && k < |model.queue|
      ensures var id := model.queue[k];
        && id in model.locks && id in states && id in cells && states[id].pending == cells[id].pending != null
        && cells[id].pending.element == Entry(model.locks[id], states[id], id) && cells[id].pending in pendings.mem
        && model.locks[id].start <= model.locks[id].stop < model.locks[id].end
        && states[id].write == model.locks[id].write
    {
      hide Tracked, RegionView, QueueView, Exclusive;
      WaiterAt(model.locks, model.queue, k);
      CellOf(model.queue[k]);
      assert model.queue[k] in model.queue;
    }

    /** The waiter `id` at position `k` of the queue has the lock state `st`, which stores its node. */
    ghost predicate AtQueue(m: Model, k: nat, id: int, st: LockState, node: Node<Wait>)
      reads `states, st
    {
      && Sound(m) && Known(m.locks, m.queue) && k < |m.queue| && m.queue[k] == id && id in m.locks
      && id in states && states[id] == st && st.pending == node
    }

    lemma AtQueueIs(m: Model, k: nat, id: int, st: LockState, node: Node<Wait>)
      ensures AtQueue(m, k, id, st, node) <==>
        && Sound(m) && Known(m.locks, m.queue) && k < |m.queue| && m.queue[k] == id && id in m.locks
        && id in states && states[id] == st && st.pending == node
    {
    }

    /** Resume the pending borrow at position `k` of the queue; its token is returned if it completes. */
    method Resume(node: Node<Wait>, ghost m: Model, ghost k: nat, ghost id: int) returns (done: Option<int>)
      requires Linked() && m == model && id in states && AtQueue(m, k, id, states[id], node)
      modifies `model, `cells, states.Values, pendings, pendings.mem.Keys
      modifies writers, writers.tree, writers.tree.mem.Keys, readers, readers.tree, readers.tree.mem.Keys
      ensures Linked() && states == old(states)
      ensures id in m.locks && Known(m.locks, m.queue) && model == Advance(m, id)
      ensures model.done == m.done + if done.Some? then [done.value] else []
      ensures (forall n <- writers.tree.mem.Keys :: n in old(writers.tree.mem.Keys) || fresh(n))
      ensures (forall n <- readers.tree.mem.Keys :: n in old(readers.tree.mem.Keys) || fresh(n))
      ensures pendings.mem.Keys <= old(pendings.mem.Keys)
      ensures OnlyAt(old(cells), cells, id)
    {
      hide Linked, Tracked, Kinds, RegionView, QueueView, Sound, Advance, FirstBlocked, Known, AtQueue;
      hide ReadTree.Valid, WriteTree.Valid, Tree.Valid, Tree.Seq;
      LinkedIs();
      AtQueueIs(m, k, id, states[id], node);
      ResumeReads(k);
      AdvanceMoves(m, k);
      var e := node.element;
      var c := FirstConflict(e.parent.write, e.start, e.end, m.locks);
      if c == Some(e.start) {
        NoMove(m, id);
        done := None;
      } else {
        done := Settle(e.parent, node, c, m, k, id);
      }
    }

    /** Get on to the conflict `c`, or to the end; the model follows. */
    method Settle(st: LockState, node: Node<Wait>, c: Option<int>, ghost m: Model, ghost k: nat, ghost id: int)
      returns (done: Option<int>)
      requires Linked() && m == model && AtQueue(m, k, id, st, node) && node.element == Entry(m.locks[id], st, id)
      requires var l := m.locks[id]; var s := FirstBlocked(m.locks, l.write, l.stop, l.end);
        l.stop < s && c == if s < l.end then Some(s) else None
      modifies `model, `cells, st`pending, st`range, st`lower, st`upper, pendings, pendings.mem.Keys
      modifies writers, writers.tree, writers.tree.mem.Keys, readers, readers.tree, readers.tree.mem.Keys
      ensures Linked() && states == old(states)
      ensures id in m.locks && Known(m.locks, m.queue) && model == Advance(m, id)
      ensures model.done == m.done + if done.Some? then [done.value] else []
      ensures (forall n <- writers.tree.mem.Keys :: n in old(writers.tree.mem.Keys) || fresh(n))
      ensures (forall n <- readers.tree.mem.Keys :: n in old(readers.tree.mem.Keys) || fresh(n))
      ensures pendings.mem.Keys <= old(pendings.mem.Keys)
      ensures OnlyAt(old(cells), cells, id)
    {
      hide Linked, Tracked, Kinds, RegionView, QueueView, Sound, Advance, FirstBlocked, Known, AtQueue;
      hide ReadTree.Valid, WriteTree.Valid, Tree.Valid, Tree.Seq;
      LinkedIs();
      AtQueueIs(m, k, id, st, node);
      AdvanceMoves(m, k);
      KindsAgree(m.locks, Advance(m, id).locks, states);
      done := Proceed(st, node, c, m, k, id);
      model := Advance(m, id);
      LinkedIs();
    }

    /** Get on to the conflict `c`, or to the end. */
    method Proceed(st: LockState, node: Node<Wait>, c: Option<int>, ghost m: Model, ghost k: nat, ghost id: int)
      returns (done: Option<int>)
      requires Tracked() && Kinds(m.locks, states) && RegionView(m.locks) && QueueView(m.locks, m.queue)
      requires AtQueue(m, k, id, st, node) && id in m.locks && node.element == Entry(m.locks[id], st, id)
      requires var l := m.locks[id]; var s := FirstBlocked(m.locks, l.write, l.stop, l.end);
        l.stop < s && c == if s < l.end then Some(s) else None
      modifies `cells, st`pending, st`range, st`lower, st`upper, pendings, pendings.mem.Keys
      modifies writers, writers.tree, writers.tree.mem.Keys, readers, readers.tree, readers.tree.mem.Keys
      ensures Known(m.locks, m.queue)
      ensures var r := Advance(m, id); Tracked() && RegionView(r.locks) && QueueView(r.locks, r.queue)
      ensures Advance(m, id).done == m.done + if done.Some? then [done.value] else []
      ensures (forall n <- writers.tree.mem.Keys :: n in old(writers.tree.mem.Keys) || fresh(n))
      ensures (forall n <- readers.tree.mem.Keys :: n in old(readers.tree.mem.Keys) || fresh(n))
      ensures pendings.mem.Keys <= old(pendings.mem.Keys)
      ensures OnlyAt(old(cells), cells, id)
    {
      hide Tracked, Kinds, RegionView, QueueView, Sound, Exclusive, Advance, FirstBlocked, Known, AtQueue;
      hide ReadTree.Valid, WriteTree.Valid, Tree.Valid, Tree.Seq;
      AtQueueIs(m, k, id, st, node);
      AdvanceMoves(m, k);
      ghost var r := Advance(m, id);
      var e := node.element;
      done := MovePending(st, node, c, m, k, id);
      ghost var c1 := cells;
      Extend(st, id, m.locks, r.queue, e.start, if c.Some? then c.value else e.end);
      OnlyAtTrans(old(cells), c1, cells, id);
    }

    /** Move the pending borrow to the conflict `c`, or take its token if there is none. */
    method MovePending(st: LockState, node: Node<Wait>, c: Option<int>, ghost m: Model, ghost k: nat, ghost id: int)
      returns (done: Option<int>)
      requires Tracked() && AtQueue(m, k, id, st, node)
      requires RegionView(m.locks) && QueueView(m.locks, m.queue)
      requires var l := m.locks[id]; var s := FirstBlocked(m.locks, l.write, l.stop, l.end);
        l.stop < s && c == if s < l.end then Some(s) else None
      modifies `cells, st`pending, pendings, pendings.mem.Keys
      ensures Tracked() && RegionView(m.locks)
      ensures var r := Advance(m, id);
        QueueView(r.locks, r.queue) && r.done == m.done + if done.Some? then [done.value] else []
      ensures OnlyAt(old(cells), cells, id)
      ensures pendings.mem.Keys <= old(pendings.mem.Keys)
    {
      hide Tracked, RegionView, QueueView, Sound, Queued, Distinct, Advance, Shift, Without, FirstBlocked, Known;
      hide AtQueue, Regions;
      hide ReadTree.Valid, WriteTree.Valid, Tree.Valid, Tree.Seq;
      AtQueueIs(m, k, id, st, node);
      AdvanceCases(m, k);
      CellOf(id);
      ghost var r, c1 := Advance(m, id), cells;
      if c.Some? {
        Requeue(node, c.value, m, k);
        done := None;
      } else {
        RegionsOf(m.locks);
        Delist(st, node, m.locks, m.queue, k);
        RegionsKeep(m.locks, c1, id);
        QueueAgrees(m.locks, r.locks, r.queue);
        done := Some(node.element.token);
      }
    }

    // ----- Locking

    ghost predicate Unused(st: LockState)
      reads st
    {
      st.parent == null && st.Read() == Fields(null, null, null, null)
    }

    lemma ClaimViews(locks: map<int, Lock>, q: seq<int>, s1: map<int, LockState>, c1: Cells<Wait>, st: LockState,
            id: int, l: Lock, stop: int)
      requires readers.Valid() && writers.Valid() && Regions(locks, c1, readers.spans, writers.holds) && id !in locks
      requires l.stop == l.start
      requires Configured() && Waitlist(pendings.Seq(), locks, q, s1) && PendingCells(pendings.Seq(), q, c1)
      requires states == s1[id := st] && cells == c1[id := Fields(null, null, null, null)]
      ensures RegionView(locks[id := l]) && QueueView(locks[id := l.(stop := stop)], q)
    {
      hide ReadTree.Valid, WriteTree.Valid, Tree.Valid, Tree.Seq, Regions, Waitlist, PendingCells;
      var c: Fields<Wait> := Fields(null, null, null, null);
      NotBorrowed(locks, c1, readers.spans, writers.holds, id);
      RegionsSet(locks, c1, readers.spans, writers.holds, id, l, c, readers.spans, writers.holds);
      PendingAdded(pendings.Seq(), q, c1, id, c);
      forall i | 0 <= i < |q|
        ensures q[i] in locks && q[i] in s1 && q[i] != id
      {
        WaitSize(pendings.Seq(), locks, q, s1);
        WaitAt(pendings.Seq(), locks, q, s1, i);
      }
      WaitlistAgrees(pendings.Seq(), locks, locks[id := l.(stop := stop)], q, s1, states);
      QueueMade(locks[id := l.(stop := stop)], q);
    }

    /** Associate an unused state with this core: it stores the lock `l`, which holds nothing yet. */
    method Claim(st: LockState, ghost id: int, ghost l: Lock, ghost locks: map<int, Lock>, ghost q: seq<int>,
            ghost stop: int)
      requires Tracked() && Kinds(locks, states) && RegionView(locks) && QueueView(locks, q)
      requires Unused(st) && id !in locks && l.stop == l.start && l.write == st.write
      modifies `states, `cells, st`parent
      ensures Tracked() && Kinds(locks[id := l], states) && RegionView(locks[id := l])
      ensures QueueView(locks[id := l.(stop := stop)], q)
      ensures states == old(states)[id := st] && cells == old(cells)[id := Fields(null, null, null, null)]
    {
      hide ReadTree.Valid, WriteTree.Valid, Tree.Valid, Tree.Seq, Tracked, RegionView, QueueView, Configured, Regions;
      hide Waitlist, PendingCells;
      RegionsOf(locks);
      QueueOpened(locks, q);
      ghost var s1, c1 := states, cells;
      ClaimState(st, id);
      ClaimViews(locks, q, s1, c1, st, id, l, stop);
    }

    method ClaimState(st: LockState, ghost id: int)
      requires Tracked() && Unused(st) && id !in states
      modifies `states, `cells, st`parent
      ensures Tracked() && states == old(states)[id := st] && cells == old(cells)[id := Fields(null, null, null, null)]
    {
      st.parent := this;
      states, cells := states[id := st], cells[id := Fields(null, null, null, null)];
    }

    /** Remember the part of the range that could not be borrowed. */
    method Park(st: LockState, start: int, end: int, priority: int, token: int, ghost locks: map<int, Lock>,
            ghost q: seq<int>)
      requires Tracked() && RegionView(locks) && QueueView(locks, q) && Known(locks, q) && Sorted(locks, q)
      requires token !in q && token in locks && token in states && states[token] == st
      requires locks[token].stop == start && locks[token].end == end && locks[token].priority == priority
      modifies `cells, st`pending, pendings, pendings.mem.Keys
      ensures Tracked() && RegionView(locks) && QueueView(locks, Enqueue(locks, q, token))
      ensures OnlyAt(old(cells), cells, token)
      ensures forall n <- pendings.mem.Keys :: n in old(pendings.mem.Keys) || fresh(n)
    {
      hide ReadTree.Valid, WriteTree.Valid, Tree.Valid, Tree.Seq, Tracked, RegionView, QueueView, Configured, Regions;
      hide Waitlist, PendingCells, Sorted, Enqueue;
      RegionsOf(locks);
      QueueOpened(locks, q);
      CellOf(token);
      ghost var c1 := cells;
      var node := new Node(Pending(start, end, priority, st, token), 0);
      SetPending(st, token, node);
      PutIn(node, token, locks, q, c1);
      QueueMade(locks, Enqueue(locks, q, token));
      RegionsKeep(locks, c1, token);
    }

    /** Lock a range: borrow what is free from its start on, and wait for the rest.  `token` names the
        lock and is what the caller gets back when the lock completes. */
    method Lock(st: LockState, start: int, end: int, priority: int, token: int) returns (complete: bool)
      requires Linked() && Inv(model) && Unused(st) && token !in model.locks && start < end
      modifies `model, `states, `cells, st, pendings, pendings.mem.Keys
      modifies writers, writers.tree, writers.tree.mem.Keys, readers, readers.tree, readers.tree.mem.Keys
      ensures Linked() && Inv(model) && states == old(states)[token := st]
      ensures Known(old(model).locks, old(model).queue)
      ensures model == Acquire(old(model), token, Request(start, end, st.write, priority))
      ensures token in model.locks && (complete <==> model.locks[token].stop == end)
      ensures model.locks[token] == LockModel.Lock(start, end, st.write, priority, model.locks[token].stop)
      ensures Reaches(old(model).locks, st.write, start, end, model.locks[token].stop)
      ensures (forall n <- writers.tree.mem.Keys :: n in old(writers.tree.mem.Keys) || fresh(n))
      ensures (forall n <- readers.tree.mem.Keys :: n in old(readers.tree.mem.Keys) || fresh(n))
      ensures (forall n <- pendings.mem.Keys :: n in old(pendings.mem.Keys) || fresh(n))
    {
      hide Linked, Tracked, Kinds, RegionView, QueueView, Inv, Acquire, Known, Unused, Sound, Reaches, Added;
      hide ReadTree.Valid, WriteTree.Valid, Tree.Valid, Tree.Seq;
      LinkedIs();
      ghost var m, l := model, Request(start, end, st.write, priority);
      AcquireCases(m, token, l);
      InvSound(m);
      AcquireMakes(m, token, start, end, st.write, priority);
      complete := Borrow(st, start, end, priority, token, m, l);
      model := Acquire(m, token, l);
      LinkedIs();
    }

    method Borrow(st: LockState, start: int, end: int, priority: int, token: int, ghost m: Model, ghost l: Lock)
      returns (complete: bool)
      requires Tracked() && Kinds(m.locks, states) && RegionView(m.locks) && QueueView(m.locks, m.queue)
      requires Inv(m) && Known(m.locks, m.queue) && Unused(st) && token !in m.locks && start < end
      requires l == Request(start, end, st.write, priority)
      modifies `states, `cells, st, pendings, pendings.mem.Keys
      modifies writers, writers.tree, writers.tree.mem.Keys, readers, readers.tree, readers.tree.mem.Keys
      ensures var r := Acquire(m, token, l);
        && Tracked() && Kinds(r.locks, states) && RegionView(r.locks) && Known(r.locks, r.queue)
        && QueueView(r.locks, r.queue)
        && token in r.locks && (complete <==> r.locks[token].stop == end)
      ensures states == old(states)[token := st]
      ensures (forall n <- writers.tree.mem.Keys :: n in old(writers.tree.mem.Keys) || fresh(n))
      ensures (forall n <- readers.tree.mem.Keys :: n in old(readers.tree.mem.Keys) || fresh(n))
      ensures (forall n <- pendings.mem.Keys :: n in old(pendings.mem.Keys) || fresh(n))
    {
      hide Tracked, Kinds, RegionView, QueueView, Inv, Acquire, FirstBlocked, Enqueue, Known, Unused, Exclusive;
      hide ReadTree.Valid, WriteTree.Valid, Tree.Valid, Tree.Seq;
      AcquireCases(m, token, l);
      ghost var r := Acquire(m, token, l);
      var c := FirstConflict(st.write, start, end, m.locks);
      complete := c.None?;
      Take(st, start, if c.Some? then c.value else end, token, l, m.locks, m.queue);
      if c.Some? {
        Park(st, c.value, end, priority, token, r.locks, m.queue);
      }
    }

    /** Borrow `[start, stop)` with a state not in use before. */
    method Take(st: LockState, start: int, stop: int, ghost id: int, ghost l: Lock, ghost locks: map<int, Lock>,
            ghost q: seq<int>)
      requires Tracked() && Kinds(locks, states) && RegionView(locks) && QueueView(locks, q)
      requires Unused(st) && id !in locks && l.stop == l.start == start <= stop && l.write == st.write
      requires Exclusive(locks[id := l.(stop := stop)])
      modifies `states, `cells, st
      modifies writers, writers.tree, writers.tree.mem.Keys, readers, readers.tree, readers.tree.mem.Keys
      ensures var now := locks[id := l.(stop := stop)];
        Tracked() && Kinds(now, states) && RegionView(now) && QueueView(now, q)
      ensures states == old(states)[id := st]
      ensures (forall n <- writers.tree.mem.Keys :: n in old(writers.tree.mem.Keys) || fresh(n))
      ensures (forall n <- readers.tree.mem.Keys :: n in old(readers.tree.mem.Keys) || fresh(n))
    {
      hide Tracked, Kinds, RegionView, QueueView, Unused, Exclusive;
      hide ReadTree.Valid, WriteTree.Valid, Tree.Valid, Tree.Seq;
      Claim(st, id, l, locks, q, stop);
      ghost var claimed, now := locks[id := l], locks[id := l.(stop := stop)];
      assert claimed[id := l.(stop := stop)] == now;
      if stop != start {
        Extend(st, id, claimed, q, start, stop);
      }
      KindsAgree(claimed, now, states);
    }

    /** Try to lock a range: borrow all of it or nothing.  It never waits, so its priority is ghost. */
    method TryLock(st: LockState, start: int, end: int, ghost id: int, ghost priority: int) returns (ok: bool)
      requires Linked() && Inv(model) && Unused(st) && id !in model.locks && start < end
      modifies `model, `states, `cells, st
      modifies writers, writers.tree, writers.tree.mem.Keys, readers, readers.tree, readers.tree.mem.Keys
      ensures Linked() && Inv(model)
      ensures (if ok then states == old(states)[id := st] else states == old(states) && Unused(st))
      ensures Known(old(model).locks, old(model).queue)
      ensures model == TryAcquire(old(model), id, Request(start, end, st.write, priority))
      ensures (ok <==> id in model.locks) && (ok <==> AllFree(old(model).locks, st.write, start, end))
      ensures ok ==> model.locks[id] == LockModel.Lock(start, end, st.write, priority, end)
      ensures (forall n <- writers.tree.mem.Keys :: n in old(writers.tree.mem.Keys) || fresh(n))
      ensures (forall n <- readers.tree.mem.Keys :: n in old(readers.tree.mem.Keys) || fresh(n))
    {
      hide Linked, Tracked, Kinds, RegionView, QueueView, Inv, Acquire, FirstBlocked, Known, Unused, Exclusive;
      hide ReadTree.Valid, WriteTree.Valid, Tree.Valid, Tree.Seq;
      LinkedIs();
      ghost var m, l := model, Request(start, end, st.write, priority);
      AcquireCases(m, id, l);
      InvSound(m);
      TryMakes(m, id, start, end, st.write, priority);
      var c := FirstConflict(st.write, start, end, m.locks);
      ok := c.None?;
      if ok {
        Take(st, start, end, id, l, m.locks, m.queue);
        model := Acquire(m, id, l);
        LinkedIs();
      }
    }

    // ----- Unlocking

    /** Cancel the pending borrow of a lock, if it has one, and get its token back. */
    method CancelBorrow(st: LockState, ghost id: int, ghost m: Model) returns (token: Option<int>)
      requires Linked() && m == model && Sound(m) && id in m.locks && id in states && states[id] == st
      modifies `model, `cells, st`pending, pendings, pendings.mem.Keys
      ensures Linked() && Known(m.locks, m.queue) && model == Cancel(m, id)
      ensures token == if id in m.queue then Some(id) else None
      ensures pendings.mem.Keys <= old(pendings.mem.Keys)
    {
      hide Linked, Tracked, Kinds, RegionView, QueueView, Sound, Distinct, Cancel, Without, Known, Regions;
      hide ReadTree.Valid, WriteTree.Valid, Tree.Valid, Tree.Seq;
      LinkedIs();
      CancelCases(m, id);
      PendingOf(m.locks, m.queue, id);
      token := None;
      if st.pending != null {
        ghost var k, c1 := Position(m.queue, id), cells;
        CellOf(id);
        RegionsOf(m.locks);
        token := Some(st.pending.element.token);
        WaiterAt(m.locks, m.queue, k);
        Delist(st, st.pending, m.locks, m.queue, k);
        RegionsKeep(m.locks, c1, id);
        CancelViews(m, id);
        model := Cancel(m, id);
      }
      LinkedIs();
    }

    lemma PendingOf(locks: map<int, Lock>, q: seq<int>, id: int)
      requires Tracked() && QueueView(locks, q) && id in states
      ensures states[id].pending != null <==> id in q
    {
    }

    /** What is left after a cancellation shows in the trees as before. */
    lemma CancelViews(m: Model, id: int)
      requires Sound(m) && id in m.locks && Known(m.locks, m.queue) && Kinds(m.locks, states)
      requires RegionView(m.locks) && QueueView(m.locks, Without(m.queue, id))
      ensures var c := Cancel(m, id); Kinds(c.locks, states) && RegionView(c.locks) && QueueView(c.locks, c.queue)
    {
      hide Tracked, QueueView, Regions, Without, Sound;
      hide ReadTree.Valid, WriteTree.Valid, Tree.Valid, Tree.Seq;
      CancelCases(m, id);
      var c := Cancel(m, id);
      KindsAgree(m.locks, c.locks, states);
      QueueAgrees(m.locks, c.locks, c.queue);
      RegionAt(m.locks, cells, readers.spans, writers.holds, id);
      RegionsSet(m.locks, cells, readers.spans, writers.holds, id, c.locks[id], cells[id], readers.spans,
        writers.holds);
      assert cells[id := cells[id]] == cells;
    }

    /** The lock `id` is being released: it no longer waits and still holds up to its end. */
    ghost predicate Held(m: Model, id: int, st: LockState)
      reads `states
    {
      && Sound(m) && id in m.locks && id !in m.queue && id in states && states[id] == st
      && m.locks[id].start <= m.locks[id].stop == m.locks[id].end && st.write == m.locks[id].write
    }

    lemma HeldIs(m: Model, id: int, st: LockState)
      requires Held(m, id, st)
      ensures Known(m.locks, m.queue) && id in m.locks && id !in m.queue && id in states && states[id] == st && Sound(m)
      ensures m.locks[id].start <= m.locks[id].stop == m.locks[id].end && st.write == m.locks[id].write
    {
    }

    lemma TruncateViews(m: Model, id: int, st: LockState, p: int)
      requires Held(m, id, st) && id in m.locks && m.locks[id].start <= p <= m.locks[id].stop
      requires Kinds(m.locks, states) && QueueView(m.locks, m.queue)
      ensures Known(m.locks, m.queue)
      ensures var t := Truncate(m, id, p);
        && Kinds(t.locks, states) && QueueView(t.locks, t.queue) && Held(t, id, st)
        && t.locks == m.locks[id := m.locks[id].(stop := p, end := p)] && t.queue == m.queue && t.done == m.done
    {
      hide QueueView, Regions, Waitlist, PendingCells;
      hide ReadTree.Valid, WriteTree.Valid, Tree.Valid, Tree.Seq;
      var t := Truncate(m, id, p);
      TruncateSound(m, id, p);
      KindsAgree(m.locks, t.locks, states);
      assert forall i | 0 <= i < |m.queue| :: m.queue[i] in m.queue && m.queue[i] != id;
      QueueAgrees(m.locks, t.locks, m.queue);
    }

    lemma RegionsMade(locks: map<int, Lock>)
      requires readers.Valid() && writers.Valid() && Regions(locks, cells, readers.spans, writers.holds)
      ensures RegionView(locks)
    {
    }

    /** Lock `id` now has the region of `l`, and nothing else changed. */
    lemma ViewsMade(locks: map<int, Lock>, c1: Cells<Wait>, s1: Spans, h1: HoldMap, id: int, l: Lock, q: seq<int>)
      requires readers.Valid() && writers.Valid() && Regions(locks, c1, s1, h1)
      requires OnlyAt(s1, readers.spans, id) && OnlyAt(h1, writers.holds, id)
      requires id in c1 && id in cells && cells == c1[id := cells[id]] && cells[id].pending == c1[id].pending
      requires Region(l, cells[id], id, readers.spans, writers.holds)
      requires Configured() && Waitlist(pendings.Seq(), locks[id := l], q, states)
      requires PendingCells(pendings.Seq(), q, c1)
      ensures RegionView(locks[id := l]) && QueueView(locks[id := l], q)
    {
      hide *;
      RegionsSet(locks, c1, s1, h1, id, l, cells[id], readers.spans, writers.holds);
      QueueKeeps(locks[id := l], q, c1, id);
      RegionsMade(locks[id := l]);
    }

    /** A reader keeps `[start, index)` of its region `[start, end)`. */
    method TrimRead(st: LockState, start: int, end: int, index: int, ghost id: int, ghost locks: map<int, Lock>,
            ghost l: Lock, ghost q: seq<int>)
      requires Tracked() && RegionView(locks) && id in locks && id in states && states[id] == st && !locks[id].write
      requires start == locks[id].start <= index <= end == locks[id].stop && start < end
      requires l.start == start && l.stop == index && !l.write && QueueView(locks[id := l], q)
      modifies `cells, st`lower, st`upper, readers, readers.tree, readers.tree.mem.Keys
      ensures Tracked() && RegionView(locks[id := l]) && QueueView(locks[id := l], q)
      ensures readers.tree.mem.Keys <= old(readers.tree.mem.Keys) && OnlyAt(old(cells), cells, id)
      ensures start < index ==> st.lower == old(st.lower) && st.upper == old(st.upper)
    {
      hide Tracked, RegionView, QueueView, Configured, Regions, Waitlist, PendingCells, OnlyAt;
      hide ReadTree.Valid, WriteTree.Valid, Tree.Valid, Tree.Seq;
      RegionsOf(locks);
      QueueOpened(locks[id := l], q);
      RegionAt(locks, cells, readers.spans, writers.holds, id);
      CellOf(id);
      ghost var c1, s1 := cells, readers.spans;
      if index == end {
        // Several waiters at one index: nothing more to give back.
        OnlyAtRefl(s1, id);
      } else if index == start {
        readers.Delete(id, st.upper, st.lower);
        SetEnds(st, id, null, null);
        OnlyAtGone(s1, id);
      } else {
        readers.Move(id, st.upper, index);
        OnlyAtPut(s1, id, readers.spans[id]);
      }
      assert cells == c1[id := cells[id]];
      OnlyAtPut(c1, id, cells[id]);
      OnlyAtRefl(writers.holds, id);
      ViewsMade(locks, c1, s1, writers.holds, id, l, q);
    }

    /** A reader gives back the rest of its region. */
    method ClearRead(st: LockState, ghost id: int, ghost locks: map<int, Lock>, ghost l: Lock, ghost q: seq<int>)
      requires Tracked() && RegionView(locks) && id in locks && id in states && states[id] == st && !locks[id].write
      requires locks[id].start < locks[id].stop && l.start == l.stop && !l.write && QueueView(locks[id := l], q)
      modifies `cells, st`lower, st`upper, readers, readers.tree, readers.tree.mem.Keys
      ensures Tracked() && RegionView(locks[id := l]) && QueueView(locks[id := l], q)
      ensures readers.tree.mem.Keys <= old(readers.tree.mem.Keys)
    {
      hide Tracked, RegionView, QueueView, Configured, Regions, Waitlist, PendingCells, OnlyAt;
      hide ReadTree.Valid, WriteTree.Valid, Tree.Valid, Tree.Seq;
      RegionsOf(locks);
      QueueOpened(locks[id := l], q);
      RegionAt(locks, cells, readers.spans, writers.holds, id);
      CellOf(id);
      ghost var c1, s1 := cells, readers.spans;
      readers.Delete(id, st.lower, st.upper);
      SetEnds(st, id, null, null);
      OnlyAtGone(s1, id);
      assert cells == c1[id := cells[id]];
      OnlyAtPut(c1, id, cells[id]);
      OnlyAtRefl(writers.holds, id);
      ViewsMade(locks, c1, s1, writers.holds, id, l, q);
    }

    /** A writer gives back the rest of its region. */
    method ClearWrite(st: LockState, ghost id: int, ghost locks: map<int, Lock>, ghost l: Lock, ghost q: seq<int>)
      requires Tracked() && RegionView(locks) && id in locks && id in states && states[id] == st && locks[id].write
      requires locks[id].start < locks[id].stop && l.start == l.stop && l.write && QueueView(locks[id := l], q)
      modifies `cells, st`range, writers, writers.tree, writers.tree.mem.Keys
      ensures Tracked() && RegionView(locks[id := l]) && QueueView(locks[id := l], q)
      ensures writers.tree.mem.Keys <= old(writers.tree.mem.Keys)
    {
      hide Tracked, RegionView, QueueView, Configured, Regions, Waitlist, PendingCells, OnlyAt;
      hide ReadTree.Valid, WriteTree.Valid, Tree.Valid, Tree.Seq;
      RegionsOf(locks);
      QueueOpened(locks[id := l], q);
      RegionAt(locks, cells, readers.spans, writers.holds, id);
      CellOf(id);
      ghost var c1, h1 := cells, writers.holds;
      writers.Delete(id, st.range);
      SetRange(st, id, null);
      OnlyAtGone(h1, id);
      assert cells == c1[id := cells[id]];
      OnlyAtPut(c1, id, cells[id]);
      OnlyAtRefl(readers.spans, id);
      ViewsMade(locks, c1, readers.spans, h1, id, l, q);
    }


    /** A writer keeps `[start, index)` of its region. */
    method TrimWrite(st: LockState, start: int, index: int, ghost id: int, ghost locks: map<int, Lock>, ghost l: Lock,
            ghost q: seq<int>)
      requires Tracked() && RegionView(locks) && id in locks && id in states && states[id] == st && locks[id].write
      requires start == locks[id].start <= index <= locks[id].stop && start < locks[id].stop
      requires Exclusive(locks[id := locks[id].(stop := index)])
      requires l.start == start && l.stop == index && l.write && QueueView(locks[id := l], q)
      modifies `cells, st`range, writers, writers.tree, writers.tree.mem.Keys
      ensures Tracked() && RegionView(locks[id := l]) && QueueView(locks[id := l], q)
      ensures writers.tree.mem.Keys <= old(writers.tree.mem.Keys) && OnlyAt(old(cells), cells, id)
      ensures start < index ==> st.range == old(st.range)
    {
      hide Tracked, RegionView, QueueView, Configured, Regions, Waitlist, PendingCells, OnlyAt, Exclusive;
      hide WriteSpans.Free;
      hide ReadTree.Valid, WriteTree.Valid, Tree.Valid, Tree.Seq;
      RegionsOf(locks);
      QueueOpened(locks[id := l], q);
      RegionAt(locks, cells, readers.spans, writers.holds, id);
      CellOf(id);
      ghost var c1, h1 := cells, writers.holds;
      if index == start {
        writers.Delete(id, st.range);
        SetRange(st, id, null);
        OnlyAtGone(h1, id);
      } else {
        FreeFor(locks, cells, readers.spans, writers.holds, id, index);
        writers.Resize(id, st.range, index);
        OnlyAtPut(h1, id, writers.holds[id]);
      }
      assert cells == c1[id := cells[id]];
      OnlyAtPut(c1, id, cells[id]);
      OnlyAtRefl(readers.spans, id);
      ViewsMade(locks, c1, readers.spans, h1, id, l, q);
    }

    /** A reader that is being released shrinks to `[start, index)`. */
    method ShrinkRead(st: LockState, start: int, end: int, index: int, ghost id: int, ghost m: Model)
      requires Linked() && m == model && Held(m, id, st) && id in m.locks && !st.write
      requires start == m.locks[id].start <= index <= end == m.locks[id].stop && start < end
      modifies `model, `cells, st`lower, st`upper, readers, readers.tree, readers.tree.mem.Keys
      ensures Linked() && Known(m.locks, m.queue) && model == Truncate(m, id, index) && Held(model, id, st)
      ensures readers.tree.mem.Keys <= old(readers.tree.mem.Keys) && OnlyAt(old(cells), cells, id)
      ensures start < index ==> st.lower == old(st.lower) && st.upper == old(st.upper)
    {
      hide Linked, Tracked, Kinds, RegionView, QueueView, Held, Truncate, Known;
      hide ReadTree.Valid, WriteTree.Valid, Tree.Valid, Tree.Seq;
      LinkedIs();
      HeldIs(m, id, st);
      TruncateViews(m, id, st, index);
      ghost var t := Truncate(m, id, index);
      TrimRead(st, start, end, index, id, m.locks, m.locks[id].(stop := index, end := index), m.queue);
      model := t;
      LinkedIs();
    }

    /** A writer that is being released shrinks to `[start, index)`. */
    method ShrinkWrite(st: LockState, start: int, index: int, ghost id: int, ghost m: Model)
      requires Linked() && m == model && Held(m, id, st) && id in m.locks && st.write
      requires start == m.locks[id].start <= index <= m.locks[id].stop && start < m.locks[id].stop
      modifies `model, `cells, st`range, writers, writers.tree, writers.tree.mem.Keys
      ensures Linked() && Known(m.locks, m.queue) && model == Truncate(m, id, index) && Held(model, id, st)
      ensures writers.tree.mem.Keys <= old(writers.tree.mem.Keys) && OnlyAt(old(cells), cells, id)
      ensures start < index ==> st.range == old(st.range)
    {
      hide Linked, Tracked, Kinds, RegionView, QueueView, Held, Truncate, Known, Sound;
      hide ReadTree.Valid, WriteTree.Valid, Tree.Valid, Tree.Seq;
      LinkedIs();
      HeldIs(m, id, st);
      TruncateViews(m, id, st, index);
      ghost var t := Truncate(m, id, index);
      ExclusiveTrim(m, id, index);
      TrimWrite(st, start, index, id, m.locks, m.locks[id].(stop := index, end := index), m.queue);
      model := t;
      LinkedIs();
    }

    // ----- Walking down the pending borrows

    lemma CursorIs(m: Model, k: nat, start: int)
      requires Linked() && m == model && Known(m.locks, m.queue) && k <= |m.queue|
      ensures Cursor(m, cells, k, start) == null <==> k == 0 || Stop(m, k - 1) < start
      ensures k > 0 ==> m.queue[k - 1] in cells && m.queue[k - 1] in states && m.queue[k - 1] in m.locks
      ensures k > 0 ==> var node := cells[m.queue[k - 1]].pending;
        && node != null && node in pendings.mem && node.element.start == Stop(m, k - 1)
        && states[m.queue[k - 1]].pending == node
        && |pendings.Seq()| == |m.queue| && Index(pendings.Seq(), node) == k - 1 && pendings.Seq()[k - 1].node == node
    {
      hide Tracked, Kinds, RegionView, QueueView, Tree.Valid, Tree.Seq;
      if k > 0 {
        WaiterAt(m.locks, m.queue, k - 1);
        CellOf(m.queue[k - 1]);
      }
    }

    lemma PendingsValid()
      requires Linked()
      ensures pendings.Valid() && Known(model.locks, model.queue) && |pendings.Seq()| == |model.queue|
      ensures Waitlist(pendings.Seq(), model.locks, model.queue, states)
    {
    }

    /** The waiter before `node`, unless it waits below `start`. */
    method PredecessorFrom(node: Node<Wait>, start: int, ghost m: Model, ghost k: nat) returns (r: Node?<Wait>)
      requires Linked() && m == model && Known(m.locks, m.queue) && 0 < k <= |m.queue| && m.queue[k - 1] in cells
      requires cells[m.queue[k - 1]].pending == node
      ensures r == Cursor(m, cells, k - 1, start)
    {
      hide Linked, Known, Tree.Valid, Tree.Seq, Waitlist, Index;
      PendingsValid();
      CursorIs(m, k, start);
      CursorIs(m, k - 1, start);
      r := pendings.Predecessor(node);
      if r != null && r.element.start < start {
        r := null;
      }
    }

    /** The last waiter below `end`, unless it waits below `start`. */
    method LastBelow(start: int, end: int, ghost m: Model) returns (r: Node?<Wait>)
      requires Linked() && m == model && Sound(m)
      ensures Known(m.locks, m.queue) && r == Cursor(m, cells, Below(m, end), start)
    {
      hide Linked, Known, Tree.Valid, Tree.Seq, Waitlist, Index, Sound, Sorted, Below, Monotone, Split, Cursor;
      PendingsValid();
      SoundSorted(m);
      var f := (e: Wait) => end <= e.start;
      ghost var its, k := pendings.Seq(), Below(m, end);
      BelowSplits(its, m, states, end, f);
      CursorIs(m, k, start);
      r := pendings.LowerBound(f);
      if r != null {
        CursorIs(m, k + 1, start);
        r := pendings.Predecessor(r);
      } else {
        r := pendings.Last();
      }
      if r != null && r.element.start < start {
        r := null;
      }
      CursorFrom(m, k, start, r);
    }

    lemma CursorFrom(m: Model, k: nat, start: int, r: Node?<Wait>)
      requires Known(m.locks, m.queue) && k <= |m.queue|
      requires k > 0 ==> m.queue[k - 1] in cells
      requires r == if k == 0 || Stop(m, k - 1) < start then null else cells[m.queue[k - 1]].pending
      ensures r == Cursor(m, cells, k, start)
    {
    }

    /** Where the release of the lock `id` stands: `[start, end)` of its region is left, or nothing if
        it is `complete`, when `end` is where the last part ended; the waiters from position `k` of the
        queue on are done with. */
    ghost predicate Releasing(m: Model, id: int, st: LockState, k: nat, start: int, end: int, complete: bool)
      reads `states
    {
      && Held(m, id, st) && Walking(m, id, k) && id in m.locks && start == m.locks[id].start <= end
      && (if complete then m.locks[id].stop == start else start < end == m.locks[id].stop)
    }

    lemma ReleasingIs(m: Model, id: int, st: LockState, k: nat, start: int, end: int, complete: bool)
      ensures Releasing(m, id, st, k, start, end, complete) <==>
        && Held(m, id, st) && Walking(m, id, k) && id in m.locks && start == m.locks[id].start <= end
        && (if complete then m.locks[id].stop == start else start < end == m.locks[id].stop)
    {
    }

    lemma VisitFacts(m: Model, id: int, st: LockState, k: nat, start: int, end: int, complete: bool)
      requires Linked() && m == model && Releasing(m, id, st, k, start, end, complete)
      requires Cursor(m, cells, k, start) != null
      ensures 0 < k <= |m.queue| && Known(m.locks, m.queue) && id in m.locks
      ensures var j, p, t := m.queue[k - 1], Stop(m, k - 1), Truncate(m, id, Stop(m, k - 1));
        && start <= p <= m.locks[id].stop && (complete ==> p == start && t == m)
        && j in states && AtQueue(t, k - 1, j, states[j], Cursor(m, cells, k, start))
        && j in cells && cells[j].pending == Cursor(m, cells, k, start) && Cursor(m, cells, k, start).element.start == p
        && j != id && states[j] != st && Sound(t) && t.queue == m.queue && t.done == m.done
        && t.locks[id] == m.locks[id].(stop := p, end := p)
    {
      hide Linked, Kinds, RegionView, QueueView, Sound, Stuck, Truncate;
      LinkedIs();
      ReleasingIs(m, id, st, k, start, end, complete);
      WalkingKnown(m, id, k);
      CursorIs(m, k, start);
      WalkTruncates(m, id, k);
      SteppingKnown(Truncate(m, id, Stop(m, k - 1)), id, k - 1);
      TruncateAt(m, id, Stop(m, k - 1));
      assert m.queue[k - 1] in m.queue;
    }

    /** Shrink the lock that is being released to the index of the waiter `node` and resume the waiter. */
    method Visit(st: LockState, node: Node<Wait>, start: int, end: int, complete: bool, ghost m: Model, ghost id: int,
            ghost k: nat, ghost target: Model)
      returns (next: Node?<Wait>, token: Option<int>, end': int, complete': bool)
      requires Linked() && m == model && Releasing(m, id, st, k, start, end, complete)
      requires node == Cursor(m, cells, k, start)
      requires OnWay(m, id, k, target)
      modifies `model, `cells, states.Values, pendings, pendings.mem.Keys
      modifies writers, writers.tree, writers.tree.mem.Keys, readers, readers.tree, readers.tree.mem.Keys
      ensures Linked() && states == old(states) && 0 < k && OnWay(model, id, k - 1, target)
      ensures Releasing(model, id, st, k - 1, start, end', complete') && next == Cursor(model, cells, k - 1, start)
      ensures model.done == m.done + if token.Some? then [token.value] else []
      ensures (forall n <- writers.tree.mem.Keys :: n in old(writers.tree.mem.Keys) || fresh(n))
      ensures (forall n <- readers.tree.mem.Keys :: n in old(readers.tree.mem.Keys) || fresh(n))
      ensures pendings.mem.Keys <= old(pendings.mem.Keys)
    {
      hide Linked, Sound, Held, Walking, Releasing, Known, AtQueue, Truncate, Advance, Cursor, OnlyAt, OnWay, Stop;
      hide ReadTree.Valid, WriteTree.Valid, Tree.Valid, Tree.Seq;
      VisitFacts(m, id, st, k, start, end, complete);
      ReleasingIs(m, id, st, k, start, end, complete);
      HeldIs(m, id, st);
      ghost var c0, j, t := cells, m.queue[k - 1], Truncate(m, id, Stop(m, k - 1));
      next, end', complete' := Approach(st, node, start, end, complete, m, id, k);
      ghost var c1 := cells;
      token := Resume(node, t, k - 1, j);
      VisitKeeps(m, id, st, k, start, end', complete', c0, c1, cells);
      OnWayStep(m, id, k, target);
    }

    /** Shrink the lock that is being released to the index of the waiter `node`, who is still there;
        the next waiter is looked up before this one moves. */
    method Approach(st: LockState, node: Node<Wait>, start: int, end: int, complete: bool, ghost m: Model,
            ghost id: int, ghost k: nat)
      returns (next: Node?<Wait>, end': int, complete': bool)
      requires Linked() && m == model && Releasing(m, id, st, k, start, end, complete)
      requires node == Cursor(m, cells, k, start)
      modifies `model, `cells, st`lower, st`upper, st`range
      modifies writers, writers.tree, writers.tree.mem.Keys, readers, readers.tree, readers.tree.mem.Keys
      ensures Linked() && 0 < k <= |m.queue| && Known(m.locks, m.queue) && id in m.locks && m.queue[k - 1] in states
      ensures var p, j := Stop(m, k - 1), m.queue[k - 1];
        && model == Truncate(m, id, p) && Held(model, id, st) && AtQueue(model, k - 1, j, states[j], node)
        && start <= p <= end && start <= end'
        && (complete' <==> p == start) && (!complete' ==> end' == p)
      ensures next == Cursor(m, old(cells), k - 1, start) && OnlyAt(old(cells), cells, id)
      ensures writers.tree.mem.Keys <= old(writers.tree.mem.Keys) && readers.tree.mem.Keys <= old(readers.tree.mem.Keys)
    {
      hide Linked, Sound, Held, Walking, Releasing, Known, AtQueue, Truncate, Cursor, OnlyAt, Stop;
      hide ReadTree.Valid, WriteTree.Valid, Tree.Valid, Tree.Seq;
      VisitFacts(m, id, st, k, start, end, complete);
      ReleasingIs(m, id, st, k, start, end, complete);
      HeldIs(m, id, st);
      ghost var c0 := cells;
      next := PredecessorFrom(node, start, m, k);
      var index := node.element.start;
      assert start <= index <= end;
      end', complete' := end, complete;
      if !complete {
        Shrink(st, start, end, index, id, m);
        if index == start {
          complete' := true;
        } else {
          end' := index;
        }
      }
      OnlyAtRefl(c0, id);
    }

    lemma VisitKeeps(m: Model, id: int, st: LockState, k: nat, start: int, end: int, complete: bool, c0: Cells<Wait>,
            c1: Cells<Wait>, c2: Cells<Wait>)
      requires Walking(m, id, k) && 0 < k && id in m.locks && Known(m.locks, m.queue) && k <= |m.queue|
      requires Stop(m, k - 1) >= start == m.locks[id].start && OnlyAt(c0, c1, id) && OnlyAt(c1, c2, m.queue[k - 1])
      requires Held(Truncate(m, id, Stop(m, k - 1)), id, st)
      requires (complete <==> Stop(m, k - 1) == start) && (!complete ==> end == Stop(m, k - 1)) && start <= end
      ensures var r := Advance(Truncate(m, id, Stop(m, k - 1)), m.queue[k - 1]);
        Releasing(r, id, st, k - 1, start, end, complete) && Cursor(m, c0, k - 1, start) == Cursor(r, c2, k - 1, start)
    {
      hide Walking, Stepping, Advance, Truncate, Sound, Known, OnlyAt, Cursor;
      var t, j := Truncate(m, id, Stop(m, k - 1)), m.queue[k - 1];
      TruncateAt(m, id, Stop(m, k - 1));
      WalkTruncates(m, id, k);
      StepFrame(t, id, k - 1);
      StepWalks(t, id, k - 1);
      StepPrefix(m, id, k);
      WalkingKnown(m, id, k);
      CursorKeeps(m, Advance(t, j), id, c0, c1, c2, k, start);
    }

    method Shrink(st: LockState, start: int, end: int, index: int, ghost id: int, ghost m: Model)
      requires Linked() && m == model && Held(m, id, st) && id in m.locks
      requires start == m.locks[id].start <= index <= end == m.locks[id].stop && start < end
      modifies `model, `cells, st`lower, st`upper, st`range
      modifies writers, writers.tree, writers.tree.mem.Keys, readers, readers.tree, readers.tree.mem.Keys
      ensures Linked() && Known(m.locks, m.queue) && model == Truncate(m, id, index) && Held(model, id, st)
      ensures writers.tree.mem.Keys <= old(writers.tree.mem.Keys) && readers.tree.mem.Keys <= old(readers.tree.mem.Keys)
      ensures OnlyAt(old(cells), cells, id)
    {
      hide *;
      if st.write {
        ShrinkWrite(st, start, index, id, m);
      } else {
        ShrinkRead(st, start, end, index, id, m);
      }
    }

    /** What the nodes of a lock say about its region. */
    lemma RegionEnds(m: Model, id: int, st: LockState)
      requires Linked() && m == model && Held(m, id, st) && id in m.locks
      ensures st.write ==> (st.range == null <==> m.locks[id].start == m.locks[id].stop)
      ensures st.write && st.range != null ==> st.range.element == WriteSpans.Range(m.locks[id].start, m.locks[id].stop)
      ensures !st.write ==>
        (st.lower == null <==> m.locks[id].start == m.locks[id].stop) && (st.upper == null <==> st.lower == null)
      ensures !st.write && st.lower != null ==>
        st.lower.element.index == m.locks[id].start && st.upper.element.index == m.locks[id].stop
    {
      hide Linked, Tracked, Kinds, QueueView, Held, Regions, ReadTree.Valid, WriteTree.Valid;
      LinkedIs();
      HeldIs(m, id, st);
      CellOf(id);
      RegionsOf(m.locks);
      RegionAt(m.locks, cells, readers.spans, writers.holds, id);
      if st.write && st.range != null {
        writers.Held(id);
      }
      if !st.write && st.lower != null {
        readers.Held(id);
      }
    }

    /** Give back whatever is left of the region. */
    method Clear(st: LockState, ghost id: int, ghost m: Model)
      requires Linked() && m == model && Held(m, id, st) && id in m.locks && m.locks[id].start < m.locks[id].stop
      modifies `model, `cells, st`lower, st`upper, st`range
      modifies writers, writers.tree, writers.tree.mem.Keys, readers, readers.tree, readers.tree.mem.Keys
      ensures Linked() && Held(model, id, st) && id in model.locks && model.locks[id].start == model.locks[id].stop
      ensures Drop(model, id) == Drop(m, id) && model.done == m.done
      ensures writers.tree.mem.Keys <= old(writers.tree.mem.Keys) && readers.tree.mem.Keys <= old(readers.tree.mem.Keys)
    {
      hide Linked, Tracked, Kinds, RegionView, QueueView, Held, Truncate, Known, Sound;
      hide ReadTree.Valid, WriteTree.Valid, Tree.Valid, Tree.Seq;
      LinkedIs();
      HeldIs(m, id, st);
      ghost var start := m.locks[id].start;
      TruncateViews(m, id, st, start);
      TruncateTwice(m, id, start, start);
      ghost var t, l := Truncate(m, id, start), m.locks[id].(stop := start, end := start);
      if st.write {
        ClearWrite(st, id, m.locks, l, m.queue);
      } else {
        ClearRead(st, id, m.locks, l, m.queue);
      }
      model := t;
      LinkedIs();
    }

    /** Release the region of a lock that does not wait, from its end down, and resume every waiter on
        the way.  The tokens of those that complete are returned in order. */
    method UnlockInner(st: LockState, ghost m0: Model, ghost id: int) returns (done: seq<int>)
      requires Linked() && m0 == model && Held(m0, id, st) && id in m0.locks && Known(m0.locks, m0.queue)
      requires Walking(m0, id, Below(m0, m0.locks[id].stop))
      modifies `model, `cells, states.Values, pendings, pendings.mem.Keys
      modifies writers, writers.tree, writers.tree.mem.Keys, readers, readers.tree, readers.tree.mem.Keys
      ensures Linked() && states == old(states) && Held(model, id, st) && id in model.locks
      ensures model.locks[id].start == model.locks[id].stop
      ensures Drop(model, id) == Walk(m0, id, Below(m0, m0.locks[id].stop)) && model.done == m0.done + done
      ensures (forall n <- writers.tree.mem.Keys :: n in old(writers.tree.mem.Keys) || fresh(n))
      ensures (forall n <- readers.tree.mem.Keys :: n in old(readers.tree.mem.Keys) || fresh(n))
      ensures pendings.mem.Keys <= old(pendings.mem.Keys)
    {
      hide Linked, Sound, Held, Walking, Releasing, Known, Below, Drop, Walk, OnWay, Stop;
      hide ReadTree.Valid, WriteTree.Valid, Tree.Valid, Tree.Seq;
      done := [];
      HeldIs(m0, id, st);
      RegionEnds(m0, id, st);
      if (if st.write then st.range == null else st.lower == null) {
        NothingHeld(m0, id, Below(m0, m0.locks[id].stop));
      } else {
        var start := if st.write then st.range.element.start else st.lower.element.index;
        var end := if st.write then st.range.element.end else st.upper.element.index;
        var complete;
        done, complete := Descend(st, start, end, m0, id);
        if !complete {
          Clear(st, id, model);
        }
      }
    }

    method Descend(st: LockState, start: int, end0: int, ghost m0: Model, ghost id: int)
      returns (done: seq<int>, complete: bool)
      requires Linked() && m0 == model && Held(m0, id, st) && id in m0.locks && Known(m0.locks, m0.queue)
      requires Walking(m0, id, Below(m0, m0.locks[id].stop))
      requires start == m0.locks[id].start < m0.locks[id].stop == end0
      modifies `model, `cells, states.Values, pendings, pendings.mem.Keys
      modifies writers, writers.tree, writers.tree.mem.Keys, readers, readers.tree, readers.tree.mem.Keys
      ensures Linked() && states == old(states) && Held(model, id, st) && id in model.locks
      ensures model.done == m0.done + done
      ensures if complete then model.locks[id].start == model.locks[id].stop
        else model.locks[id].start < model.locks[id].stop
      ensures Drop(model, id) == Walk(m0, id, Below(m0, end0))
      ensures (forall n <- writers.tree.mem.Keys :: n in old(writers.tree.mem.Keys) || fresh(n))
      ensures (forall n <- readers.tree.mem.Keys :: n in old(readers.tree.mem.Keys) || fresh(n))
      ensures pendings.mem.Keys <= old(pendings.mem.Keys)
    {
      hide Linked, Sound, Held, Walking, Releasing, Known, Cursor, Below, Drop, Walk, OnWay, Stop;
      hide ReadTree.Valid, WriteTree.Valid, Tree.Valid, Tree.Seq;
      HeldIs(m0, id, st);
      var end := end0;
      done, complete := [], false;
      var node := LastBelow(start, end, m0);
      ghost var k: nat := Below(m0, end);
      ghost var target := Walk(m0, id, k);
      ReleasingIs(m0, id, st, k, start, end, complete);
      OnWayStarts(m0, id, k);
      while node != null
        invariant Linked() && states == old(states) && Releasing(model, id, st, k, start, end, complete)
        invariant OnWay(model, id, k, target)
        invariant node == Cursor(model, cells, k, start) && model.done == m0.done + done
        invariant (forall n <- writers.tree.mem.Keys :: n in old(writers.tree.mem.Keys) || fresh(n))
        invariant (forall n <- readers.tree.mem.Keys :: n in old(readers.tree.mem.Keys) || fresh(n))
        invariant pendings.mem.Keys <= old(pendings.mem.Keys)
        decreases k
      {
        var token;
        node, token, end, complete := Visit(st, node, start, end, complete, model, id, k, target);
        if token.Some? {
          done := done + [token.value];
        }
        k := k - 1;
      }
      ReleaseEnds(st, id, k, start, end, complete, target);
    }

    lemma ReleaseEnds(st: LockState, id: int, k: nat, start: int, end: int, complete: bool, target: Model)
      requires Linked() && Releasing(model, id, st, k, start, end, complete) && OnWay(model, id, k, target)
      requires Cursor(model, cells, k, start) == null
      ensures Held(model, id, st) && id in model.locks && Drop(model, id) == target
      ensures if complete then model.locks[id].start == model.locks[id].stop
        else model.locks[id].start < model.locks[id].stop
    {
      hide Linked, Sound, Held, Walking, Cursor, Drop, Walk;
      CursorIs(model, k, start);
      OnWayEnds(model, id, k, target);
    }

    /** A lock whose region is all given back leaves its state for another use. */
    method Disown(st: LockState, ghost id: int, ghost m: Model)
      requires Linked() && m == model && Held(m, id, st) && id in m.locks && m.locks[id].start == m.locks[id].stop
      modifies `model, `states, `cells, st`parent
      ensures Linked() && model == Drop(m, id) && states == old(states) - {id} && Unused(st)
    {
      hide Linked, Tracked, Kinds, RegionView, QueueView, Held, Configured, Waitlist, PendingCells, Regions, Sound;
      hide ReadTree.Valid, WriteTree.Valid, Tree.Valid, Tree.Seq;
      LinkedIs();
      HeldIs(m, id, st);
      QueueOpened(m.locks, m.queue);
      RegionsOf(m.locks);
      EmptyCell(m, id, st);
      ghost var s1, c1 := states, cells;
      Release(st, id);
      DropViews(m, id, s1, c1);
      model := Drop(m, id);
      LinkedIs();
    }

    method Release(st: LockState, ghost id: int)
      requires Tracked() && id in states && states[id] == st
      modifies `states, `cells, st`parent
      ensures Tracked() && states == old(states) - {id} && cells == old(cells) - {id}
      ensures id in old(cells) && st.parent == null && st.Read() == old(cells)[id]
    {
      st.parent := null;
      states, cells := states - {id}, cells - {id};
    }

    lemma EmptyCell(m: Model, id: int, st: LockState)
      requires Linked() && m == model && Held(m, id, st) && id in m.locks && m.locks[id].start == m.locks[id].stop
      ensures id in cells && cells[id] == Fields(null, null, null, null) && id !in readers.spans && id !in writers.holds
    {
    }

    lemma DropViews(m: Model, id: int, s1: map<int, LockState>, c1: Cells<Wait>)
      requires Sound(m) && id in m.locks && id !in m.queue && Kinds(m.locks, s1) && id !in readers.spans
      requires id !in writers.holds
      requires readers.Valid() && writers.Valid() && Regions(m.locks, c1, readers.spans, writers.holds)
      requires Configured() && Waitlist(pendings.Seq(), m.locks, m.queue, s1)
      requires PendingCells(pendings.Seq(), m.queue, c1)
      requires states == s1 - {id} && cells == c1 - {id}
      ensures var d := Drop(m, id); Kinds(d.locks, states) && RegionView(d.locks) && QueueView(d.locks, d.queue)
    {
      hide Sound, Waitlist, PendingCells, Regions, ReadTree.Valid, WriteTree.Valid, Tree.Valid, Tree.Seq;
      var d := Drop(m, id);
      RegionsDrop(m.locks, c1, readers.spans, writers.holds, id);
      PendingDropped(pendings.Seq(), m.queue, c1, id);
      forall i | 0 <= i < |m.queue|
        ensures m.queue[i] in m.locks && m.queue[i] in s1 && m.queue[i] != id
      {
        WaitSize(pendings.Seq(), m.locks, m.queue, s1);
        WaitAt(pendings.Seq(), m.locks, m.queue, s1, i);
        assert m.queue[i] in m.queue;
      }
      WaitlistAgrees(pendings.Seq(), m.locks, d.locks, m.queue, s1, states);
    }

    /** Release a lock, complete or not.  The token of a lock that was still waiting is handed back;
        those of the locks that complete now are returned in the order of completion. */
    method Unlock(st: LockState, ghost id: int) returns (token: Option<int>, done: seq<int>)
      requires Linked() && Inv(model) && id in states && states[id] == st && id in model.locks
      modifies `model, `states, `cells, states.Values, pendings, pendings.mem.Keys
      modifies writers, writers.tree, writers.tree.mem.Keys, readers, readers.tree, readers.tree.mem.Keys
      ensures Linked() && Inv(model) && states == old(states) - {id} && Unused(st)
      ensures Known(old(model).locks, old(model).queue) && model == LockModel.Unlock(old(model), id)
      ensures token == (if id in old(model).queue then Some(id) else None) && model.done == old(model).done + done
      ensures (forall n <- writers.tree.mem.Keys :: n in old(writers.tree.mem.Keys) || fresh(n))
      ensures (forall n <- readers.tree.mem.Keys :: n in old(readers.tree.mem.Keys) || fresh(n))
      ensures pendings.mem.Keys <= old(pendings.mem.Keys)
    {
      hide Linked, Inv, Sound, Held, Walking, Cancel, LockModel.Unlock, Unused, Known, Below, Walk;
      hide ReadTree.Valid, WriteTree.Valid, Tree.Valid, Tree.Seq;
      UnlockStarts(id, st);
      ghost var m := model;
      token := CancelBorrow(st, id, m);
      ghost var c := model;
      UnlockGoes(m, id, st);
      done := UnlockInner(st, c, id);
      Disown(st, id, model);
    }

    lemma UnlockStarts(id: int, st: LockState)
      requires Linked() && Inv(model) && id in states && states[id] == st && id in model.locks
      ensures Sound(model) && st.write == model.locks[id].write && Known(model.locks, model.queue)
    {
      hide Tracked, RegionView, QueueView;
    }

    lemma UnlockGoes(m: Model, id: int, st: LockState)
      requires Inv(m) && id in m.locks && Known(m.locks, m.queue) && id in states && states[id] == st
      requires st.write == m.locks[id].write
      ensures var c := Cancel(m, id);
        && Held(c, id, st) && c.locks[id].stop == m.locks[id].stop && c.done == m.done
        && Walking(c, id, Below(c, c.locks[id].stop))
        && LockModel.Unlock(m, id) == Walk(c, id, Below(c, c.locks[id].stop)) && Inv(LockModel.Unlock(m, id))
    {
      CancelWalks(m, id);
      CancelSound(m, id);
      UnlockInv(m, id);
      hide Walking, Walk, Inv;
    }

    // ----- Looking at a lock, and dropping the core

    /** The four states a lock can be in: unclaimed states aside, a pending node is stored iff the lock
        is incomplete, and region nodes are stored iff it holds something; both say exactly what. */
    lemma StateTable(id: int)
      requires Linked() && Sound(model) && id in model.locks
      ensures id in states && states[id].parent == this
      ensures var st, l := states[id], model.locks[id];
        && (st.pending != null <==> l.stop < l.end)
        && (st.pending != null ==> st.pending.element == Pending(l.stop, l.end, l.priority, st, id))
        && (st.range != null <==> l.write && l.start < l.stop)
        && (st.range != null ==> st.range.element == WriteSpans.Range(l.start, l.stop))
        && (st.lower != null <==> !l.write && l.start < l.stop) && (st.upper != null <==> st.lower != null)
        && (st.lower != null ==> st.lower.element == ReadEnd(l.start, 1) && st.upper.element == ReadEnd(l.stop, -1))
    {
      hide Tracked, RegionView, QueueView, Regions, ReadTree.Valid, WriteTree.Valid, Tree.Valid, Tree.Seq, Exclusive;
      var st, l := states[id], model.locks[id];
      CellOf(id);
      RegionsOf(model.locks);
      RegionAt(model.locks, cells, readers.spans, writers.holds, id);
      PendingOf(model.locks, model.queue, id);
      if st.pending != null {
        var k := Position(model.queue, id);
        WaiterAt(model.locks, model.queue, k);
      }
      if st.range != null {
        writers.Held(id);
      }
      if st.lower != null {
        readers.Held(id);
      }
    }

    /** The token of a lock that is still waiting. */
    method Inspect(st: LockState, ghost id: int) returns (token: Option<int>)
      requires Linked() && Sound(model) && id in model.locks && id in states && states[id] == st
      ensures token == if model.locks[id].stop < model.locks[id].end then Some(id) else None
    {
      hide Linked, Sound;
      StateTable(id);
      token := if st.pending == null then None else Some(st.pending.element.token);
    }

    /** Whether the destructor would panic: iff somebody still holds an index or waits for one. */
    method Destruct() returns (panics: bool)
      requires Linked() && Sound(model)
      ensures panics <==> exists id <- model.locks.Keys ::
        model.locks[id].start < model.locks[id].stop || model.locks[id].stop < model.locks[id].end
    {
      hide Linked, Sound, Regions, ReadTree.Valid, WriteTree.Valid, Tree.Valid, Tree.Seq;
      panics := readers.tree.root != null || writers.tree.root != null || pendings.root != null;
      TreesEmpty();
    }

    /** The trees are empty together with the model. */
    lemma TreesEmpty()
      requires Linked() && Sound(model)
      ensures readers.tree.root == null && writers.tree.root == null && pendings.root == null <==>
        forall id <- model.locks.Keys ::
          model.locks[id].start >= model.locks[id].stop && model.locks[id].stop >= model.locks[id].end
    {
      hide Tracked, RegionView, QueueView, Regions, ReadTree.Valid, WriteTree.Valid, Tree.Valid, Tree.Seq, Waitlist;
      hide PendingCells, Exclusive;
      RegionsOf(model.locks);
      QueueOpened(model.locks, model.queue);
      readers.Emptied();
      writers.Emptied();
      pendings.RootOrEmpty();
      if readers.tree.root == null && writers.tree.root == null && pendings.root == null {
        forall id <- model.locks.Keys
          ensures model.locks[id].start >= model.locks[id].stop && model.locks[id].stop >= model.locks[id].end
        {
          RegionAt(model.locks, cells, readers.spans, writers.holds, id);
        }
      }
      if forall id <- model.locks.Keys ::
        model.locks[id].start >= model.locks[id].stop && model.locks[id].stop >= model.locks[id].end {
        NothingBorrowed(model.locks, cells, readers.spans, writers.holds);
        if model.queue != [] {
          Incomplete(model, 0);
        }
      }
    }

    lemma RegionsOf(locks: map<int, Lock>)
      requires RegionView(locks)
      ensures readers.Valid() && writers.Valid() && Regions(locks, cells, readers.spans, writers.holds)
    {
    }
  }

  /** What asking for a lock comes to. */
  lemma AcquireCases(m: Model, id: int, l: Lock)
    requires Inv(m) && id !in m.locks && l.start < l.end && l.stop == l.start
    ensures Known(m.locks, m.queue) && id !in m.queue
    ensures var s, r := FirstBlocked(m.locks, l.write, l.start, l.end), Acquire(m, id, l);
      && l.start <= s <= l.end && Inv(r) && Exclusive(r.locks)
      && r.locks == m.locks[id := l.(stop := s)] && r.locks == m.locks[id := l][id := l.(stop := s)]
      && Known(r.locks, m.queue) && Sorted(r.locks, m.queue)
      && r.queue == if s < l.end then Enqueue(r.locks, m.queue, id) else m.queue
  {
    hide Inv, Acquire, Sorted, FirstBlocked, Exclusive;
    InvParts(m);
    AcquireInv(m, id, l);
    AcquireIs(m, id, l);
    InvParts(Acquire(m, id, l));
    SortedAgree(m.locks, Acquire(m, id, l).locks, m.queue);
  }

  lemma InvParts(m: Model)
    requires Inv(m)
    ensures Known(m.locks, m.queue) && Sorted(m.locks, m.queue) && Exclusive(m.locks)
  {
  }

  lemma AcquireIs(m: Model, id: int, l: Lock)
    requires Known(m.locks, m.queue) && id !in m.locks && l.start < l.end && l.stop == l.start
    ensures id !in m.queue
    ensures var s, r := FirstBlocked(m.locks, l.write, l.start, l.end), Acquire(m, id, l);
      && l.start <= s <= l.end
      && r.locks == m.locks[id := l.(stop := s)] && r.locks == m.locks[id := l][id := l.(stop := s)]
      && Known(r.locks, m.queue) && r.queue == if s < l.end then Enqueue(r.locks, m.queue, id) else m.queue
    ensures forall i | 0 <= i < |m.queue| :: Acquire(m, id, l).locks[m.queue[i]] == m.locks[m.queue[i]]
  {
  }

  /** What cancelling comes to. */
  lemma CompleteAt(m: Model, id: int)
    requires Sound(m) && id in m.locks && id !in m.queue
    ensures m.locks[id].stop == m.locks[id].end
  {
    InQueueIff(m, id);
  }

  lemma CancelCases(m: Model, id: int)
    requires Sound(m) && id in m.locks
    ensures Known(m.locks, m.queue) && Distinct(m.queue) && Position(m.queue, id) <= |m.queue|
    ensures var c := Cancel(m, id);
      && Sound(c) && id !in c.queue && c.queue == Without(m.queue, id)
      && c.locks == m.locks[id := m.locks[id].(end := m.locks[id].stop)]
      && (forall i | 0 <= i < |c.queue| ::
          c.queue[i] in m.locks && c.queue[i] in c.locks && c.locks[c.queue[i]] == m.locks[c.queue[i]])
      && (id !in m.queue ==> c == m)
  {
    hide Sound, Without, Exclusive;
    SoundSorted(m);
    CancelSound(m, id);
    WithoutFacts(m.queue, id);
    var c := Cancel(m, id);
    assert forall i | 0 <= i < |c.queue| :: c.queue[i] in c.queue;
    if id !in m.queue {
      CompleteAt(m, id);
      assert m.locks[id] == m.locks[id].(end := m.locks[id].stop);
      assert Without(m.queue, id) == m.queue;
    }
  }

  lemma TruncateAt(m: Model, id: int, p: int)
    requires id in m.locks && Known(m.locks, m.queue)
    ensures var t := Truncate(m, id, p);
      && t.locks == m.locks[id := m.locks[id].(stop := p, end := p)] && t.queue == m.queue && t.done == m.done
      && (m.locks[id].stop == m.locks[id].end == p ==> t == m)
  {
  }

  /** The next waiter is still the next one after this one moved. */
  lemma CursorKeeps(m: Model, r: Model, id: int, c0: Cells<Wait>, c1: Cells<Wait>, c2: Cells<Wait>, k: nat, start: int)
    requires Sound(m) && 0 < k <= |m.queue| && id !in m.queue && SamePrefix(m, r, k - 1)
    requires OnlyAt(c0, c1, id) && OnlyAt(c1, c2, m.queue[k - 1])
    ensures Cursor(m, c0, k - 1, start) == Cursor(r, c2, k - 1, start)
  {
  }

  /** The rest of the walk leads to `target`. */
  ghost predicate OnWay(m: Model, id: int, k: nat, target: Model) {
    id in m.locks && Known(m.locks, m.queue) && k <= |m.queue| && Walk(m, id, k) == target
  }

  lemma OnWayStep(m: Model, id: int, k: nat, target: Model)
    requires OnWay(m, id, k, target) && k > 0 && Stop(m, k - 1) >= m.locks[id].start && Walking(m, id, k)
    ensures OnWay(Advance(Truncate(m, id, Stop(m, k - 1)), m.queue[k - 1]), id, k - 1, target)
  {
    WalkingKnown(m, id, k);
    hide Walking, Stepping, Truncate;
    WalkTruncates(m, id, k);
    var t := Truncate(m, id, Stop(m, k - 1));
    StepWalks(t, id, k - 1);
    WalkingKnown(Advance(t, m.queue[k - 1]), id, k - 1);
  }

  lemma OnWayEnds(m: Model, id: int, k: nat, target: Model)
    requires OnWay(m, id, k, target) && (k == 0 || Stop(m, k - 1) < m.locks[id].start)
    ensures Drop(m, id) == target
  {
  }

  lemma OnWayStarts(m: Model, id: int, k: nat)
    requires id in m.locks && Known(m.locks, m.queue) && k <= |m.queue|
    ensures OnWay(m, id, k, Walk(m, id, k))
  {
  }

  lemma NothingHeld(m: Model, id: int, k: nat)
    requires Known(m.locks, m.queue) && id in m.locks && m.locks[id].start >= m.locks[id].stop
    requires k == Below(m, m.locks[id].stop)
    ensures Walk(m, id, k) == Drop(m, id)
  {
  }

  lemma Incomplete(m: Model, k: nat)
    requires Sound(m) && k < |m.queue|
    ensures m.queue[k] in m.locks && m.locks[m.queue[k]].stop < m.locks[m.queue[k]].end
  {
    hide Sound;
    SoundSorted(m);
    InQueue(m.queue, k);
    InQueueIff(m, m.queue[k]);
  }

  lemma ExclusiveTrim(m: Model, id: int, p: int)
    requires Sound(m) && id in m.locks && p <= m.locks[id].stop
    ensures Exclusive(m.locks[id := m.locks[id].(stop := p)])
  {
  }

  lemma KindsAgree(l1: map<int, Lock>, l2: map<int, Lock>, states: map<int, LockState>)
    requires Kinds(l1, states) && (forall id <- l1.Keys :: id in l2 && l2[id].write == l1[id].write)
    requires forall id <- l2.Keys :: id in l1
    ensures Kinds(l2, states)
  {
  }

  /** What resuming the waiter at position `k` comes to. */
  lemma AdvanceCases(m: Model, k: nat)
    requires Sound(m) && k < |m.queue|
    ensures var id := m.queue[k];
      && Queued(m.locks, m.queue) && Distinct(m.queue) && Known(m.locks, m.queue) && id in m.locks
    ensures var id := m.queue[k];
      var l, r := m.locks[id], Advance(m, id);
      var s := FirstBlocked(m.locks, l.write, l.stop, l.end);
      && l.stop <= s <= l.end
      && (s == l.stop ==> r == m)
      && (s > l.stop ==> r.locks == m.locks[id := l.(stop := s)] && Exclusive(r.locks) && r == Shift(m, id, s))
      && (s == l.end ==> r.done == m.done + [id] && r.queue == Without(m.queue, id))
      && (l.stop < s == l.end ==>
          forall i | 0 <= i < |r.queue| ::
            r.queue[i] in m.locks && r.queue[i] in r.locks && r.locks[r.queue[i]] == m.locks[r.queue[i]])
      && (s < l.end ==> r.done == m.done)
  {
    var id := m.queue[k];
    assert id in m.queue;
    AdvanceSound(m, id);
    var l := m.locks[id];
    var s := FirstBlocked(m.locks, l.write, l.stop, l.end);
    if s == l.end {
      CompletedQueue(m, id, s);
    }
  }

  lemma NoMove(m: Model, id: int)
    requires id in m.locks && Known(m.locks, m.queue)
    requires FirstBlocked(m.locks, m.locks[id].write, m.locks[id].stop, m.locks[id].end) == m.locks[id].stop
    ensures Advance(m, id) == m
  {
  }

  /** Only what a resumed waiter's lock comes to. */
  lemma AdvanceMoves(m: Model, k: nat)
    requires Sound(m) && k < |m.queue|
    ensures var id := m.queue[k]; id in m.locks && Known(m.locks, m.queue) && m.locks[id].start <= m.locks[id].stop
    ensures var l, r := m.locks[m.queue[k]], Advance(m, m.queue[k]);
      var s := FirstBlocked(m.locks, l.write, l.stop, l.end);
      && l.stop <= s <= l.end
      && (l.stop < s ==> r.locks == m.locks[m.queue[k] := l.(stop := s)] && Exclusive(r.locks))
  {
    AdvanceCases(m, k);
  }

  lemma CompletedQueue(m: Model, id: int, s: int)
    requires Sound(m) && id in m.queue && id in m.locks && s == m.locks[id].end
    ensures var r := Shift(m, id, s); forall i | 0 <= i < |r.queue| :: r.queue[i] in m.locks && r.queue[i] != id
  {
  }

  lemma ShiftedQueue(m: Model, id: int, s: int)
    requires Queued(m.locks, m.queue) && id in m.queue && id in m.locks && s < m.locks[id].end
    ensures var q, locks := Without(m.queue, id), m.locks[id := m.locks[id].(stop := s)];
      && id !in q && Known(locks, q) && Sorted(locks, q)
      && Shift(m, id, s).queue == Enqueue(locks, q, id) && Shift(m, id, s).locks == locks
      && forall i | 0 <= i < |q| :: q[i] in m.locks && q[i] in locks && locks[q[i]] == m.locks[q[i]]
  {
  }
}
