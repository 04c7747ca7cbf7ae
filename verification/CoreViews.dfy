/** How the three trees and the lock states spell out the lock model. */
module CoreViews {
  import opened Shapes
  import opened Listings
  import opened LockModel
  import opened LockFacts
  import opened ReadSpans
  import WriteSpans

  type Range = WriteSpans.Range
  type HoldMap = WriteSpans.HoldMap

  /** What a lock state stores, besides the lock it is used with: the node of its pending borrow, if
      it is incomplete, and the nodes of its borrowed region, if that is not empty. */
  datatype Fields<W> = Fields(pending: Node?<W>, lower: Node?<ReadEnd>, upper: Node?<ReadEnd>, range: Node?<Range>)

  type Cells<W> = map<int, Fields<W>>

  ghost predicate ReadRegion<W>(l: Lock, c: Fields<W>, id: int, spans: Spans) {
    if l.start < l.stop then
      c.lower != null && c.upper != null && id in spans && spans[id] == Span(c.lower, c.upper, l.start, l.stop)
    else
      c.lower == null && c.upper == null && id !in spans
  }

  ghost predicate WriteRegion<W>(l: Lock, c: Fields<W>, id: int, holds: HoldMap) {
    if l.start < l.stop then
      c.range != null && id in holds && holds[id] == WriteSpans.Hold(c.range, l.start, l.stop)
    else
      c.range == null && id !in holds
  }

  /** A lock holds exactly `[start, stop)`, in the tree of its kind. */
  ghost predicate Region<W>(l: Lock, c: Fields<W>, id: int, spans: Spans, holds: HoldMap) {
    if l.write then WriteRegion(l, c, id, holds) && c.lower == null && c.upper == null && id !in spans
    else ReadRegion(l, c, id, spans) && c.range == null && id !in holds
  }

  ghost predicate Regions<W>(locks: map<int, Lock>, cells: Cells<W>, spans: Spans, holds: HoldMap) {
    && (forall id <- spans.Keys :: id in locks) && (forall id <- holds.Keys :: id in locks)
    && (forall id <- locks.Keys :: id in cells && Region(locks[id], cells[id], id, spans, holds))
    && (forall id <- cells.Keys :: id in locks)
  }

  lemma RegionAt<W>(locks: map<int, Lock>, cells: Cells<W>, spans: Spans, holds: HoldMap, id: int)
    requires Regions(locks, cells, spans, holds) && id in locks
    ensures id in cells && Region(locks[id], cells[id], id, spans, holds)
  {
  }

  lemma NotBorrowed<W>(locks: map<int, Lock>, cells: Cells<W>, spans: Spans, holds: HoldMap, id: int)
    requires Regions(locks, cells, spans, holds) && id !in locks
    ensures id !in spans && id !in holds && id !in cells
  {
  }

  lemma NothingBorrowed<W>(locks: map<int, Lock>, cells: Cells<W>, spans: Spans, holds: HoldMap)
    requires Regions(locks, cells, spans, holds) && forall id <- locks.Keys :: locks[id].start >= locks[id].stop
    ensures (forall id :: id !in spans) && (forall id :: id !in holds)
  {
  }

  // ----- Conflicts

  lemma SpanReads<W>(locks: map<int, Lock>, cells: Cells<W>, spans: Spans, holds: HoldMap, id: int)
    requires Regions(locks, cells, spans, holds)
    ensures id in spans ==> id in locks && !locks[id].write
    ensures id in holds ==> id in locks && locks[id].write
  {
  }

  /** What blocks a reader: a write borrow. */
  lemma BlockedRead<W>(locks: map<int, Lock>, cells: Cells<W>, spans: Spans, holds: HoldMap, i: int)
    requires Regions(locks, cells, spans, holds)
    ensures Blocked(locks, false, i) <==> WriteSpans.Written(holds, i)
  {
  }

  /** What blocks a writer: any borrow. */
  lemma BlockedWrite<W>(locks: map<int, Lock>, cells: Cells<W>, spans: Spans, holds: HoldMap, i: int)
    requires Regions(locks, cells, spans, holds)
    ensures Blocked(locks, true, i) <==> WriteSpans.Written(holds, i) || Covered(spans, i)
  {
  }

  /** A writer's new end meets no other write borrow. */
  lemma FreeFor<W>(locks: map<int, Lock>, cells: Cells<W>, spans: Spans, holds: HoldMap, id: int, stop: int)
    requires Regions(locks, cells, spans, holds) && id in locks && locks[id].write && locks[id].start < stop
    requires Exclusive(locks[id := locks[id].(stop := stop)])
    ensures WriteSpans.Free(holds, id, locks[id].start, stop)
  {
    var now := locks[id := locks[id].(stop := stop)];
    forall o <- holds.Keys | o != id
      ensures holds[o].stop <= locks[id].start || stop <= holds[o].start
    {
      SpanReads(locks, cells, spans, holds, o);
      RegionAt(locks, cells, spans, holds, o);
      var i := if holds[o].start < locks[id].start then locks[id].start else holds[o].start;
      assert o in now.Keys && now[o] == locks[o];
      if Holds(now[id], i) && Holds(now[o], i) {
        assert false;
      }
    }
  }

  // ----- One lock changes

  /** Nothing changes but at `id`. */
  ghost predicate OnlyAt<V>(a: map<int, V>, b: map<int, V>, id: int) {
    && (forall o <- a.Keys | o != id :: o in b && b[o] == a[o])
    && (forall o <- b.Keys | o != id :: o in a)
  }

  lemma OnlyAtRefl<V>(a: map<int, V>, id: int)
    ensures OnlyAt(a, a, id)
  {
  }

  lemma OnlyAtPut<V>(a: map<int, V>, id: int, v: V)
    ensures OnlyAt(a, a[id := v], id)
  {
  }

  lemma OnlyAtGone<V>(a: map<int, V>, id: int)
    ensures OnlyAt(a, a - {id}, id)
  {
  }

  lemma OnlyAtTrans<V>(a: map<int, V>, b: map<int, V>, c: map<int, V>, id: int)
    requires OnlyAt(a, b, id) && OnlyAt(b, c, id)
    ensures OnlyAt(a, c, id)
  {
  }

  lemma RegionsSet<W>(locks: map<int, Lock>, cells: Cells<W>, s1: Spans, h1: HoldMap, id: int, l: Lock, c: Fields<W>,
          s2: Spans, h2: HoldMap)
    requires Regions(locks, cells, s1, h1) && OnlyAt(s1, s2, id) && OnlyAt(h1, h2, id) && Region(l, c, id, s2, h2)
    ensures Regions(locks[id := l], cells[id := c], s2, h2)
  {
  }

  lemma RegionsDrop<W>(locks: map<int, Lock>, cells: Cells<W>, spans: Spans, holds: HoldMap, id: int)
    requires Regions(locks, cells, spans, holds) && id !in spans && id !in holds
    ensures Regions(locks - {id}, cells - {id}, spans, holds)
  {
  }

  // ----- Pending nodes

  /** Each waiter's state stores the node that waits for it, and no other state stores one. */
  ghost predicate PendingCells<W>(its: seq<Item<W>>, q: seq<int>, cells: Cells<W>) {
    && |its| == |q|
    && (forall i | 0 <= i < |q| :: q[i] in cells && cells[q[i]].pending == its[i].node)
    && (forall id <- cells.Keys :: id !in q ==> cells[id].pending == null)
  }

  lemma PendingAt<W>(its: seq<Item<W>>, q: seq<int>, cells: Cells<W>, i: nat)
    requires PendingCells(its, q, cells) && i < |q|
    ensures i < |its| && q[i] in cells && cells[q[i]].pending == its[i].node
  {
  }

  lemma PendingIff<W>(its: seq<Item<W>>, q: seq<int>, cells: Cells<W>, id: int)
    requires PendingCells(its, q, cells) && id in cells
    ensures cells[id].pending == null <==> id !in q
  {
  }

  lemma PendingInserted<W>(its: seq<Item<W>>, q: seq<int>, cells: Cells<W>, id: int, k: nat, x: Item<W>)
    requires PendingCells(its, q, cells) && id in cells && id !in q && k <= |q|
    ensures k <= |its|
    ensures PendingCells(Inserted(its, k, x), q[..k] + [id] + q[k..], cells[id := cells[id].(pending := x.node)])
  {
  }

  lemma PendingRemoved<W>(its: seq<Item<W>>, q: seq<int>, cells: Cells<W>, k: nat)
    requires PendingCells(its, q, cells) && Distinct(q) && k < |q|
    ensures k < |its| && q[k] in cells
    ensures PendingCells(Removed(its, k), Without(q, q[k]), cells[q[k] := cells[q[k]].(pending := null)])
  {
    hide PendingCells, Removed, Without, Position, Distinct;
    var id := q[k];
    PendingAt(its, q, cells, k);
    PendingSize(its, q, cells);
    var r, now, two := Without(q, id), cells[id := cells[id].(pending := null)], Removed(its, k);
    WithoutAt(q, k);
    WithoutFacts(q, id);
    RemovedItems(its, k);
    forall i | 0 <= i < |r|
      ensures r[i] in now && now[r[i]].pending == two[i].node
    {
      assert r[i] in r;
      PendingAt(its, q, cells, if i < k then i else i + 1);
    }
    forall o <- now.Keys | o !in r
      ensures now[o].pending == null
    {
      PendingIff(its, q, cells, o);
    }
    PendingIs(two, r, now);
  }

  lemma PendingIs<W>(its: seq<Item<W>>, q: seq<int>, cells: Cells<W>)
    requires |its| == |q| && (forall i | 0 <= i < |q| :: q[i] in cells && cells[q[i]].pending == its[i].node)
    requires forall id <- cells.Keys :: id !in q ==> cells[id].pending == null
    ensures PendingCells(its, q, cells)
  {
  }

  lemma PendingSize<W>(its: seq<Item<W>>, q: seq<int>, cells: Cells<W>)
    requires PendingCells(its, q, cells)
    ensures |its| == |q|
  {
  }

  lemma WithoutAt(q: seq<int>, k: nat)
    requires Distinct(q) && k < |q|
    ensures var r := Without(q, q[k]); |r| == |q| - 1 && forall i | 0 <= i < |r| ::
      r[i] == q[if i < k then i else i + 1]
  {
  }

  lemma PendingAdded<W>(its: seq<Item<W>>, q: seq<int>, cells: Cells<W>, id: int, c: Fields<W>)
    requires PendingCells(its, q, cells) && id !in cells && c.pending == null
    ensures PendingCells(its, q, cells[id := c])
  {
  }

  lemma PendingDropped<W>(its: seq<Item<W>>, q: seq<int>, cells: Cells<W>, id: int)
    requires PendingCells(its, q, cells) && id !in q
    ensures PendingCells(its, q, cells - {id})
  {
  }
}
