/** Releasing one index of the array: its waiters, in order, are the waiters of the lock model. */
module RefRelease {
  import opened Options
  import opened LockModel
  import opened LockFacts
  import opened WalkFacts
  import opened Release
  import opened RefViews
  import opened RefSteps

  ghost predicate InOrder(s: seq<Waiter>) {
    forall i, j :: 0 <= i < j < |s| ==> Earlier(s[i], s[j])
  }

  ghost predicate Comparable(ws: set<Waiter>) {
    forall a <- ws, b <- ws | a != b :: Earlier(a, b) || Earlier(b, a)
  }

  predicate First(w: Waiter, ws: set<Waiter>) {
    w in ws && forall v <- ws :: v == w || Earlier(w, v)
  }

  lemma {:induction false} FirstExists(ws: set<Waiter>)
    requires ws != {} && Comparable(ws)
    ensures exists w :: First(w, ws)
    decreases |ws|
  {
    var x :| x in ws;
    var rest := ws - {x};
    if rest == {} {
      assert ws == {x};
      assert First(x, ws);
    } else {
      FirstExists(rest);
      var w :| First(w, rest);
      if Earlier(w, x) {
        assert First(w, ws);
      } else {
        assert Earlier(x, w);
        forall v <- ws
          ensures v == x || Earlier(x, v)
        {
          assert v != x ==> v in rest;
        }
        assert First(x, ws);
      }
    }
  }

  /** Iterate over the waiters in order. */
  method Collect(ws: set<Waiter>) returns (s: seq<Waiter>)
    requires Comparable(ws)
    ensures InOrder(s) && forall w :: w in s <==> w in ws
  {
    var rest := ws;
    s := [];
    while rest != {}
      invariant rest <= ws && InOrder(s)
      invariant forall w :: w in ws <==> w in s || w in rest
      invariant forall i, v | 0 <= i < |s| && v in rest :: Earlier(s[i], v)
      decreases |rest|
    {
      FirstExists(rest);
      var w :| w in rest && First(w, rest);
      s := s + [w];
      rest := rest - {w};
    }
  }

  lemma HeadsAgree(a: seq<Waiter>, b: seq<Waiter>)
    requires InOrder(a) && InOrder(b) && (forall w :: w in a <==> w in b) && a != [] && b != []
    ensures a[0] == b[0]
  {
    assert a[0] in b && b[0] in a;
    var i :| 0 <= i < |a| && a[i] == b[0];
    var j :| 0 <= j < |b| && b[j] == a[0];
  }

  lemma TailHas(a: seq<Waiter>, w: Waiter)
    requires InOrder(a) && a != []
    ensures w in a[1..] <==> w in a && w != a[0]
  {
  }

  lemma HasMember(a: seq<Waiter>)
    ensures a != [] ==> a[0] in a
  {
  }

  /** There is only one way to list waiters in order. */
  lemma {:induction false} OrderIsUnique(a: seq<Waiter>, b: seq<Waiter>)
    requires InOrder(a) && InOrder(b) && forall w :: w in a <==> w in b
    ensures a == b
    decreases |a|
  {
    HasMember(a);
    HasMember(b);
    if a != [] {
      HeadsAgree(a, b);
      forall w: Waiter
        ensures w in a[1..] <==> w in b[1..]
      {
        TailHas(a, w);
        TailHas(b, w);
      }
      OrderIsUnique(a[1..], b[1..]);
      assert a == [a[0]] + a[1..] && b == [b[0]] + b[1..];
    }
  }

  // ----- The waiters of one index

  /** The waiters at queue positions `[lo, hi)`, last first. */
  ghost function Line(ls: map<int, Interval>, q: seq<int>, lo: nat, hi: nat): seq<Waiter>
    requires lo <= hi <= |q| && forall x | lo <= x < hi :: q[x] in ls && ls[q[x]].order.Some?
  {
    seq(hi - lo, n requires 0 <= n < hi - lo => WaiterOf(q[hi - 1 - n], ls[q[hi - 1 - n]]))
  }

  lemma LineInOrder(ls: map<int, Interval>, m: Model, gone: Option<int>, p: int, lo: nat, hi: nat)
    requires Sound(m) && Entries(ls, m.locks, m.queue, gone) && Fifo(ls, m.locks, m.queue, 0) && Chunk(m, lo, hi, p)
    ensures (forall x | lo <= x < hi :: m.queue[x] in ls && ls[m.queue[x]].order.Some?)
    ensures InOrder(Line(ls, m.queue, lo, hi))
  {
    forall x | lo <= x < hi
      ensures m.queue[x] in ls && ls[m.queue[x]].order.Some? && m.locks[m.queue[x]].stop == p
      ensures ls[m.queue[x]].priority == m.locks[m.queue[x]].priority
    {
      FifoWaits(ls, m.locks, m.queue, 0, x);
      assert Stop(m, x) == p;
      EntryOf(ls, m.locks, m.queue, gone, m.queue[x]);
    }
    var s := Line(ls, m.queue, lo, hi);
    SoundSorted(m);
    hide Sound, Entries, Fifo, Chunk;
    forall i, j | 0 <= i < j < |s|
      ensures Earlier(s[i], s[j])
    {
      var a, b := hi - 1 - i, hi - 1 - j;
      FifoAt(ls, m.locks, m.queue, 0, b, a);
      assert Le(m.locks[m.queue[b]], m.locks[m.queue[a]]);
      assert m.locks[m.queue[a]].stop == p && m.locks[m.queue[b]].stop == p;
      assert s[i] == WaiterOf(m.queue[a], ls[m.queue[a]]) && s[j] == WaiterOf(m.queue[b], ls[m.queue[b]]);
    }
  }

  lemma EntryOf(ls: map<int, Interval>, locks: map<int, Lock>, q: seq<int>, gone: Option<int>, id: int)
    requires Entries(ls, locks, q, gone) && id in ls
    ensures id in locks && Entry(ls[id], locks[id]) && (ls[id].order.Some? <==> id in q)
  {
  }

  /** The waiters of index `p` are those of the chunk of the queue that waits at `p`. */
  lemma LineHas(rws: seq<RwLock>, ls: map<int, Interval>, m: Model, gone: Option<int>, p: int, w: Waiter)
    requires RefView(rws, ls, m, gone, 0) && Sound(m) && 0 <= p < |rws| && Chunk(m, Below(m, p), Below(m, p + 1), p)
    requires forall x | Below(m, p) <= x < Below(m, p + 1) :: m.queue[x] in ls && ls[m.queue[x]].order.Some?
    ensures Known(m.locks, m.queue) && Below(m, p) <= Below(m, p + 1) <= |m.queue|
    ensures w in Line(ls, m.queue, Below(m, p), Below(m, p + 1)) <==> w in rws[p].waits
  {
    hide RefView, Waits, Entries, Owners, Fifo, Sound, Chunk, Below;
    RefViewIs(rws, ls, m, gone, 0);
    ChunkKnown(m, Below(m, p), Below(m, p + 1), p);
    var lo, hi, s := Below(m, p), Below(m, p + 1), Line(ls, m.queue, Below(m, p), Below(m, p + 1));
    if w in s {
      var n :| 0 <= n < |s| && s[n] == w;
      LineWaits(rws, ls, m, gone, p, hi - 1 - n);
    }
    if w in rws[p].waits {
      var x := WaitsInLine(rws, ls, m, gone, p, w);
      assert s[hi - 1 - x] == w;
    }
  }

  lemma LineWaits(rws: seq<RwLock>, ls: map<int, Interval>, m: Model, gone: Option<int>, p: int, x: nat)
    requires RefView(rws, ls, m, gone, 0) && 0 <= p < |rws| && Chunk(m, Below(m, p), Below(m, p + 1), p)
    requires Below(m, p) <= x < Below(m, p + 1) && m.queue[x] in ls && ls[m.queue[x]].order.Some?
    ensures WaiterOf(m.queue[x], ls[m.queue[x]]) in rws[p].waits
  {
    RefViewIs(rws, ls, m, gone, 0);
    assert Stop(m, x) == p;
    hide RefView, Waits, Entries, Owners, Fifo, Chunk, Below;
    WaitsIs(rws, ls, m.queue[x]);
    EntryOf(ls, m.locks, m.queue, gone, m.queue[x]);
  }

  lemma WaitsInLine(rws: seq<RwLock>, ls: map<int, Interval>, m: Model, gone: Option<int>, p: int, w: Waiter)
    returns (x: nat)
    requires RefView(rws, ls, m, gone, 0) && Sound(m) && 0 <= p < |rws| && w in rws[p].waits
    ensures Known(m.locks, m.queue) && Below(m, p) <= x < Below(m, p + 1) && m.queue[x] == w.id
    ensures w.id in ls && ls[w.id].order.Some? && w == WaiterOf(w.id, ls[w.id])
  {
    hide RefView, Waits, Entries, Owners, Fifo, Sound;
    RefViewIs(rws, ls, m, gone, 0);
    WaiterIs(rws, ls, p, w);
    EntryOf(ls, m.locks, m.queue, gone, w.id);
    x :| 0 <= x < |m.queue| && m.queue[x] == w.id;
    assert Stop(m, x) == p;
    if x >= Below(m, p + 1) {
      BelowOn(m, p + 1, x);
    }
  }

  /** Listing the waiters of an index in order yields the chunk, last first. */
  lemma CollectedIs(rws: seq<RwLock>, ls: map<int, Interval>, m: Model, gone: Option<int>, p: int, s: seq<Waiter>)
    requires RefView(rws, ls, m, gone, 0) && Sound(m) && 0 <= p < |rws| && Chunk(m, Below(m, p), Below(m, p + 1), p)
    requires InOrder(s) && forall w :: w in s <==> w in rws[p].waits
    ensures Known(m.locks, m.queue) && |s| == Below(m, p + 1) - Below(m, p) && Below(m, p + 1) <= |m.queue|
    ensures forall n | 0 <= n < |s| :: s[n].id == m.queue[Below(m, p + 1) - 1 - n]
  {
    hide RefView, Waits, Entries, Owners, Fifo, Sound, InOrder, Chunk, Below;
    RefViewIs(rws, ls, m, gone, 0);
    ChunkKnown(m, Below(m, p), Below(m, p + 1), p);
    LineInOrder(ls, m, gone, p, Below(m, p), Below(m, p + 1));
    forall w: Waiter
      ensures w in s <==> w in Line(ls, m.queue, Below(m, p), Below(m, p + 1))
    {
      LineHas(rws, ls, m, gone, p, w);
    }
    OrderIsUnique(s, Line(ls, m.queue, Below(m, p), Below(m, p + 1)));
    LineIds(ls, m.queue, Below(m, p), Below(m, p + 1));
  }

  lemma LineIds(ls: map<int, Interval>, q: seq<int>, lo: nat, hi: nat)
    requires lo <= hi <= |q| && forall x | lo <= x < hi :: q[x] in ls && ls[q[x]].order.Some?
    ensures var s := Line(ls, q, lo, hi); |s| == hi - lo && forall n | 0 <= n < |s| :: s[n].id == q[hi - 1 - n]
  {
    var s := Line(ls, q, lo, hi);
    forall n | 0 <= n < |s|
      ensures s[n].id == q[hi - 1 - n]
    {
      assert s[n] == WaiterOf(q[hi - 1 - n], ls[q[hi - 1 - n]]);
    }
  }

  lemma WaitsComparable(rws: seq<RwLock>, ls: map<int, Interval>, m: Model, gone: Option<int>, p: int)
    requires RefView(rws, ls, m, gone, 0) && Sound(m) && 0 <= p < |rws| && Chunk(m, Below(m, p), Below(m, p + 1), p)
    ensures Comparable(rws[p].waits)
  {
  }

  // ----- The views of a release

  /** The order is complete on both sides of any cut. */
  lemma CutUp(rws: seq<RwLock>, ls: map<int, Interval>, m: Model, gone: Option<int>, cut: nat)
    requires RefView(rws, ls, m, gone, 0)
    ensures RefView(rws, ls, m, gone, cut)
  {
  }

  /** No two waiters on different sides of the cut wait at the same index. */
  lemma CutDown(rws: seq<RwLock>, ls: map<int, Interval>, m: Model, gone: Option<int>, cut: nat, p: int)
    requires RefView(rws, ls, m, gone, cut) && Known(m.locks, m.queue) && cut <= |m.queue|
    requires (forall x | 0 <= x < cut :: Stop(m, x) < p) && forall x | cut <= x < |m.queue| :: Stop(m, x) >= p
    ensures RefView(rws, ls, m, gone, 0)
  {
    RefViewIs(rws, ls, m, gone, cut);
    RefViewIs(rws, ls, m, gone, 0);
    hide RefView, Waits, Entries, Owners, Inside;
    assert forall x | 0 <= x < |m.queue| :: x < cut <==> m.locks[m.queue[x]].stop < p by {
      assert forall x | 0 <= x < |m.queue| :: Stop(m, x) == m.locks[m.queue[x]].stop;
    }
  }

  /** The released lock no longer waits and has no entry any more. */
  lemma CancelView(r1: seq<RwLock>, r2: seq<RwLock>, ls: map<int, Interval>, m: Model, id: int)
    requires RefView(r1, ls, m, None, 0) && Sound(m) && id in m.locks && id in ls && |r2| == |r1|
    requires Waits(r2, ls[id := ls[id].(order := None)]) && forall i | 0 <= i < |r1| :: r2[i].owners == r1[i].owners
    ensures RefView(r2, ls - {id}, Cancel(m, id), Some(id), 0)
  {
    var c, l2 := Cancel(m, id), ls - {id};
    RefViewIs(r1, ls, m, None, 0);
    RefViewIs(r2, l2, c, Some(id), 0);
    SoundDistinct(m);
    CancelInside(m, id, |r1|);
    CancelMembers(m, id);
    hide RefView, Waits, Owners, Fifo, Sound, Inside, Entries, Known, Without;
    OwnersAgree(r1, m.locks, r2, c.locks);
    WaitsIgnore(r2, ls[id := ls[id].(order := None)], l2, id);
    CancelFifo(ls, m, id);
    CancelEntries(ls, m, id);
  }

  lemma CancelFifo(ls: map<int, Interval>, m: Model, id: int)
    requires Known(m.locks, m.queue) && Fifo(ls, m.locks, m.queue, 0) && Sound(m) && id in m.locks && id in ls
    ensures Known(Cancel(m, id).locks, Cancel(m, id).queue)
    ensures Fifo(ls - {id}, Cancel(m, id).locks, Cancel(m, id).queue, 0)
  {
  }

  lemma CancelInside(m: Model, id: int, n: int)
    requires Inside(m.locks, n) && id in m.locks && m.locks[id].stop <= m.locks[id].end && Known(m.locks, m.queue)
    ensures Inside(Cancel(m, id).locks, n)
  {
  }

  lemma CancelMembers(m: Model, id: int)
    requires Sound(m) && id in m.locks
    ensures Known(Cancel(m, id).locks, Cancel(m, id).queue) && id !in Cancel(m, id).queue
    ensures Cancel(m, id).queue == Without(m.queue, id)
    ensures forall x :: x in Cancel(m, id).queue <==> x in m.queue && x != id
  {
  }

  lemma CancelEntries(ls: map<int, Interval>, m: Model, id: int)
    requires Entries(ls, m.locks, m.queue, None) && Sound(m) && id in m.locks
    ensures Entries(ls - {id}, Cancel(m, id).locks, Cancel(m, id).queue, Some(id))
  {
  }

  /** The released lock gives back its last index. */
  lemma TruncateView(rws: seq<RwLock>, ls: map<int, Interval>, m: Model, id: int, p: int)
    requires RefView(rws, ls, m, Some(id), 0) && Sound(m) && id in m.locks && id !in m.queue
    requires m.locks[id].start <= p == m.locks[id].stop - 1 && m.locks[id].stop <= m.locks[id].end
    ensures 0 <= p < |rws|
    ensures RefView(rws[p := rws[p].(owners := rws[p].owners - {(id, m.locks[id].write)})], ls, Truncate(m, id, p),
      Some(id), 0)
  {
    RefViewIs(rws, ls, m, Some(id), 0);
    InsideAt(m.locks, id, |rws|);
    var l := m.locks[id].(stop := p, end := p);
    var r2, t := rws[p := rws[p].(owners := rws[p].owners - {(id, m.locks[id].write)})], Truncate(m, id, p);
    RefViewIs(r2, ls, t, Some(id), 0);
    InsideMoved(m.locks, id, l, |rws|);
    hide RefView, Waits, Owners, Fifo, Sound, Inside;
    OwnLess(rws, m.locks, id, p, l);
    WaitsAgree(rws, r2, ls);
    forall x | 0 <= x < |m.queue|
      ensures m.queue[x] in ls && m.queue[x] != id
    {
      FifoWaits(ls, m.locks, m.queue, 0, x);
      InQueue(m.queue, x);
    }
    FifoAgrees(ls, ls, m.locks, t.locks, m.queue, 0);
  }

  /** A lock that holds nothing and does not wait leaves no trace. */
  lemma DropView(rws: seq<RwLock>, ls: map<int, Interval>, m: Model, id: int)
    requires RefView(rws, ls, m, Some(id), 0) && Sound(m) && id in m.locks && id !in m.queue
    requires m.locks[id].start == m.locks[id].stop
    ensures RefView(rws, ls, Drop(m, id), None, 0)
  {
  }
}
