/** The reference: an array of readers-writer locks, taken in ascending order and released in
    descending order. */
module Reference {
  import opened Options
  import opened LockModel
  import opened LockFacts
  import opened WalkFacts
  import opened Release
  import opened RefViews
  import opened RefSteps
  import opened RefRelease
  import opened Requests
  import Grants

  class RwLockSet {
    const rwlocks: array<RwLock>
    var locks: map<int, Interval>
    ghost var model: Model

    constructor (n: nat)
      ensures Valid() && model == Model(map[], [], []) && rwlocks.Length == n && fresh(rwlocks)
    {
      rwlocks := new RwLock[n](_ => RwLock({}, {}, 0));
      locks, model := map[], Model(map[], [], []);
    }

    ghost predicate View(m: Model, gone: Option<int>, cut: nat)
      reads `locks, rwlocks
    {
      RefView(rwlocks[..], locks, m, gone, cut)
    }

    ghost predicate Valid()
      reads this, rwlocks
    {
      Inv(model) && View(model, None, 0)
    }

    // ----- Taking indices

    /** Leave the index where the lock waits. */
    method Unwait(id: int)
      requires Waits(rwlocks[..], locks) && id in locks && locks[id].order.Some?
      modifies `locks, rwlocks
      ensures Waits(rwlocks[..], locks) && locks == old(locks)[id := old(locks)[id].(order := None)]
      ensures forall i | 0 <= i < rwlocks.Length :: rwlocks[i].owners == old(rwlocks[i].owners)
    {
      WaitsIs(rwlocks[..], locks, id);
      WaitRemoved(rwlocks[..], locks, id);
      hide Waits;
      var l := locks[id];
      ghost var rws := rwlocks[..];
      rwlocks[l.pos] := rwlocks[l.pos].(waits := rwlocks[l.pos].waits - {WaiterOf(id, l)});
      assert rwlocks[..] == rws[l.pos := rws[l.pos].(waits := rws[l.pos].waits - {WaiterOf(id, l)})];
      locks := locks[id := l.(order := None)];
    }

    /** Wait at the index where the lock stopped, behind everyone of the same priority. */
    method Await(id: int)
      requires Waits(rwlocks[..], locks) && id in locks && locks[id].order.None? && 0 <= locks[id].pos < rwlocks.Length
      modifies `locks, rwlocks
      ensures Waits(rwlocks[..], locks) && id in locks && locks[id].order.Some?
      ensures locks == old(locks)[id := old(locks)[id].(order := locks[id].order)]
      ensures forall i | 0 <= i < rwlocks.Length :: rwlocks[i].owners == old(rwlocks[i].owners)
      ensures Newest(locks, id)
    {
      ghost var p := locks[id].pos;
      forall x <- locks.Keys | locks[x].order.Some? && locks[x].pos == p
        ensures locks[x].order.value < rwlocks[p].nextOrder
      {
        WaitsIs(rwlocks[..], locks, x);
      }
      WaitAdded(rwlocks[..], locks, id);
      hide Waits;
      ghost var rws := rwlocks[..];
      var rw := rwlocks[locks[id].pos];
      var l := locks[id].(order := Some(rw.nextOrder));
      rwlocks[l.pos] := rw.(nextOrder := rw.nextOrder + 1, waits := rw.waits + {WaiterOf(id, l)});
      ghost var ws := rws[p].waits + {WaiterOf(id, l)};
      assert rwlocks[..] == rws[p := rws[p].(nextOrder := rws[p].nextOrder + 1, waits := ws)];
      locks := locks[id := l];
    }

    /** Whether the lock may not take the index where it stopped. */
    method IsBlocked(write: bool, i: int, ghost ml: map<int, Lock>) returns (b: bool)
      requires Owners(rwlocks[..], ml) && Exclusive(ml) && 0 <= i < rwlocks.Length
      ensures b <==> Blocked(ml, write, i)
    {
      if write {
        WriterBlocked(rwlocks[..], ml, i);
        b := rwlocks[i].owners != {};
      } else {
        ReaderBlocked(rwlocks[..], ml, i);
        b := false;
        if rwlocks[i].owners != {} {
          // Any owner will do.
          var o :| o in rwlocks[i].owners;
          b := o.1;
        }
      }
    }

    /** Take indices in ascending order up to the first one that is blocked. */
    method TakeIndices(id: int, ghost ml: map<int, Lock>)
      requires Owners(rwlocks[..], ml) && Waits(rwlocks[..], locks) && Exclusive(ml)
      requires id in locks && id in ml && Entry(locks[id], ml[id]) && locks[id].order.None?
      requires 0 <= ml[id].start <= ml[id].stop <= ml[id].end <= rwlocks.Length
      modifies `locks, rwlocks
      ensures var s := FirstBlocked(ml, ml[id].write, ml[id].stop, ml[id].end);
        && Owners(rwlocks[..], ml[id := ml[id].(stop := s)]) && Waits(rwlocks[..], locks)
        && locks == old(locks)[id := old(locks)[id].(pos := s)]
    {
      hide Owners, Waits, Exclusive, FirstBlocked, Blocked;
      ghost var rws, ls, l := rwlocks[..], locks, ml[id];
      ghost var p := l.stop;
      assert ml[id := l.(stop := p)] == ml;
      SameWaitsRefl(rws);
      assert ls[id := ls[id].(pos := p)] == ls;
      while locks[id].pos < locks[id].end
        invariant id in locks && locks[id] == ls[id].(pos := p) && locks == ls[id := ls[id].(pos := p)]
        invariant l.stop <= p <= l.end
        invariant Owners(rwlocks[..], ml[id := l.(stop := p)]) && Exclusive(ml[id := l.(stop := p)])
        invariant SameWaits(rws, rwlocks[..])
        invariant forall i | l.stop <= i < p :: !Blocked(ml, l.write, i)
        decreases l.end - p
      {
        ghost var cur := ml[id := l.(stop := p)];
        BlockedAgreesAt(ml, cur, id, l, p);
        var b := IsBlocked(locks[id].write, locks[id].pos, cur);
        if b {
          break;
        }
        OwnMore(rwlocks[..], cur, id, p);
        TakeOne(cur, id, p);
        AddOwner(id, rws);
        locks := locks[id := locks[id].(pos := locks[id].pos + 1)];
        assert cur[id := cur[id].(stop := p + 1)] == ml[id := l.(stop := p + 1)];
        p := p + 1;
      }
      assert p < l.end ==> Blocked(ml, l.write, p);
      FirstBlockedIs(ml, l.write, l.stop, l.end, p);
      WaitsAgree(rws, rwlocks[..], ls);
      WaitsIgnore(rwlocks[..], ls, locks, id);
    }

    method AddOwner(id: int, ghost rws: seq<RwLock>)
      requires id in locks && 0 <= locks[id].pos < rwlocks.Length && SameWaits(rws, rwlocks[..])
      modifies rwlocks
      ensures var before, p := old(rwlocks[..]), locks[id].pos;
        rwlocks[..] == before[p := before[p].(owners := before[p].owners + {(id, locks[id].write)})]
      ensures SameWaits(rws, rwlocks[..])
    {
      var l := locks[id];
      rwlocks[l.pos] := rwlocks[l.pos].(owners := rwlocks[l.pos].owners + {(id, l.write)});
    }

    /** Take indices as far as possible, and wait at the first one that is blocked. */
    method Resume(id: int, ghost ml: map<int, Lock>) returns (complete: bool)
      requires Owners(rwlocks[..], ml) && Waits(rwlocks[..], locks) && Exclusive(ml)
      requires id in locks && id in ml && Entry(locks[id], ml[id])
      requires 0 <= ml[id].start <= ml[id].stop <= ml[id].end <= rwlocks.Length
      modifies `locks, rwlocks
      ensures Resumed(rwlocks[..], old(locks), locks, ml, id) && id in locks
      ensures complete <==> locks[id].order.None?
    {
      hide Owners, Waits, Exclusive, FirstBlocked, Newest;
      ghost var ls := locks;
      if locks[id].order.Some? {
        ghost var rws := rwlocks[..];
        Unwait(id);
        OwnersAgree(rws, ml, rwlocks[..], ml);
      }
      TakeIndices(id, ml);
      if locks[id].pos < locks[id].end {
        ghost var rws := rwlocks[..];
        ghost var now := ml[id := ml[id].(stop := locks[id].pos)];
        Await(id);
        OwnersAgree(rws, now, rwlocks[..], now);
      }
      complete := locks[id].pos == locks[id].end;
      assert locks == ls[id := locks[id]];
    }

    /** Acquire a lock. */
    method Lock(id: int, start: int, end: int, write: bool, priority: int) returns (complete: bool)
      requires Valid() && id !in model.locks && 0 <= start <= end <= rwlocks.Length
      modifies this, rwlocks
      ensures Valid() && Known(old(model).locks, old(model).queue)
      ensures model == Acquire(old(model), id, Request(start, end, write, priority))
      ensures id in model.locks && (complete <==> model.locks[id].stop == end)
      ensures model.locks[id] == LockModel.Lock(start, end, write, priority, model.locks[id].stop)
      ensures Reaches(old(model).locks, write, start, end, model.locks[id].stop)
    {
      hide RefView, Owners, Waits, Exclusive, Inv, Acquire, Resumed, Sound, Reaches, Added;
      ghost var m, l := model, Request(start, end, write, priority);
      InvSound(m);
      AcquireMakes(m, id, start, end, write, priority);
      ghost var r0 := rwlocks[..];
      LockStarts(r0, locks, m, id, l);
      locks := locks[id := Interval(start, end, write, start, priority, None)];
      ghost var ls := locks;
      complete := Resume(id, m.locks[id := l]);
      AcquireView(rwlocks[..], ls, locks, m, id, l, r0);
      LockEnds(rwlocks[..], ls, locks, m, id, l);
      model := Acquire(m, id, l);
    }

    /** Resume everyone who waits at index `p`, in order. */
    method ResumeIndex(p: int, ghost id: int, ghost t: Model)
      requires View(t, Some(id), 0) && Shrunk(t, id, p) && 0 <= p < rwlocks.Length
      requires Known(t.locks, t.queue) && Chunk(t, Below(t, p), Below(t, p + 1), p)
      modifies `locks, rwlocks
      ensures Below(t, p) <= Below(t, p + 1) && View(ResumeAll(t, Below(t, p), Below(t, p + 1)), Some(id), 0)
    {
      hide RefView, Shrunk, Sound, Chunk, Below, ResumeAll, Advance, Known, SamePrefix, InOrder, Comparable, Passing;
      ghost var lo, hi := Below(t, p), Below(t, p + 1);
      ShrunkKnown(t, id, p);
      ChunkKnown(t, lo, hi, p);
      WaitsComparable(rwlocks[..], locks, t, Some(id), p);
      var ws := Collect(rwlocks[p].waits);
      CollectedIs(rwlocks[..], locks, t, Some(id), p, ws);
      CutUp(rwlocks[..], locks, t, Some(id), hi);
      PassStarts(t, id, p, lo, hi);
      var n := 0;
      ghost var m := t;
      while n < |ws|
        invariant 0 <= n <= |ws| && View(m, Some(id), hi - n) && Passing(t, m, id, p, lo, hi, hi - n)
      {
        ghost var c: nat := hi - n - 1;
        m := ResumeOne(ws[n].id, t, m, id, p, lo, hi, c);
        n := n + 1;
      }
      PassEnds(rwlocks[..], locks, t, m, id, p, lo, hi);
    }

    method ResumeOne(j: int, ghost t: Model, ghost m: Model, ghost id: int, ghost p: int, ghost lo: nat, ghost hi: nat,
            ghost c: nat) returns (ghost r: Model)
      requires View(m, Some(id), c + 1) && Passing(t, m, id, p, lo, hi, c + 1) && c < hi
      requires lo <= c && c < |t.queue| && t.queue[c] == j
      modifies `locks, rwlocks
      ensures View(r, Some(id), c) && Passing(t, r, id, p, lo, hi, c)
    {
      hide RefView, Sound, Advance, Known, Passing, Resumed, Waits, Owners, Exclusive;
      ghost var rws, ls := rwlocks[..], locks;
      PassAt(t, m, id, p, lo, hi, c);
      ResumeReady(rws, ls, m, id, p, c);
      var _ := Resume(j, m.locks);
      AdvanceView(rws, rwlocks[..], ls, locks, m, Some(id), c);
      PassStep(t, m, id, p, lo, hi, c);
      r := Advance(m, j);
    }

    /** The lock stops waiting, and its entry is taken out. */
    method TakeOut(id: int, ghost m: Model) returns (l: Interval)
      requires View(m, None, 0) && Inv(m) && id in m.locks
      modifies `locks, rwlocks
      ensures Known(m.locks, m.queue) && View(Cancel(m, id), Some(id), 0) && Releasing(Cancel(m, id), id, l)
    {
      hide RefView, Inv, Sound, Cancel, Known, Waits;
      ghost var rws, ls := rwlocks[..], locks;
      UnlockReads(rws, ls, m, id);
      l := locks[id];
      if l.order.Some? {
        Unwait(id);
      } else {
        assert ls[id := ls[id].(order := None)] == ls;
      }
      CancelView(rws, rwlocks[..], ls, m, id);
      locks := locks - {id};
      assert locks == ls - {id};
      UnlockPerIndex(m, id);
    }

    /** Give the last index back. */
    method GiveBack(id: int, l: Interval, ghost m: Model)
      requires View(m, Some(id), 0) && Releasing(m, id, l) && l.start < l.pos && Known(m.locks, m.queue)
      requires id in m.locks
      modifies `locks, rwlocks
      ensures var r := ReleaseIndex(m, id, l.pos - 1);
        && View(r, Some(id), 0) && Releasing(r, id, l.(pos := l.pos - 1))
        && PerIndex(m, id, l.pos) == PerIndex(r, id, l.pos - 1)
    {
      hide RefView, Sound, PerIndex, ReleaseIndex, Below, Known, Shrunk, Chunk, Releasing, Truncate, ResumeAll;
      ghost var before := rwlocks[..];
      ReleaseReady(before, locks, m, id, l);
      var p := l.pos - 1;
      rwlocks[p] := rwlocks[p].(owners := rwlocks[p].owners - {(id, l.write)});
      assert rwlocks[..] == before[p := before[p].(owners := before[p].owners - {(id, l.write)})];
      ResumeIndex(p, id, Truncate(m, id, p));
    }

    /** Release a lock: give its indices back in descending order, and resume the waiters of each. */
    method Unlock(id: int)
      requires Valid() && id in model.locks
      modifies this, rwlocks
      ensures Valid() && Known(old(model).locks, old(model).queue) && model == LockModel.Unlock(old(model), id)
    {
      hide RefView, Inv, Sound, PerIndex, LockModel.Unlock, ReleaseIndex, Cancel, Known;
      ghost var m := model;
      UnlockPerIndex(m, id);
      var l := TakeOut(id, m);
      ghost var cur := Cancel(m, id);
      while l.pos > l.start
        invariant View(cur, Some(id), 0) && Releasing(cur, id, l)
        invariant Known(cur.locks, cur.queue) && id in cur.locks && PerIndex(cur, id, l.pos) == LockModel.Unlock(m, id)
        decreases l.pos - l.start
      {
        GiveBack(id, l, cur);
        cur := ReleaseIndex(cur, id, l.pos - 1);
        l := l.(pos := l.pos - 1);
      }
      UnlockDone(rwlocks[..], locks, cur, m, id, l);
      model := Drop(cur, id);
    }

    /** Whether a lock has all it asked for. */
    method IsComplete(id: int) returns (complete: bool)
      requires Valid() && id in model.locks
      ensures complete <==> model.locks[id].stop == model.locks[id].end
    {
      hide Owners, Waits, Inv;
      RefViewIs(rwlocks[..], locks, model, None, 0);
      EntryAt(locks, model.locks, model.queue, None, id);
      complete := locks[id].pos == locks[id].end;
    }
  }

  lemma LockStarts(rws: seq<RwLock>, ls: map<int, Interval>, m: Model, id: int, l: Lock)
    requires Inv(m) && RefView(rws, ls, m, None, 0) && id !in m.locks && 0 <= l.start == l.stop <= l.end <= |rws|
    ensures var e, now := Interval(l.start, l.end, l.write, l.start, l.priority, None), m.locks[id := l];
      && RefView(rws, ls[id := e], m.(locks := now), None, 0) && Entry(e, l)
      && Owners(rws, now) && Waits(rws, ls[id := e]) && Exclusive(now) && Sound(m) && Known(m.locks, m.queue)
      && id !in m.queue
  {
    var e := Interval(l.start, l.end, l.write, l.start, l.priority, None);
    NewEntry(rws, ls, m, id, l, e);
    RefViewIs(rws, ls[id := e], m.(locks := m.locks[id := l]), None, 0);
    ExclusiveGrows(m.locks, id, l);
  }

  lemma LockEnds(rws: seq<RwLock>, ls: map<int, Interval>, l2: map<int, Interval>, m: Model, id: int, l: Lock)
    requires Inv(m) && id !in m.locks && l.start == l.stop <= l.end && Resumed(rws, ls, l2, m.locks[id := l], id)
    ensures Known(m.locks, m.queue) && Inv(Acquire(m, id, l)) && id in l2 && id in Acquire(m, id, l).locks
    ensures l2[id].order.None? <==> Acquire(m, id, l).locks[id].stop == l.end
  {
    AcquireInv(m, id, l);
    BlockedFresh(m.locks, id, l);
    hide Inv, Owners, Waits;
  }

  /** In the middle of index `p`: the waiters from position `c` of the old queue on have resumed. */
  ghost predicate Passing(t: Model, m: Model, id: int, p: int, lo: nat, hi: nat, c: nat) {
    && lo <= c <= hi && Shrunk(m, id, p) && Chunk(m, lo, c, p) && SamePrefix(t, m, c)
    && Known(t.locks, t.queue) && hi <= |t.queue| && ResumeAll(m, lo, c) == ResumeAll(t, lo, hi)
  }

  lemma PassStarts(t: Model, id: int, p: int, lo: nat, hi: nat)
    requires Shrunk(t, id, p) && Chunk(t, lo, hi, p)
    ensures Passing(t, t, id, p, lo, hi, hi)
  {
  }

  lemma PassingIs(t: Model, m: Model, id: int, p: int, lo: nat, hi: nat, c: nat)
    requires Passing(t, m, id, p, lo, hi, c)
    ensures lo <= c <= hi && Shrunk(m, id, p) && Chunk(m, lo, c, p) && SamePrefix(t, m, c)
    ensures Known(t.locks, t.queue) && hi <= |t.queue| && Known(m.locks, m.queue) && c <= |m.queue|
    ensures ResumeAll(m, lo, c) == ResumeAll(t, lo, hi)
  {
  }

  lemma PassAt(t: Model, m: Model, id: int, p: int, lo: nat, hi: nat, c: nat)
    requires Passing(t, m, id, p, lo, hi, c + 1)
    ensures c < |m.queue| && c < |t.queue| && m.queue[c] == t.queue[c] && Shrunk(m, id, p) && Known(m.locks, m.queue)
    ensures Sound(m)
  {
  }

  lemma PassStep(t: Model, m: Model, id: int, p: int, lo: nat, hi: nat, c: nat)
    requires Passing(t, m, id, p, lo, hi, c + 1) && lo <= c < hi
    ensures c < |m.queue| && Known(m.locks, m.queue) && m.queue[c] in m.locks
    ensures Passing(t, Advance(m, m.queue[c]), id, p, lo, hi, c)
  {
    hide Shrunk, Chunk, SamePrefix, ResumeAll, Advance, Passing;
    PassingIs(t, m, id, p, lo, hi, c + 1);
    assert m.queue[c] in m.locks;
    ResumeStep(m, id, p, lo, c + 1);
    ResumeUnfolds(m, lo, c + 1);
    SamePrefixTrans(t, m, Advance(m, m.queue[c]), c + 1, c);
    PassingMade(t, Advance(m, m.queue[c]), id, p, lo, hi, c);
  }

  lemma PassingMade(t: Model, m: Model, id: int, p: int, lo: nat, hi: nat, c: nat)
    requires lo <= c <= hi && Shrunk(m, id, p) && Chunk(m, lo, c, p) && SamePrefix(t, m, c)
    requires Known(t.locks, t.queue) && hi <= |t.queue| && Known(m.locks, m.queue) && c <= |m.queue|
    requires ResumeAll(m, lo, c) == ResumeAll(t, lo, hi)
    ensures Passing(t, m, id, p, lo, hi, c)
  {
  }

  lemma PassEnds(rws: seq<RwLock>, ls: map<int, Interval>, t: Model, m: Model, id: int, p: int, lo: nat, hi: nat)
    requires RefView(rws, ls, m, Some(id), lo) && Passing(t, m, id, p, lo, hi, lo) && lo == Below(t, p)
    requires hi == Below(t, p + 1)
    requires Shrunk(t, id, p) && Known(t.locks, t.queue) && Chunk(t, lo, hi, p)
    ensures lo <= hi <= |t.queue| && RefView(rws, ls, ResumeAll(t, lo, hi), Some(id), 0)
  {
    hide *;
    PassingIs(t, m, id, p, lo, hi, lo);
    ResumedIndex(t, id, p);
    ResumeEmpty(m, id, p, lo);
    CutDown(rws, ls, m, Some(id), lo, p);
  }

  /** What the machine reads when it resumes the waiter at position `c`. */
  lemma ResumeReady(rws: seq<RwLock>, ls: map<int, Interval>, m: Model, id: int, p: int, c: nat)
    requires RefView(rws, ls, m, Some(id), c + 1) && Shrunk(m, id, p) && c < |m.queue|
    ensures Known(m.locks, m.queue) && m.queue[c] in m.locks && m.queue[c] != id && m.queue[c] in ls
    ensures Owners(rws, m.locks) && Waits(rws, ls) && Exclusive(m.locks) && Entry(ls[m.queue[c]], m.locks[m.queue[c]])
    ensures var l := m.locks[m.queue[c]]; 0 <= l.start <= l.stop <= l.end <= |rws|
  {
  }

  /** After the waiters of index `p` resumed, the queue is cut at `p` as before. */
  lemma ResumedIndex(t: Model, id: int, p: int)
    requires Shrunk(t, id, p) && Known(t.locks, t.queue) && Chunk(t, Below(t, p), Below(t, p + 1), p)
    ensures Below(t, p) <= Below(t, p + 1)
    ensures var r, lo := ResumeAll(t, Below(t, p), Below(t, p + 1)), Below(t, p);
      lo <= |r.queue| && (forall x | 0 <= x < lo :: Stop(r, x) < p) && forall x | lo <= x < |r.queue| :: Stop(r, x) >= p
  {
    var lo, hi := Below(t, p), Below(t, p + 1);
    ShrunkKnown(t, id, p);
    ChunkKnown(t, lo, hi, p);
    forall i | lo <= i < |t.queue|
      ensures Stop(t, i) >= p
    {
      BelowOn(t, p, i);
    }
    ResumeKeeps(t, id, p, lo, hi);
    ResumeAbove(t, id, p, lo, hi);
    var r := ResumeAll(t, lo, hi);
    hide ResumeAll, Shrunk, Chunk, Sound;
    SamePrefixKnown(t, r, lo);
    forall x | 0 <= x < lo
      ensures Stop(r, x) < p
    {
      PrefixStop(t, r, lo, x);
    }
  }

  lemma PrefixStop(m: Model, r: Model, k: nat, i: nat)
    requires SamePrefix(m, r, k) && i < k
    ensures Known(m.locks, m.queue) && Known(r.locks, r.queue) && i < |m.queue| && i < |r.queue|
    ensures Stop(r, i) == Stop(m, i)
  {
  }

  lemma UnlockReads(rws: seq<RwLock>, ls: map<int, Interval>, m: Model, id: int)
    requires Inv(m) && RefView(rws, ls, m, None, 0) && id in m.locks
    ensures Sound(m) && Known(m.locks, m.queue) && Waits(rws, ls) && id in ls && Entry(ls[id], m.locks[id])
  {
  }

  /** What is left of the lock `id`: `[start, pos)`. */
  ghost predicate Releasing(m: Model, id: int, l: Interval) {
    && Sound(m) && id in m.locks && id !in m.queue && m.locks[id].start == l.start && m.locks[id].write == l.write
    && l.start <= l.pos == m.locks[id].stop == m.locks[id].end
  }

  /** The release of the model, told index by index. */
  lemma UnlockPerIndex(m: Model, id: int)
    requires Inv(m) && id in m.locks
    ensures var c, l := Cancel(m, id), m.locks[id];
      && Sound(m) && Sound(c) && Known(m.locks, m.queue) && Known(c.locks, c.queue) && id in c.locks && id !in c.queue
      && c.locks[id] == l.(end := l.stop) && l.start <= l.stop
      && LockModel.Unlock(m, id) == PerIndex(c, id, l.stop)
  {
    CancelSound(m, id);
    WalkIsPerIndex(Cancel(m, id), id, m.locks[id].stop);
  }

  lemma ReleaseReady(rws: seq<RwLock>, ls: map<int, Interval>, m: Model, id: int, l: Interval)
    requires RefView(rws, ls, m, Some(id), 0) && Releasing(m, id, l) && l.start < l.pos
    ensures 0 <= l.pos - 1 < |rws| && Known(m.locks, m.queue)
    ensures var p, t := l.pos - 1, Truncate(m, id, l.pos - 1);
      && RefView(rws[p := rws[p].(owners := rws[p].owners - {(id, l.write)})], ls, t, Some(id), 0)
      && Shrunk(t, id, p) && Known(t.locks, t.queue) && Chunk(t, Below(t, p), Below(t, p + 1), p)
      && ReleaseIndex(m, id, p) == ResumeAll(t, Below(t, p), Below(t, p + 1))
      && Releasing(ReleaseIndex(m, id, p), id, l.(pos := p))
      && PerIndex(m, id, l.pos) == PerIndex(ReleaseIndex(m, id, p), id, p)
  {
    var p := l.pos - 1;
    hide RefView, ReleaseIndex, Truncate, Chunk, Shrunk, Below, Sound, PerIndex, ResumeAll, SamePrefix;
    TruncateView(rws, ls, m, id, p);
    ReleaseChunk(m, id, p);
    ReleaseKeeps(m, id, p);
    Grants.ReleaseMode(m, id, p);
    BelowTruncated(m, id, p, p);
    BelowTruncated(m, id, p, p + 1);
    PerIndexUnfolds(m, id, l.pos);
    ReleasedIs(ReleaseIndex(m, id, p), id, p);
  }

  lemma ReleasedIs(r: Model, id: int, p: int)
    requires Shrunk(r, id, p)
    ensures Sound(r) && Known(r.locks, r.queue) && id in r.locks && id !in r.queue
    ensures r.locks[id].start <= p == r.locks[id].stop == r.locks[id].end
  {
  }

  lemma UnlockDone(rws: seq<RwLock>, ls: map<int, Interval>, cur: Model, m: Model, id: int, l: Interval)
    requires Inv(m) && id in m.locks && Known(m.locks, m.queue)
    requires RefView(rws, ls, cur, Some(id), 0) && Releasing(cur, id, l) && l.pos <= l.start
    requires Known(cur.locks, cur.queue) && PerIndex(cur, id, l.pos) == LockModel.Unlock(m, id)
    ensures RefView(rws, ls, Drop(cur, id), None, 0) && Drop(cur, id) == LockModel.Unlock(m, id) && Inv(Drop(cur, id))
  {
    DropView(rws, ls, cur, id);
    UnlockInv(m, id);
    hide RefView, Inv, LockModel.Unlock;
  }

  lemma SameWaitsRefl(rws: seq<RwLock>)
    ensures SameWaits(rws, rws)
  {
  }

  lemma BlockedAgreesAt(ml: map<int, Lock>, cur: map<int, Lock>, id: int, l: Lock, p: int)
    requires id in ml && ml[id] == l && cur == ml[id := l.(stop := p)] && l.stop <= p
    ensures forall write: bool :: Blocked(cur, write, p) <==> Blocked(ml, write, p)
  {
    forall write: bool
      ensures Blocked(cur, write, p) <==> Blocked(ml, write, p)
    {
      BlockedAgrees(ml, cur, id, write, p);
    }
  }

  lemma TakeOne(cur: map<int, Lock>, id: int, p: int)
    requires Exclusive(cur) && id in cur && cur[id].stop == p && !Blocked(cur, cur[id].write, p)
    ensures Exclusive(cur[id := cur[id].(stop := p + 1)])
  {
  }
}
