/** Who gets an index that a write lock gives back. */
module Grants {
  import opened LockModel
  import opened LockFacts
  import opened WalkFacts
  import opened Release

  /** `f` stands last in the queue of those who wait at index `p`: it is the waiter of the highest
      priority there (`FirstIsHighest`) and, among those, the one that came first (`WaitOrder`). */
  ghost predicate FirstInLine(m: Model, p: int, f: int) {
    && Known(m.locks, m.queue) && Below(m, p + 1) > 0 && m.queue[Below(m, p + 1) - 1] == f
    && Stop(m, Below(m, p + 1) - 1) == p
  }

  /** A new waiter is served after everyone there with the same or a higher priority, and before
      the others, whose order it does not disturb. */
  lemma EnqueueFifo(locks: map<int, Lock>, q: seq<int>, id: int, i: nat)
    requires id in locks && Known(locks, q) && Sorted(locks, q) && i < |q|
    ensures var r, k := Enqueue(locks, q, id), Place(locks, q, locks[id]);
      && r[k] == id && r == q[..k] + [id] + q[k..]
      && (locks[q[i]].stop == locks[id].stop ==> (i < k <==> locks[q[i]].priority < locks[id].priority))
  {
  }

  // ----- One index

  lemma AdvanceHolds(m: Model, j: int, x: int, p: int)
    requires j in m.locks && Known(m.locks, m.queue) && x in m.locks && Holds(m.locks[x], p)
    ensures Holds(Advance(m, j).locks[x], p)
  {
  }

  lemma {:induction false} ResumeHolds(m: Model, id: int, p: int, lo: nat, hi: nat, x: int)
    requires Shrunk(m, id, p) && Chunk(m, lo, hi, p) && x in m.locks && Holds(m.locks[x], p)
    ensures Known(m.locks, m.queue) && lo <= hi <= |m.queue|
    ensures Holds(ResumeAll(m, lo, hi).locks[x], p)
    decreases hi - lo
  {
    hide *;
    ShrunkKnown(m, id, p);
    ChunkKnown(m, lo, hi, p);
    if lo < hi {
      ResumeStep(m, id, p, lo, hi);
      ResumeUnfolds(m, lo, hi);
      AdvanceHolds(m, m.queue[hi - 1], x, p);
      ResumeHolds(Advance(m, m.queue[hi - 1]), id, p, lo, hi - 1, x);
    } else {
      ResumeEmpty(m, id, p, lo);
    }
  }

  lemma AdvanceOther(m: Model, j: int, x: int)
    requires j in m.locks && Known(m.locks, m.queue) && x in m.locks && x != j
    ensures Advance(m, j).locks[x] == m.locks[x]
  {
  }

  /** Those not resumed stay as they are. */
  lemma {:induction false} ResumeOther(m: Model, id: int, p: int, lo: nat, hi: nat, x: int)
    requires Shrunk(m, id, p) && Chunk(m, lo, hi, p) && x in m.locks
    requires Known(m.locks, m.queue) && hi <= |m.queue| && forall i | lo <= i < hi :: m.queue[i] != x
    ensures lo <= hi && ResumeAll(m, lo, hi).locks[x] == m.locks[x]
    decreases hi - lo
  {
    hide *;
    ShrunkKnown(m, id, p);
    ChunkKnown(m, lo, hi, p);
    if lo < hi {
      ResumeStep(m, id, p, lo, hi);
      ResumeUnfolds(m, lo, hi);
      var r := Advance(m, m.queue[hi - 1]);
      AdvanceOther(m, m.queue[hi - 1], x);
      PrefixOf(m, r, hi - 1);
      ResumeOther(r, id, p, lo, hi - 1, x);
    } else {
      ResumeEmpty(m, id, p, lo);
    }
  }

  lemma PrefixOf(m: Model, r: Model, k: nat)
    requires SamePrefix(m, r, k)
    ensures Known(r.locks, r.queue) && k <= |r.queue| && k <= |m.queue|
    ensures forall i | 0 <= i < k :: r.queue[i] == m.queue[i]
  {
  }

  lemma AdvanceBlocked(m: Model, j: int, f: int, p: int)
    requires Sound(m) && j in m.queue && m.locks[j].stop == p
    requires f in m.locks && Holds(m.locks[f], p) && (m.locks[f].write || m.locks[j].write)
    ensures Advance(m, j) == m
  {
  }

  /** Behind a writer nobody else gets the index. */
  lemma {:induction false} BehindWriter(m: Model, id: int, p: int, lo: nat, hi: nat, f: int)
    requires Shrunk(m, id, p) && Chunk(m, lo, hi, p) && f in m.locks && Holds(m.locks[f], p) && m.locks[f].write
    ensures Known(m.locks, m.queue) && lo <= hi <= |m.queue|
    ensures ResumeAll(m, lo, hi) == m
    decreases hi - lo
  {
    ShrunkKnown(m, id, p);
    ChunkKnown(m, lo, hi, p);
    if lo < hi {
      assert m.queue[hi - 1] in m.queue;
      AdvanceBlocked(m, m.queue[hi - 1], f, p);
      BehindWriter(m, id, p, lo, hi - 1, f);
    }
  }

  ghost predicate NoWriter(m: Model, p: int) {
    forall x <- m.locks.Keys :: Holds(m.locks[x], p) ==> !m.locks[x].write
  }

  lemma ReaderGets(m: Model, j: int, p: int)
    requires Sound(m) && j in m.queue && m.locks[j].stop == p && !m.locks[j].write && NoWriter(m, p)
    ensures Holds(Advance(m, j).locks[j], p) && NoWriter(Advance(m, j), p)
  {
  }

  /** A waiter at `p` once its turn came, with the reader `f` already there. */
  predicate Served(a: Lock, b: Lock, p: int) {
    if a.write then b == a else Holds(b, p)
  }

  lemma QueueDistinct(m: Model, id: int, p: int, k: nat)
    requires Shrunk(m, id, p) && k < |m.queue|
    ensures m.queue[k] in m.queue && m.queue[k] in m.locks && Sound(m)
    ensures forall i | 0 <= i < k :: m.queue[i] != m.queue[k]
  {
  }

  /** Behind a reader every reader gets the index, and no writer does. */
  lemma {:induction false} BehindReader(m: Model, id: int, p: int, lo: nat, hi: nat, f: int, i: nat)
    requires Shrunk(m, id, p) && Chunk(m, lo, hi, p) && f in m.locks && Holds(m.locks[f], p) && NoWriter(m, p)
    requires lo <= i < hi
    ensures Known(m.locks, m.queue) && lo <= hi <= |m.queue|
    ensures Served(m.locks[m.queue[i]], ResumeAll(m, lo, hi).locks[m.queue[i]], p)
    decreases hi - lo
  {
    hide *;
    ShrunkKnown(m, id, p);
    ChunkKnown(m, lo, hi, p);
    QueueDistinct(m, id, p, hi - 1);
    var j := m.queue[hi - 1];
    StopIs(m, hi - 1);
    var r := Advance(m, j);
    ResumeStep(m, id, p, lo, hi);
    ResumeUnfolds(m, lo, hi);
    PrefixOf(m, r, hi - 1);
    AdvanceHolds(m, j, f, p);
    if m.locks[j].write {
      AdvanceBlocked(m, j, f, p);
    } else {
      ReaderGets(m, j, p);
    }
    if i < hi - 1 {
      AdvanceOther(m, j, m.queue[i]);
      BehindReader(r, id, p, lo, hi - 1, f, i);
    } else if m.locks[j].write {
      ResumeOther(r, id, p, lo, hi - 1, j);
      ServedWriter(m.locks[j], p);
    } else {
      ResumeHolds(r, id, p, lo, hi - 1, j);
      ServedReader(m.locks[j], ResumeAll(m, lo, hi).locks[j], p);
    }
  }

  lemma StopIs(m: Model, i: nat)
    requires Known(m.locks, m.queue) && i < |m.queue|
    ensures Stop(m, i) == m.locks[m.queue[i]].stop
  {
  }

  lemma ServedWriter(a: Lock, p: int)
    requires a.write
    ensures Served(a, a, p)
  {
  }

  lemma ServedReader(a: Lock, b: Lock, p: int)
    requires !a.write && Holds(b, p)
    ensures Served(a, b, p)
  {
  }

  /** What the waiter `w` at index `p` has to expect when `f` is first in line. */
  predicate Granted(m: Model, u: Model, p: int, f: int, w: int)
    requires f in m.locks && w in m.locks && f in u.locks && w in u.locks
  {
    if w == f then Holds(u.locks[f], p)
    else if m.locks[f].write then u.locks[w] == m.locks[w]
    else Served(m.locks[w], u.locks[w], p)
  }

  lemma FirstServed(t: Model, f: int, p: int)
    requires Sound(t) && f in t.queue && t.locks[f].stop == p && (forall x <- t.locks.Keys :: !Holds(t.locks[x], p))
    ensures var r := Advance(t, f);
      Holds(r.locks[f], p) && r.locks[f].write == t.locks[f].write && (!t.locks[f].write ==> NoWriter(r, p))
  {
  }

  lemma GrantedIs(m: Model, u: Model, p: int, f: int, w: int)
    requires f in m.locks && w in m.locks && f in u.locks && w in u.locks
    requires w == f ==> Holds(u.locks[f], p)
    requires w != f && m.locks[f].write ==> u.locks[w] == m.locks[w]
    requires w != f && !m.locks[f].write ==> Served(m.locks[w], u.locks[w], p)
    ensures Granted(m, u, p, f, w)
  {
  }

  lemma ChunkGrants(t: Model, id: int, p: int, lo: nat, hi: nat, i: nat)
    requires Shrunk(t, id, p) && Chunk(t, lo, hi, p) && lo <= i < hi
    requires forall x <- t.locks.Keys :: !Holds(t.locks[x], p)
    ensures Known(t.locks, t.queue) && hi <= |t.queue|
    ensures Granted(t, ResumeAll(t, lo, hi), p, t.queue[hi - 1], t.queue[i])
  {
    hide *;
    ShrunkKnown(t, id, p);
    ChunkKnown(t, lo, hi, p);
    StopIs(t, hi - 1);
    QueueDistinct(t, id, p, hi - 1);
    QueueDistinct(t, id, p, i);
    var f, w := t.queue[hi - 1], t.queue[i];
    var r, u := Advance(t, f), ResumeAll(t, lo, hi);
    FirstServed(t, f, p);
    ResumeStep(t, id, p, lo, hi);
    ResumeUnfolds(t, lo, hi);
    PrefixOf(t, r, hi - 1);
    ResumeHolds(r, id, p, lo, hi - 1, f);
    if i < hi - 1 {
      AdvanceOther(t, f, w);
      if t.locks[f].write {
        BehindWriter(r, id, p, lo, hi - 1, f);
      } else {
        BehindReader(r, id, p, lo, hi - 1, f, i);
      }
    }
    GrantedIs(t, u, p, f, w);
  }

  // ----- The whole release

  lemma ReleaseOther(m: Model, id: int, p: int, x: int)
    requires Sound(m) && id in m.locks && id !in m.queue && m.locks[id].start <= p <= m.locks[id].stop
    requires x in m.locks && x != id && m.locks[x].stop != p
    ensures ReleaseIndex(m, id, p).locks[x] == m.locks[x]
  {
    var t, lo, hi := Truncate(m, id, p), Below(m, p), Below(m, p + 1);
    ReleaseChunk(m, id, p);
    assert t.locks[x] == m.locks[x];
    ChunkKnown(t, lo, hi, p);
    forall i | lo <= i < hi
      ensures t.queue[i] != x
    {
      assert Stop(t, i) == p;
    }
    hide Shrunk, Chunk, Sound, ReleaseIndex, Truncate, ResumeAll;
    ResumeOther(t, id, p, lo, hi, x);
  }

  /** Whoever waits at or above what is released is not touched. */
  lemma {:induction false} PerIndexOther(m: Model, id: int, p: int, x: int)
    requires Sound(m) && id in m.locks && id !in m.queue && p <= m.locks[id].stop
    requires x in m.locks && x != id && m.locks[x].stop >= p
    ensures x in PerIndex(m, id, p).locks && PerIndex(m, id, p).locks[x] == m.locks[x]
    decreases p - m.locks[id].start
  {
    hide *;
    SoundSorted(m);
    if p > m.locks[id].start {
      var r := ReleaseIndex(m, id, p - 1);
      ReleaseKeeps(m, id, p - 1);
      ShrunkKnown(r, id, p - 1);
      ReleaseOther(m, id, p - 1, x);
      PerIndexUnfolds(m, id, p);
      PerIndexOther(r, id, p - 1, x);
    } else {
      PerIndexEnds(m, id, p, x);
    }
  }

  lemma PerIndexEnds(m: Model, id: int, p: int, x: int)
    requires id in m.locks && Known(m.locks, m.queue) && p <= m.locks[id].start && x in m.locks && x != id
    ensures x in PerIndex(m, id, p).locks && PerIndex(m, id, p).locks[x] == m.locks[x]
  {
  }

  /** The first in line at `p` and another waiter there; the lock to be released covers `p`. */
  ghost predicate Line(m: Model, id: int, p: int, f: int, w: int) {
    && Sound(m) && id in m.locks && id !in m.queue && m.locks[id].start <= p < m.locks[id].stop && m.locks[id].write
    && FirstInLine(m, p, f) && f in m.locks && w in m.queue && w in m.locks && m.locks[w].stop == p
  }

  lemma TopFree(m: Model, id: int, p: int)
    requires Sound(m) && id in m.locks && m.locks[id].write && m.locks[id].start <= p == m.locks[id].stop - 1
    ensures forall x <- m.locks.Keys :: !Holds(Truncate(m, id, p).locks[x], p)
  {
  }

  lemma LineChunk(m: Model, id: int, p: int, f: int, w: int)
    requires Line(m, id, p, f, w)
    ensures var t := Truncate(m, id, p);
      && t.queue[Below(m, p + 1) - 1] == f && f != id && w != id && t.locks[f] == m.locks[f] && t.locks[w] == m.locks[w]
    ensures exists i :: Below(m, p) <= i < Below(m, p + 1) && m.queue[i] == w
  {
  }

  lemma ReleaseGrants(m: Model, id: int, p: int, f: int, w: int)
    requires Line(m, id, p, f, w) && p == m.locks[id].stop - 1
    ensures Granted(m, ReleaseIndex(m, id, p), p, f, w)
  {
    var t, lo, hi := Truncate(m, id, p), Below(m, p), Below(m, p + 1);
    ReleaseChunk(m, id, p);
    TopFree(m, id, p);
    LineChunk(m, id, p, f, w);
    var i :| lo <= i < hi && m.queue[i] == w;
    hide ReleaseIndex, ResumeAll, Truncate, Sound, Shrunk, Chunk, Line;
    ChunkGrants(t, id, p, lo, hi, i);
  }

  lemma ReleaseMode(m: Model, id: int, p: int)
    requires Sound(m) && id in m.locks && id !in m.queue && m.locks[id].start <= p <= m.locks[id].stop
    ensures ReleaseIndex(m, id, p).locks[id].write == m.locks[id].write
  {
    ReleaseChunk(m, id, p);
    ResumeKeeps(Truncate(m, id, p), id, p, Below(m, p), Below(m, p + 1));
  }

  /** The places of the line in a queue. */
  lemma LinePlace(m: Model, id: int, p: int, f: int, w: int) returns (i: nat)
    requires Line(m, id, p, f, w)
    ensures Known(m.locks, m.queue) && i < Below(m, p + 1) && m.queue[i] == w
    ensures Sound(m) && id in m.locks && id !in m.queue && f in m.queue && f in m.locks && w in m.locks && f != id
    ensures w != id
    ensures m.locks[f].stop == p && m.locks[w].stop == p && m.locks[id].start <= p < m.locks[id].stop
  {
    assert f in m.queue;
    i :| 0 <= i < |m.queue| && m.queue[i] == w;
    if i >= Below(m, p + 1) {
      BelowOn(m, p + 1, i);
    }
  }

  lemma ReleaseBelow(m: Model, id: int, q: int, p: int)
    requires Sound(m) && id in m.locks && id !in m.queue && m.locks[id].start <= p < q <= m.locks[id].stop
    ensures var r := ReleaseIndex(m, id, q); SamePrefix(m, r, Below(m, p + 1)) && Below(r, p + 1) == Below(m, p + 1)
  {
    var r, k := ReleaseIndex(m, id, q), Below(m, p + 1);
    ReleaseKeeps(m, id, q);
    BelowMonotone(m, p + 1, q);
    SamePrefixTrans(m, r, r, Below(m, q), k) by { assert SamePrefix(r, r, Below(m, q)); }
    assert Sound(r);
    hide ReleaseIndex, Sound;
    assert k < Below(m, q) ==> Stop(r, k) == Stop(m, k);
    if Below(m, q) <= k < |r.queue| {
      BelowOn(r, q, k);
    }
    BelowIs(r, p + 1, k);
  }

  lemma LineKeeps(m: Model, id: int, q: int, p: int, f: int, w: int)
    requires Line(m, id, p, f, w) && p < q <= m.locks[id].stop
    ensures var r := ReleaseIndex(m, id, q);
      && Line(r, id, p, f, w) && r.locks[id].stop == q && r.locks[id].start == m.locks[id].start
      && r.locks[f] == m.locks[f] && r.locks[w] == m.locks[w]
  {
    var i := LinePlace(m, id, p, f, w);
    var r := ReleaseIndex(m, id, q);
    ReleaseKeeps(m, id, q);
    ReleaseOther(m, id, q, f);
    ReleaseOther(m, id, q, w);
    ReleaseMode(m, id, q);
    ReleaseBelow(m, id, q, p);
    hide ReleaseIndex, SamePrefix;
    LineIs(m, r, id, p, f, w, i);
  }

  lemma GrantedTrans(a: Model, b: Model, c: Model, p: int, f: int, w: int)
    requires f in a.locks && w in a.locks && f in b.locks && w in b.locks && f in c.locks && w in c.locks
    requires Granted(b, c, p, f, w) && b.locks[f] == a.locks[f] && b.locks[w] == a.locks[w]
    ensures Granted(a, c, p, f, w)
  {
  }

  lemma {:induction false} PerIndexKeys(m: Model, id: int, p: int)
    requires id in m.locks && Known(m.locks, m.queue)
    ensures PerIndex(m, id, p).locks.Keys == m.locks.Keys - {id}
    decreases p - m.locks[id].start
  {
    if p > m.locks[id].start {
      var r := ReleaseIndex(m, id, p - 1);
      hide ReleaseIndex;
      PerIndexKeys(r, id, p - 1);
    }
  }

  lemma GrantedStop(m: Model, r: Model, u: Model, p: int, f: int, w: int)
    requires f in m.locks && w in m.locks && f in r.locks && w in r.locks && m.locks[w].stop == p
    requires Granted(m, r, p, f, w)
    ensures r.locks[w].stop >= p
    ensures f in u.locks && w in u.locks && u.locks[w] == r.locks[w] ==> Granted(m, u, p, f, w)
  {
  }

  lemma FinishGrants(m: Model, r: Model, id: int, p: int, f: int, w: int)
    requires f in m.locks && w in m.locks && f in r.locks && w in r.locks && f != id && w != id && m.locks[w].stop == p
    requires Sound(r) && id in r.locks && id !in r.queue && p <= r.locks[id].stop && Granted(m, r, p, f, w)
    ensures Known(r.locks, r.queue) && f in PerIndex(r, id, p).locks && w in PerIndex(r, id, p).locks
    ensures Granted(m, PerIndex(r, id, p), p, f, w)
  {
    assert Known(r.locks, r.queue);
    hide *;
    PerIndexKeys(r, id, p);
    GrantedStop(m, r, PerIndex(r, id, p), p, f, w);
    PerIndexOther(r, id, p, w);
    assert f in PerIndex(r, id, p).locks.Keys;
  }

  lemma {:induction false} PerIndexGrants(m: Model, id: int, q: int, p: int, f: int, w: int)
    requires Line(m, id, p, f, w)
    requires id in m.locks && p < q == m.locks[id].stop
    ensures Known(m.locks, m.queue) && f in m.locks && w in m.locks && f in PerIndex(m, id, q).locks
    ensures w in PerIndex(m, id, q).locks
    ensures Granted(m, PerIndex(m, id, q), p, f, w)
    decreases q - p
  {
    hide *;
    var _ := LinePlace(m, id, p, f, w);
    var r := ReleaseIndex(m, id, q - 1);
    PerIndexUnfolds(m, id, q);
    ReleaseKeeps(m, id, q - 1);
    ShrunkKnown(r, id, q - 1);
    if p < q - 1 {
      LineKeeps(m, id, q - 1, p, f, w);
      PerIndexGrants(r, id, q - 1, p, f, w);
      GrantedTrans(m, r, PerIndex(m, id, q), p, f, w);
    } else {
      ReleaseGrants(m, id, p, f, w);
      FinishGrants(m, r, id, p, f, w);
    }
  }

  lemma CancelLine(m: Model, id: int, p: int, f: int, w: int)
    requires Sound(m) && id in m.locks && m.locks[id].write && m.locks[id].start <= p < m.locks[id].stop
    requires FirstInLine(m, p, f) && w in m.queue && w in m.locks && m.locks[w].stop == p
    ensures Line(Cancel(m, id), id, p, f, w)
    ensures f in m.locks && Cancel(m, id).locks[f] == m.locks[f] && Cancel(m, id).locks[w] == m.locks[w]
  {
    var c := Cancel(m, id);
    var i := InLine(m, p, f, w);
    CancelMode(m, id);
    hide Cancel, Sound, Line, FirstInLine, SamePrefix, Below, Stop;
    CancelSound(m, id);
    CancelBelow(m, id, p + 1);
    CancelOthers(m, id);
    LineIs(m, c, id, p, f, w, i);
  }

  lemma InLine(m: Model, p: int, f: int, w: int) returns (i: nat)
    requires Sound(m) && FirstInLine(m, p, f) && w in m.queue && w in m.locks && m.locks[w].stop == p
    ensures Known(m.locks, m.queue) && i < Below(m, p + 1) && m.queue[i] == w && f in m.locks && m.locks[f].stop == p
  {
    i :| 0 <= i < |m.queue| && m.queue[i] == w;
    if i >= Below(m, p + 1) {
      BelowOn(m, p + 1, i);
    }
  }

  /** Nobody who waits at the index has a higher priority. */
  lemma FirstIsHighest(m: Model, p: int, f: int, w: int)
    requires Sound(m) && FirstInLine(m, p, f) && w in m.queue && w in m.locks && m.locks[w].stop == p
    ensures f in m.locks && m.locks[w].priority <= m.locks[f].priority
  {
    var i := InLine(m, p, f, w);
    assert i < Below(m, p + 1) - 1 ==> Le(m.locks[w], m.locks[f]);
  }

  lemma CancelMode(m: Model, id: int)
    requires id in m.locks && Known(m.locks, m.queue)
    ensures var c := Cancel(m, id); c.locks[id].write == m.locks[id].write && c.locks[id].stop == m.locks[id].stop
  {
  }

  lemma LineIs(m: Model, c: Model, id: int, p: int, f: int, w: int, i: nat)
    requires FirstInLine(m, p, f) && i < Below(m, p + 1) && m.queue[i] == w && w in m.locks && m.locks[w].stop == p
    requires Sound(c) && id in c.locks && id !in c.queue && c.locks[id].start <= p < c.locks[id].stop
    requires c.locks[id].write
    requires SamePrefix(m, c, Below(m, p + 1)) && Below(c, p + 1) == Below(m, p + 1)
    ensures Line(c, id, p, f, w)
  {
  }

  lemma CancelOthers(m: Model, id: int)
    requires id in m.locks && Known(m.locks, m.queue)
    ensures var c := Cancel(m, id);
      && (forall x <- m.locks.Keys - {id} :: c.locks[x] == m.locks[x])
      && c.locks[id] == m.locks[id].(end := m.locks[id].stop)
  {
  }

  /** Theorem: when a write lock is released, each of its indices that someone waits for goes to the
      first in line.  If that is a writer nobody else who waits there moves; if it is a reader,
      every reader there gets the index and no writer moves. */
  lemma UnlockGrants(m: Model, id: int, p: int, f: int, w: int)
    requires Sound(m) && id in m.locks && m.locks[id].write && m.locks[id].start <= p < m.locks[id].stop
    requires FirstInLine(m, p, f) && w in m.queue && w in m.locks && m.locks[w].stop == p
    ensures f in m.locks && f in Unlock(m, id).locks && w in Unlock(m, id).locks
    ensures Granted(m, Unlock(m, id), p, f, w) && m.locks[w].priority <= m.locks[f].priority
  {
    var c := Cancel(m, id);
    FirstIsHighest(m, p, f, w);
    CancelLine(m, id, p, f, w);
    CancelSound(m, id);
    assert c.locks[id].stop == m.locks[id].stop;
    hide Cancel, Sound, Line;
    WalkIsPerIndex(c, id, c.locks[id].stop);
    PerIndexGrants(c, id, c.locks[id].stop, p, f, w);
    hide Walk, PerIndex;
    GrantedTrans(m, c, Unlock(m, id), p, f, w);
  }
}
