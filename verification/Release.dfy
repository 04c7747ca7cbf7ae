/** The release walk equals the release of an array of locks, index by index from the top; and what
    a release does to everyone else. */
module Release {
  import opened LockModel
  import opened LockFacts
  import opened WalkFacts

  // ----- The walk, chunk by chunk

  lemma TruncateTwice(m: Model, id: int, p: int, q: int)
    requires id in m.locks && Known(m.locks, m.queue)
    ensures Truncate(Truncate(m, id, p), id, q) == Truncate(m, id, q) && Drop(Truncate(m, id, p), id) == Drop(m, id)
  {
  }

  lemma WalkIgnores(m: Model, id: int, p: int, k: nat)
    requires id in m.locks && Known(m.locks, m.queue) && k <= |m.queue| && id !in m.queue
    ensures Walk(Truncate(m, id, p), id, k) == Walk(m, id, k)
  {
    TruncateTwice(m, id, p, p);
    if k > 0 {
      assert m.queue[k - 1] in m.queue;
      TruncateTwice(m, id, p, Stop(m, k - 1));
    }
  }

  /** The waiters at queue positions `[lo, hi)` all wait at index `p`. */
  ghost predicate Chunk(m: Model, lo: nat, hi: nat, p: int) {
    lo <= hi && Known(m.locks, m.queue) && hi <= |m.queue| && forall i | lo <= i < hi :: Stop(m, i) == p
  }

  /** The releasing lock is gone from the queue and holds nothing from `p` on. */
  ghost predicate Shrunk(m: Model, id: int, p: int) {
    Sound(m) && id in m.locks && id !in m.queue && m.locks[id].start <= p && m.locks[id].stop == m.locks[id].end == p
  }

  /** The first `k` waiters are the same and wait where they did. */
  ghost predicate SamePrefix(m: Model, r: Model, k: nat) {
    && Known(m.locks, m.queue) && Known(r.locks, r.queue) && k <= |m.queue| && k <= |r.queue|
    && forall i | 0 <= i < k :: r.queue[i] == m.queue[i] && r.locks[m.queue[i]] == m.locks[m.queue[i]]
  }

  lemma SamePrefixTrans(a: Model, b: Model, c: Model, n: nat, k: nat)
    requires SamePrefix(a, b, n) && SamePrefix(b, c, k) && k <= n
    ensures SamePrefix(a, c, k)
  {
  }

  lemma AdvanceSamePrefix(m: Model, k: nat)
    requires Sound(m) && k < |m.queue|
    ensures SamePrefix(m, Advance(m, m.queue[k]), k)
  {
    var j := m.queue[k];
    AdvanceFrame(m, j);
    AdvancePrefix(m, k);
    DistinctFrom(m, k);
    hide Advance, Sound;
  }

  lemma DistinctFrom(m: Model, k: nat)
    requires Sound(m) && k < |m.queue|
    ensures forall i | 0 <= i < k :: m.queue[i] != m.queue[k] && m.queue[i] in m.locks
  {
  }

  lemma ShrunkAdvance(m: Model, id: int, p: int, k: nat)
    requires Shrunk(m, id, p) && k < |m.queue|
    ensures Shrunk(Advance(m, m.queue[k]), id, p) && Advance(m, m.queue[k]).locks[id] == m.locks[id]
  {
    var j := m.queue[k];
    assert j in m.queue;
    AdvanceFrame(m, j);
    AdvanceSound(m, j);
    AdvancePrefix(m, k);
  }

  lemma ResumeStep(m: Model, id: int, p: int, lo: nat, hi: nat)
    requires Shrunk(m, id, p) && Chunk(m, lo, hi, p) && lo < hi
    ensures var r := Advance(m, m.queue[hi - 1]);
      Shrunk(r, id, p) && Chunk(r, lo, hi - 1, p) && r.locks[id] == m.locks[id] && SamePrefix(m, r, hi - 1)
  {
    hide *;
    ShrunkKnown(m, id, p);
    ChunkKnown(m, lo, hi, p);
    ShrunkAdvance(m, id, p, hi - 1);
    AdvanceSamePrefix(m, hi - 1);
    ChunkPrefix(m, Advance(m, m.queue[hi - 1]), lo, hi, p);
  }

  lemma ChunkPrefix(m: Model, r: Model, lo: nat, hi: nat, p: int)
    requires Chunk(m, lo, hi, p) && lo < hi && SamePrefix(m, r, hi - 1)
    ensures Chunk(r, lo, hi - 1, p)
  {
    assert forall i | lo <= i < hi - 1 :: Stop(r, i) == Stop(m, i);
  }

  lemma ResumeUnfolds(m: Model, lo: nat, hi: nat)
    requires Known(m.locks, m.queue) && lo < hi <= |m.queue|
    ensures ResumeAll(m, lo, hi) == ResumeAll(Advance(m, m.queue[hi - 1]), lo, hi - 1)
  {
  }

  lemma ChunkKnown(m: Model, lo: nat, hi: nat, p: int)
    requires Chunk(m, lo, hi, p)
    ensures Known(m.locks, m.queue) && lo <= hi <= |m.queue| && (lo < hi ==> Stop(m, hi - 1) == p)
  {
  }

  lemma ResumeEmpty(m: Model, id: int, p: int, lo: nat)
    requires Shrunk(m, id, p) && lo <= |m.queue|
    ensures ResumeAll(m, lo, lo) == m && SamePrefix(m, m, lo)
  {
  }

  lemma {:induction false} ResumeKeeps(m: Model, id: int, p: int, lo: nat, hi: nat)
    requires Shrunk(m, id, p) && Chunk(m, lo, hi, p)
    ensures Known(m.locks, m.queue) && lo <= hi <= |m.queue|
    ensures var r := ResumeAll(m, lo, hi); Shrunk(r, id, p) && r.locks[id] == m.locks[id] && SamePrefix(m, r, lo)
    decreases hi - lo
  {
    hide *;
    ChunkKnown(m, lo, hi, p);
    if lo < hi {
      ResumeStep(m, id, p, lo, hi);
      var n := Advance(m, m.queue[hi - 1]);
      ResumeUnfolds(m, lo, hi);
      ResumeKeeps(n, id, p, lo, hi - 1);
      SamePrefixTrans(m, n, ResumeAll(m, lo, hi), hi - 1, lo);
    } else {
      ResumeEmpty(m, id, p, lo);
    }
  }

  lemma ChunkStep(m: Model, id: int, p: int, k: nat)
    requires Shrunk(m, id, p) && 0 < k <= |m.queue| && Stop(m, k - 1) == p
    ensures Walk(m, id, k) == Walk(Advance(m, m.queue[k - 1]), id, k - 1)
  {
    assert Truncate(m, id, p) == m by {
      assert m.locks[id := m.locks[id].(stop := p, end := p)] == m.locks;
    }
  }

  lemma SamePrefixKnown(m: Model, r: Model, k: nat)
    requires SamePrefix(m, r, k)
    ensures Known(m.locks, m.queue) && Known(r.locks, r.queue) && k <= |m.queue| && k <= |r.queue|
  {
  }

  lemma ShrunkKnown(m: Model, id: int, p: int)
    requires Shrunk(m, id, p)
    ensures id in m.locks && id !in m.queue && Known(m.locks, m.queue) && m.locks[id].start <= p == m.locks[id].stop
    ensures Sound(m)
  {
  }

  lemma {:induction false} WalkChunk(m: Model, id: int, p: int, lo: nat, hi: nat)
    requires Shrunk(m, id, p) && Chunk(m, lo, hi, p)
    ensures id in m.locks && Known(m.locks, m.queue) && lo <= hi <= |m.queue|
    ensures Known(ResumeAll(m, lo, hi).locks, ResumeAll(m, lo, hi).queue) && lo <= |ResumeAll(m, lo, hi).queue|
    ensures Walk(m, id, hi) == Walk(ResumeAll(m, lo, hi), id, lo)
    decreases hi - lo
  {
    hide *;
    ShrunkKnown(m, id, p);
    ChunkKnown(m, lo, hi, p);
    ResumeKeeps(m, id, p, lo, hi);
    SamePrefixKnown(m, ResumeAll(m, lo, hi), lo);
    if lo < hi {
      ChunkStep(m, id, p, hi);
      ResumeStep(m, id, p, lo, hi);
      ResumeUnfolds(m, lo, hi);
      WalkChunk(Advance(m, m.queue[hi - 1]), id, p, lo, hi - 1);
    } else {
      ResumeEmpty(m, id, p, lo);
    }
  }

  lemma BelowIs(m: Model, p: int, k: nat)
    requires Known(m.locks, m.queue) && k <= |m.queue|
    requires (forall i | 0 <= i < k :: Stop(m, i) < p) && (k < |m.queue| ==> Stop(m, k) >= p)
    ensures Below(m, p) == k
  {
    var b := Below(m, p);
    assert b < k ==> Stop(m, b) >= p;
  }

  lemma WithoutBehind(q: seq<int>, id: int, k: nat)
    requires k <= |q| && forall i | 0 <= i < k :: q[i] != id
    ensures k <= |Without(q, id)|
    ensures forall i | 0 <= i < k :: Without(q, id)[i] == q[i]
    ensures k < |Without(q, id)| ==> Without(q, id)[k] == q[if q[k] == id then k + 1 else k]
  {
  }

  /** Cancelling does not touch the waiters below. */
  lemma CancelBelow(m: Model, id: int, q: int)
    requires Sound(m) && id in m.locks && q <= m.locks[id].stop
    ensures var c := Cancel(m, id); SamePrefix(m, c, Below(m, q)) && Below(c, q) == Below(m, q)
  {
    var c, k := Cancel(m, id), Below(m, q);
    assert forall i | 0 <= i < k :: m.queue[i] != id;
    WithoutBehind(m.queue, id, k);
    assert SamePrefix(m, c, k);
    assert forall i | 0 <= i < k :: Stop(c, i) == Stop(m, i);
    if k < |c.queue| {
      var i := if m.queue[k] == id then k + 1 else k;
      BelowOn(m, q, i);
      CancelSound(m, id);
      assert c.queue[k] in c.queue;
    }
    BelowIs(c, q, k);
  }

  /** Releasing one index, as the walk sees it. */
  lemma ReleaseChunk(m: Model, id: int, p: int)
    requires Sound(m) && id in m.locks && id !in m.queue && m.locks[id].start <= p <= m.locks[id].stop
    ensures var t, lo, hi := Truncate(m, id, p), Below(m, p), Below(m, p + 1);
      && Shrunk(t, id, p) && Chunk(t, lo, hi, p) && ReleaseIndex(m, id, p) == ResumeAll(t, lo, hi)
  {
    var t, lo, hi := Truncate(m, id, p), Below(m, p), Below(m, p + 1);
    TruncateSound(m, id, p);
    TruncateShrinks(m, id, p);
    hide Sound, Below, Truncate;
    BelowMonotone(m, p, p + 1);
    BelowTruncated(m, id, p, p);
    BelowTruncated(m, id, p, p + 1);
    forall i | lo <= i < hi
      ensures Stop(t, i) == p
    {
      BelowOn(m, p, i);
      TruncateStops(m, id, p, i);
      BelowAt(m, p + 1, i);
    }
  }

  lemma TruncateShrinks(m: Model, id: int, p: int)
    requires id in m.locks && Known(m.locks, m.queue)
    ensures var t := Truncate(m, id, p);
      t.locks[id].start == m.locks[id].start && t.locks[id].stop == t.locks[id].end == p && id in t.locks
  {
  }

  lemma BelowAt(m: Model, p: int, i: nat)
    requires Known(m.locks, m.queue) && i < Below(m, p)
    ensures Stop(m, i) < p
  {
  }

  lemma TruncateStops(m: Model, id: int, p: int, i: nat)
    requires Sound(m) && id in m.locks && id !in m.queue && i < |m.queue|
    ensures Stop(Truncate(m, id, p), i) == Stop(m, i)
  {
  }

  /** Truncating does not touch the waiters. */
  lemma BelowTruncated(m: Model, id: int, p: int, q: int)
    requires Sound(m) && id in m.locks && id !in m.queue
    ensures Below(Truncate(m, id, p), q) == Below(m, q)
  {
  }

  lemma ReleaseKeeps(m: Model, id: int, p: int)
    requires Sound(m) && id in m.locks && id !in m.queue && m.locks[id].start <= p <= m.locks[id].stop
    ensures var r := ReleaseIndex(m, id, p);
      && Shrunk(r, id, p) && r.locks[id].start == m.locks[id].start
      && SamePrefix(m, r, Below(m, p)) && Below(r, p) == Below(m, p)
  {
    var t, lo, hi, r := Truncate(m, id, p), Below(m, p), Below(m, p + 1), ReleaseIndex(m, id, p);
    ReleaseChunk(m, id, p);
    TruncateSamePrefix(m, id, p);
    hide ReleaseIndex, ResumeAll, Sound, Truncate, Below, Shrunk, Chunk;
    ResumeKeeps(t, id, p, lo, hi);
    ResumeAbove(t, id, p, lo, hi);
    SamePrefixTrans(m, t, r, lo, lo);
    BelowIs(r, p, lo);
  }

  lemma TruncateSamePrefix(m: Model, id: int, p: int)
    requires Sound(m) && id in m.locks && id !in m.queue
    ensures var t := Truncate(m, id, p); SamePrefix(m, t, Below(m, p)) && forall i | Below(m, p) <= i < |t.queue| ::
      Stop(t, i) >= p
  {
  }

  lemma AdvanceAbove(m: Model, k: nat, lo: nat, p: int)
    requires Sound(m) && lo <= k < |m.queue| && (forall i | lo <= i < |m.queue| :: Stop(m, i) >= p)
    ensures Known(Advance(m, m.queue[k]).locks, Advance(m, m.queue[k]).queue)
    ensures forall i | lo <= i < |Advance(m, m.queue[k]).queue| :: Stop(Advance(m, m.queue[k]), i) >= p
  {
    var r := Advance(m, m.queue[k]);
    AdvanceFrame(m, m.queue[k]);
    AdvanceSamePrefix(m, k);
    forall i | lo <= i < |r.queue|
      ensures Stop(r, i) >= p
    {
      if i < k {
        assert Stop(m, i) >= p;
      } else {
        AdvanceSuffix(m, k, i);
        var n :| k <= n < |m.queue| && m.queue[n] == r.queue[i];
        assert Stop(m, n) >= p;
      }
    }
  }

  /** Nobody falls back below the released index. */
  lemma {:induction false} ResumeAbove(m: Model, id: int, p: int, lo: nat, hi: nat)
    requires Shrunk(m, id, p) && Chunk(m, lo, hi, p) && (forall i | lo <= i < |m.queue| :: Stop(m, i) >= p)
    ensures lo <= hi && forall i | lo <= i < |ResumeAll(m, lo, hi).queue| :: Stop(ResumeAll(m, lo, hi), i) >= p
    decreases hi - lo
  {
    ShrunkKnown(m, id, p);
    ChunkKnown(m, lo, hi, p);
    if lo < hi {
      assert Sound(m);
      hide *;
      ResumeStep(m, id, p, lo, hi);
      ResumeUnfolds(m, lo, hi);
      AdvanceAbove(m, hi - 1, lo, p);
      ResumeAbove(Advance(m, m.queue[hi - 1]), id, p, lo, hi - 1);
    } else {
      ResumeEmpty(m, id, p, lo);
    }
  }

  lemma PerIndexUnfolds(m: Model, id: int, p: int)
    requires id in m.locks && Known(m.locks, m.queue) && p > m.locks[id].start
    ensures PerIndex(m, id, p) == PerIndex(ReleaseIndex(m, id, p - 1), id, p - 1)
  {
  }

  lemma PerIndexStarts(m: Model, id: int, p: int)
    requires Sound(m) && id in m.locks && p <= m.locks[id].start
    ensures Walk(m, id, Below(m, p)) == PerIndex(m, id, p)
  {
  }

  /** Theorem: walking the waiters downwards releases exactly as an array of locks does, index by
      index in descending order. */
  lemma {:induction false} WalkIsPerIndex(m: Model, id: int, p: int)
    requires Sound(m) && id in m.locks && id !in m.queue && p <= m.locks[id].stop
    ensures Walk(m, id, Below(m, p)) == PerIndex(m, id, p)
    decreases p - m.locks[id].start
  {
    hide *;
    SoundSorted(m);
    if p > m.locks[id].start {
      var t, lo, hi, r := Truncate(m, id, p - 1), Below(m, p - 1), Below(m, p), ReleaseIndex(m, id, p - 1);
      ReleaseChunk(m, id, p - 1);
      ReleaseKeeps(m, id, p - 1);
      ShrunkKnown(r, id, p - 1);
      WalkIgnores(m, id, p - 1, hi);
      WalkChunk(t, id, p - 1, lo, hi);
      WalkIsPerIndex(r, id, p - 1);
      PerIndexUnfolds(m, id, p);
    } else {
      PerIndexStarts(m, id, p);
    }
  }
}
