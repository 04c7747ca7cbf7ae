/** What a release promises to everyone else: no region shrinks, every waiter in the released range
    is visited once, freed indices go to the first in line, and no completion is lost. */
module Guarantees {
  import opened LockModel
  import opened LockFacts
  import opened WalkFacts
  import opened Release

  // ----- Frame and monotonicity

  /** `b` is `a`, except that it may hold more. */
  predicate Grown(a: Lock, b: Lock) {
    b == a.(stop := b.stop) && a.stop <= b.stop
  }

  lemma StepGrows(m: Model, id: int, k: nat, x: int)
    requires Walking(m, id, k) && k > 0 && x in m.locks && x != id
    ensures var r := Advance(Truncate(m, id, Stop(m, k - 1)), m.queue[k - 1]);
      x in r.locks && Grown(m.locks[x], r.locks[x])
  {
    AdvanceFrame(Truncate(m, id, Stop(m, k - 1)), m.queue[k - 1]);
  }

  lemma {:induction false} WalkGrows(m: Model, id: int, k: nat, x: int)
    requires Walking(m, id, k) && x in m.locks && x != id
    ensures id in m.locks && Known(m.locks, m.queue) && k <= |m.queue|
    ensures x in Walk(m, id, k).locks && Grown(m.locks[x], Walk(m, id, k).locks[x])
    decreases k
  {
    hide Walking, Stepping, Known, Advance, Truncate, Sound;
    WalkingKnown(m, id, k);
    if k > 0 && Stop(m, k - 1) >= m.locks[id].start {
      WalkTruncates(m, id, k);
      StepGrows(m, id, k, x);
      StepWalks(Truncate(m, id, Stop(m, k - 1)), id, k - 1);
      WalkGrows(Advance(Truncate(m, id, Stop(m, k - 1)), m.queue[k - 1]), id, k - 1, x);
    }
  }

  /** Theorem: a release removes exactly the released lock; every other lock keeps its request and
      everything it held, and waits where it waited or further on. */
  lemma UnlockFrame(m: Model, id: int)
    requires Inv(m) && id in m.locks
    ensures var u := Unlock(m, id);
      && u.locks.Keys == m.locks.Keys - {id}
      && forall x <- u.locks.Keys :: Grown(m.locks[x], u.locks[x])
  {
    CancelWalks(m, id);
    UnlockInv(m, id);
    var c, u := Cancel(m, id), Unlock(m, id);
    hide Inv, Walking, Walk;
    forall x <- u.locks.Keys
      ensures Grown(m.locks[x], u.locks[x])
    {
      WalkGrows(c, id, Below(c, m.locks[id].stop), x);
    }
  }

  // ----- Every waiter of the released range is visited once

  /** The waiters in the order in which the walk resumes them. */
  function Visits(m: Model, id: int, k: nat): seq<int>
    requires id in m.locks && Known(m.locks, m.queue) && k <= |m.queue|
    decreases k
  {
    if k == 0 || Stop(m, k - 1) < m.locks[id].start then []
    else [m.queue[k - 1]] + Visits(Advance(Truncate(m, id, Stop(m, k - 1)), m.queue[k - 1]), id, k - 1)
  }

  lemma TruncatePrefix(m: Model, id: int, p: int, k: nat)
    requires Sound(m) && id in m.locks && id !in m.queue && k <= |m.queue|
    ensures SamePrefix(m, Truncate(m, id, p), k)
  {
    assert forall i | 0 <= i < |m.queue| :: m.queue[i] in m.queue;
  }

  lemma StepPrefix(m: Model, id: int, k: nat)
    requires Walking(m, id, k) && k > 0 && Stop(m, k - 1) >= m.locks[id].start
    ensures id in m.locks && Known(m.locks, m.queue) && k <= |m.queue|
    ensures SamePrefix(m, Advance(Truncate(m, id, Stop(m, k - 1)), m.queue[k - 1]), k - 1)
  {
    hide *;
    WalkingKnown(m, id, k);
    var p := Stop(m, k - 1);
    var t := Truncate(m, id, p);
    WalkTruncates(m, id, k);
    SteppingKnown(t, id, k - 1);
    TruncatePrefix(m, id, p, k - 1);
    AdvanceSamePrefix(t, k - 1);
    SamePrefixTrans(m, t, Advance(t, m.queue[k - 1]), k - 1, k - 1);
  }

  /** Theorem: the walk visits the waiters at queue positions `[Below(start), k)`, each exactly once
      and in reverse, however they move meanwhile. */
  lemma {:induction false} WalkVisits(m: Model, id: int, k: nat)
    requires Walking(m, id, k) && Below(m, m.locks[id].start) <= k
    ensures id in m.locks && Known(m.locks, m.queue) && k <= |m.queue|
    ensures var v := Visits(m, id, k); |v| == k - Below(m, m.locks[id].start) && forall i | 0 <= i < |v| ::
      v[i] == m.queue[k - 1 - i]
    decreases k
  {
    hide Walking, Stepping, Advance, Truncate, Below, Sound, SamePrefix, Stop;
    WalkingKnown(m, id, k);
    var lo := Below(m, m.locks[id].start);
    if k > lo {
      BelowOn(m, m.locks[id].start, k - 1);
      StepPrefix(m, id, k);
      WalkTruncates(m, id, k);
      var t := Truncate(m, id, Stop(m, k - 1));
      StepWalks(t, id, k - 1);
      var r := Advance(t, m.queue[k - 1]);
      StepBelow(m, r, id, k);
      WalkVisits(r, id, k - 1);
      VisitsStep(m, r, id, k);
    } else {
      VisitsNone(m, id, k);
    }
  }

  lemma VisitsNone(m: Model, id: int, k: nat)
    requires id in m.locks && Known(m.locks, m.queue) && k <= |m.queue| && k == Below(m, m.locks[id].start)
    ensures Visits(m, id, k) == []
  {
  }

  lemma VisitsStep(m: Model, r: Model, id: int, k: nat)
    requires id in m.locks && Known(m.locks, m.queue) && 0 < k <= |m.queue| && Stop(m, k - 1) >= m.locks[id].start
    requires r == Advance(Truncate(m, id, Stop(m, k - 1)), m.queue[k - 1]) && SamePrefix(m, r, k - 1)
    requires var v := Visits(r, id, k - 1); |v| <= k - 1 && forall i | 0 <= i < |v| :: v[i] == r.queue[k - 2 - i]
    ensures var v := Visits(m, id, k);
      |v| == |Visits(r, id, k - 1)| + 1 && |v| <= k && forall i | 0 <= i < |v| :: v[i] == m.queue[k - 1 - i]
  {
    hide Advance, Truncate;
    assert forall i | 0 <= i < k - 1 :: r.queue[i] == m.queue[i];
  }

  lemma StepBelow(m: Model, r: Model, id: int, k: nat)
    requires k > 0 && SamePrefix(m, r, k - 1) && id in m.locks && id in r.locks
    requires r.locks[id].start == m.locks[id].start
    requires Below(m, m.locks[id].start) < k && Walking(r, id, k - 1)
    ensures Below(r, m.locks[id].start) == Below(m, m.locks[id].start)
  {
    var p, lo := m.locks[id].start, Below(m, m.locks[id].start);
    assert forall i | 0 <= i < lo :: Stop(r, i) == Stop(m, i);
    assert lo < k - 1 ==> Stop(r, lo) == Stop(m, lo);
    assert lo == k - 1 && lo < |r.queue| ==> Stop(r, lo) >= r.locks[id].stop >= p;
    BelowIs(r, p, lo);
  }

  lemma BelowIff(m: Model, p: int, i: nat)
    requires Sound(m) && i < |m.queue|
    ensures i < Below(m, p) <==> Stop(m, i) < p
  {
    if i >= Below(m, p) {
      BelowOn(m, p, i);
    }
  }

  /** Exactly the waiters at queue positions `[lo, hi)` wait inside `[p, q)`. */
  ghost predicate Between(m: Model, lo: int, hi: int, p: int, q: int)
    requires Known(m.locks, m.queue)
  {
    forall i | 0 <= i < |m.queue| :: lo <= i < hi <==> p <= Stop(m, i) < q
  }

  lemma BetweenIs(m: Model, p: int, q: int)
    requires Sound(m) && Known(m.locks, m.queue)
    ensures Between(m, Below(m, p), Below(m, q), p, q)
  {
    hide Sound, Below;
    forall i | 0 <= i < |m.queue|
      ensures Below(m, p) <= i < Below(m, q) <==> p <= Stop(m, i) < q
    {
      BelowIff(m, p, i);
      BelowIff(m, q, i);
    }
  }

  /** The walk of `id` visits the waiters of `[start, stop)`, in reverse. */
  ghost predicate VisitsRegion(c: Model, id: int, start: int, stop: int)
    requires id in c.locks && Known(c.locks, c.queue)
  {
    var lo, k, v := Below(c, start), Below(c, stop), Visits(c, id, Below(c, stop));
    && |v| == k - lo && (forall i | 0 <= i < |v| :: v[i] == c.queue[k - 1 - i])
    && Between(c, lo, k, start, stop)
  }

  lemma RegionVisits(c: Model, id: int, stop: int)
    requires Known(c.locks, c.queue) && Walking(c, id, Below(c, stop)) && c.locks[id].start <= stop
    ensures VisitsRegion(c, id, c.locks[id].start, stop)
  {
    hide Walking, Sound, Below, Visits, Stop, Between, Known;
    WalkingKnown(c, id, Below(c, stop));
    BelowMonotone(c, c.locks[id].start, stop);
    BetweenIs(c, c.locks[id].start, stop);
    WalkVisits(c, id, Below(c, stop));
  }

  /** Theorem: releasing a lock visits every waiter whose index lies in the region it held, each once,
      from the highest index down and at one index in the order of the line. */
  lemma UnlockVisits(m: Model, id: int)
    requires Inv(m) && id in m.locks
    ensures VisitsRegion(Cancel(m, id), id, m.locks[id].start, m.locks[id].stop)
  {
    InvSound(m);
    CancelWalks(m, id);
    CancelAt(m, id);
    hide Inv, Walking, Cancel, Sound, VisitsRegion;
    RegionVisits(Cancel(m, id), id, m.locks[id].stop);
  }

  // ----- Exclusion inside a release

  /** Every model the walk passes through: shrunk, then with one waiter resumed. */
  function Trace(m: Model, id: int, k: nat): seq<Model>
    requires id in m.locks && Known(m.locks, m.queue) && k <= |m.queue|
    decreases k
  {
    if k == 0 || Stop(m, k - 1) < m.locks[id].start then [m, Drop(m, id)]
    else
      var t := Truncate(m, id, Stop(m, k - 1));
      [m, t] + Trace(Advance(t, m.queue[k - 1]), id, k - 1)
  }

  /** Theorem: the trace has every state of the release: for each waiter visited the one before, the one shrunk
      to the waiter's index and the one in which the waiter has resumed; and last the one without the lock. */
  lemma {:induction false} TraceSteps(m: Model, id: int, k: nat)
    requires id in m.locks && Known(m.locks, m.queue) && k <= |m.queue|
    ensures Passes(Trace(m, id, k), Visits(m, id, k), m, id)
    decreases k
  {
    hide Truncate, Advance, Visited, Passes;
    if k == 0 || Stop(m, k - 1) < m.locks[id].start {
      PassesNone(m, id);
    } else {
      var t, x := Truncate(m, id, Stop(m, k - 1)), m.queue[k - 1];
      TraceSteps(Advance(t, x), id, k - 1);
      IsVisited(m, id, x);
      PassesMore(Trace(Advance(t, x), id, k - 1), Visits(Advance(t, x), id, k - 1), m, t, Advance(t, x), id, x);
    }
  }

  ghost predicate Passes(tr: seq<Model>, v: seq<int>, m: Model, id: int) {
    && |tr| == 2 * |v| + 2 && tr[0] == m
    && (forall j | 0 <= j < |v| :: Visited(tr[2 * j], tr[2 * j + 1], tr[2 * j + 2], id, v[j]))
    && tr[2 * |v| + 1] == Drop(tr[2 * |v|], id)
  }

  lemma PassesNone(m: Model, id: int)
    ensures Passes([m, Drop(m, id)], [], m, id)
  {
  }

  lemma PassesMore(tr: seq<Model>, v: seq<int>, m: Model, t: Model, n: Model, id: int, x: int)
    requires Passes(tr, v, n, id) && Visited(m, t, n, id, x)
    ensures Passes([m, t] + tr, [x] + v, m, id)
  {
    hide Visited;
    var tr2, v2 := [m, t] + tr, [x] + v;
    forall j | 0 <= j < |v2|
      ensures Visited(tr2[2 * j], tr2[2 * j + 1], tr2[2 * j + 2], id, v2[j])
    {
      if j > 0 {
        assert Visited(tr[2 * (j - 1)], tr[2 * (j - 1) + 1], tr[2 * (j - 1) + 2], id, v[j - 1]);
      }
    }
  }

  lemma IsVisited(m: Model, id: int, x: int)
    requires id in m.locks && x in m.locks && Known(m.locks, m.queue)
    ensures var t := Truncate(m, id, m.locks[x].stop); Visited(m, t, Advance(t, x), id, x)
  {
  }

  /** The lock that is released shrinks to the index of the waiter `x`, who then resumes. */
  ghost predicate Visited(before: Model, shrunk: Model, after: Model, id: int, x: int) {
    && id in before.locks && x in before.locks && Known(before.locks, before.queue)
    && shrunk == Truncate(before, id, before.locks[x].stop) && after == Advance(shrunk, x)
  }

  /** Theorem: at every step of a release no two locks conflict. */
  lemma {:induction false} WalkExclusive(m: Model, id: int, k: nat)
    requires Walking(m, id, k)
    ensures id in m.locks && Known(m.locks, m.queue) && k <= |m.queue|
    ensures forall s <- Trace(m, id, k) :: Sound(s)
    ensures Trace(m, id, k)[|Trace(m, id, k)| - 1] == Walk(m, id, k)
    decreases k
  {
    hide Walking, Stepping, Known, Truncate, Advance, Sound, Drop;
    WalkingKnown(m, id, k);
    if k == 0 || Stop(m, k - 1) < m.locks[id].start {
      DropSound(m, id);
    } else {
      var t := Truncate(m, id, Stop(m, k - 1));
      WalkTruncates(m, id, k);
      SteppingKnown(t, id, k - 1);
      StepWalks(t, id, k - 1);
      WalkExclusive(Advance(t, m.queue[k - 1]), id, k - 1);
    }
  }

  /** Theorem: from the moment a lock is given up until it is gone no two locks conflict, and the
      last of these models is the one the release leaves. */
  lemma ReleaseExclusive(m: Model, id: int)
    requires Inv(m) && id in m.locks
    ensures Known(m.locks, m.queue)
    ensures var tr := Trace(Cancel(m, id), id, Below(Cancel(m, id), m.locks[id].stop));
      && tr[0] == Cancel(m, id) && tr[|tr| - 1] == Unlock(m, id)
      && forall s <- tr :: Exclusive(s.locks) && Shaped(s.locks) && Queued(s.locks, s.queue)
  {
    var c := Cancel(m, id);
    CancelWalks(m, id);
    hide Inv, Walking, Walk, Cancel;
    WalkExclusive(c, id, Below(c, m.locks[id].stop));
  }

  // ----- Completions

  lemma {:induction false} MultisetSplit(q: seq<int>, k: nat)
    requires k < |q|
    ensures multiset(q) == multiset(q[..k]) + multiset{q[k]} + multiset(q[k + 1..])
  {
    assert q == q[..k] + [q[k]] + q[k + 1..];
  }

  lemma WithoutCounts(q: seq<int>, id: int)
    ensures id in q ==> multiset(q) == multiset(Without(q, id)) + multiset{id}
    ensures id !in q ==> Without(q, id) == q
  {
    var k := Position(q, id);
    if k < |q| {
      MultisetSplit(q, k);
    }
  }

  lemma EnqueueCounts(locks: map<int, Lock>, q: seq<int>, id: int)
    requires id in locks && Known(locks, q)
    ensures multiset(Enqueue(locks, q, id)) == multiset(q) + multiset{id}
  {
    var k := Place(locks, q, locks[id]);
    assert q == q[..k] + q[k..];
  }

  ghost function Ledger(m: Model): multiset<int> {
    multiset(m.queue) + multiset(m.done)
  }

  lemma AdvanceLedger(m: Model, id: int)
    requires id in m.queue && Known(m.locks, m.queue)
    ensures Ledger(Advance(m, id)) == Ledger(m)
  {
    WithoutCounts(m.queue, id);
    var l := m.locks[id];
    var s := FirstBlocked(m.locks, l.write, l.stop, l.end);
    var locks := m.locks[id := l.(stop := s)];
    assert Known(locks, Without(m.queue, id));
    EnqueueCounts(locks, Without(m.queue, id), id);
  }

  lemma {:induction false} WalkLedger(m: Model, id: int, k: nat)
    requires id in m.locks && Known(m.locks, m.queue) && k <= |m.queue|
    ensures Ledger(Walk(m, id, k)) == Ledger(m)
    decreases k
  {
    if k > 0 && Stop(m, k - 1) >= m.locks[id].start {
      var t := Truncate(m, id, Stop(m, k - 1));
      assert t.queue[k - 1] in t.queue;
      AdvanceLedger(t, m.queue[k - 1]);
      assert Ledger(t) == Ledger(m);
      hide Advance, Truncate, Ledger;
      WalkLedger(Advance(t, m.queue[k - 1]), id, k - 1);
    }
  }

  /** Theorem: a release loses no waiter and invents none. The token of the released lock comes back
      to the caller iff it was still waiting. */
  lemma UnlockLedger(m: Model, id: int)
    requires Inv(m) && id in m.locks
    ensures Ledger(m) == Ledger(Unlock(m, id)) + (if id in m.queue then multiset{id} else multiset{})
  {
    var c := Cancel(m, id);
    WithoutCounts(m.queue, id);
    WalkLedger(c, id, Below(c, m.locks[id].stop));
  }

  lemma {:induction false} DistinctCounts(q: seq<int>, x: int)
    requires Distinct(q)
    ensures multiset(q)[x] == if x in q then 1 else 0
  {
    if q != [] {
      var r := q[..|q| - 1];
      assert q == r + [q[|q| - 1]];
      DistinctCounts(r, x);
    }
  }

  /** Theorem: a release reports exactly the locks it completes, each once. */
  lemma UnlockReports(m: Model, id: int, x: int)
    requires Inv(m) && id in m.locks && x in m.locks && x != id
    ensures x in Unlock(m, id).locks
    ensures var u := Unlock(m, id);
      multiset(u.done)[x] == multiset(m.done)[x]
        + (if m.locks[x].stop < m.locks[x].end == u.locks[x].stop then 1 else 0)
  {
    UnlockLedger(m, id);
    UnlockInv(m, id);
    UnlockFrame(m, id);
    var u := Unlock(m, id);
    DistinctCounts(m.queue, x);
    DistinctCounts(u.queue, x);
    assert x in u.locks.Keys && Grown(m.locks[x], u.locks[x]);
    assert x in m.queue <==> m.locks[x].stop < m.locks[x].end;
    assert x in u.queue <==> u.locks[x].stop < u.locks[x].end;
    hide Unlock;
    assert Ledger(m)[x] == Ledger(u)[x];
  }
}
