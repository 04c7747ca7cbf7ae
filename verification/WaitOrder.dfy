/** First come, first served: waiters with the same claim keep the order in which they came. */
module WaitOrder {
  import opened LockModel
  import opened LockFacts
  import opened WalkFacts
  import opened Guarantees
  import opened Grants
  import opened Runs

  /** Both wait, and `a` is served before `b`. */
  predicate Ahead(q: seq<int>, a: int, b: int) {
    a in q && b in q && Position(q, b) < Position(q, a)
  }

  lemma WithoutAhead(q: seq<int>, id: int, a: int, b: int)
    requires Ahead(q, a, b) && id != a && id != b
    ensures Ahead(Without(q, id), a, b)
  {
    var r, k := Without(q, id), Position(q, id);
    hide Without;
    if k < |q| {
      var i, j := Position(q, b), Position(q, a);
      PositionIs(r, if i < k then i else i - 1, b);
      PositionIs(r, if j < k then j else j - 1, a);
    } else {
      WithoutNobody(q, id);
    }
  }

  lemma InsertPosition(q: seq<int>, k: nat, id: int, x: int)
    requires k <= |q| && x in q && x != id
    ensures Position(q[..k] + [id] + q[k..], x) == if Position(q, x) < k then Position(q, x) else Position(q, x) + 1
  {
    hide Position;
    var r, i := q[..k] + [id] + q[k..], Position(q, x);
    var n := if i < k then i else i + 1;
    assert forall j | 0 <= j < n :: r[j] != x by {
      assert forall j | 0 <= j < n :: r[j] == if j < k then q[j] else if j == k then id else q[j - 1];
    }
    PositionIs(r, n, x);
  }

  lemma InsertAhead(q: seq<int>, k: nat, id: int, a: int, b: int)
    requires k <= |q| && Ahead(q, a, b) && id != a && id != b
    ensures Ahead(q[..k] + [id] + q[k..], a, b)
  {
    InsertPosition(q, k, id, a);
    InsertPosition(q, k, id, b);
  }

  lemma InsertBehind(q: seq<int>, k: nat, id: int, a: int)
    requires k <= |q| && id !in q && a in q && k <= Position(q, a)
    ensures Ahead(q[..k] + [id] + q[k..], a, id)
  {
    InsertPosition(q, k, id, a);
    PositionIs(q[..k] + [id] + q[k..], k, id);
  }

  lemma EnqueueAhead(locks: map<int, Lock>, q: seq<int>, id: int, a: int, b: int)
    requires id in locks && Known(locks, q) && Ahead(q, a, b) && id != a && id != b
    ensures Ahead(Enqueue(locks, q, id), a, b)
  {
    hide Ahead, Place;
    InsertAhead(q, Place(locks, q, locks[id]), id, a, b);
  }

  lemma AheadIn(m: Model, a: int, b: int)
    requires Known(m.locks, m.queue) && Ahead(m.queue, a, b)
    ensures a in m.locks && b in m.locks && a in m.queue && b in m.queue
  {
  }

  // ----- Waiting behind another

  /** If `b` waits where `a` does, with no higher priority, then it waits behind. */
  ghost predicate Behind(m: Model, a: int, b: int) {
    && a in m.locks && a in m.queue && a != b
    && (b in m.locks && b in m.queue && m.locks[b].stop == m.locks[a].stop
        && m.locks[b].priority <= m.locks[a].priority ==>
      Ahead(m.queue, a, b))
  }

  lemma BehindIs(m: Model, a: int, b: int)
    requires Behind(m, a, b)
    ensures a in m.locks && a in m.queue
  {
  }

  /** The waiter `b` is moved up to where `a` waits, or elsewhere. */
  lemma ShiftBehind(m: Model, b: int, s: int, a: int)
    requires Known(m.locks, m.queue) && Distinct(m.queue) && b in m.locks && a in m.locks && a in m.queue && a != b
    ensures Behind(Shift(m, b, s), a, b)
  {
    WithoutFacts(m.queue, b);
    var locks, q := m.locks[b := m.locks[b].(stop := s)], Without(m.queue, b);
    assert Known(locks, q);
    if s < m.locks[b].end {
      EnqueueMembers(locks, q, b);
      if Le(locks[b], locks[a]) {
        EnqueueUnder(locks, q, b, a);
      }
    }
  }

  lemma EnqueueUnder(locks: map<int, Lock>, q: seq<int>, id: int, a: int)
    requires id in locks && a in locks && Known(locks, q) && id !in q && a in q && Le(locks[id], locks[a])
    ensures Ahead(Enqueue(locks, q, id), a, id)
  {
    hide Place, Ahead, Position;
    var k, j := Place(locks, q, locks[id]), Position(q, a);
    assert k <= j;
    InsertBehind(q, k, id, a);
  }

  /** Another waiter `j` is moved. */
  lemma ShiftOther(m: Model, j: int, s: int, a: int, b: int)
    requires Known(m.locks, m.queue) && Distinct(m.queue) && j in m.locks && j != a && j != b && Behind(m, a, b)
    ensures Behind(Shift(m, j, s), a, b)
  {
    WithoutFacts(m.queue, j);
    var locks, q := m.locks[j := m.locks[j].(stop := s)], Without(m.queue, j);
    assert Known(locks, q);
    if s < m.locks[j].end {
      EnqueueMembers(locks, q, j);
    }
    if Ahead(m.queue, a, b) {
      WithoutAhead(m.queue, j, a, b);
      if s < m.locks[j].end {
        EnqueueAhead(locks, q, j, a, b);
      }
    }
  }

  lemma AdvanceBehind(m: Model, j: int, a: int, b: int)
    requires Known(m.locks, m.queue) && Distinct(m.queue) && j in m.locks && Behind(m, a, b)
    requires a in Advance(m, j).locks && Advance(m, j).locks[a].stop == m.locks[a].stop
    ensures Behind(Advance(m, j), a, b)
  {
    var l := m.locks[j];
    var s := FirstBlocked(m.locks, l.write, l.stop, l.end);
    if s != l.stop {
      hide Behind, Ahead, Position;
      BehindIs(m, a, b);
      assert Advance(m, j) == Shift(m, j, s);
      if j == b {
        ShiftBehind(m, b, s, a);
      } else {
        ShiftOther(m, j, s, a, b);
      }
    }
  }

  /** A lock that does not wait changes or goes. */
  lemma TruncateBehind(m: Model, id: int, p: int, a: int, b: int)
    requires id in m.locks && Known(m.locks, m.queue) && id !in m.queue && Behind(m, a, b)
    ensures Behind(Truncate(m, id, p), a, b) && Behind(Drop(m, id), a, b) && id != a
  {
  }

  lemma StepBehind(m: Model, id: int, k: nat, a: int, b: int)
    requires Walking(m, id, k) && k > 0 && Stop(m, k - 1) >= m.locks[id].start && Behind(m, a, b)
    requires Advance(Truncate(m, id, Stop(m, k - 1)), m.queue[k - 1]).locks[a].stop == m.locks[a].stop
    ensures Behind(Advance(Truncate(m, id, Stop(m, k - 1)), m.queue[k - 1]), a, b)
  {
    hide Walking, Sound, Advance, Behind, Known;
    WalkingKnown(m, id, k);
    var t := Truncate(m, id, Stop(m, k - 1));
    TruncateBehind(m, id, Stop(m, k - 1), a, b);
    WalkTruncates(m, id, k);
    SteppingKnown(t, id, k - 1);
    SoundSorted(t);
    AdvanceBehind(t, m.queue[k - 1], a, b);
  }

  lemma {:induction false} WalkBehind(m: Model, id: int, k: nat, a: int, b: int)
    requires Walking(m, id, k) && Behind(m, a, b) && id != a
    requires id in m.locks && Known(m.locks, m.queue) && k <= |m.queue|
    requires a in Walk(m, id, k).locks && Walk(m, id, k).locks[a].stop == m.locks[a].stop
    ensures Behind(Walk(m, id, k), a, b)
    decreases k
  {
    hide Walking, Stepping, Known, Advance, Truncate, Sound, Behind;
    WalkingKnown(m, id, k);
    if k > 0 && Stop(m, k - 1) >= m.locks[id].start {
      var t := Truncate(m, id, Stop(m, k - 1));
      var n := Advance(t, m.queue[k - 1]);
      BehindIs(m, a, b);
      StepGrows(m, id, k, a);
      WalkTruncates(m, id, k);
      StepWalks(t, id, k - 1);
      WalkGrows(n, id, k - 1, a);
      StepBehind(m, id, k, a, b);
      WalkBehind(n, id, k - 1, a, b);
    } else {
      TruncateBehind(m, id, m.locks[id].start, a, b);
    }
  }

  lemma CancelBehind(m: Model, id: int, a: int, b: int)
    requires id in m.locks && Known(m.locks, m.queue) && Distinct(m.queue) && id != a && Behind(m, a, b)
    ensures Behind(Cancel(m, id), a, b)
  {
    WithoutFacts(m.queue, id);
    if id != b && Ahead(m.queue, a, b) {
      WithoutAhead(m.queue, id, a, b);
    }
  }

  lemma UnlockBehind(m: Model, id: int, a: int, b: int)
    requires Inv(m) && id in m.locks && id != a && Behind(m, a, b)
    requires Known(m.locks, m.queue) && a in Unlock(m, id).locks && Unlock(m, id).locks[a].stop == m.locks[a].stop
    ensures Behind(Unlock(m, id), a, b)
  {
    hide Inv, Sound, Walking, Walk, Behind;
    InvSound(m);
    SoundSorted(m);
    CancelWalks(m, id);
    CancelOthers(m, id);
    BehindIs(m, a, b);
    CancelBehind(m, id, a, b);
    var c := Cancel(m, id);
    WalkBehind(c, id, Below(c, m.locks[id].stop), a, b);
  }

  lemma AcquireBehind(m: Model, id: int, l: Lock, a: int, b: int)
    requires Sound(m) && Known(m.locks, m.queue) && id !in m.locks && id != a && Behind(m, a, b)
    ensures Behind(Acquire(m, id, l), a, b)
  {
    NotWaiting(m, id);
    SoundSorted(m);
    var s := FirstBlocked(m.locks, l.write, l.start, l.end);
    var locks := m.locks[id := l.(stop := s)];
    hide Sound, FirstBlocked, Enqueue, Place, Position;
    if s < l.end {
      EnqueueMembers(locks, m.queue, id);
      if id == b {
        if Le(locks[b], locks[a]) {
          EnqueueUnder(locks, m.queue, b, a);
        }
      } else if Ahead(m.queue, a, b) {
        EnqueueAhead(locks, m.queue, id, a, b);
      }
    }
  }

  lemma DoBehind(m: Model, c: Command, a: int, b: int)
    requires Inv(m) && Allowed(m, c) && c.id != a && Behind(m, a, b)
    requires a in Do(m, c).locks && Do(m, c).locks[a].stop == m.locks[a].stop
    ensures Behind(Do(m, c), a, b)
  {
    hide Inv, Acquire, Unlock, Behind, Known, Sound;
    InvSound(m);
    match c
    case LockRange(id, start, end, write, priority) => AcquireBehind(m, id, Request(start, end, write, priority), a, b);
    case TryLockRange(id, start, end, write, priority) =>
      AcquireBehind(m, id, Request(start, end, write, priority), a, b);
    case UnlockRange(id) => UnlockBehind(m, id, a, b);
  }

  lemma DoGrows(m: Model, c: Command, x: int)
    requires Inv(m) && Allowed(m, c) && c.id != x && x in m.locks
    ensures x in Do(m, c).locks && Grown(m.locks[x], Do(m, c).locks[x])
  {
    if c.UnlockRange? {
      UnlockFrame(m, c.id);
      hide Inv, Unlock;
      assert x in Unlock(m, c.id).locks.Keys;
    } else {
      hide Inv;
    }
  }

  /** Theorem: while a lock is not released it never loses an index, whatever the other commands. */
  lemma {:induction false} RunGrows(m: Model, cs: seq<Command>, x: int)
    requires Inv(m) && Legal(m, cs) && x in m.locks && forall c <- cs :: c.id != x
    ensures x in Run(m, cs).locks && Grown(m.locks[x], Run(m, cs).locks[x])
    decreases |cs|
  {
    if cs != [] {
      assert cs[0] in cs && forall c <- cs[1..] :: c in cs;
      DoInv(m, cs[0]);
      DoGrows(m, cs[0], x);
      hide Inv, Do, Known, Allowed;
      RunGrows(Do(m, cs[0]), cs[1..], x);
    }
  }

  lemma {:induction false} RunBehind(m: Model, cs: seq<Command>, a: int, b: int)
    requires Inv(m) && Legal(m, cs) && Behind(m, a, b) && forall c <- cs :: c.id != a
    requires a in Run(m, cs).locks && Run(m, cs).locks[a].stop == m.locks[a].stop
    ensures Behind(Run(m, cs), a, b)
    decreases |cs|
  {
    if cs != [] {
      hide Inv, Do, Known, Allowed, Behind;
      assert cs[0] in cs && forall c <- cs[1..] :: c in cs;
      BehindIs(m, a, b);
      DoInv(m, cs[0]);
      DoGrows(m, cs[0], a);
      RunGrows(Do(m, cs[0]), cs[1..], a);
      DoBehind(m, cs[0], a, b);
      RunBehind(Do(m, cs[0]), cs[1..], a, b);
    }
  }

  /** Whoever is behind another waiter of the same index is not first in line there. */
  lemma NotFirst(m: Model, p: int, a: int, b: int)
    requires Sound(m) && Ahead(m.queue, a, b) && a in m.locks && m.locks[a].stop == p
    ensures !FirstInLine(m, p, b)
  {
  }

  /** Theorem: the first in line at an index is ahead of everyone else who waits there, none of whom has
      a higher priority; and only the first in line is. */
  lemma FirstIsAhead(m: Model, p: int, f: int)
    requires Sound(m) && f in m.queue && f in m.locks && m.locks[f].stop == p
    ensures FirstInLine(m, p, f) <==>
      forall w <- m.queue | w != f && w in m.locks && m.locks[w].stop == p ::
        Ahead(m.queue, f, w) && m.locks[w].priority <= m.locks[f].priority
  {
  }

  /** Theorem: whoever comes to wait where `a` waits already, with no higher priority, waits behind it and
      is not first in line there, over any run; whether it is a new lock or was moved up by a release. */
  lemma FirstCome(m: Model, cs: seq<Command>, a: int, b: int)
    requires Inv(m) && Legal(m, cs) && a in m.queue && a in m.locks && a != b && forall c <- cs :: c.id != a
    requires b in m.queue && b in m.locks ==> m.locks[b].stop != m.locks[a].stop
    ensures var r, p := Run(m, cs), m.locks[a].stop;
      && a in r.locks && p <= r.locks[a].stop && Known(r.locks, r.queue)
      && (b in r.queue && b in r.locks && r.locks[b].stop == p == r.locks[a].stop
          && r.locks[b].priority <= r.locks[a].priority ==>
        Ahead(r.queue, a, b) && !FirstInLine(r, p, b))
  {
    var r := Run(m, cs);
    RunsFrom(m, cs);
    RunGrows(m, cs, a);
    InvSound(r);
    if r.locks[a].stop == m.locks[a].stop {
      RunBehind(m, cs, a, b);
      if Ahead(r.queue, a, b) {
        NotFirst(r, m.locks[a].stop, a, b);
      }
    }
  }

  /** Theorem: as long as two waiters stay where they are, whatever else happens, the one that is
      served first stays the one that is served first. */
  lemma OrderKept(m: Model, cs: seq<Command>, a: int, b: int)
    requires Inv(m) && Legal(m, cs) && Ahead(m.queue, a, b) && forall c <- cs :: c.id != a && c.id != b
    ensures var r := Run(m, cs);
      && a in m.locks && b in m.locks && a in r.locks && b in r.locks
      && Grown(m.locks[a], r.locks[a]) && Grown(m.locks[b], r.locks[b])
      && (r.locks[a].stop == m.locks[a].stop && r.locks[b].stop == m.locks[b].stop ==> Ahead(r.queue, a, b))
  {
    InvSound(m);
    AheadIn(m, a, b);
    var r := Run(m, cs);
    RunsFrom(m, cs);
    RunGrows(m, cs, a);
    RunGrows(m, cs, b);
    InvSound(r);
    AheadLe(m, a, b);
    hide Inv, Sound, Run, Legal;
    if r.locks[a].stop == m.locks[a].stop && r.locks[b].stop == m.locks[b].stop {
      InQueueIff(m, a);
      InQueueIff(m, b);
      InQueueIff(r, a);
      InQueueIff(r, b);
      if m.locks[a].stop == m.locks[b].stop {
        RunBehind(m, cs, a, b);
      } else {
        HigherAhead(r, a, b);
      }
    }
  }

  lemma AheadLe(m: Model, a: int, b: int)
    requires Sound(m) && Ahead(m.queue, a, b) && a in m.locks && b in m.locks
    ensures Le(m.locks[b], m.locks[a]) && a != b
  {
  }

  lemma HigherAhead(m: Model, a: int, b: int)
    requires Sound(m) && a in m.queue && b in m.queue && a in m.locks && b in m.locks
    requires m.locks[b].stop < m.locks[a].stop
    ensures Ahead(m.queue, a, b)
  {
  }

  // ----- The scenario of the repository's own test

  lemma Nobody(write: bool, lo: int, hi: int)
    requires lo <= hi
    ensures FirstBlocked(map[], write, lo, hi) == hi
  {
  }

  lemma BlockedAt(locks: map<int, Lock>, id: int, write: bool, lo: int, hi: int)
    requires id in locks && lo < hi && Clash(locks[id], write, lo)
    ensures FirstBlocked(locks, write, lo, hi) == lo
  {
  }

  /** Lock 1 writes `[0, 4)`; locks 2 and 3 wait for index 0, in this order. */
  function Scenario(write2: bool, write3: bool): Model {
    Model(map[1 := Lock(0, 4, true, 0, 4), 2 := Lock(0, 3, write2, 0, 0), 3 := Lock(0, 2, write3, 0, 0)], [3, 2], [])
  }

  lemma ScenarioArises(write2: bool, write3: bool)
    ensures var m1 := Acquire(EMPTY, 1, Request(0, 4, true, 0));
      && Known(m1.locks, m1.queue)
      && var m2 := Acquire(m1, 2, Request(0, 3, write2, 0));
      && Known(m2.locks, m2.queue)
      && Acquire(m2, 3, Request(0, 2, write3, 0)) == Scenario(write2, write3)
  {
    Nobody(true, 0, 4);
    var m1 := Acquire(EMPTY, 1, Request(0, 4, true, 0));
    BlockedAt(m1.locks, 1, write2, 0, 3);
    var m2 := Acquire(m1, 2, Request(0, 3, write2, 0));
    assert m2 == Model(m1.locks[2 := Lock(0, 3, write2, 0, 0)], [2], []);
    BlockedAt(m2.locks, 1, write3, 0, 2);
    hide FirstBlocked;
    var m3 := Acquire(m2, 3, Request(0, 2, write3, 0));
    assert Place(m3.locks, [2], m3.locks[3]) == 0;
    assert m3.queue == [3, 2];
    assert m3.locks == Scenario(write2, write3).locks;
  }

  lemma ScenarioInv(write2: bool, write3: bool)
    ensures Inv(Scenario(write2, write3))
  {
    ScenarioArises(write2, write3);
    EmptyInv();
    hide Inv, FirstBlocked, Enqueue;
    var m1 := Acquire(EMPTY, 1, Request(0, 4, true, 0));
    var m2 := Acquire(m1, 2, Request(0, 3, write2, 0));
    RequestInv(EMPTY, 1, 0, 4, true);
    RequestInv(m1, 2, 0, 3, write2);
    RequestInv(m2, 3, 0, 2, write3);
  }

  lemma RequestInv(m: Model, id: int, start: int, end: int, write: bool)
    requires Inv(m) && Known(m.locks, m.queue) && start <= end && id !in m.locks
    ensures Inv(Acquire(m, id, Request(start, end, write, 0)))
  {
    AcquireInv(m, id, Request(start, end, write, 0));
  }

  lemma ScenarioFirst(write2: bool, write3: bool)
    ensures FirstInLine(Scenario(write2, write3), 0, 2)
  {
  }

  /** Theorem: lock 1's release serves lock 2 first, whatever the modes, and index 2 stays taken. */
  lemma WaitlistIsFifo(write2: bool, write3: bool)
    ensures var m := Scenario(write2, write3);
      Known(m.locks, m.queue) && FirstBlocked(Unlock(m, 1).locks, true, 2, 3) == 2
  {
    var m := Scenario(write2, write3);
    ScenarioInv(write2, write3);
    ScenarioFirst(write2, write3);
    InvSound(m);
    UnlockGrants(m, 1, 0, 2, 2);
    UnlockInv(m, 1);
    UnlockFrame(m, 1);
    var u := Unlock(m, 1);
    assert u.locks.Keys == {2, 3};
    hide Unlock, FirstInLine;
    LockTwoHolds(u, write2, write3);
    BlockedAt(u.locks, 2, true, 2, 3);
  }

  lemma LockTwoHolds(u: Model, write2: bool, write3: bool)
    requires Inv(u) && u.locks.Keys == {2, 3} && u.locks[2] == Lock(0, 3, write2, 0, u.locks[2].stop)
    requires Holds(u.locks[2], 0)
    requires u.locks[3] == Lock(0, 2, write3, 0, u.locks[3].stop)
    ensures u.locks[2].stop == 3
  {
  }
}
