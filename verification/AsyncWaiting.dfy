/** The future-oriented form: every pending borrow has a slot for a waker, guarded by the mutex that
    guards the core, so that each operation is one step. */
module AsyncWaiting {
  import opened Options
  import opened LockModel
  import opened WalkFacts
  import opened Guarantees
  import opened Runs
  import opened Reports
  import opened Requests
  import Core

  /** Incomplete locks, and only they, have a slot. */
  ghost predicate Slots(locks: map<int, Lock>, slots: map<int, Option<int>>) {
    && (forall id <- slots.Keys :: id in locks && !Complete(locks[id]))
    && (forall id <- locks.Keys :: !Complete(locks[id]) ==> id in slots)
  }

  /** A poll that was told to wait: with which waker, and how many wakes there had been by then. */
  datatype Poll = Poll(waker: int, since: nat)

  /** A wake on behalf of the lock `id`. */
  datatype Wake = Wake(id: int, waker: int)

  /** Since that poll whoever polled has been woken on behalf of the lock `id`. */
  ghost predicate Woken(id: int, poll: Poll, log: seq<Wake>, task: int -> int) {
    exists k | poll.since <= k < |log| :: log[k].id == id && task(log[k].waker) == task(poll.waker)
  }

  /** The promise to the last poller of `id` is kept: it will be woken or has been. */
  ghost predicate Kept(id: int, waiting: bool, slots: map<int, Option<int>>, polls: map<int, Poll>, log: seq<Wake>,
          task: int -> int)
    requires id in polls
  {
    && polls[id].since <= |log|
    && if waiting then id in slots && slots[id].Some? && task(slots[id].value) == task(polls[id].waker)
       else Woken(id, polls[id], log, task)
  }

  ghost predicate AllKept(locks: map<int, Lock>, slots: map<int, Option<int>>, polls: map<int, Poll>, log: seq<Wake>,
          task: int -> int) {
    forall id <- polls.Keys :: id in locks && Kept(id, !Complete(locks[id]), slots, polls, log, task)
  }

  /** The wakes that the locks of `done` give rise to, in order. */
  ghost function Wakers(slots: map<int, Option<int>>, done: seq<int>): seq<Wake> {
    if done == [] then []
    else
      var x := done[|done| - 1];
      Wakers(slots, done[..|done| - 1]) + if x in slots && slots[x].Some? then [Wake(x, slots[x].value)] else []
  }

  lemma WakersNext(slots: map<int, Option<int>>, done: seq<int>, i: nat)
    requires i < |done|
    ensures Wakers(slots, done[..i + 1]) ==
      Wakers(slots, done[..i]) +
      if done[i] in slots && slots[done[i]].Some? then [Wake(done[i], slots[done[i]].value)] else []
  {
    assert done[..i + 1][..i] == done[..i];
  }

  lemma {:induction false} WakersHave(slots: map<int, Option<int>>, done: seq<int>, x: int)
    requires x in done && x in slots && slots[x].Some?
    ensures Wake(x, slots[x].value) in Wakers(slots, done)
  {
    if done[|done| - 1] != x {
      assert done == done[..|done| - 1] + [done[|done| - 1]];
      WakersHave(slots, done[..|done| - 1], x);
    }
  }

  lemma WokenGrows(id: int, poll: Poll, log: seq<Wake>, more: seq<Wake>, task: int -> int)
    requires Woken(id, poll, log, task)
    ensures Woken(id, poll, log + more, task)
  {
    var k :| poll.since <= k < |log| && log[k].id == id && task(log[k].waker) == task(poll.waker);
    assert (log + more)[k] == log[k];
  }

  lemma WokenIn(id: int, waker: int, w: Wake, log: seq<Wake>, more: seq<Wake>, task: int -> int)
    requires w in more && w.id == id && task(w.waker) == task(waker)
    ensures Woken(id, Poll(waker, |log|), log + more, task)
  {
    var k :| 0 <= k < |more| && more[k] == w;
    assert (log + more)[|log| + k] == w;
  }

  /** Whoever polled for a lock that this release completes is woken by the release itself. */
  lemma WokenNow(m: Model, id: int, slots: map<int, Option<int>>, ps: map<int, Poll>, log: seq<Wake>, task: int -> int,
          x: int)
    requires Inv(m) && id in m.locks && Known(m.locks, m.queue) && AllKept(m.locks, slots, ps, log, task)
    requires x in ps && Completes(m, LockModel.Unlock(m, id), id, x)
    ensures Woken(x, Poll(ps[x].waker, |log|), log + Wakers(slots - {id}, Reported(m, id)), task)
  {
    hide LockModel.Unlock, Inv, AllKept, Wakers;
    KeptAt(m.locks, slots, ps, log, task, x);
    ReportedExactly(m, id, x);
    WakersHave(slots - {id}, Reported(m, id), x);
    WokenIn(x, ps[x].waker, Wake(x, slots[x].value), log, Wakers(slots - {id}, Reported(m, id)), task);
  }

  /** The slots that are left when the locks of `done` have been told. */
  ghost predicate Left(s0: map<int, Option<int>>, slots: map<int, Option<int>>, done: seq<int>) {
    && (forall x <- slots.Keys :: x in s0 && slots[x] == s0[x] && x !in done)
    && (forall x <- s0.Keys :: x !in done ==> x in slots)
  }

  lemma LeftNext(s0: map<int, Option<int>>, slots: map<int, Option<int>>, done: seq<int>, i: nat)
    requires i < |done| && Left(s0, slots, done[..i]) && done[i] in slots
    ensures Left(s0, slots - {done[i]}, done[..i + 1]) && done[i] in s0 && slots[done[i]] == s0[done[i]]
  {
    assert done[i] in slots.Keys;
    var d := done[..i];
    assert done[..i + 1] == d + [done[i]];
    assert forall x :: x in d + [done[i]] <==> x in d || x == done[i];
  }

  lemma NoneLeft(slots: map<int, Option<int>>)
    ensures Left(slots, slots, []) && Wakers(slots, []) == []
  {
  }

  class AsyncLock {
    const core: Core.LockCore
    /** Whether waking one waker does for another; then they wake the same task. */
    const willWake: (int, int) -> bool
    ghost const task: int -> int
    var slots: map<int, Option<int>>
    /** Every wake so far. */
    var log: seq<Wake>
    /** The latest poll of each lock that was told to wait. */
    ghost var polls: map<int, Poll>

    constructor (willWake: (int, int) -> bool, ghost task: int -> int)
      requires forall a, b :: willWake(a, b) ==> task(a) == task(b)
      ensures Valid() && core.model == EMPTY && fresh(core) && this.task == task
    {
      hide Core.LockCore.Linked, Inv;
      core := new Core.LockCore();
      this.willWake, this.task := willWake, task;
      slots, log, polls := map[], [], map[];
      new;
    }

    ghost predicate Waiting()
      reads this, core
    {
      && Slots(core.model.locks, slots) && AllKept(core.model.locks, slots, polls, log, task)
      && forall a, b :: willWake(a, b) ==> task(a) == task(b)
    }

    ghost predicate Valid()
      reads this, core, core.states.Values, core.pendings, core.pendings.mem.Keys
      reads core.readers, core.readers.tree, core.readers.tree.mem.Keys, core.writers, core.writers.tree
      reads core.writers.tree.mem.Keys
    {
      core.Linked() && Inv(core.model) && Waiting()
    }

    lemma ValidIs()
      ensures Valid() <==>
        && core.Linked() && Inv(core.model) && Slots(core.model.locks, slots)
        && AllKept(core.model.locks, slots, polls, log, task)
        && forall a, b :: willWake(a, b) ==> task(a) == task(b)
    {
      hide Core.LockCore.Linked, Inv, Slots, AllKept;
    }

    /** Start to lock; nobody is told to wait yet. */
    method StartLock(st: Core.LockState, id: int, start: int, end: int, priority: int)
      requires Valid() && core.Unused(st) && id !in core.model.locks && start < end
      modifies this, st, core, core.states.Values, core.pendings, core.pendings.mem.Keys
      modifies core.writers, core.writers.tree, core.writers.tree.mem.Keys, core.readers, core.readers.tree
      modifies core.readers.tree.mem.Keys
      ensures Valid() && Known(old(core.model).locks, old(core.model).queue)
      ensures core.states == old(core.states)[id := st]
      ensures core.model == Acquire(old(core.model), id, Request(start, end, st.write, priority))
      ensures id in core.model.locks
      ensures core.model.locks[id] == LockModel.Lock(start, end, st.write, priority, core.model.locks[id].stop)
      ensures Reaches(old(core.model).locks, st.write, start, end, core.model.locks[id].stop)
      ensures polls == old(polls) && log == old(log)
      ensures slots == if core.model.locks[id].stop == end then old(slots) else old(slots)[id := None]
    {
      hide Core.LockCore.Linked, Core.LockCore.Unused, Inv, Acquire, Known, Slots, AllKept, Reaches;
      ghost var m := core.model;
      var complete := core.Lock(st, start, end, priority, id);
      if !complete {
        slots := slots[id := None];
      }
      StartKeeps(m, id, Request(start, end, st.write, priority), old(slots), slots, polls, log, task);
    }

    /** Poll: either the lock is complete, or the caller's waker is put in its slot. */
    method PollLock(st: Core.LockState, id: int, waker: int) returns (ready: bool)
      requires Valid() && id in core.model.locks && id in core.states && core.states[id] == st
      modifies `slots, `polls
      ensures Valid() && (ready <==> Complete(core.model.locks[id]))
      ensures polls == if ready then old(polls) else old(polls)[id := Poll(waker, |log|)]
      ensures if ready then slots == old(slots) else id in slots && slots == old(slots)[id := slots[id]]
      ensures !ready ==> slots[id].Some? && task(slots[id].value) == task(waker)
    {
      hide Core.LockCore.Linked, Inv, Slots, AllKept, Complete;
      CompleteIs(core.model, id);
      var inProgress := core.Inspect(st, id);
      ready := inProgress.None?;
      if inProgress.Some? {
        SlotOf(core.model, id, slots);
        SetWaker(id, waker);
        polls := polls[id := Poll(waker, |log|)];
        PollKeeps(core.model.locks, id, waker, old(slots), slots, old(polls), log, task);
      }
    }

    /** Keep the old waker if waking it does for the new one; overwrite it otherwise. */
    method SetWaker(id: int, waker: int)
      requires id in slots && forall a, b :: willWake(a, b) ==> task(a) == task(b)
      modifies `slots
      ensures id in slots && slots[id].Some? && task(slots[id].value) == task(waker)
      ensures slots == old(slots)[id := slots[id]]
    {
      if slots[id].Some? && willWake(slots[id].value, waker) {
        SameTask(willWake, task, slots[id].value, waker);
        assert slots == slots[id := slots[id]];
        return;
      }
      slots := slots[id := Some(waker)];
    }

    /** Release a lock, complete or not, and wake whoever waits for the locks that complete. */
    method Unlock(st: Core.LockState, id: int)
      requires Valid() && id in core.model.locks && id in core.states && core.states[id] == st
      modifies this, core, core.states.Values, core.pendings, core.pendings.mem.Keys
      modifies core.writers, core.writers.tree, core.writers.tree.mem.Keys, core.readers, core.readers.tree
      modifies core.readers.tree.mem.Keys
      ensures Valid() && Known(old(core.model).locks, old(core.model).queue)
      ensures core.model == LockModel.Unlock(old(core.model), id)
      ensures polls == old(polls) - {id}
      ensures log == old(log) + Wakers(old(slots) - {id}, Reported(old(core.model), id))
      ensures Left(old(slots) - {id}, slots, Reported(old(core.model), id))
      ensures forall x <- polls.Keys | Completes(old(core.model), core.model, id, x) ::
        Woken(x, Poll(polls[x].waker, |old(log)|), log, task)
    {
      hide *;
      ValidIs();
      ghost var m, s0, p0 := core.model, slots, polls;
      var token, done := core.Unlock(st, id);
      ReportedAre(m, id, done);
      forall x <- p0.Keys | Completes(m, core.model, id, x)
        ensures Woken(x, Poll(p0[x].waker, |log|), log + Wakers(s0 - {id}, done), task)
      {
        WokenNow(m, id, s0, p0, log, task, x);
      }
      slots := slots - {id};
      polls := polls - {id};
      WakeAll(m, id, s0, p0, done);
      ValidIs();
    }

    /** Theorem: whoever was last told to wait for a lock has its waker, or one that does for it, in the
        slot as long as the lock is incomplete, and has been woken once it is complete. */
    lemma NoLostWakeup(id: int)
      requires Valid() && id in polls
      ensures id in core.model.locks
      ensures !Complete(core.model.locks[id]) ==>
        id in slots && slots[id].Some? && task(slots[id].value) == task(polls[id].waker)
      ensures Complete(core.model.locks[id]) ==>
        exists k | polls[id].since <= k < |log| :: log[k].id == id && task(log[k].waker) == task(polls[id].waker)
    {
      hide Core.LockCore.Linked, Inv, Slots, Complete, AllKept;
      KeptAt(core.model.locks, slots, polls, log, task, id);
    }

    method WakeAll(ghost m: Model, ghost id: int, ghost s0: map<int, Option<int>>, ghost p0: map<int, Poll>,
            done: seq<int>)
      requires Inv(m) && id in m.locks && Known(m.locks, m.queue) && LockModel.Unlock(m, id).done == m.done + done
      requires Slots(m.locks, s0) && AllKept(m.locks, s0, p0, log, task)
      requires slots == s0 - {id} && polls == p0 - {id}
      modifies `slots, `log
      ensures Slots(LockModel.Unlock(m, id).locks, slots)
      ensures AllKept(LockModel.Unlock(m, id).locks, slots, polls, log, task)
      ensures log == old(log) + Wakers(old(slots), done) && Left(old(slots), slots, done)
    {
      hide Inv, LockModel.Unlock, Slots, AllKept, Waking, Wakers, Left;
      ghost var u := LockModel.Unlock(m, id);
      NoneLeft(slots);
      WakingStarts(m, id, s0, p0, log, task);
      for i := 0 to |done|
        invariant Waking(m, u, id, done[..i], slots, polls, log, task)
        invariant log == old(log) + Wakers(old(slots), done[..i]) && Left(old(slots), slots, done[..i])
      {
        DoneOnce(m, id, done, i);
        WakingNext(m, u, id, done, i, slots, polls, log, task);
        LeftNext(old(slots), slots, done, i);
        WakersNext(old(slots), done, i);
        var x := done[i];
        var waker := slots[x];
        slots := slots - {x};
        if waker.Some? {
          log := log + [Wake(x, waker.value)];
        }
      }
      assert done[..|done|] == done;
      WakingEnds(m, id, done, slots, polls, log, task);
    }
  }

  lemma KeptAt(locks: map<int, Lock>, slots: map<int, Option<int>>, ps: map<int, Poll>, log: seq<Wake>,
          task: int -> int, id: int)
    requires AllKept(locks, slots, ps, log, task) && id in ps
    ensures id in locks && Kept(id, !Complete(locks[id]), slots, ps, log, task)
  {
    assert id in ps.Keys;
  }

  lemma SameTask(willWake: (int, int) -> bool, task: int -> int, a: int, b: int)
    requires (forall x, y :: willWake(x, y) ==> task(x) == task(y)) && willWake(a, b)
    ensures task(a) == task(b)
  {
  }

  lemma CompleteIs(m: Model, id: int)
    requires Inv(m) && id in m.locks
    ensures Complete(m.locks[id]) <==> !(m.locks[id].stop < m.locks[id].end)
    ensures Sound(m)
  {
  }

  lemma SlotOf(m: Model, id: int, slots: map<int, Option<int>>)
    requires Slots(m.locks, slots) && id in m.locks && !Complete(m.locks[id])
    ensures id in slots
  {
    assert id in m.locks.Keys;
  }

  lemma StartKeeps(m: Model, id: int, l: Lock, s0: map<int, Option<int>>, s1: map<int, Option<int>>, ps: map<int, Poll>,
          log: seq<Wake>, task: int -> int)
    requires Inv(m) && Known(m.locks, m.queue) && id !in m.locks && l.start <= l.end
    requires Slots(m.locks, s0) && AllKept(m.locks, s0, ps, log, task)
    requires id in Acquire(m, id, l).locks
    requires s1 == if Acquire(m, id, l).locks[id].stop == l.end then s0 else s0[id := None]
    ensures Slots(Acquire(m, id, l).locks, s1) && AllKept(Acquire(m, id, l).locks, s1, ps, log, task)
  {
    var a := Acquire(m, id, l);
    assert a.locks[id].end == l.end && a.locks[id].stop <= l.end;
    assert a.locks == m.locks[id := a.locks[id]];
    hide Acquire, Inv;
    assert forall x <- m.locks.Keys :: x != id && a.locks[x] == m.locks[x];
  }

  lemma PollKeeps(locks: map<int, Lock>, id: int, waker: int, s0: map<int, Option<int>>, s1: map<int, Option<int>>,
          ps: map<int, Poll>, log: seq<Wake>, task: int -> int)
    requires Slots(locks, s0) && AllKept(locks, s0, ps, log, task) && id in locks && !Complete(locks[id])
    requires id in s1 && s1 == s0[id := s1[id]] && s1[id].Some? && task(s1[id].value) == task(waker) && id in s0
    ensures Slots(locks, s1) && AllKept(locks, s1, ps[id := Poll(waker, |log|)], log, task)
  {
  }

  /** The locks of `told` have been told that they are complete, on the way from `m` to `u`. */
  ghost predicate Waking(m: Model, u: Model, id: int, told: seq<int>, slots: map<int, Option<int>>, ps: map<int, Poll>,
          log: seq<Wake>, task: int -> int) {
    && (forall x <- slots.Keys :: x in u.locks && x in m.locks && !Complete(m.locks[x]) && x !in told)
    && (forall x <- u.locks.Keys :: x in m.locks && (!Complete(m.locks[x]) && x !in told ==> x in slots))
    && (forall x <- ps.Keys ::
        x in u.locks && x in m.locks && Kept(x, !Complete(m.locks[x]) && x !in told, slots, ps, log, task))
  }

  lemma WakingStarts(m: Model, id: int, slots: map<int, Option<int>>, ps: map<int, Poll>, log: seq<Wake>,
          task: int -> int)
    requires Inv(m) && id in m.locks && Known(m.locks, m.queue) && Slots(m.locks, slots)
    requires AllKept(m.locks, slots, ps, log, task)
    ensures Waking(m, LockModel.Unlock(m, id), id, [], slots - {id}, ps - {id}, log, task)
  {
    hide LockModel.Unlock, Inv, Slots, Complete, Kept;
    KeysLeft(m, id);
    var u := LockModel.Unlock(m, id);
    SlotsAre(m.locks, slots);
    var s1, p1 := slots - {id}, ps - {id};
    forall x <- p1.Keys
      ensures x in u.locks && x in m.locks && Kept(x, !Complete(m.locks[x]), s1, p1, log, task)
    {
      assert x in ps.Keys;
      KeptWithout(x, !Complete(m.locks[x]), slots, ps, id, log, task);
    }
  }

  lemma KeysLeft(m: Model, id: int)
    requires Inv(m) && id in m.locks && Known(m.locks, m.queue)
    ensures forall x :: x in LockModel.Unlock(m, id).locks <==> x in m.locks && x != id
  {
    UnlockInv(m, id);
    hide LockModel.Unlock, Inv;
    assert forall x :: x in LockModel.Unlock(m, id).locks.Keys <==> x in m.locks.Keys - {id};
  }

  lemma SlotsAre(locks: map<int, Lock>, slots: map<int, Option<int>>)
    requires Slots(locks, slots)
    ensures forall x :: x in slots <==> x in locks && !Complete(locks[x])
  {
    forall x: int
      ensures x in slots <==> x in locks && !Complete(locks[x])
    {
      assert x in slots.Keys ==> x in locks;
      assert x in locks.Keys && !Complete(locks[x]) ==> x in slots;
    }
  }

  lemma KeptWithout(x: int, waiting: bool, slots: map<int, Option<int>>, ps: map<int, Poll>, id: int, log: seq<Wake>,
          task: int -> int)
    requires x in ps && x != id && Kept(x, waiting, slots, ps, log, task)
    ensures Kept(x, waiting, slots - {id}, ps - {id}, log, task)
  {
  }

  lemma WakingNext(m: Model, u: Model, id: int, done: seq<int>, i: nat, slots: map<int, Option<int>>, ps: map<int,
          Poll>, log: seq<Wake>, task: int -> int)
    requires i < |done| && Waking(m, u, id, done[..i], slots, ps, log, task) && done[i] !in done[..i]
    requires Completes(m, u, id, done[i])
    ensures done[i] in slots
    ensures var x := done[i];
      var w := slots[x];
      Waking(m, u, id, done[..i + 1], slots - {x}, ps, if w.Some? then log + [Wake(x, w.value)] else log, task)
  {
    assert done[..i + 1] == done[..i] + [done[i]];
    SlotAt(m, u, id, done[..i], slots, ps, log, task, done[i]);
    var x := done[i];
    var w := slots[x];
    var s1, p1, g1 := slots - {x}, ps, if w.Some? then log + [Wake(x, w.value)] else log;
    forall y <- p1.Keys
      ensures y in u.locks && y in m.locks && Kept(y, !Complete(m.locks[y]) && y !in done[..i + 1], s1, p1, g1, task)
    {
      assert y in ps.Keys;
      if y == x {
        assert w.Some? && g1[|log|] == Wake(x, w.value);
      } else if Complete(m.locks[y]) || y in done[..i] {
        WokenGrows(y, ps[y], log, g1[|log|..], task);
        assert g1 == log + g1[|log|..];
      }
    }
  }

  lemma SlotAt(m: Model, u: Model, id: int, told: seq<int>, slots: map<int, Option<int>>, ps: map<int, Poll>,
          log: seq<Wake>, task: int -> int, x: int)
    requires Waking(m, u, id, told, slots, ps, log, task) && x in u.locks && x in m.locks && !Complete(m.locks[x])
    requires x !in told
    ensures x in slots && (x in ps ==> Kept(x, true, slots, ps, log, task))
  {
    assert x in u.locks.Keys;
  }

  /** Complete after the release is who was before or has been told. */
  lemma ToldIs(m: Model, id: int, done: seq<int>, x: int)
    requires Inv(m) && id in m.locks && Known(m.locks, m.queue) && LockModel.Unlock(m, id).done == m.done + done
    requires x in LockModel.Unlock(m, id).locks
    ensures x in m.locks && (Complete(LockModel.Unlock(m, id).locks[x]) <==> Complete(m.locks[x]) || x in done)
  {
    hide LockModel.Unlock, Inv;
    var u := LockModel.Unlock(m, id);
    UnlockInv(m, id);
    UnlockFrame(m, id);
    assert x in u.locks.Keys;
    DoneCounts(m, id, done, x);
    ShapedAt(m, x);
    ShapedAt(u, x);
    assert Grown(m.locks[x], u.locks[x]);
  }

  lemma WakingEnds(m: Model, id: int, done: seq<int>, slots: map<int, Option<int>>, ps: map<int, Poll>, log: seq<Wake>,
          task: int -> int)
    requires Inv(m) && id in m.locks && Known(m.locks, m.queue) && LockModel.Unlock(m, id).done == m.done + done
    requires Waking(m, LockModel.Unlock(m, id), id, done, slots, ps, log, task)
    ensures Slots(LockModel.Unlock(m, id).locks, slots) && AllKept(LockModel.Unlock(m, id).locks, slots, ps, log, task)
  {
    hide LockModel.Unlock, Inv, Complete, Kept;
    var u := LockModel.Unlock(m, id);
    forall x <- u.locks.Keys
      ensures x in m.locks && (Complete(u.locks[x]) <==> Complete(m.locks[x]) || x in done)
    {
      ToldIs(m, id, done, x);
    }
  }
}
