/** The core as a set of numbered locks: each command allocates or frees one lock state, and the
    completion callback sets a flag. */
module Subject {
  import opened LockModel
  import opened Guarantees
  import opened WalkFacts
  import opened Runs
  import opened Reports
  import opened Requests
  import Core

  /** The flags say which locks are complete. */
  ghost predicate Flagged(flags: map<int, bool>, locks: map<int, Lock>) {
    && (forall id <- flags.Keys :: id in locks && (flags[id] <==> Complete(locks[id])))
    && (forall id <- locks.Keys :: id in flags)
  }

  class RwLockSet {
    const core: Core.LockCore
    var states: map<int, Core.LockState>
    var complete: map<int, bool>

    ghost predicate Valid()
      reads this, core, core.states.Values, core.pendings, core.pendings.mem.Keys
      reads core.readers, core.readers.tree, core.readers.tree.mem.Keys, core.writers, core.writers.tree
      reads core.writers.tree.mem.Keys
    {
      core.Linked() && Inv(core.model) && states == core.states && Flagged(complete, core.model.locks)
    }

    constructor ()
      ensures Valid() && core.model == EMPTY && states == map[] && core.states == map[]
      ensures fresh(core) && fresh(core.readers) && fresh(core.readers.tree) && fresh(core.writers)
      ensures fresh(core.writers.tree) && fresh(core.pendings)
      ensures core.readers.tree.mem.Keys == {} && core.writers.tree.mem.Keys == {} && core.pendings.mem.Keys == {}
    {
      hide Core.LockCore.Linked, Inv;
      core := new Core.LockCore();
      states, complete := map[], map[];
      new;
    }

    /** Lock a range, and tell whether it is complete. */
    method Lock(id: int, start: int, end: int, write: bool, priority: int) returns (ok: bool)
      requires Valid() && id !in core.model.locks && start < end
      modifies this, core, core.states.Values, core.pendings, core.pendings.mem.Keys
      modifies core.writers, core.writers.tree, core.writers.tree.mem.Keys, core.readers, core.readers.tree
      modifies core.readers.tree.mem.Keys
      ensures Valid() && Known(old(core.model).locks, old(core.model).queue)
      ensures core.model == Acquire(old(core.model), id, Request(start, end, write, priority))
      ensures id in core.model.locks && (ok <==> Complete(core.model.locks[id]))
      ensures core.model.locks[id] == LockModel.Lock(start, end, write, priority, core.model.locks[id].stop)
      ensures Reaches(old(core.model).locks, write, start, end, core.model.locks[id].stop)
      ensures forall st <- core.states.Values :: st in old(core.states.Values) || fresh(st)
      ensures (forall n <- core.writers.tree.mem.Keys :: n in old(core.writers.tree.mem.Keys) || fresh(n))
      ensures (forall n <- core.readers.tree.mem.Keys :: n in old(core.readers.tree.mem.Keys) || fresh(n))
      ensures (forall n <- core.pendings.mem.Keys :: n in old(core.pendings.mem.Keys) || fresh(n))
    {
      hide Core.LockCore.Linked, Inv, Acquire, Known, Flagged, Reaches;
      ghost var m, flags := core.model, complete;
      var st := new Core.LockState(write);
      ok := core.Lock(st, start, end, priority, id);
      states, complete := states[id := st], complete[id := ok];
      LockFlags(m, id, Request(start, end, write, priority), flags, ok);
    }

    /** Try to lock a range; a failed try leaves nothing behind. */
    method TryLock(id: int, start: int, end: int, write: bool, priority: int) returns (ok: bool)
      requires Valid() && id !in core.model.locks && start < end
      modifies this, core, core.states.Values, core.pendings, core.pendings.mem.Keys
      modifies core.writers, core.writers.tree, core.writers.tree.mem.Keys, core.readers, core.readers.tree
      modifies core.readers.tree.mem.Keys
      ensures Valid() && Known(old(core.model).locks, old(core.model).queue)
      ensures core.model == TryAcquire(old(core.model), id, Request(start, end, write, priority))
      ensures (ok <==> id in core.model.locks) && (ok <==> AllFree(old(core.model).locks, write, start, end))
      ensures ok ==> core.model.locks[id] == LockModel.Lock(start, end, write, priority, end)
      ensures forall st <- core.states.Values :: st in old(core.states.Values) || fresh(st)
      ensures (forall n <- core.writers.tree.mem.Keys :: n in old(core.writers.tree.mem.Keys) || fresh(n))
      ensures (forall n <- core.readers.tree.mem.Keys :: n in old(core.readers.tree.mem.Keys) || fresh(n))
      ensures (forall n <- core.pendings.mem.Keys :: n in old(core.pendings.mem.Keys) || fresh(n))
    {
      hide Core.LockCore.Linked, Inv, TryAcquire, Known, Flagged, AllFree;
      ghost var m, flags := core.model, complete;
      var st := new Core.LockState(write);
      ok := core.TryLock(st, start, end, id, priority);
      if ok {
        states, complete := states[id := st], complete[id := true];
      }
      TryFlags(m, id, Request(start, end, write, priority), flags);
    }

    /** Release a lock; the callback sets the flag of every lock that completes. */
    method Unlock(id: int)
      requires Valid() && id in core.model.locks
      modifies this, core, core.states.Values, core.pendings, core.pendings.mem.Keys
      modifies core.writers, core.writers.tree, core.writers.tree.mem.Keys, core.readers, core.readers.tree
      modifies core.readers.tree.mem.Keys
      ensures Valid() && Known(old(core.model).locks, old(core.model).queue)
      ensures core.model == LockModel.Unlock(old(core.model), id) && states == old(states) - {id}
      ensures forall st <- core.states.Values :: st in old(core.states.Values)
      ensures (forall n <- core.writers.tree.mem.Keys :: n in old(core.writers.tree.mem.Keys) || fresh(n))
      ensures (forall n <- core.readers.tree.mem.Keys :: n in old(core.readers.tree.mem.Keys) || fresh(n))
      ensures core.pendings.mem.Keys <= old(core.pendings.mem.Keys)
    {
      hide Core.LockCore.Linked, Inv, LockModel.Unlock, Known, Flagged, Core.LockCore.Unused;
      ghost var m, flags := core.model, complete;
      StateOf(id);
      var st := states[id];
      states, complete := states - {id}, complete - {id};
      var token, done := core.Unlock(st, id);
      Callback(m, id, flags, done);
    }

    lemma StateOf(id: int)
      requires Valid() && id in core.model.locks
      ensures id in states && core.states[id] == states[id]
    {
      hide Inv, Flagged, Core.LockCore.Tracked, Core.LockCore.RegionView, Core.LockCore.QueueView;
    }

    /** Every reported lock was incomplete up to now. */
    method Callback(ghost m: Model, ghost id: int, ghost flags: map<int, bool>, done: seq<int>)
      requires Inv(m) && id in m.locks && Flagged(flags, m.locks) && complete == flags - {id}
      requires LockModel.Unlock(m, id).done == m.done + done
      modifies `complete
      ensures Flagged(complete, LockModel.Unlock(m, id).locks)
    {
      ghost var u := LockModel.Unlock(m, id);
      hide Inv, LockModel.Unlock, Flagged;
      CallbackStarts(m, id, flags);
      for i := 0 to |done|
        invariant Reporting(m, u, id, complete, done[..i])
      {
        DoneOnce(m, id, done, i);
        ReportNext(m, u, id, complete, done, i);
        assert done[i] in complete && !complete[done[i]];
        complete := complete[done[i] := true];
      }
      assert done[..|done|] == done;
      CallbackEnds(m, id, complete, done);
    }
  }

  lemma LockFlags(m: Model, id: int, l: Lock, flags: map<int, bool>, ok: bool)
    requires Inv(m) && Known(m.locks, m.queue) && id !in m.locks && l.start <= l.end && Flagged(flags, m.locks)
    requires ok <==> Acquire(m, id, l).locks[id].stop == l.end
    ensures id in Acquire(m, id, l).locks && (ok <==> Complete(Acquire(m, id, l).locks[id]))
    ensures Flagged(flags[id := ok], Acquire(m, id, l).locks)
  {
  }

  lemma TryFlags(m: Model, id: int, l: Lock, flags: map<int, bool>)
    requires Inv(m) && Known(m.locks, m.queue) && id !in m.locks && l.start <= l.end && Flagged(flags, m.locks)
    ensures Flagged(if id in TryAcquire(m, id, l).locks then flags[id := true] else flags, TryAcquire(m, id, l).locks)
  {
  }

  /** The locks of `log` have been flagged on the way from `m` to `u`. */
  ghost predicate Reporting(m: Model, u: Model, id: int, flags: map<int, bool>, log: seq<int>) {
    && (forall x <- flags.Keys :: x in u.locks && x in m.locks && (flags[x] <==> Complete(m.locks[x]) || x in log))
    && (forall x <- u.locks.Keys :: x in flags)
  }

  lemma CallbackStarts(m: Model, id: int, flags: map<int, bool>)
    requires Inv(m) && id in m.locks && Flagged(flags, m.locks)
    ensures Known(m.locks, m.queue) && Reporting(m, LockModel.Unlock(m, id), id, flags - {id}, [])
  {
    UnlockInv(m, id);
    var u := LockModel.Unlock(m, id);
    hide LockModel.Unlock, Inv;
    assert forall x :: x in u.locks.Keys <==> x in m.locks && x != id;
  }

  lemma ReportNext(m: Model, u: Model, id: int, flags: map<int, bool>, done: seq<int>, i: nat)
    requires i < |done| && Reporting(m, u, id, flags, done[..i]) && done[i] !in done[..i]
    requires done[i] in m.locks && done[i] in u.locks && !Complete(m.locks[done[i]])
    ensures done[i] in flags && !flags[done[i]] && Reporting(m, u, id, flags[done[i] := true], done[..i + 1])
  {
    assert done[..i + 1] == done[..i] + [done[i]];
    ReportAt(m, u, id, flags, done[..i], done[i]);
  }

  lemma ReportAt(m: Model, u: Model, id: int, flags: map<int, bool>, log: seq<int>, x: int)
    requires Reporting(m, u, id, flags, log) && x in u.locks && x in m.locks
    ensures x in flags && (flags[x] <==> Complete(m.locks[x]) || x in log)
  {
  }

  lemma CallbackEnds(m: Model, id: int, flags: map<int, bool>, done: seq<int>)
    requires Inv(m) && id in m.locks && Known(m.locks, m.queue) && LockModel.Unlock(m, id).done == m.done + done
    requires Reporting(m, LockModel.Unlock(m, id), id, flags, done)
    ensures Flagged(flags, LockModel.Unlock(m, id).locks)
  {
    var u := LockModel.Unlock(m, id);
    UnlockInv(m, id);
    UnlockFrame(m, id);
    hide LockModel.Unlock, Inv;
    forall x <- flags.Keys
      ensures x in u.locks && (flags[x] <==> Complete(u.locks[x]))
    {
      DoneCounts(m, id, done, x);
      ShapedAt(m, x);
      assert x in u.locks.Keys && Grown(m.locks[x], u.locks[x]);
      ShapedAt(u, x);
    }
  }
}
