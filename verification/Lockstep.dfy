/** The core and the array of locks, driven side by side by the same commands. */
module Lockstep {
  import opened Options
  import opened LockModel
  import opened Runs
  import opened Requests
  import opened RunLaws
  import Subject
  import Reference

  method LockBoth(s: Subject.RwLockSet, r: Reference.RwLockSet, id: int, start: int, end: int, write: bool,
          priority: int) returns (same: bool, ok: bool)
    requires s.Valid() && r.Valid() && s.core.model == r.model && id !in r.model.locks
    requires 0 <= start < end <= r.rwlocks.Length
    modifies s, s.core, s.core.states.Values, s.core.pendings, s.core.pendings.mem.Keys
    modifies s.core.writers, s.core.writers.tree, s.core.writers.tree.mem.Keys
    modifies s.core.readers, s.core.readers.tree, s.core.readers.tree.mem.Keys, r, r.rwlocks
    ensures s.Valid() && r.Valid() && s.core.model == r.model
    ensures Known(old(r.model).locks, old(r.model).queue) && same
    ensures r.model == Acquire(old(r.model), id, Request(start, end, write, priority))
    ensures ok <==> AllFree(old(r.model).locks, write, start, end)
    ensures forall n <- s.core.writers.tree.mem.Keys :: n in old(s.core.writers.tree.mem.Keys) || fresh(n)
    ensures forall n <- s.core.readers.tree.mem.Keys :: n in old(s.core.readers.tree.mem.Keys) || fresh(n)
    ensures forall n <- s.core.pendings.mem.Keys :: n in old(s.core.pendings.mem.Keys) || fresh(n)
    ensures forall st <- s.core.states.Values :: st in old(s.core.states.Values) || fresh(st)
  {
    hide Subject.RwLockSet.Valid, Reference.RwLockSet.Valid, Known, Acquire, Complete, Inv, Sound;
    hide Added, Reaches, AllFree;
    ReferenceInv(r);
    CompleteIs(r.model, id, Request(start, end, write, priority));
    AcquireMakes(r.model, id, start, end, write, priority);
    ok := s.Lock(id, start, end, write, priority);
    var b := r.Lock(id, start, end, write, priority);
    same := ok == b;
  }

  /** A try that fails is carried out on the array as a lock followed by its release. */
  method TryLockBoth(s: Subject.RwLockSet, r: Reference.RwLockSet, id: int, start: int, end: int, write: bool,
          priority: int) returns (same: bool, ok: bool)
    requires s.Valid() && r.Valid() && s.core.model == r.model && id !in r.model.locks
    requires 0 <= start < end <= r.rwlocks.Length
    modifies s, s.core, s.core.states.Values, s.core.pendings, s.core.pendings.mem.Keys
    modifies s.core.writers, s.core.writers.tree, s.core.writers.tree.mem.Keys
    modifies s.core.readers, s.core.readers.tree, s.core.readers.tree.mem.Keys, r, r.rwlocks
    ensures s.Valid() && r.Valid() && s.core.model == r.model
    ensures Known(old(r.model).locks, old(r.model).queue) && same
    ensures r.model == TryAcquire(old(r.model), id, Request(start, end, write, priority))
    ensures ok <==> AllFree(old(r.model).locks, write, start, end)
    ensures forall n <- s.core.writers.tree.mem.Keys :: n in old(s.core.writers.tree.mem.Keys) || fresh(n)
    ensures forall n <- s.core.readers.tree.mem.Keys :: n in old(s.core.readers.tree.mem.Keys) || fresh(n)
    ensures forall n <- s.core.pendings.mem.Keys :: n in old(s.core.pendings.mem.Keys) || fresh(n)
    ensures forall st <- s.core.states.Values :: st in old(s.core.states.Values) || fresh(st)
  {
    hide *;
    ghost var m := r.model;
    ReferenceInv(r);
    TryOrUndo(m, id, start, end, write, priority);
    ok := s.TryLock(id, start, end, write, priority);
    var b := r.Lock(id, start, end, write, priority);
    same := ok == b;
    if !ok {
      r.Unlock(id);
    }
  }

  method UnlockBoth(s: Subject.RwLockSet, r: Reference.RwLockSet, id: int)
    requires s.Valid() && r.Valid() && s.core.model == r.model && id in r.model.locks
    modifies s, s.core, s.core.states.Values, s.core.pendings, s.core.pendings.mem.Keys
    modifies s.core.writers, s.core.writers.tree, s.core.writers.tree.mem.Keys
    modifies s.core.readers, s.core.readers.tree, s.core.readers.tree.mem.Keys, r, r.rwlocks
    ensures s.Valid() && r.Valid() && s.core.model == r.model
    ensures Known(old(r.model).locks, old(r.model).queue) && r.model == LockModel.Unlock(old(r.model), id)
    ensures forall n <- s.core.writers.tree.mem.Keys :: n in old(s.core.writers.tree.mem.Keys) || fresh(n)
    ensures forall n <- s.core.readers.tree.mem.Keys :: n in old(s.core.readers.tree.mem.Keys) || fresh(n)
    ensures forall n <- s.core.pendings.mem.Keys :: n in old(s.core.pendings.mem.Keys) || fresh(n)
    ensures forall st <- s.core.states.Values :: st in old(s.core.states.Values) || fresh(st)
  {
    hide *;
    s.Unlock(id);
    r.Unlock(id);
  }

  /** Carry out one command on both.  The result of a lock or try is `ok`. */
  method Step(s: Subject.RwLockSet, r: Reference.RwLockSet, c: Command) returns (same: bool, ok: bool)
    requires s.Valid() && r.Valid() && s.core.model == r.model && Allowed(r.model, c)
    requires c.UnlockRange? || 0 <= c.start <= c.end <= r.rwlocks.Length
    modifies s, s.core, s.core.states.Values, s.core.pendings, s.core.pendings.mem.Keys
    modifies s.core.writers, s.core.writers.tree, s.core.writers.tree.mem.Keys
    modifies s.core.readers, s.core.readers.tree, s.core.readers.tree.mem.Keys, r, r.rwlocks
    ensures s.Valid() && r.Valid() && s.core.model == r.model
    ensures Known(old(r.model).locks, old(r.model).queue) && r.model == Do(old(r.model), c) && same
    ensures !c.UnlockRange? ==> (ok <==> AllFree(old(r.model).locks, c.write, c.start, c.end))
    ensures c.LockRange? || (c.TryLockRange? && ok) ==>
      && Added(old(r.model), r.model, c.id)
      && r.model.locks[c.id] == Lock(c.start, c.end, c.write, c.priority, r.model.locks[c.id].stop)
      && Reaches(old(r.model).locks, c.write, c.start, c.end, r.model.locks[c.id].stop)
    ensures c.TryLockRange? && !ok ==> r.model == old(r.model)
    ensures c.UnlockRange? ==> r.model.locks.Keys == old(r.model).locks.Keys - {c.id}
    ensures forall n <- s.core.writers.tree.mem.Keys :: n in old(s.core.writers.tree.mem.Keys) || fresh(n)
    ensures forall n <- s.core.readers.tree.mem.Keys :: n in old(s.core.readers.tree.mem.Keys) || fresh(n)
    ensures forall n <- s.core.pendings.mem.Keys :: n in old(s.core.pendings.mem.Keys) || fresh(n)
    ensures forall st <- s.core.states.Values :: st in old(s.core.states.Values) || fresh(st)
  {
    hide Subject.RwLockSet.Valid, Reference.RwLockSet.Valid, Known, Acquire, TryAcquire, LockModel.Unlock;
    hide Inv, Sound, Added, Reaches, AllFree;
    ReferenceInv(r);
    CommandIs(r.model, c);
    match c {
      case LockRange(id, start, end, write, priority) =>
        same, ok := LockBoth(s, r, id, start, end, write, priority);
      case TryLockRange(id, start, end, write, priority) =>
        same, ok := TryLockBoth(s, r, id, start, end, write, priority);
      case UnlockRange(id) =>
        UnlockBoth(s, r, id);
        same, ok := true, true;
    }
  }

  /** What a command does, as `RunLaws` tells it. */
  lemma CommandIs(m: Model, c: Command)
    requires Inv(m) && Allowed(m, c) && Known(m.locks, m.queue)
    ensures var r := Do(m, c);
      && (c.LockRange? || (c.TryLockRange? && AllFree(m.locks, c.write, c.start, c.end)) ==>
          && Added(m, r, c.id) && r.locks[c.id] == Lock(c.start, c.end, c.write, c.priority, r.locks[c.id].stop)
          && Reaches(m.locks, c.write, c.start, c.end, r.locks[c.id].stop))
      && (c.TryLockRange? && !AllFree(m.locks, c.write, c.start, c.end) ==> r == m)
      && (c.UnlockRange? ==> r.locks.Keys == m.locks.Keys - {c.id})
  {
    hide Inv, Known, Do, Added, AllFree;
    match c
    case LockRange(id, start, end, write, priority) => LockCommand(m, id, start, end, write, priority);
    case TryLockRange(id, start, end, write, priority) => TryCommand(m, id, start, end, write, priority);
    case UnlockRange(id) => UnlockCommand(m, id);
  }

  lemma CompleteIs(m: Model, id: int, l: Lock)
    requires Inv(m) && Known(m.locks, m.queue) && id !in m.locks && l.start <= l.end
    ensures var a := Acquire(m, id, l); id in a.locks && (Complete(a.locks[id]) <==> a.locks[id].stop == l.end)
  {
  }

  lemma ReferenceInv(r: Reference.RwLockSet)
    requires r.Valid()
    ensures Inv(r.model) && Sound(r.model) && Known(r.model.locks, r.model.queue)
  {
  }

  /** A try succeeds iff the lock would be complete at once; otherwise it equals a lock that is
      given up again. */
  lemma TryOrUndo(m: Model, id: int, start: int, end: int, write: bool, priority: int)
    requires Inv(m) && Known(m.locks, m.queue) && id !in m.locks && start <= end
    ensures var l := Request(start, end, write, priority);
      var a, t := Acquire(m, id, l), TryAcquire(m, id, l);
      && id in a.locks && Known(a.locks, a.queue) && (id in t.locks <==> a.locks[id].stop == end)
      && (if id in t.locks then t == a else t == m == LockModel.Unlock(a, id))
  {
    LockUnlock(m, id, Request(start, end, write, priority));
    hide LockModel.Unlock;
  }

  lemma Pick(ids: set<int>) returns (id: int)
    requires ids != {}
    ensures id in ids
  {
    if forall x :: x !in ids {
      assert false;
    }
    id :| id in ids;
  }

  /** Compare which locks are complete. */
  method Compare(s: Subject.RwLockSet, r: Reference.RwLockSet) returns (same: bool)
    requires s.Valid() && r.Valid() && s.core.model == r.model
    ensures same
  {
    hide *;
    same := true;
    var ids := s.states.Keys;
    while ids != {}
      invariant s.Valid() && r.Valid() && ids <= s.states.Keys && same
      decreases |ids|
    {
      ghost var _ := Pick(ids);
      var id :| id in ids;
      ids := ids - {id};
      SameFlag(s, r, id);
      var b := r.IsComplete(id);
      same := same && s.complete[id] == b;
    }
  }

  /** Look for a complete lock. */
  method FindComplete(s: Subject.RwLockSet) returns (found: Option<int>)
    requires s.Valid() && s.states != map[]
    ensures found.Some? && found.value in s.core.model.locks && Complete(s.core.model.locks[found.value])
  {
    hide Subject.RwLockSet.Valid, Complete;
    found := None;
    ghost var first := SomeFlag(s);
    var ids := s.states.Keys;
    while ids != {} && found.None?
      invariant s.Valid() && ids <= s.states.Keys
      invariant found.Some? ==> found.value in s.core.model.locks && Complete(s.core.model.locks[found.value])
      invariant found.None? ==> first in ids
      decreases |ids|
    {
      ghost var _ := Pick(ids);
      var id :| id in ids;
      ids := ids - {id};
      FlagOf(s, id);
      FlagOf(s, first);
      if s.complete[id] {
        found := Some(id);
      }
    }
  }

  lemma FlagOf(s: Subject.RwLockSet, id: int)
    requires s.Valid() && id in s.states
    ensures id in s.core.model.locks && id in s.complete && (s.complete[id] <==> Complete(s.core.model.locks[id]))
  {
  }

  lemma SomeFlag(s: Subject.RwLockSet) returns (id: int)
    requires s.Valid() && s.states != map[]
    ensures id in s.states && id in s.core.model.locks && Complete(s.core.model.locks[id])
  {
    hide Subject.Core.LockCore.Tracked, Subject.Core.LockCore.RegionView, Subject.Core.LockCore.QueueView, Inv;
    hide Subject.Flagged;
    var x := Pick(s.states.Keys);
    id := SomeComplete(s.core.model, x);
  }

  /** Release complete locks until none is left; the core may then be dropped. */
  method Drain(s: Subject.RwLockSet) returns (deadlock: bool)
    requires s.Valid()
    modifies s, s.core, s.core.states.Values, s.core.pendings, s.core.pendings.mem.Keys
    modifies s.core.writers, s.core.writers.tree, s.core.writers.tree.mem.Keys
    modifies s.core.readers, s.core.readers.tree, s.core.readers.tree.mem.Keys
    ensures s.Valid() && !deadlock && s.core.model.locks == map[] && s.core.model.queue == []
    ensures s.core.readers.tree.root == null && s.core.writers.tree.root == null && s.core.pendings.root == null
  {
    hide Subject.RwLockSet.Valid, Complete, LockModel.Unlock, Known;
    deadlock := false;
    while s.states != map[] && !deadlock
      invariant s.Valid() && !deadlock
      invariant forall n <- s.core.writers.tree.mem.Keys :: n in old(s.core.writers.tree.mem.Keys) || fresh(n)
      invariant forall n <- s.core.readers.tree.mem.Keys :: n in old(s.core.readers.tree.mem.Keys) || fresh(n)
      invariant s.core.pendings.mem.Keys <= old(s.core.pendings.mem.Keys)
      invariant forall st <- s.core.states.Values :: st in old(s.core.states.Values)
      decreases |s.states.Keys|, !deadlock
    {
      var found := FindComplete(s);
      if found.Some? {
        s.StateOf(found.value);
        Smaller(s.states, found.value);
        s.Unlock(found.value);
      } else {
        deadlock := true;
      }
    }
    Emptied(s);
  }

  lemma LocksHaveStates(locks: map<int, Lock>, states: map<int, Subject.Core.LockState>)
    requires forall id <- locks.Keys :: id in states
    ensures locks != map[] ==> states != map[]
  {
    if locks != map[] {
      var id := SomeLock(locks);
      assert id in locks.Keys;
    }
  }

  lemma Smaller(states: map<int, Subject.Core.LockState>, id: int)
    requires id in states
    ensures |(states - {id}).Keys| < |states.Keys|
  {
  }

  lemma Emptied(s: Subject.RwLockSet)
    requires s.Valid() && s.states == map[]
    ensures s.core.model.locks == map[] && s.core.model.queue == []
    ensures s.core.readers.tree.root == null && s.core.writers.tree.root == null && s.core.pendings.root == null
  {
    hide Subject.Core.LockCore.Tracked, Subject.Core.LockCore.RegionView, Subject.Core.LockCore.QueueView;
    LocksHaveStates(s.core.model.locks, s.core.states);
    NobodyWaits(s.core.model);
    s.core.TreesEmpty();
  }

  lemma SameFlag(s: Subject.RwLockSet, r: Reference.RwLockSet, id: int)
    requires s.Valid() && r.Valid() && s.core.model == r.model && id in s.states
    ensures id in r.model.locks && id in s.complete
    ensures (s.complete[id] <==> r.model.locks[id].stop == r.model.locks[id].end)
  {
    hide Subject.Core.LockCore.Tracked;
  }

  /** The results of locks and tries, so far, are those that the held indices call for. */
  ghost predicate Answers(cs: seq<Command>, results: seq<bool>) {
    && |results| <= |cs|
    && forall k | 0 <= k < |results| :: Legal(EMPTY, cs[..k]) && Answer(Run(EMPTY, cs[..k]), cs[k], results[k])
  }

  ghost predicate Answer(m: Model, c: Command, ok: bool) {
    !c.UnlockRange? ==> (ok <==> AllFree(m.locks, c.write, c.start, c.end))
  }

  lemma AnswersMore(cs: seq<Command>, results: seq<bool>, ok: bool)
    requires |results| < |cs| && Answers(cs, results)
    requires Legal(EMPTY, cs[..|results|]) && Answer(Run(EMPTY, cs[..|results|]), cs[|results|], ok)
    ensures Answers(cs, results + [ok])
  {
    hide Legal, Run, Answer;
  }

  /** Theorem: whatever the commands, every result of the core and every lock's completeness after
      every command are those of the array of locks; the results say which ranges were free; and in the end
      the locks can be released one by one, complete ones only, until the core is empty. */
  method QuickCheck(cs: seq<Command>, len: nat) returns (agreed: bool, deadlock: bool, results: seq<bool>)
    requires Legal(EMPTY, cs) && forall c <- cs :: c.UnlockRange? || 0 <= c.start <= c.end <= len
    ensures agreed && !deadlock && |results| == |cs| && Answers(cs, results)
  {
    hide Subject.RwLockSet.Valid, Reference.RwLockSet.Valid, Legal, Run, Do, Allowed, Known, Answers, Answer, AllFree;
    hide Added, Reaches;
    var s := new Subject.RwLockSet();
    var r := new Reference.RwLockSet(len);
    agreed, results := true, [];
    NoAnswers(cs);
    for i := 0 to |cs|
      invariant s.Valid() && r.Valid() && s.core.model == r.model && agreed
      invariant Legal(EMPTY, cs[..i]) && r.model == Run(EMPTY, cs[..i])
      invariant |results| == i && Answers(cs, results)
      invariant fresh(s) && fresh(s.core) && fresh(s.core.readers) && fresh(s.core.readers.tree)
      invariant fresh(s.core.writers) && fresh(s.core.writers.tree) && fresh(s.core.pendings)
      invariant fresh(r) && fresh(r.rwlocks) && r.rwlocks.Length == len
      invariant forall n <- s.core.writers.tree.mem.Keys :: fresh(n)
      invariant forall n <- s.core.readers.tree.mem.Keys :: fresh(n)
      invariant forall n <- s.core.pendings.mem.Keys :: fresh(n)
      invariant forall st <- s.core.states.Values :: fresh(st)
    {
      Around(cs, i);
      assert cs[i] in cs;
      ghost var m := r.model;
      var same, ok := Step(s, r, cs[i]);
      AnswerIs(m, cs[i], ok);
      AnswersMore(cs, results, ok);
      var alike := Compare(s, r);
      agreed, results := agreed && same && alike, results + [ok];
    }
    deadlock := Drain(s);
  }

  lemma NoAnswers(cs: seq<Command>)
    ensures Legal(EMPTY, cs[..0]) && Run(EMPTY, cs[..0]) == EMPTY && Answers(cs, [])
  {
  }

  lemma AnswerIs(m: Model, c: Command, ok: bool)
    requires !c.UnlockRange? ==> (ok <==> AllFree(m.locks, c.write, c.start, c.end))
    ensures Answer(m, c, ok)
  {
  }
}
