/** What the commands of a run do, told by who holds which index. */
module RunLaws {
  import opened LockModel
  import opened LockFacts
  import opened WalkFacts
  import opened Guarantees
  import opened Grants
  import opened Runs
  import opened WaitOrder
  import opened Requests

  // ----- One command

  /** Theorem: a lock command makes exactly the lock that it names, which holds everything before the first
      index that another lock holds in a conflicting mode, and waits there. */
  lemma LockCommand(m: Model, id: int, start: int, end: int, write: bool, priority: int)
    requires Inv(m) && Allowed(m, LockRange(id, start, end, write, priority))
    ensures var r := Do(m, LockRange(id, start, end, write, priority));
      && Added(m, r, id) && r.locks[id] == Lock(start, end, write, priority, r.locks[id].stop)
      && Reaches(m.locks, write, start, end, r.locks[id].stop)
      && (id in r.queue <==> r.locks[id].stop < end)
  {
    InvSound(m);
    hide Inv, Sound, Added, Reaches, Acquire;
    AcquireMakes(m, id, start, end, write, priority);
  }

  /** Theorem: a try command makes the lock that it names, which holds all of its range, if that is free;
      otherwise it changes nothing. */
  lemma TryCommand(m: Model, id: int, start: int, end: int, write: bool, priority: int)
    requires Inv(m) && Allowed(m, TryLockRange(id, start, end, write, priority))
    ensures var r := Do(m, TryLockRange(id, start, end, write, priority));
      if AllFree(m.locks, write, start, end)
      then Added(m, r, id) && r.locks[id] == Lock(start, end, write, priority, end) && r.queue == m.queue
      else r == m
  {
    InvSound(m);
    hide Inv, Sound, Added, AllFree, TryAcquire;
    TryMakes(m, id, start, end, write, priority);
  }

  /** Theorem: an unlock command removes exactly the lock that it names, and no other lock loses anything. */
  lemma UnlockCommand(m: Model, id: int)
    requires Inv(m) && Allowed(m, UnlockRange(id))
    ensures var r := Do(m, UnlockRange(id));
      r.locks.Keys == m.locks.Keys - {id} && forall x <- r.locks.Keys :: Grown(m.locks[x], r.locks[x])
  {
    UnlockFrame(m, id);
  }

  // ----- Cutting a run in two

  lemma {:induction false} Split(m: Model, cs: seq<Command>, k: nat)
    requires Legal(m, cs) && k <= |cs|
    ensures Legal(m, cs[..k]) && Legal(Run(m, cs[..k]), cs[k..]) && Run(m, cs) == Run(Run(m, cs[..k]), cs[k..])
    decreases k
  {
    if k == 0 {
      assert cs[..0] == [] && cs[0..] == cs;
    } else {
      var n, rest := Do(m, cs[0]), cs[1..];
      Split(n, rest, k - 1);
      assert cs[..k][0] == cs[0] && cs[..k][1..] == rest[..k - 1] && cs[k..] == rest[k - 1..];
    }
  }

  lemma {:induction false} Join(m: Model, cs: seq<Command>, c: Command)
    requires Legal(m, cs) && Known(Run(m, cs).locks, Run(m, cs).queue)
    ensures Legal(m, cs + [c]) <==> Allowed(Run(m, cs), c)
    ensures Legal(m, cs + [c]) ==> Run(m, cs + [c]) == Do(Run(m, cs), c)
    decreases |cs|
  {
    if cs == [] {
      assert [] + [c] == [c] && [c][1..] == [];
      assert Known(m.locks, m.queue) && Allowed(m, c) ==> Legal(Do(m, c), []) && Run(Do(m, c), []) == Do(m, c);
    } else {
      assert (cs + [c])[0] == cs[0] && (cs + [c])[1..] == cs[1..] + [c];
      Join(Do(m, cs[0]), cs[1..], c);
    }
  }

  /** Theorem: at the end of a run every lock can be released, and every non-empty range can be asked for
      under an identity that is not in use. */
  lemma MayGoOn(cs: seq<Command>, c: Command)
    requires Legal(EMPTY, cs)
    ensures Legal(EMPTY, cs + [c]) <==>
      if c.UnlockRange? then c.id in Run(EMPTY, cs).locks else c.id !in Run(EMPTY, cs).locks && c.start < c.end
  {
    RunInv(cs);
    InvSound(Run(EMPTY, cs));
    hide Inv, Sound;
    Join(EMPTY, cs, c);
  }

  /** Until it is released a lock stays what was asked for, and never loses an index. */
  lemma {:induction false} Stays(m: Model, cs: seq<Command>, id: int)
    requires Inv(m) && Legal(m, cs) && id in m.locks && UnlockRange(id) !in cs
    ensures id in Run(m, cs).locks && Grown(m.locks[id], Run(m, cs).locks[id])
    decreases |cs|
  {
    if cs != [] {
      assert cs[0] in cs && forall c <- cs[1..] :: c in cs;
      assert cs[0].id != id;
      DoInv(m, cs[0]);
      DoGrows(m, cs[0], id);
      hide Inv, Do, Known, Allowed;
      Stays(Do(m, cs[0]), cs[1..], id);
    }
  }

  // ----- Whole runs

  /** The command at place `k` is not undone later in the run. */
  predicate Unreleased(cs: seq<Command>, k: nat) {
    k < |cs| && UnlockRange(cs[k].id) !in cs[k + 1..]
  }

  /** Before and after the command at place `k`. */
  lemma Around(cs: seq<Command>, k: nat)
    requires Legal(EMPTY, cs) && k < |cs|
    ensures Legal(EMPTY, cs[..k]) && Legal(EMPTY, cs[..k + 1])
    ensures var m, n := Run(EMPTY, cs[..k]), Run(EMPTY, cs[..k + 1]);
      && Inv(m) && Inv(n) && Known(m.locks, m.queue) && Allowed(m, cs[k]) && n == Do(m, cs[k])
      && Legal(n, cs[k + 1..]) && Run(EMPTY, cs) == Run(n, cs[k + 1..])
  {
    hide *;
    Split(EMPTY, cs, k);
    Split(EMPTY, cs, k + 1);
    RunInv(cs[..k]);
    RunInv(cs[..k + 1]);
    InvSound(Run(EMPTY, cs[..k]));
    assert cs[..k + 1] == cs[..k] + [cs[k]];
    Join(EMPTY, cs[..k], cs[k]);
  }

  /** Theorem: what a lock command asked for is what its lock is, until it is released; it started out with
      everything before the first index that was not free, and has lost nothing since. */
  lemma Asked(cs: seq<Command>, k: nat)
    requires Legal(EMPTY, cs) && Unreleased(cs, k) && cs[k].LockRange?
    ensures Legal(EMPTY, cs[..k]) && Legal(EMPTY, cs[..k + 1])
    ensures var c, m, n, r := cs[k], Run(EMPTY, cs[..k]), Run(EMPTY, cs[..k + 1]), Run(EMPTY, cs);
      && c.id !in m.locks && c.id in n.locks && c.id in r.locks
      && n.locks[c.id] == Lock(c.start, c.end, c.write, c.priority, n.locks[c.id].stop)
      && Reaches(m.locks, c.write, c.start, c.end, n.locks[c.id].stop)
      && r.locks[c.id] == Lock(c.start, c.end, c.write, c.priority, r.locks[c.id].stop)
      && n.locks[c.id].stop <= r.locks[c.id].stop
  {
    Around(cs, k);
    var c := cs[k];
    LockCommand(Run(EMPTY, cs[..k]), c.id, c.start, c.end, c.write, c.priority);
    hide Inv, Do, Legal, Run, Reaches, Known;
    Stays(Run(EMPTY, cs[..k + 1]), cs[k + 1..], c.id);
  }

  /** Theorem: a try whose range was free has its lock, complete, until it is released; any other try left
      everything as it was. */
  lemma Tried(cs: seq<Command>, k: nat)
    requires Legal(EMPTY, cs) && Unreleased(cs, k) && cs[k].TryLockRange?
    ensures Legal(EMPTY, cs[..k]) && Legal(EMPTY, cs[..k + 1])
    ensures var c, m, n, r := cs[k], Run(EMPTY, cs[..k]), Run(EMPTY, cs[..k + 1]), Run(EMPTY, cs);
      if AllFree(m.locks, c.write, c.start, c.end)
      then c.id in r.locks && r.locks[c.id] == Lock(c.start, c.end, c.write, c.priority, c.end)
      else n == m
  {
    Around(cs, k);
    RunInv(cs);
    var c, m := cs[k], Run(EMPTY, cs[..k]);
    TryCommand(m, c.id, c.start, c.end, c.write, c.priority);
    hide Do, Legal, Run, AllFree, Known, Queued, Exclusive, Stuck;
    if AllFree(m.locks, c.write, c.start, c.end) {
      Stays(Run(EMPTY, cs[..k + 1]), cs[k + 1..], c.id);
      assert c.id in Run(EMPTY, cs).locks.Keys;
    }
  }

  // ----- Priorities

  lemma PriorAhead(m: Model, a: int, b: int)
    requires Sound(m) && a in m.queue && b in m.queue && a in m.locks && b in m.locks
    requires m.locks[a].stop == m.locks[b].stop && m.locks[a].priority > m.locks[b].priority
    ensures Ahead(m.queue, a, b)
  {
    var i, j := Position(m.queue, a), Position(m.queue, b);
    SoundSorted(m);
  }

  /** Somebody is first in line where somebody waits. */
  lemma FirstThere(m: Model, p: int, a: int) returns (f: int)
    requires Sound(m) && a in m.queue && a in m.locks && m.locks[a].stop == p
    ensures FirstInLine(m, p, f) && f in m.queue && f in m.locks && m.locks[f].stop == p
  {
    SoundSorted(m);
    var i, k := Position(m.queue, a), Below(m, p + 1);
    BelowIff(m, p + 1, i);
    assert k > 0 && i <= k - 1 && (i < k - 1 ==> Le(m.locks[a], m.locks[m.queue[k - 1]]));
    f := m.queue[k - 1];
  }

  /** How a writer's release treats two who wait at one of its indices. */
  lemma PairGrants(m: Model, id: int, p: int, a: int, b: int)
    requires Inv(m) && id in m.locks && m.locks[id].write && Holds(m.locks[id], p)
    requires a in m.queue && b in m.queue && Ahead(m.queue, a, b)
    requires a in m.locks && b in m.locks && m.locks[a].stop == p == m.locks[b].stop
    ensures Known(m.locks, m.queue) && a in Unlock(m, id).locks && b in Unlock(m, id).locks
    ensures Holds(Unlock(m, id).locks[b], p) ==>
      Holds(Unlock(m, id).locks[a], p) || (m.locks[a].write && !m.locks[b].write)
  {
    InvSound(m);
    hide Inv, Sound, Unlock, Ahead, FirstInLine;
    var f := FirstThere(m, p, a);
    NotFirst(m, p, a, b);
    UnlockGrants(m, id, p, f, a);
    UnlockGrants(m, id, p, f, b);
  }

  /** Theorem: of two who wait at one index the one that asked with the higher priority is ahead.  When a
      writer gives the index up, the other one gets it only together with the first, or past it as a reader
      among readers. */
  lemma HigherFirst(cs: seq<Command>, i: nat, j: nat, id: int, p: int)
    requires Legal(EMPTY, cs) && Unreleased(cs, i) && Unreleased(cs, j) && cs[i].LockRange? && cs[j].LockRange?
    requires cs[i].priority > cs[j].priority
    requires var r, a, b := Run(EMPTY, cs), cs[i].id, cs[j].id;
      && a in r.queue && a in r.locks && r.locks[a].stop == p && b in r.queue && b in r.locks && r.locks[b].stop == p
      && id in r.locks && r.locks[id].write && Holds(r.locks[id], p)
    ensures Ahead(Run(EMPTY, cs).queue, cs[i].id, cs[j].id) && !FirstInLine(Run(EMPTY, cs), p, cs[j].id)
    ensures Legal(EMPTY, cs + [UnlockRange(id)])
    ensures var u, a, b := Run(EMPTY, cs + [UnlockRange(id)]), cs[i].id, cs[j].id;
      && a in u.locks && b in u.locks
      && (Holds(u.locks[b], p) ==> Holds(u.locks[a], p) || (cs[i].write && !cs[j].write))
  {
    var r, a, b := Run(EMPTY, cs), cs[i].id, cs[j].id;
    RunInv(cs);
    InvSound(r);
    Asked(cs, i);
    Asked(cs, j);
    MayGoOn(cs, UnlockRange(id));
    hide Inv, Sound, Legal, Run, Unlock, Ahead, FirstInLine, Known, Reaches, Unreleased;
    PriorAhead(r, a, b);
    NotFirst(r, p, a, b);
    Join(EMPTY, cs, UnlockRange(id));
    PairGrants(r, id, p, a, b);
  }

  /** Theorem: who asked with a higher priority than everyone else who waits at an index gets it when a
      writer gives it up; and if it is a writer itself, it alone. */
  lemma HighestGranted(cs: seq<Command>, i: nat, id: int, p: int, w: int)
    requires Legal(EMPTY, cs) && Unreleased(cs, i) && cs[i].LockRange?
    requires var r, a := Run(EMPTY, cs), cs[i].id;
      && a in r.queue && a in r.locks && r.locks[a].stop == p
      && (forall x <- r.queue | x != a && x in r.locks && r.locks[x].stop == p :: r.locks[x].priority < cs[i].priority)
      && id in r.locks && r.locks[id].write && Holds(r.locks[id], p)
      && w in r.queue && w in r.locks && r.locks[w].stop == p
    ensures Legal(EMPTY, cs + [UnlockRange(id)])
    ensures var r, u, a := Run(EMPTY, cs), Run(EMPTY, cs + [UnlockRange(id)]), cs[i].id;
      && a in u.locks && w in u.locks && Holds(u.locks[a], p)
      && (w != a && cs[i].write ==> u.locks[w] == r.locks[w])
      && (w != a && !cs[i].write ==> (Holds(u.locks[w], p) <==> !r.locks[w].write))
  {
    var r, a := Run(EMPTY, cs), cs[i].id;
    RunInv(cs);
    InvSound(r);
    Asked(cs, i);
    MayGoOn(cs, UnlockRange(id));
    hide Inv, Sound, Legal, Run, Unlock, FirstInLine, Known, Reaches, Unreleased;
    var f := FirstThere(r, p, a);
    FirstIsHighest(r, p, f, a);
    assert f == a;
    Join(EMPTY, cs, UnlockRange(id));
    UnlockGrants(r, id, p, a, a);
    UnlockGrants(r, id, p, a, w);
  }
}
