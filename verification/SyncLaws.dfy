/** What blocking calls and releases achieve, over every interleaving. */
module SyncLaws {
  import opened LockModel
  import opened WalkFacts
  import opened Guarantees
  import opened Runs
  import opened Reports
  import opened Requests
  import opened SyncWaiting

  // ----- One step

  /** Theorem: whenever the mutex is free, a thread that is not in a call may ask for any non-empty range
      under an identity that is not in use. */
  lemma MayEnter(s: State, t: int, id: int, start: int, end: int, write: bool, priority: int)
    requires Good(s) && !s.locked
    ensures Enabled(s, Enter(t, id, start, end, write, priority)) <==> t !in s.calls && id !in s.m.locks && start < end
  {
    GoodIs(s);
  }

  /** Theorem: whenever the mutex is free, a lock whose call has returned may be released. */
  lemma MayRelease(s: State, id: int)
    requires Good(s) && !s.locked
    ensures Enabled(s, Release(id)) <==> id in s.m.locks && forall t <- s.calls.Keys :: s.calls[t].id != id
  {
    GoodIs(s);
  }

  /** Theorem: a call makes exactly the lock that it asks for, which holds everything before the first index
      that another lock holds in a conflicting mode; the caller waits iff that is not all. */
  lemma EnterMakes(s: State, t: int, id: int, start: int, end: int, write: bool, priority: int)
    requires Good(s) && Enabled(s, Enter(t, id, start, end, write, priority))
    ensures var n := Next(s, Enter(t, id, start, end, write, priority));
      && Added(s.m, n.m, id) && n.m.locks[id] == Lock(start, end, write, priority, n.m.locks[id].stop)
      && Reaches(s.m.locks, write, start, end, n.m.locks[id].stop)
      && n.calls == (if n.m.locks[id].stop < end then s.calls[t := Checking(id)] else s.calls)
      && (n.m.locks[id].stop < end ==> id in n.waiters && n.waiters[id] == t && id in n.flags && !n.flags[id])
      && n.tokens == s.tokens && !n.locked
  {
    GoodIs(s);
    InvSound(s.m);
    AcquireMakes(s.m, id, start, end, write, priority);
    hide Good, Inv, Sound, Added, Reaches, Acquire, Known;
  }

  /** Theorem: a release removes exactly its lock, and no other lock loses anything; the completions that it
      has to report are those of exactly the locks that it completes, each once. */
  lemma ReleaseFrees(s: State, id: int, x: int)
    requires Good(s) && Enabled(s, Release(id))
    ensures var n := Next(s, Release(id));
      && n.m.locks.Keys == s.m.locks.Keys - {id} && (forall y <- n.m.locks.Keys :: Grown(s.m.locks[y], n.m.locks[y]))
      && n.locked && multiset(n.todo)[x] == (if Completes(s.m, n.m, id, x) then 1 else 0)
      && n.calls == s.calls && n.flags == s.flags && n.waiters == s.waiters && n.tokens == s.tokens
  {
    GoodIs(s);
    UnlockFrame(s.m, id);
    ReportedExactly(s.m, id, x);
    hide Good, Inv, LockModel.Unlock, Completes;
  }

  // ----- Putting schedules together

  lemma Cons(s: State, a: Step, rest: seq<Step>)
    requires Enabled(s, a) && Schedule(Next(s, a), rest)
    ensures Schedule(s, [a] + rest) && After(s, [a] + rest) == After(Next(s, a), rest)
  {
    assert ([a] + rest)[1..] == rest;
  }

  lemma {:induction false} Append(s: State, one: seq<Step>, two: seq<Step>)
    requires Schedule(s, one) && Schedule(After(s, one), two)
    ensures Schedule(s, one + two) && After(s, one + two) == After(After(s, one), two)
    decreases |one|
  {
    hide Enabled, Next;
    if one == [] {
      assert one + two == two;
    } else {
      Append(Next(s, one[0]), one[1..], two);
      assert (one + two)[1..] == one[1..] + two;
    }
  }

  lemma {:induction false} Split(s: State, steps: seq<Step>, k: nat)
    requires Schedule(s, steps) && k <= |steps|
    ensures Schedule(s, steps[..k]) && Schedule(After(s, steps[..k]), steps[k..])
    ensures After(s, steps) == After(After(s, steps[..k]), steps[k..])
    decreases k
  {
    hide Enabled, Next;
    if k == 0 {
      assert steps[..0] == [] && steps[0..] == steps;
    } else {
      var n, rest := Next(s, steps[0]), steps[1..];
      Split(n, rest, k - 1);
      assert steps[..k][0] == steps[0] && steps[..k][1..] == rest[..k - 1] && steps[k..] == rest[k - 1..];
    }
  }

  // ----- The lock that was asked for

  /** Until it is released a lock stays what it is, and whoever waits for it is not replaced. */
  ghost predicate Keeps(s: State, n: State, id: int) {
    && id in s.m.locks && id in n.m.locks && Grown(s.m.locks[id], n.m.locks[id])
    && (id in s.waiters ==> id in n.waiters && n.waiters[id] == s.waiters[id])
  }

  lemma StepKeeps(s: State, a: Step, id: int)
    requires Good(s) && Enabled(s, a) && id in s.m.locks && a != Release(id)
    ensures Keeps(s, Next(s, a), id)
  {
    GoodIs(s);
    hide Good, Inv, Acquire, LockModel.Unlock, Complete;
    if a.Enter? {
      AcquireOthers(s.m, a.id, Request(a.start, a.end, a.write, a.priority));
    } else if a.Release? {
      UnlockFrame(s.m, a.id);
      assert id in LockModel.Unlock(s.m, a.id).locks.Keys;
    }
  }

  lemma {:induction false} RunKeeps(s: State, steps: seq<Step>, id: int)
    requires Good(s) && Schedule(s, steps) && id in s.m.locks && Release(id) !in steps
    ensures Keeps(s, After(s, steps), id)
    decreases |steps|
  {
    if steps != [] {
      hide Good, Enabled, Next;
      assert steps[0] in steps && forall a <- steps[1..] :: a in steps;
      StepGood(s, steps[0]);
      StepKeeps(s, steps[0], id);
      RunKeeps(Next(s, steps[0]), steps[1..], id);
    }
  }

  /** The states before and after the step at place `k`. */
  lemma Around(steps: seq<Step>, k: nat)
    requires Schedule(START, steps) && k < |steps|
    ensures Schedule(START, steps[..k]) && Enabled(After(START, steps[..k]), steps[k])
    ensures Good(After(START, steps[..k])) && Good(Next(After(START, steps[..k]), steps[k]))
    ensures var n := Next(After(START, steps[..k]), steps[k]);
      Schedule(n, steps[k + 1..]) && After(START, steps) == After(n, steps[k + 1..])
  {
    StartGood();
    hide Good, Enabled, Next, START;
    Split(START, steps, k);
    RunGood(START, steps[..k]);
    assert steps[k..][0] == steps[k] && steps[k..][1..] == steps[k + 1..];
    StepGood(After(START, steps[..k]), steps[k]);
  }

  /** The lock of the call at place `k` is what was asked for, and the caller is who waits for it. */
  lemma AskedFor(steps: seq<Step>, k: nat)
    requires Schedule(START, steps) && k < |steps| && steps[k].Enter? && Release(steps[k].id) !in steps[k + 1..]
    ensures var s, a := After(START, steps), steps[k];
      && a.id in s.m.locks && s.m.locks[a.id] == Lock(a.start, a.end, a.write, a.priority, s.m.locks[a.id].stop)
      && (s.m.locks[a.id].stop < a.end ==> a.id in s.waiters && s.waiters[a.id] == a.t)
  {
    hide Good, Inv, Enabled, Next, Schedule, After, Keeps, Reaches, Free, AllFree;
    Around(steps, k);
    var b, a := After(START, steps[..k]), steps[k];
    EnterMakes(b, a.t, a.id, a.start, a.end, a.write, a.priority);
    RunKeeps(Next(b, a), steps[k + 1..], a.id);
    KeptFor(Next(b, a), After(Next(b, a), steps[k + 1..]), a.t, a.id, a.start, a.end, a.write, a.priority);
  }

  lemma KeptFor(n: State, s: State, t: int, id: int, start: int, end: int, write: bool, priority: int)
    requires Keeps(n, s, id) && n.m.locks[id] == Lock(start, end, write, priority, n.m.locks[id].stop)
    requires n.m.locks[id].stop < end ==> id in n.waiters && n.waiters[id] == t
    ensures id in s.m.locks && s.m.locks[id] == Lock(start, end, write, priority, s.m.locks[id].stop)
    ensures s.m.locks[id].stop < end ==> id in s.waiters && s.waiters[id] == t
  {
  }

  /** Theorem: in every interleaving the lock that a call asked for is, until it is released, exactly what
      was asked for.  Once that call has returned it holds the whole range, and nobody else holds any of it
      in a conflicting mode. */
  lemma Entered(steps: seq<Step>, k: nat)
    requires Schedule(START, steps) && k < |steps| && steps[k].Enter? && Release(steps[k].id) !in steps[k + 1..]
    ensures var s, a := After(START, steps), steps[k];
      && a.id in s.m.locks && s.m.locks[a.id] == Lock(a.start, a.end, a.write, a.priority, s.m.locks[a.id].stop)
      && (!(a.t in s.calls && s.calls[a.t].id == a.id) ==> Owns(s.m.locks, a.id, a.start, a.end, a.write))
  {
    hide *;
    AskedFor(steps, k);
    StartGood();
    RunGood(START, steps);
    var s, a := After(START, steps), steps[k];
    GoodIs(s);
    InvSound(s.m);
    if !(a.t in s.calls && s.calls[a.t].id == a.id) {
      Returned(s, a.id, a.t);
      Alone(s.m, a.id);
    }
  }

  /** The lock `id` has the whole range, and shares it only with readers if it is one itself. */
  ghost predicate Owns(locks: map<int, Lock>, id: int, start: int, end: int, write: bool)
    requires id in locks
  {
    forall i | start <= i < end ::
      && Holds(locks[id], i)
      && forall x <- locks.Keys | x != id && Holds(locks[x], i) :: !write && !locks[x].write
  }

  lemma Alone(m: Model, id: int)
    requires Sound(m) && id in m.locks && m.locks[id].stop >= m.locks[id].end
    ensures Owns(m.locks, id, m.locks[id].start, m.locks[id].end, m.locks[id].write)
  {
  }

  /** An incomplete lock is still being waited for. */
  lemma Returned(s: State, id: int, t: int)
    requires Good(s) && id in s.m.locks && !(t in s.calls && s.calls[t].id == id)
    requires s.m.locks[id].stop < s.m.locks[id].end ==> id in s.waiters && s.waiters[id] == t
    ensures s.m.locks[id].start <= s.m.locks[id].stop && s.m.locks[id].stop >= s.m.locks[id].end
  {
    GoodIs(s);
    ShapedAt(s.m, id);
    if !Complete(s.m.locks[id]) {
      WaitedFor(s, id);
    }
  }

  // ----- A release comes to its end

  /** This thread has been told: its flag is set and it has a token. */
  ghost predicate Told(s: State, id: int) {
    id in s.flags && s.flags[id] && id in s.waiters && s.waiters[id] in s.tokens
  }

  /** Only reports happened from `s` to `n`. */
  ghost predicate OnlyReports(s: State, n: State) {
    && n.m == s.m && n.calls == s.calls && n.waiters == s.waiters && s.tokens <= n.tokens
    && forall id <- s.flags.Keys :: id in n.flags && (s.flags[id] ==> n.flags[id])
  }

  /** Theorem: the holder of the mutex gets to the end of its release by its own steps; then the mutex is
      free, and every thread whose lock was to be reported has its flag set and a token. */
  lemma {:induction false} Finishes(s: State) returns (steps: seq<Step>)
    requires Good(s) && s.locked
    ensures Schedule(s, steps) && forall a <- steps :: a == Store || a == Unpark || a == Leave
    ensures var n := After(s, steps);
      Good(n) && !n.locked && n.todo == [] && OnlyReports(s, n) && forall id <- s.todo :: Told(n, id)
    decreases |s.todo|, !s.stored
  {
    GoodIs(s);
    if s.todo == [] {
      steps := [Leave];
      LeaveGood(s);
      assert Schedule(Next(s, Leave), []) && After(Next(s, Leave), []) == Next(s, Leave);
      Cons(s, Leave, []);
    } else if !s.stored {
      StoreGood(s);
      var rest := Finishes(Next(s, Store));
      Cons(s, Store, rest);
      steps := [Store] + rest;
    } else {
      UnparkGood(s);
      var rest := Finishes(Next(s, Unpark));
      Cons(s, Unpark, rest);
      steps := [Unpark] + rest;
    }
  }

  // ----- Every call returns

  /** Some thread is in a call, and whatever it waits for exists. */
  lemma SomeCall(s: State) returns (t: int)
    requires Good(s) && s.calls != map[]
    ensures t in s.calls && s.calls[t].id in s.m.locks
  {
    if forall x :: x !in s.calls {
      assert false;
    }
    t :| t in s.calls;
    CallAt(s, t);
  }

  /** If nobody in a call could return, the lock that is complete may be released. */
  lemma SomeRelease(s: State) returns (id: int)
    requires Good(s) && !s.locked && s.calls != map[]
    requires forall t <- s.calls.Keys :: s.calls[t].id in s.m.locks && !Complete(s.m.locks[s.calls[t].id])
    ensures Enabled(s, Release(id))
  {
    GoodIs(s);
    var t := SomeCall(s);
    hide Good, Inv;
    id := SomeComplete(s.m, s.calls[t].id);
    MayRelease(s, id);
  }

  /** Theorem: from every state that can be reached, releases of locks whose calls have returned, with the steps
      of the waiting threads, let every call return; no new call is needed. */
  lemma {:induction false} Progress(s: State) returns (steps: seq<Step>)
    requires Good(s)
    ensures Schedule(s, steps) && forall a <- steps :: !a.Enter?
    ensures Good(After(s, steps)) && After(s, steps).calls == map[] && !After(s, steps).locked
    decreases |s.m.locks|, |s.calls|, s.locked
  {
    hide Good, Enabled, Next, Schedule, After, CallOk, Complete;
    if s.locked {
      var one := Finishes(s);
      var two := Progress(After(s, one));
      Append(s, one, two);
      steps := one + two;
    } else if s.calls == map[] {
      steps := [];
      Nothing(s);
    } else if t :| t in s.calls && s.calls[t].id in s.m.locks && Complete(s.m.locks[s.calls[t].id]) {
      var one := GetsOut(s, t);
      RunGood(s, one);
      assert s.calls.Keys - {t} == (s.calls - {t}).Keys;
      var two := Progress(After(s, one));
      Append(s, one, two);
      steps := one + two;
    } else {
      forall t <- s.calls.Keys
        ensures s.calls[t].id in s.m.locks
      {
        CallLock(s, t);
      }
      var id := SomeRelease(s);
      StepGood(s, Release(id));
      FewerLocks(s, id);
      var two := Progress(Next(s, Release(id)));
      Cons(s, Release(id), two);
      steps := [Release(id)] + two;
    }
  }

  lemma Nothing(s: State)
    ensures Schedule(s, []) && After(s, []) == s
  {
  }

  lemma CallLock(s: State, t: int)
    requires Good(s) && t in s.calls
    ensures s.calls[t].id in s.m.locks
  {
    CallAt(s, t);
  }

  lemma FewerLocks(s: State, id: int)
    requires Good(s) && Enabled(s, Release(id))
    ensures |Next(s, Release(id)).m.locks| < |s.m.locks|
  {
    ReleaseFrees(s, id, id);
    var n := Next(s, Release(id));
    hide Good, Next;
    assert id in s.m.locks.Keys && |n.m.locks.Keys| == |s.m.locks.Keys - {id}|;
  }
}
