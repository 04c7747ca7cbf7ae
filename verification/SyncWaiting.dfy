/** The blocking form: a flag and a park token for every waiting thread, and one mutex.

    A thread that cannot lock at once leaves the mutex and then alternates between loading its flag
    and parking.  Whoever releases a lock holds the mutex while it stores the flags and unparks the
    threads of the locks it completed, one after the other; the waiting threads run in between. */
module SyncWaiting {
  import opened LockModel
  import opened WalkFacts
  import opened Guarantees
  import opened Runs
  import opened Reports

  /** Where a thread is in its waiting loop: about to load its flag, or parked after it was false. */
  datatype Wait = Checking(id: int) | Parked(id: int)

  /** `waiters` tells whom each pending borrow will unpark.  `todo` lists the completions that the
      holder of the mutex has yet to report; if `stored`, the flag of the first is set already. */
  datatype State = State(m: Model, calls: map<int, Wait>, flags: map<int, bool>, waiters: map<int, int>,
                         tokens: set<int>, todo: seq<int>, stored: bool, locked: bool)

  datatype Step =
    | Enter(t: int, id: int, start: int, end: int, write: bool, priority: int)
    | Load(t: int)
    | Wake(t: int)
    | WakeSpuriously(t: int)
    | Release(id: int)
    | Store
    | Unpark
    | Leave

  const START := State(EMPTY, map[], map[], map[], {}, [], false, false)

  /** Whether some thread is still in the call that locks `id`. */
  ghost predicate InCall(s: State, id: int) {
    id in s.waiters && s.waiters[id] in s.calls && s.calls[s.waiters[id]].id == id
  }

  /** The mutex excludes locking and unlocking; a lock is released by who has it, not while the call
      that locks it has not returned; and each thread makes one call at a time. */
  ghost predicate Enabled(s: State, a: Step) {
    match a
    case Enter(t, id, start, end, _, _) =>
      !s.locked && t !in s.calls && id !in s.m.locks && start < end && Known(s.m.locks, s.m.queue)
    case Load(t) => t in s.calls && s.calls[t].Checking? && s.calls[t].id in s.flags
    case Wake(t) => t in s.calls && s.calls[t].Parked? && t in s.tokens
    case WakeSpuriously(t) => t in s.calls && s.calls[t].Parked?
    case Release(id) =>
      !s.locked && id in s.m.locks && Known(s.m.locks, s.m.queue) && forall t <- s.calls.Keys :: s.calls[t].id != id
    case Store => s.locked && s.todo != [] && !s.stored
    case Unpark => s.locked && s.todo != [] && s.stored && s.todo[0] in s.waiters
    case Leave => s.locked && s.todo == []
  }

  ghost function Next(s: State, a: Step): State
    requires Enabled(s, a)
  {
    match a
    case Enter(t, id, start, end, write, priority) =>
      var m := Acquire(s.m, id, Request(start, end, write, priority));
      if Complete(m.locks[id]) then s.(m := m)
      else s.(m := m, calls := s.calls[t := Checking(id)], flags := s.flags[id := false], waiters := s.waiters[id := t])
    case Load(t) =>
      var id := s.calls[t].id;
      if s.flags[id] then s.(calls := s.calls - {t}) else s.(calls := s.calls[t := Parked(id)])
    case Wake(t) => s.(calls := s.calls[t := Checking(s.calls[t].id)], tokens := s.tokens - {t})
    case WakeSpuriously(t) => s.(calls := s.calls[t := Checking(s.calls[t].id)])
    case Release(id) => s.(m := LockModel.Unlock(s.m, id), todo := Reported(s.m, id), stored := false, locked := true)
    case Store => s.(flags := s.flags[s.todo[0] := true], stored := true)
    case Unpark => s.(tokens := s.tokens + {s.waiters[s.todo[0]]}, todo := s.todo[1..], stored := false)
    case Leave => s.(locked := false)
  }

  /** The completions whose flags are yet to be stored. */
  function Unstored(s: State): seq<int> {
    if s.stored && s.todo != [] then s.todo[1..] else s.todo
  }

  /** A call waits for a lock that exists, with its own flag. */
  ghost predicate CallOk(s: State, t: int)
    requires t in s.calls
  {
    var id := s.calls[t].id;
    && id in s.m.locks && id in s.flags && id in s.waiters && s.waiters[id] == t
    && (s.flags[id] ==> Complete(s.m.locks[id]))
    && (Complete(s.m.locks[id]) ==> s.flags[id] || id in Unstored(s))
    && (s.calls[t].Parked? && s.flags[id] ==> t in s.tokens || (s.stored && s.todo != [] && s.todo[0] == id))
  }

  /** A completion still to be stored goes to a call that is still there, and whose flag is false. */
  ghost predicate PendingOk(s: State, id: int) {
    InCall(s, id) && id in s.flags && !s.flags[id] && id in s.m.locks && Complete(s.m.locks[id])
  }

  ghost predicate Good(s: State) {
    && Inv(s.m)
    && (forall t <- s.calls.Keys :: CallOk(s, t))
    && (forall id <- s.m.locks.Keys :: !Complete(s.m.locks[id]) ==> InCall(s, id))
    && (forall i | 0 <= i < |Unstored(s)| :: PendingOk(s, Unstored(s)[i]))
    && Distinct(s.todo)
    && (s.stored ==> s.todo != [] && s.todo[0] in s.waiters && s.todo[0] in s.flags && s.flags[s.todo[0]])
    && (!s.locked ==> s.todo == [] && !s.stored)
  }

  // ----- Taking it apart and putting it together

  lemma CallAt(s: State, t: int)
    requires Good(s) && t in s.calls
    ensures CallOk(s, t)
  {
  }

  lemma WaitedFor(s: State, id: int)
    requires Good(s) && id in s.m.locks && !Complete(s.m.locks[id])
    ensures InCall(s, id)
  {
    assert id in s.m.locks.Keys;
  }

  lemma PendingAt(s: State, i: nat)
    requires Good(s) && i < |Unstored(s)|
    ensures PendingOk(s, Unstored(s)[i])
  {
  }

  lemma GoodIs(s: State)
    requires Good(s)
    ensures Inv(s.m) && Known(s.m.locks, s.m.queue) && Distinct(s.todo)
    ensures s.stored ==> s.todo != [] && s.todo[0] in s.waiters && s.todo[0] in s.flags && s.flags[s.todo[0]]
    ensures !s.locked ==> s.todo == [] && !s.stored
  {
  }

  lemma GoodMade(s: State)
    requires Inv(s.m) && Distinct(s.todo)
    requires s.stored ==> s.todo != [] && s.todo[0] in s.waiters && s.todo[0] in s.flags && s.flags[s.todo[0]]
    requires (!s.locked ==> s.todo == [] && !s.stored)
    requires forall t <- s.calls.Keys :: CallOk(s, t)
    requires forall id <- s.m.locks.Keys :: !Complete(s.m.locks[id]) ==> InCall(s, id)
    requires forall i | 0 <= i < |Unstored(s)| :: PendingOk(s, Unstored(s)[i])
    ensures Good(s)
  {
  }

  // ----- Every step keeps it

  lemma AcquireOthers(m: Model, id: int, l: Lock)
    requires Known(m.locks, m.queue)
    ensures var a := Acquire(m, id, l);
      && id in a.locks && (forall x :: x in a.locks <==> x in m.locks || x == id)
      && forall x <- m.locks.Keys :: x != id ==> a.locks[x] == m.locks[x]
  {
  }

  /** A thread locks: it returns at once, or it registers and starts to wait. */
  lemma EnterGood(s: State, a: Step)
    requires Good(s) && Enabled(s, a) && a.Enter?
    ensures Good(Next(s, a))
  {
    hide Good, CallOk, InCall, Inv, Acquire, Known, Complete;
    GoodIs(s);
    var n, id, t := Next(s, a), a.id, a.t;
    var l := Request(a.start, a.end, a.write, a.priority);
    AcquireInv(s.m, id, l);
    AcquireOthers(s.m, id, l);
    forall x <- n.calls.Keys
      ensures CallOk(n, x)
    {
      if x == t {
        NewCallOk(n, t);
      } else {
        CallAt(s, x);
        EnterKeepsCall(s, n, id, t, x);
      }
    }
    forall x <- n.m.locks.Keys
      ensures !Complete(n.m.locks[x]) ==> InCall(n, x)
    {
      if x != id && !Complete(n.m.locks[x]) {
        WaitedFor(s, x);
        EnterKeepsWait(s, n, id, t, x);
      } else if !Complete(n.m.locks[id]) {
        NewInCall(n, id, t);
      }
    }
    GoodMade(n);
  }

  lemma NewInCall(n: State, id: int, t: int)
    requires id in n.waiters && n.waiters[id] == t && t in n.calls && n.calls[t].id == id
    ensures InCall(n, id)
  {
  }

  lemma NewCallOk(n: State, t: int)
    requires t in n.calls && n.calls[t].Checking?
    requires var id := n.calls[t].id;
      && id in n.m.locks && id in n.flags && !n.flags[id] && id in n.waiters && n.waiters[id] == t
      && !Complete(n.m.locks[id])
    ensures CallOk(n, t)
  {
  }

  lemma EnterKeepsCall(s: State, n: State, id: int, t: int, x: int)
    requires x in s.calls && x in n.calls && n.calls[x] == s.calls[x] && CallOk(s, x) && x != t && id !in s.m.locks
    requires (n.flags == s.flags && n.waiters == s.waiters)
      || (n.flags == s.flags[id := false] && n.waiters == s.waiters[id := t])
    requires n.tokens == s.tokens && n.todo == s.todo && n.stored == s.stored
    requires forall y <- s.m.locks.Keys :: y != id ==> y in n.m.locks && n.m.locks[y] == s.m.locks[y]
    ensures CallOk(n, x)
  {
    var y := s.calls[x].id;
    assert y in s.m.locks.Keys && y != id;
  }

  lemma EnterKeepsWait(s: State, n: State, id: int, t: int, x: int)
    requires InCall(s, x) && x != id && t !in s.calls
    requires (n.calls == s.calls && n.waiters == s.waiters)
      || (n.calls == s.calls[t := Checking(id)] && n.waiters == s.waiters[id := t])
    ensures InCall(n, x)
  {
  }

  /** A thread loads its flag, or comes back from parking. */
  lemma CallStepGood(s: State, a: Step)
    requires Good(s) && Enabled(s, a) && (a.Load? || a.Wake? || a.WakeSpuriously?)
    ensures Good(Next(s, a))
  {
    hide Good, CallOk, InCall, Inv, Known, Complete, PendingOk;
    GoodIs(s);
    var n, t := Next(s, a), a.t;
    CallAt(s, t);
    forall x <- n.calls.Keys
      ensures CallOk(n, x)
    {
      CallAt(s, x);
      CallStepKeeps(s, n, t, x);
    }
    forall x <- n.m.locks.Keys
      ensures !Complete(n.m.locks[x]) ==> InCall(n, x)
    {
      if !Complete(n.m.locks[x]) {
        WaitedFor(s, x);
        Returning(s, n, t, x);
      }
    }
    forall i | 0 <= i < |Unstored(n)|
      ensures PendingOk(n, Unstored(n)[i])
    {
      PendingAt(s, i);
      ReturningPending(s, n, t, Unstored(s)[i]);
    }
    GoodMade(n);
  }

  /** The calls change only at `t`, which returns only with its flag set and otherwise goes on to
      check or, with its flag false, to park. */
  ghost predicate OneCall(s: State, n: State, t: int) {
    && t in s.calls && n == s.(calls := n.calls, tokens := n.tokens)
    && (|| n.calls == s.calls - {t}
        || n.calls == s.calls[t := Checking(s.calls[t].id)]
        || n.calls == s.calls[t := Parked(s.calls[t].id)])
    && (t !in n.calls ==> s.calls[t].id in s.flags && s.flags[s.calls[t].id])
    && (t in n.calls && n.calls[t].Parked? ==> s.calls[t].id in s.flags && !s.flags[s.calls[t].id])
    && forall x | x != t :: x in s.tokens ==> x in n.tokens
  }

  lemma CallStepKeeps(s: State, n: State, t: int, x: int)
    requires OneCall(s, n, t) && x in s.calls && x in n.calls && CallOk(s, x)
    ensures CallOk(n, x)
  {
  }

  lemma Returning(s: State, n: State, t: int, x: int)
    requires OneCall(s, n, t) && CallOk(s, t) && InCall(s, x) && x in s.m.locks && !Complete(s.m.locks[x])
    ensures InCall(n, x)
  {
  }

  lemma ReturningPending(s: State, n: State, t: int, x: int)
    requires OneCall(s, n, t) && CallOk(s, t) && PendingOk(s, x)
    ensures PendingOk(n, x)
  {
  }

  lemma UnlockOthers(m: Model, id: int, x: int)
    requires Inv(m) && id in m.locks && Known(m.locks, m.queue) && x in m.locks && x != id
    ensures x in LockModel.Unlock(m, id).locks
    ensures var a, b := m.locks[x], LockModel.Unlock(m, id).locks[x];
      && (Complete(a) ==> Complete(b))
      && (!Complete(a) && Complete(b) <==> x in Reported(m, id))
  {
    UnlockInv(m, id);
    UnlockFrame(m, id);
    ReportedExactly(m, id, x);
    ShapedAt(m, x);
    hide LockModel.Unlock, Inv, Reported;
    assert x in LockModel.Unlock(m, id).locks.Keys;
    ShapedAt(LockModel.Unlock(m, id), x);
    assert Grown(m.locks[x], LockModel.Unlock(m, id).locks[x]);
  }

  lemma ReportedOthers(m: Model, id: int, i: nat)
    requires Inv(m) && id in m.locks && Known(m.locks, m.queue) && i < |Reported(m, id)|
    ensures Completes(m, LockModel.Unlock(m, id), id, Reported(m, id)[i])
  {
    ReportedExactly(m, id, Reported(m, id)[i]);
    assert Reported(m, id)[i] in Reported(m, id);
  }

  lemma ReportedDistinct(m: Model, id: int)
    requires Inv(m) && id in m.locks && Known(m.locks, m.queue)
    ensures Distinct(Reported(m, id))
  {
    var q := Reported(m, id);
    ReportedIs(m, id);
    forall i, j | 0 <= i < j < |q|
      ensures q[i] != q[j]
    {
      DoneOnce(m, id, q, j);
      assert q[i] in q[..j];
    }
  }

  lemma UnlockKeys(m: Model, id: int)
    requires Inv(m) && id in m.locks && Known(m.locks, m.queue)
    ensures Inv(LockModel.Unlock(m, id)) && forall x :: x in LockModel.Unlock(m, id).locks <==> x in m.locks && x != id
  {
    UnlockInv(m, id);
    hide LockModel.Unlock, Inv;
    assert forall x :: x in LockModel.Unlock(m, id).locks.Keys <==> x in m.locks.Keys - {id};
  }

  /** A lock is released: the model changes at once, the flags of the completed locks are to follow. */
  lemma ReleaseGood(s: State, a: Step)
    requires Good(s) && Enabled(s, a) && a.Release?
    ensures Good(Next(s, a))
  {
    hide Good, CallOk, InCall, Inv, Known, Complete, PendingOk, LockModel.Unlock, Reported, Completes, Distinct;
    GoodIs(s);
    var n, id := Next(s, a), a.id;
    UnlockKeys(s.m, id);
    ReportedDistinct(s.m, id);
    forall x <- n.calls.Keys
      ensures CallOk(n, x)
    {
      CallAt(s, x);
      ReleaseKeepsCall(s, n, id, x);
    }
    forall x <- n.m.locks.Keys
      ensures !Complete(n.m.locks[x]) ==> InCall(n, x)
    {
      UnlockOthers(s.m, id, x);
      if !Complete(n.m.locks[x]) {
        WaitedFor(s, x);
        SameCalls(s, n, x);
      }
    }
    forall i | 0 <= i < |Unstored(n)|
      ensures PendingOk(n, Unstored(n)[i])
    {
      ReleasePending(s, n, id, i);
    }
    GoodMade(n);
  }

  lemma SameCalls(s: State, n: State, x: int)
    requires InCall(s, x) && n.calls == s.calls && n.waiters == s.waiters
    ensures InCall(n, x)
  {
  }

  lemma ReleaseKeepsCall(s: State, n: State, id: int, x: int)
    requires Inv(s.m) && Known(s.m.locks, s.m.queue) && id in s.m.locks && s.todo == [] && !s.stored
    requires n == s.(m := LockModel.Unlock(s.m, id), todo := Reported(s.m, id), stored := false, locked := true)
    requires x in s.calls && s.calls[x].id != id && CallOk(s, x)
    ensures CallOk(n, x)
  {
    UnlockOthers(s.m, id, s.calls[x].id);
    hide LockModel.Unlock, Reported, Inv, Complete;
  }

  lemma ReleasePending(s: State, n: State, id: int, i: nat)
    requires Good(s) && Known(s.m.locks, s.m.queue) && id in s.m.locks
    requires n == s.(m := LockModel.Unlock(s.m, id), todo := Reported(s.m, id), stored := false, locked := true)
    requires i < |n.todo|
    ensures PendingOk(n, n.todo[i])
  {
    hide Good, LockModel.Unlock, Reported, Inv;
    GoodIs(s);
    var x := n.todo[i];
    ReportedOthers(s.m, id, i);
    UnlockOthers(s.m, id, x);
    assert x in Reported(s.m, id);
    WaitedFor(s, x);
    CallAt(s, s.waiters[x]);
  }

  /** The flag of a completed lock is stored. */
  lemma StoreGood(s: State)
    requires Good(s) && Enabled(s, Store)
    ensures Good(Next(s, Store))
  {
    hide Good, CallOk, InCall, Inv, Known, Complete, PendingOk;
    GoodIs(s);
    var n, id := Next(s, Store), s.todo[0];
    PendingAt(s, 0);
    PendingIs(s, id);
    forall x <- n.calls.Keys
      ensures CallOk(n, x)
    {
      CallAt(s, x);
      StoreKeepsCall(s, n, x);
    }
    forall x <- n.m.locks.Keys
      ensures !Complete(n.m.locks[x]) ==> InCall(n, x)
    {
      if !Complete(n.m.locks[x]) {
        WaitedFor(s, x);
        SameCalls(s, n, x);
      }
    }
    forall i | 0 <= i < |Unstored(n)|
      ensures PendingOk(n, Unstored(n)[i])
    {
      PendingAt(s, i + 1);
      assert s.todo[i + 1] != s.todo[0];
      StoreKeepsPending(s, n, s.todo[i + 1]);
    }
    GoodMade(n);
  }

  lemma PendingIs(s: State, id: int)
    requires PendingOk(s, id)
    ensures id in s.flags && id in s.waiters && id in s.m.locks && Complete(s.m.locks[id])
  {
  }

  lemma StoreKeepsCall(s: State, n: State, x: int)
    requires s.todo != [] && !s.stored && n == s.(flags := s.flags[s.todo[0] := true], stored := true)
    requires x in s.calls && CallOk(s, x) && s.todo[0] in s.m.locks && Complete(s.m.locks[s.todo[0]])
    ensures CallOk(n, x)
  {
    assert s.todo == [s.todo[0]] + s.todo[1..];
  }

  lemma StoreKeepsPending(s: State, n: State, x: int)
    requires s.todo != [] && n == s.(flags := s.flags[s.todo[0] := true], stored := true) && x != s.todo[0]
    requires PendingOk(s, x)
    ensures PendingOk(n, x)
  {
  }

  /** The thread whose flag was stored is unparked. */
  lemma UnparkGood(s: State)
    requires Good(s) && Enabled(s, Unpark)
    ensures Good(Next(s, Unpark))
  {
    hide Good, CallOk, InCall, Inv, Known, Complete, PendingOk;
    GoodIs(s);
    var n := Next(s, Unpark);
    forall x <- n.calls.Keys
      ensures CallOk(n, x)
    {
      CallAt(s, x);
      UnparkKeepsCall(s, n, x);
    }
    forall x <- n.m.locks.Keys
      ensures !Complete(n.m.locks[x]) ==> InCall(n, x)
    {
      if !Complete(n.m.locks[x]) {
        WaitedFor(s, x);
        SameCalls(s, n, x);
      }
    }
    forall i | 0 <= i < |Unstored(n)|
      ensures PendingOk(n, Unstored(n)[i])
    {
      PendingAt(s, i);
      UnparkKeepsPending(s, n, Unstored(s)[i]);
    }
    GoodMade(n);
  }

  lemma UnparkKeepsCall(s: State, n: State, x: int)
    requires s.todo != [] && s.stored && s.todo[0] in s.waiters
    requires n == s.(tokens := s.tokens + {s.waiters[s.todo[0]]}, todo := s.todo[1..], stored := false)
    requires x in s.calls && CallOk(s, x)
    ensures CallOk(n, x)
  {
  }

  lemma UnparkKeepsPending(s: State, n: State, x: int)
    requires n == s.(tokens := n.tokens, todo := n.todo, stored := false) && PendingOk(s, x)
    ensures PendingOk(n, x)
  {
  }

  lemma LeaveGood(s: State)
    requires Good(s) && Enabled(s, Leave)
    ensures Good(Next(s, Leave))
  {
    hide Good, CallOk, InCall, Inv, Known, Complete, PendingOk;
    GoodIs(s);
    var n := Next(s, Leave);
    forall x <- n.calls.Keys
      ensures CallOk(n, x)
    {
      CallAt(s, x);
      LeaveKeepsCall(s, n, x);
    }
    forall x <- n.m.locks.Keys
      ensures !Complete(n.m.locks[x]) ==> InCall(n, x)
    {
      if !Complete(n.m.locks[x]) {
        WaitedFor(s, x);
        SameCalls(s, n, x);
      }
    }
    GoodMade(n);
  }

  lemma LeaveKeepsCall(s: State, n: State, x: int)
    requires s.todo == [] && n == s.(locked := false) && x in s.calls && CallOk(s, x)
    ensures CallOk(n, x)
  {
  }

  lemma StepGood(s: State, a: Step)
    requires Good(s) && Enabled(s, a)
    ensures Good(Next(s, a))
  {
    hide Good, Enabled, Next;
    match a
    case Enter(t, id, start, end, write, priority) => EnterGood(s, a);
    case Load(t) => CallStepGood(s, a);
    case Wake(t) => CallStepGood(s, a);
    case WakeSpuriously(t) => CallStepGood(s, a);
    case Release(id) => ReleaseGood(s, a);
    case Store => StoreGood(s);
    case Unpark => UnparkGood(s);
    case Leave => LeaveGood(s);
  }

  // ----- Runs

  ghost predicate Schedule(s: State, steps: seq<Step>)
    decreases |steps|
  {
    steps != [] ==> Enabled(s, steps[0]) && Schedule(Next(s, steps[0]), steps[1..])
  }

  ghost function After(s: State, steps: seq<Step>): State
    requires Schedule(s, steps)
    decreases |steps|
  {
    if steps == [] then s else After(Next(s, steps[0]), steps[1..])
  }

  lemma {:induction false} RunGood(s: State, steps: seq<Step>)
    requires Good(s) && Schedule(s, steps)
    ensures Good(After(s, steps))
    decreases |steps|
  {
    if steps != [] {
      hide Good, Enabled, Next;
      StepGood(s, steps[0]);
      RunGood(Next(s, steps[0]), steps[1..]);
    }
  }

  lemma StartGood()
    ensures Good(START)
  {
    EmptyInv();
  }

  /** Theorem: in every interleaving a call returns by its own load alone, and only when its lock is
      complete. */
  lemma ReturnsComplete(steps: seq<Step>, a: Step, t: int)
    requires Schedule(START, steps) && Enabled(After(START, steps), a)
    requires t in After(START, steps).calls && t !in Next(After(START, steps), a).calls
    ensures var s := After(START, steps); var id := s.calls[t].id;
      a == Load(t) && id in s.m.locks && Complete(s.m.locks[id]) && id in s.flags && s.flags[id]
  {
    StartGood();
    RunGood(START, steps);
    CallAt(After(START, steps), t);
    hide Good;
  }

  /** Theorem: in every interleaving a thread that parked although its lock is complete will be
      unparked: it has a token, or the holder of the mutex is about to store its flag or to unpark it. */
  lemma NoLostWakeup(steps: seq<Step>, t: int)
    requires Schedule(START, steps)
    ensures var s := After(START, steps);
      t in s.calls && s.calls[t].Parked? && s.calls[t].id in s.m.locks && Complete(s.m.locks[s.calls[t].id]) ==>
        t in s.tokens || (s.locked && s.calls[t].id in s.todo)
  {
    StartGood();
    RunGood(START, steps);
    var s := After(START, steps);
    if t in s.calls {
      GoodIs(s);
      CallAt(s, t);
      hide Good, Inv;
      assert s.todo != [] ==> s.todo == [s.todo[0]] + s.todo[1..];
    }
  }

  /** Theorem: once no release is under way, a thread whose lock is complete gets out of its call by
      its own steps alone. */
  lemma GetsOut(s: State, t: int) returns (steps: seq<Step>)
    requires Good(s) && !s.locked && t in s.calls && s.calls[t].id in s.m.locks && Complete(s.m.locks[s.calls[t].id])
    ensures forall a <- steps :: a == Wake(t) || a == Load(t)
    ensures Schedule(s, steps) && After(s, steps).calls == s.calls - {t}
    ensures After(s, steps).m == s.m && !After(s, steps).locked
  {
    GoodIs(s);
    CallAt(s, t);
    hide Good, Inv;
    if s.calls[t].Checking? {
      steps := [Load(t)];
      assert Schedule(Next(s, Load(t)), steps[1..]);
      assert After(s, steps) == After(Next(s, Load(t)), steps[1..]);
    } else {
      steps := [Wake(t), Load(t)];
      var n := Next(s, Wake(t));
      assert steps[1..] == [Load(t)] && steps[1..][1..] == [];
      assert Schedule(Next(n, Load(t)), []);
      assert Schedule(n, [Load(t)]);
      assert After(n, [Load(t)]) == After(Next(n, Load(t)), []);
    }
  }

  /** Theorem: the holder of the mutex can always go on, and the flag it stores next belongs to a
      call that has not returned. */
  lemma ReleaseGoesOn(s: State)
    requires Good(s) && s.locked
    ensures Enabled(s, Store) || Enabled(s, Unpark) || Enabled(s, Leave)
    ensures Enabled(s, Store) ==> InCall(s, s.todo[0]) && s.todo[0] in s.flags && !s.flags[s.todo[0]]
  {
    GoodIs(s);
    if s.todo != [] && !s.stored {
      PendingAt(s, 0);
    }
  }

  /** Theorem: a lock whose call has returned is complete, so releasing it never cancels anything. */
  lemma ReleasesComplete(s: State, id: int)
    requires Good(s) && Enabled(s, Release(id))
    ensures Complete(s.m.locks[id])
  {
    NotInCall(s, id);
    if !Complete(s.m.locks[id]) {
      WaitedFor(s, id);
    }
  }

  lemma NotInCall(s: State, id: int)
    requires forall t <- s.calls.Keys :: s.calls[t].id != id
    ensures !InCall(s, id)
  {
    if id in s.waiters && s.waiters[id] in s.calls {
      CallsOther(s, id, s.waiters[id]);
    }
  }

  lemma CallsOther(s: State, id: int, t: int)
    requires (forall x <- s.calls.Keys :: s.calls[x].id != id) && t in s.calls
    ensures s.calls[t].id != id
  {
  }
}
