/** Interval locks as values: what each lock holds and who waits where.

    A lock asks for `[start, end)` and holds `[start, stop)`; while `stop < end` it waits at index
    `stop`.  `queue` lists the waiting locks as the tree of pending borrows orders them: by index,
    then by priority, then latest first.  `done` logs the locks whose completion was reported. */
module LockModel {
  datatype Lock = Lock(start: int, end: int, write: bool, priority: int, stop: int)

  datatype Model = Model(locks: map<int, Lock>, queue: seq<int>, done: seq<int>)

  // ----- Conflicts

  predicate Holds(l: Lock, i: int) {
    l.start <= i < l.stop
  }

  predicate Clash(l: Lock, write: bool, i: int) {
    Holds(l, i) && (write || l.write)
  }

  predicate Blocked(locks: map<int, Lock>, write: bool, i: int) {
    exists id <- locks.Keys :: Clash(locks[id], write, i)
  }

  /** The first index of `[lo, hi)` where a borrow of this kind meets a conflict, or `hi`. */
  function FirstBlocked(locks: map<int, Lock>, write: bool, lo: int, hi: int): (r: int)
    ensures lo <= r && (lo <= hi ==> r <= hi)
    ensures forall i | lo <= i < r :: !Blocked(locks, write, i)
    ensures lo <= r < hi ==> Blocked(locks, write, r)
    decreases hi - lo
  {
    if lo >= hi || Blocked(locks, write, lo) then lo else FirstBlocked(locks, write, lo + 1, hi)
  }

  // ----- The queue

  /** A new waiter `a` goes before an existing `b` iff its key is not greater. */
  predicate Le(a: Lock, b: Lock) {
    a.stop < b.stop || (a.stop == b.stop && a.priority <= b.priority)
  }

  predicate Known(locks: map<int, Lock>, q: seq<int>) {
    forall i | 0 <= i < |q| :: q[i] in locks
  }

  function Place(locks: map<int, Lock>, q: seq<int>, l: Lock): (k: nat)
    requires Known(locks, q)
    ensures k <= |q|
    ensures forall i | 0 <= i < k :: !Le(l, locks[q[i]])
    ensures k < |q| ==> Le(l, locks[q[k]])
  {
    if q == [] || Le(l, locks[q[0]]) then 0 else 1 + Place(locks, q[1..], l)
  }

  function Position(q: seq<int>, id: int): (k: nat)
    ensures k <= |q| && (k < |q| <==> id in q)
    ensures k < |q| ==> q[k] == id
    ensures forall i | 0 <= i < k :: q[i] != id
  {
    if q == [] || q[0] == id then 0 else 1 + Position(q[1..], id)
  }

  function Without(q: seq<int>, id: int): (r: seq<int>)
    ensures |r| == if Position(q, id) < |q| then |q| - 1 else |q|
    ensures forall i | 0 <= i < |r| :: r[i] == q[if i < Position(q, id) then i else i + 1]
  {
    var k := Position(q, id);
    if k < |q| then q[..k] + q[k + 1..] else q
  }

  function Enqueue(locks: map<int, Lock>, q: seq<int>, id: int): (r: seq<int>)
    requires id in locks && Known(locks, q)
    ensures |r| == |q| + 1 && Known(locks, r)
  {
    var k := Place(locks, q, locks[id]);
    q[..k] + [id] + q[k..]
  }

  // ----- Operations

  /** A lock that holds nothing yet. */
  function Request(start: int, end: int, write: bool, priority: int): Lock {
    Lock(start, end, write, priority, start)
  }

  /** A new lock takes what it can and waits at the first conflict. */
  function Acquire(m: Model, id: int, l: Lock): Model
    requires Known(m.locks, m.queue)
  {
    var s := FirstBlocked(m.locks, l.write, l.start, l.end);
    var locks := m.locks[id := l.(stop := s)];
    Model(locks, if s < l.end then Enqueue(locks, m.queue, id) else m.queue, m.done)
  }

  /** A try either takes everything or leaves no trace. */
  function TryAcquire(m: Model, id: int, l: Lock): Model
    requires Known(m.locks, m.queue)
  {
    if FirstBlocked(m.locks, l.write, l.start, l.end) < l.end then m else Acquire(m, id, l)
  }

  /** A waiting lock gets everything up to `s`, and waits there or is reported complete. */
  function Shift(m: Model, id: int, s: int): (r: Model)
    requires id in m.locks && Known(m.locks, m.queue)
    ensures Known(r.locks, r.queue) && r.locks.Keys == m.locks.Keys && |r.queue| >= |m.queue| - 1
    ensures forall j <- m.locks :: r.locks[j].start == m.locks[j].start
  {
    var locks, q := m.locks[id := m.locks[id].(stop := s)], Without(m.queue, id);
    assert Known(locks, q);
    if s < m.locks[id].end then Model(locks, Enqueue(locks, q, id), m.done) else Model(locks, q, m.done + [id])
  }

  /** A waiting lock resumes, and gets on to the next conflict unless it is stuck. */
  function Advance(m: Model, id: int): (r: Model)
    requires id in m.locks && Known(m.locks, m.queue)
    ensures Known(r.locks, r.queue) && r.locks.Keys == m.locks.Keys && |r.queue| >= |m.queue| - 1
    ensures forall j <- m.locks :: r.locks[j].start == m.locks[j].start
  {
    var l := m.locks[id];
    var s := FirstBlocked(m.locks, l.write, l.stop, l.end);
    if s == l.stop then m else Shift(m, id, s)
  }

  /** Stop waiting; what is held stays held. */
  function Cancel(m: Model, id: int): (r: Model)
    requires id in m.locks && Known(m.locks, m.queue)
    ensures Known(r.locks, r.queue) && r.locks.Keys == m.locks.Keys
  {
    Model(m.locks[id := m.locks[id].(end := m.locks[id].stop)], Without(m.queue, id), m.done)
  }

  /** Give back everything from index `p` on. */
  function Truncate(m: Model, id: int, p: int): (r: Model)
    requires id in m.locks && Known(m.locks, m.queue)
    ensures Known(r.locks, r.queue) && r.locks.Keys == m.locks.Keys && r.queue == m.queue
    ensures forall j <- m.locks :: r.locks[j].start == m.locks[j].start
  {
    m.(locks := m.locks[id := m.locks[id].(stop := p, end := p)])
  }

  function Drop(m: Model, id: int): Model {
    m.(locks := m.locks - {id})
  }

  /** How many waiters wait below index `p`. */
  function Below(m: Model, p: int): (k: nat)
    requires Known(m.locks, m.queue)
    ensures k <= |m.queue|
    ensures forall i | 0 <= i < k :: m.locks[m.queue[i]].stop < p
    ensures k < |m.queue| ==> m.locks[m.queue[k]].stop >= p
  {
    BelowFrom(m, p, 0)
  }

  function BelowFrom(m: Model, p: int, i: nat): (k: nat)
    requires Known(m.locks, m.queue) && i <= |m.queue|
    requires forall j | 0 <= j < i :: m.locks[m.queue[j]].stop < p
    ensures i <= k <= |m.queue|
    ensures forall j | 0 <= j < k :: m.locks[m.queue[j]].stop < p
    ensures k < |m.queue| ==> m.locks[m.queue[k]].stop >= p
    decreases |m.queue| - i
  {
    if i < |m.queue| && m.locks[m.queue[i]].stop < p then BelowFrom(m, p, i + 1) else i
  }

  lemma BelowMonotone(m: Model, p: int, q: int)
    requires Known(m.locks, m.queue) && p <= q
    ensures Below(m, p) <= Below(m, q)
  {
  }

  /** Release by walking down the queue from position `k`: shrink to the waiter's index, resume it,
      and go on to its predecessor, until the waiters lie below what is released. */
  function Walk(m: Model, id: int, k: nat): Model
    requires id in m.locks && Known(m.locks, m.queue) && k <= |m.queue|
    decreases k
  {
    if k == 0 then Drop(m, id)
    else
      var j := m.queue[k - 1];
      var p := m.locks[j].stop;
      if p < m.locks[id].start then Drop(m, id) else Walk(Advance(Truncate(m, id, p), j), id, k - 1)
  }

  function Unlock(m: Model, id: int): Model
    requires id in m.locks && Known(m.locks, m.queue)
  {
    var c := Cancel(m, id);
    Walk(c, id, Below(c, m.locks[id].stop))
  }

  // ----- The same release, index by index

  /** Resume the waiters at queue positions `[lo, hi)`, last first. */
  function ResumeAll(m: Model, lo: nat, hi: nat): (r: Model)
    requires Known(m.locks, m.queue) && lo <= hi <= |m.queue|
    ensures Known(r.locks, r.queue) && r.locks.Keys == m.locks.Keys
    ensures forall j <- m.locks :: r.locks[j].start == m.locks[j].start
    decreases hi - lo
  {
    if lo == hi then m else ResumeAll(Advance(m, m.queue[hi - 1]), lo, hi - 1)
  }

  /** Release index `p` and resume everyone who waits there. */
  function ReleaseIndex(m: Model, id: int, p: int): (r: Model)
    requires id in m.locks && Known(m.locks, m.queue)
    ensures Known(r.locks, r.queue) && r.locks.Keys == m.locks.Keys
    ensures forall j <- m.locks :: r.locks[j].start == m.locks[j].start
  {
    var t := Truncate(m, id, p);
    BelowMonotone(t, p, p + 1);
    ResumeAll(t, Below(t, p), Below(t, p + 1))
  }

  /** Release the indices `[start, p)` one by one, from the top. */
  function PerIndex(m: Model, id: int, p: int): Model
    requires id in m.locks && Known(m.locks, m.queue)
    decreases p - m.locks[id].start
  {
    if p <= m.locks[id].start then Drop(m, id) else PerIndex(ReleaseIndex(m, id, p - 1), id, p - 1)
  }

  // ----- What always holds

  ghost predicate Distinct(q: seq<int>) {
    forall i, j :: 0 <= i < j < |q| ==> q[i] != q[j]
  }

  ghost predicate Sorted(locks: map<int, Lock>, q: seq<int>)
    requires Known(locks, q)
  {
    forall i, j :: 0 <= i < j < |q| ==> Le(locks[q[i]], locks[q[j]])
  }

  ghost predicate Exclusive(locks: map<int, Lock>) {
    forall a <- locks.Keys, b <- locks.Keys, i: int ::
      a != b && Holds(locks[a], i) && Holds(locks[b], i) ==> !locks[a].write && !locks[b].write
  }

  ghost predicate Shaped(locks: map<int, Lock>) {
    forall id <- locks.Keys :: locks[id].start <= locks[id].stop <= locks[id].end
  }

  /** Exactly the incomplete locks wait. */
  ghost predicate Waiting(locks: map<int, Lock>, q: seq<int>) {
    forall id <- locks.Keys :: id in q <==> locks[id].stop < locks[id].end
  }

  ghost predicate Queued(locks: map<int, Lock>, q: seq<int>) {
    Known(locks, q) && Distinct(q) && Sorted(locks, q) && Waiting(locks, q)
  }

  /** Everything but "no waiter could proceed". */
  ghost predicate Sound(m: Model) {
    Shaped(m.locks) && Queued(m.locks, m.queue) && Exclusive(m.locks)
  }

  ghost predicate Stuck(locks: map<int, Lock>, id: int)
    requires id in locks
  {
    Blocked(locks, locks[id].write, locks[id].stop)
  }

  ghost predicate Inv(m: Model) {
    Sound(m) && forall i | 0 <= i < |m.queue| :: Stuck(m.locks, m.queue[i])
  }
}
