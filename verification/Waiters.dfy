/** The tree of pending borrows as the queue of the lock model. */
module Waiters {
  import opened Shapes
  import opened Ordering
  import opened Listings
  import opened LockModel

  /** A pending borrow: the range still to be borrowed, the lock it belongs to, and the token that
      is returned on completion. */
  datatype Pending<P> = Pending(start: int, end: int, priority: int, parent: P, token: int)

  /** Whether a new pending borrow goes before an existing one; ties go in reverse insertion order. */
  predicate GoesBefore<P>(a: Pending<P>, b: Pending<P>) {
    a.start < b.start || (a.start == b.start && a.priority <= b.priority)
  }

  /** This tree keeps no sums. */
  function NoWeight<P>(e: Pending<P>): int {
    0
  }

  ghost function Entry<P>(l: Lock, parent: P, id: int): Pending<P> {
    Pending(l.stop, l.end, l.priority, parent, id)
  }

  /** The sequence lists the waiters of the queue `q`. */
  ghost predicate Waitlist<P>(its: seq<Item<Pending<P>>>, locks: map<int, Lock>, q: seq<int>, states: map<int, P>) {
    && |its| == |q| && Known(locks, q)
    && forall i | 0 <= i < |q| :: q[i] in states && its[i].elem == Entry(locks[q[i]], states[q[i]], q[i])
  }

  lemma WaitSize<P>(its: seq<Item<Pending<P>>>, locks: map<int, Lock>, q: seq<int>, states: map<int, P>)
    requires Waitlist(its, locks, q, states)
    ensures |its| == |q| && Known(locks, q)
  {
  }

  lemma WaitAt<P>(its: seq<Item<Pending<P>>>, locks: map<int, Lock>, q: seq<int>, states: map<int, P>, i: nat)
    requires Waitlist(its, locks, q, states) && i < |q|
    ensures |its| == |q| && q[i] in locks && q[i] in states && its[i].elem == Entry(locks[q[i]], states[q[i]], q[i])
  {
  }

  /** Locks that do not wait do not matter. */
  lemma WaitlistAgrees<P>(its: seq<Item<Pending<P>>>, l1: map<int, Lock>, l2: map<int, Lock>, q: seq<int>, s1: map<int,
          P>, s2: map<int, P>)
    requires Waitlist(its, l1, q, s1)
    requires forall i | 0 <= i < |q| ::
      q[i] in l1 && q[i] in l2 && l2[q[i]] == l1[q[i]] && q[i] in s1 && q[i] in s2 && s2[q[i]] == s1[q[i]]
    ensures Waitlist(its, l2, q, s2)
  {
  }

  /** The place the tree chooses for a new waiter is the place the model gives it. */
  lemma PlaceIs<P>(its: seq<Item<Pending<P>>>, locks: map<int, Lock>, q: seq<int>, states: map<int, P>, e: Pending<P>,
          l: Lock, f: Pending<P> -> bool)
    requires Waitlist(its, locks, q, states) && Sorted(locks, q) && e.start == l.stop && e.priority == l.priority
    requires forall i | 0 <= i < |its| :: f(its[i].elem) == GoesBefore(e, its[i].elem)
    ensures Monotone(its, f) && Split(its, f) == Place(locks, q, l)
  {
  }

  lemma WaitlistInserted<P>(its: seq<Item<Pending<P>>>, locks: map<int, Lock>, q: seq<int>, states: map<int, P>,
          id: int, n: Node<Pending<P>>)
    requires Waitlist(its, locks, q, states) && id in locks && id in states
    ensures var k := Place(locks, q, locks[id]);
      k <= |its| &&
      Waitlist(Inserted(its, k, Item(n, Entry(locks[id], states[id], id))), locks, Enqueue(locks, q, id), states)
  {
  }

  lemma WaitlistRemoved<P>(its: seq<Item<Pending<P>>>, locks: map<int, Lock>, q: seq<int>, states: map<int, P>, k: nat)
    requires Waitlist(its, locks, q, states) && Distinct(q) && k < |q|
    ensures k < |its| && Waitlist(Removed(its, k), locks, Without(q, q[k]), states)
  {
  }

  /** Searching for the first waiter at or above an index. */
  lemma BelowSplits<P>(its: seq<Item<Pending<P>>>, m: Model, states: map<int, P>, end: int, f: Pending<P> -> bool)
    requires Waitlist(its, m.locks, m.queue, states) && Sorted(m.locks, m.queue)
    requires forall i | 0 <= i < |its| :: f(its[i].elem) == (end <= its[i].elem.start)
    ensures Monotone(its, f) && Split(its, f) == Below(m, end)
  {
  }
}
