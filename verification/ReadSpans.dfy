/** Read borrows as the endpoints listed in a tree, and what counting them says. */
module ReadSpans {
  import opened Shapes
  import opened Ordering
  import opened Listings

  /** An endpoint: `weight` is 1 at an inclusive lower bound and -1 at an exclusive upper bound. */
  datatype ReadEnd = ReadEnd(index: int, weight: int)

  /** One read borrow and the two nodes that stand for its ends. */
  datatype Span = Span(lower: Node<ReadEnd>, upper: Node<ReadEnd>, start: int, stop: int)
  {
    function Low(): ReadEnd { ReadEnd(start, 1) }
    function High(): ReadEnd { ReadEnd(stop, -1) }
    predicate Covers(i: int) { start <= i < stop }
    predicate Owns(x: Item<ReadEnd>) { x == Item(lower, Low()) || x == Item(upper, High()) }
  }

  type Spans = map<int, Span>

  ghost predicate Covered(spans: Spans, i: int) {
    exists id <- spans.Keys :: spans[id].Covers(i)
  }

  ghost predicate Ascending(its: seq<Item<ReadEnd>>) {
    forall i, j :: 0 <= i < j < |its| ==> its[i].elem.index <= its[j].elem.index
  }

  ghost predicate Proper(spans: Spans) {
    && (forall id <- spans.Keys :: spans[id].start < spans[id].stop && spans[id].lower != spans[id].upper)
    && (forall a <- spans.Keys, b <- spans.Keys | a != b ::
      spans[a].lower != spans[b].lower && spans[a].upper != spans[b].upper && spans[a].lower != spans[b].upper)
  }

  ghost predicate Owned(spans: Spans, x: Item<ReadEnd>) {
    exists id <- spans.Keys :: spans[id].Owns(x)
  }

  ghost predicate Listed(its: seq<Item<ReadEnd>>, s: Span) {
    Has(its, s.lower, s.Low()) && Has(its, s.upper, s.High())
  }

  /** The sequence lists exactly the ends of the spans. */
  ghost predicate Lists(its: seq<Item<ReadEnd>>, spans: Spans) {
    && (forall k | 0 <= k < |its| :: Owned(spans, its[k]))
    && (forall id <- spans.Keys :: Listed(its, spans[id]))
  }

  ghost predicate ReadView(its: seq<Item<ReadEnd>>, spans: Spans) {
    Unique(its) && Ascending(its) && Proper(spans) && Lists(its, spans)
  }

  lemma ReadViewIs(its: seq<Item<ReadEnd>>, spans: Spans)
    ensures ReadView(its, spans) <==> Unique(its) && Ascending(its) && Proper(spans) && Lists(its, spans)
  {
  }

  lemma OwnerAt(its: seq<Item<ReadEnd>>, spans: Spans, n: nat) returns (id: int)
    requires ReadView(its, spans) && n < |its|
    ensures id in spans && spans[id].Owns(its[n])
  {
    assert Owned(spans, its[n]);
    id :| id in spans.Keys && spans[id].Owns(its[n]);
  }

  /** Where the ends of a span stand in the sequence. */
  lemma EndsAt(its: seq<Item<ReadEnd>>, spans: Spans, id: int) returns (i: nat, j: nat)
    requires ReadView(its, spans) && id in spans
    ensures i < j < |its| && Index(its, spans[id].lower) == i && Index(its, spans[id].upper) == j
    ensures its[i] == Item(spans[id].lower, spans[id].Low()) && its[j] == Item(spans[id].upper, spans[id].High())
  {
    var s := spans[id];
    assert Listed(its, s);
    hide Lists;
    i, j := Index(its, s.lower), Index(its, s.upper);
    AscendingAt(its, i, j);
  }

  /** Items stand in the order of their indices. */
  lemma AscendingAt(its: seq<Item<ReadEnd>>, i: nat, j: nat)
    requires Ascending(its) && i < |its| && j < |its| && its[i].elem.index < its[j].elem.index
    ensures i < j
  {
  }

  lemma UniqueView(its: seq<Item<ReadEnd>>, spans: Spans, n: nat)
    requires ReadView(its, spans) && n < |its|
    ensures Index(its, its[n].node) == n
  {
  }

  // ----- Counting

  /** The borrows with their lower end among the first `n` items. */
  ghost function Opened(its: seq<Item<ReadEnd>>, spans: Spans, n: nat): set<int> {
    set id | id in spans && Index(its, spans[id].lower) < n
  }

  ghost function Closed(its: seq<Item<ReadEnd>>, spans: Spans, n: nat): set<int> {
    set id | id in spans && Index(its, spans[id].upper) < n
  }

  /** Only the owner of item `n` has an end there. */
  lemma OnlyOwner(its: seq<Item<ReadEnd>>, spans: Spans, n: nat, id: int, x: int)
    requires ReadView(its, spans) && n < |its| && id in spans && spans[id].Owns(its[n]) && x in spans
    ensures Index(its, spans[x].lower) == n <==> x == id && its[n].elem.weight == 1
    ensures Index(its, spans[x].upper) == n <==> x == id && its[n].elem.weight == -1
  {
    UniqueView(its, spans, n);
    assert Listed(its, spans[x]) && Listed(its, spans[id]);
  }

  lemma CountStep(its: seq<Item<ReadEnd>>, spans: Spans, n: nat)
    requires ReadView(its, spans) && n < |its|
    ensures |Opened(its, spans, n + 1)| - |Closed(its, spans, n + 1)|
         == |Opened(its, spans, n)| - |Closed(its, spans, n)| + its[n].elem.weight
  {
    hide ReadView, Index;
    var id := OwnerAt(its, spans, n);
    forall x | x in spans
      ensures Index(its, spans[x].lower) == n <==> x == id && its[n].elem.weight == 1
      ensures Index(its, spans[x].upper) == n <==> x == id && its[n].elem.weight == -1
    {
      OnlyOwner(its, spans, n, id, x);
    }
    assert its[n].elem.weight == 1 || its[n].elem.weight == -1;
    var up := its[n].elem.weight == 1;
    hide Span.Owns;
    SameSet(Opened(its, spans, n + 1), Opened(its, spans, n) + if up then {id} else {});
    SameSet(Closed(its, spans, n + 1), Closed(its, spans, n) + if up then {} else {id});
  }

  lemma {:induction false} Counting(its: seq<Item<ReadEnd>>, spans: Spans, n: nat, w: ReadEnd -> int)
    requires ReadView(its, spans) && n <= |its| && forall e :: w(e) == e.weight
    ensures Total(its[..n], w) == |Opened(its, spans, n)| - |Closed(its, spans, n)|
  {
    hide ReadView, Index;
    if n == 0 {
      SameSet(Opened(its, spans, 0), {});
      SameSet(Closed(its, spans, 0), {});
    } else {
      hide Opened, Closed;
      CountStep(its, spans, n - 1);
      Counting(its, spans, n - 1, w);
      assert its[..n][..n - 1] == its[..n - 1];
    }
  }

  /** The first `n` items are those up to index `lo`. */
  ghost predicate CutAt(its: seq<Item<ReadEnd>>, n: nat, lo: int) {
    n <= |its| && (forall i | 0 <= i < n :: its[i].elem.index <= lo)
      && (forall i | n <= i < |its| :: its[i].elem.index > lo)
  }

  lemma OpenedAt(its: seq<Item<ReadEnd>>, spans: Spans, n: nat, lo: int, id: int)
    requires ReadView(its, spans) && CutAt(its, n, lo) && id in spans
    ensures id in Opened(its, spans, n) <==> spans[id].start <= lo
    ensures id in Closed(its, spans, n) <==> spans[id].stop <= lo
    ensures spans[id].start < spans[id].stop
  {
  }

  lemma SameSet(a: set<int>, b: set<int>)
    requires forall x: int :: x in a <==> x in b
    ensures a == b
  {
    assert forall x: int :: x in a <==> x in b;
  }

  lemma DifferenceSize(a: set<int>, b: set<int>)
    requires b <= a
    ensures |a| - |b| == |a - b|
  {
  }

  ghost function Readers(spans: Spans, i: int): set<int> {
    set id | id in spans && spans[id].Covers(i)
  }

  /** The ends up to `lo` sum up to the number of borrows that cover `lo`. */
  lemma SumCounts(its: seq<Item<ReadEnd>>, spans: Spans, n: nat, lo: int, w: ReadEnd -> int)
    requires ReadView(its, spans) && CutAt(its, n, lo) && forall e :: w(e) == e.weight
    ensures Total(its[..n], w) == |Readers(spans, lo)|
  {
    hide ReadView, Index, CutAt, Total;
    var a, b := Opened(its, spans, n), Closed(its, spans, n);
    assert n <= |its| by { CutBound(its, n, lo); }
    Counting(its, spans, n, w);
    forall id | id in spans
      ensures id in a <==> spans[id].start <= lo
      ensures id in b <==> spans[id].stop <= lo
      ensures spans[id].start < spans[id].stop
    {
      OpenedAt(its, spans, n, lo, id);
    }
    assert b <= a;
    DifferenceSize(a, b);
    SameSet(Readers(spans, lo), a - b);
  }

  lemma CutBound(its: seq<Item<ReadEnd>>, n: nat, lo: int)
    requires CutAt(its, n, lo)
    ensures n <= |its|
  {
  }

  lemma SumDecides(its: seq<Item<ReadEnd>>, spans: Spans, n: nat, lo: int, w: ReadEnd -> int)
    requires ReadView(its, spans) && CutAt(its, n, lo) && forall e :: w(e) == e.weight
    ensures Total(its[..n], w) > 0 <==> Covered(spans, lo)
  {
    hide ReadView, CutAt, Total;
    SumCounts(its, spans, n, lo, w);
    if Covered(spans, lo) {
      var id :| id in spans.Keys && spans[id].Covers(lo);
      assert id in Readers(spans, lo);
    } else {
      SameSet(Readers(spans, lo), {});
    }
  }

  /** A span that does not cover `lo` ends before it or starts at or behind the next endpoint. */
  lemma SpanAside(its: seq<Item<ReadEnd>>, spans: Spans, n: nat, lo: int, id: int)
    requires ReadView(its, spans) && CutAt(its, n, lo) && id in spans && !spans[id].Covers(lo)
    ensures spans[id].stop <= lo || (n < |its| && spans[id].start >= its[n].elem.index)
  {
    hide ReadView, CutAt, Index;
    var i, j := EndsAt(its, spans, id);
    CutAtIs(its, n, lo, i);
    if spans[id].start > lo {
      OrderAt(its, spans, n, i);
    } else {
      Uncovered(spans[id], lo);
    }
  }

  lemma Uncovered(s: Span, i: int)
    requires !s.Covers(i)
    ensures s.start <= i ==> s.stop <= i
  {
  }

  lemma CutAtIs(its: seq<Item<ReadEnd>>, n: nat, lo: int, i: nat)
    requires CutAt(its, n, lo) && i < |its|
    ensures n <= |its| && (its[i].elem.index > lo <==> n <= i)
  {
  }

  lemma OrderAt(its: seq<Item<ReadEnd>>, spans: Spans, n: nat, i: nat)
    requires ReadView(its, spans) && n <= i < |its|
    ensures its[n].elem.index <= its[i].elem.index
  {
  }

  /** If nobody covers `lo`, the next endpoint opens a borrow and nobody covers the gap. */
  lemma NextOpens(its: seq<Item<ReadEnd>>, spans: Spans, n: nat, lo: int)
    requires ReadView(its, spans) && CutAt(its, n, lo) && !Covered(spans, lo)
    ensures n < |its| ==> its[n].elem.weight == 1 && its[n].elem.index > lo && Covered(spans, its[n].elem.index)
    ensures forall i | lo <= i && (n < |its| ==> i < its[n].elem.index) :: !Covered(spans, i)
  {
    if n < |its| {
      NextIsLower(its, spans, n, lo);
    }
    hide ReadView, CutAt;
    forall id <- spans.Keys
      ensures spans[id].stop <= lo || (n < |its| && spans[id].start >= its[n].elem.index)
    {
      assert !spans[id].Covers(lo);
      SpanAside(its, spans, n, lo, id);
    }
  }

  lemma NextIsLower(its: seq<Item<ReadEnd>>, spans: Spans, n: nat, lo: int)
    requires ReadView(its, spans) && CutAt(its, n, lo) && !Covered(spans, lo) && n < |its|
    ensures its[n].elem.weight == 1 && its[n].elem.index > lo && Covered(spans, its[n].elem.index)
  {
  }

  /** If all ends are at `lo` or below, nothing is covered from there on. */
  lemma NoneAbove(its: seq<Item<ReadEnd>>, spans: Spans, lo: int)
    requires ReadView(its, spans) && CutAt(its, |its|, lo)
    ensures forall i | lo <= i :: !Covered(spans, i)
  {
  }

  /** Searching for the first end behind `lo`. */
  lemma SplitCuts(its: seq<Item<ReadEnd>>, lo: int, f: ReadEnd -> bool)
    requires Ascending(its) && forall e :: f(e) == (lo < e.index)
    ensures Monotone(its, f) && CutAt(its, Split(its, f), lo)
  {
  }

  // ----- Adding, moving and deleting a borrow

  ghost predicate AllOwned(its: seq<Item<ReadEnd>>, spans: Spans) {
    forall k | 0 <= k < |its| :: Owned(spans, its[k])
  }

  ghost predicate AllListed(its: seq<Item<ReadEnd>>, spans: Spans) {
    forall id <- spans.Keys :: Listed(its, spans[id])
  }

  lemma AscendingInserted(its: seq<Item<ReadEnd>>, k: nat, x: Item<ReadEnd>)
    requires Ascending(its) && CutAt(its, k, x.elem.index)
    ensures Ascending(Inserted(its, k, x))
  {
  }

  lemma AscendingRemoved(its: seq<Item<ReadEnd>>, k: nat)
    requires Ascending(its) && k < |its|
    ensures Ascending(Removed(its, k))
  {
  }

  lemma OwnedInserted(its: seq<Item<ReadEnd>>, k: nat, x: Item<ReadEnd>, spans: Spans)
    requires k <= |its| && AllOwned(its, spans) && Owned(spans, x)
    ensures AllOwned(Inserted(its, k, x), spans)
  {
  }

  lemma OwnedRemoved(its: seq<Item<ReadEnd>>, k: nat, spans: Spans)
    requires k < |its| && AllOwned(its, spans)
    ensures AllOwned(Removed(its, k), spans)
  {
  }

  lemma OwnedAgree(its: seq<Item<ReadEnd>>, spans: Spans, id: int, s: Span)
    requires AllOwned(its, spans) && (id in spans ==> spans[id] == s)
    ensures AllOwned(its, spans[id := s])
  {
    forall k | 0 <= k < |its|
      ensures Owned(spans[id := s], its[k])
    {
      assert Owned(spans, its[k]);
      var o :| o in spans.Keys && spans[o].Owns(its[k]);
      assert spans[id := s][o] == spans[o];
    }
  }

  lemma ListedInserted(its: seq<Item<ReadEnd>>, k: nat, x: Item<ReadEnd>, s: Span)
    requires k <= |its| && Unique(Inserted(its, k, x)) && Listed(its, s)
    ensures Listed(Inserted(its, k, x), s)
  {
    hide Has;
    HasInserted(its, k, x, s.lower, s.Low());
    HasInserted(its, k, x, s.upper, s.High());
  }

  lemma ListedRemoved(its: seq<Item<ReadEnd>>, k: nat, s: Span)
    requires k < |its| && Unique(Removed(its, k)) && Listed(its, s) && its[k].node != s.lower && its[k].node != s.upper
    ensures Listed(Removed(its, k), s)
  {
    hide Has;
    HasRemoved(its, k, s.lower, s.Low());
    HasRemoved(its, k, s.upper, s.High());
  }

  lemma ListsSplit(its: seq<Item<ReadEnd>>, spans: Spans)
    ensures Lists(its, spans) <==> AllOwned(its, spans) && AllListed(its, spans)
  {
  }

  /** Both ends of a new borrow are inserted, one after the other. */
  lemma AddLists(its: seq<Item<ReadEnd>>, spans: Spans, id: int, s: Span, k: nat, n: nat)
    requires Lists(its, spans) && id !in spans && k <= |its| && n <= |its| + 1
    requires var one := Inserted(its, k, Item(s.lower, s.Low()));
      Unique(one) && |one| == |its| + 1 && Unique(Inserted(one, n, Item(s.upper, s.High())))
    ensures Lists(Inserted(Inserted(its, k, Item(s.lower, s.Low())), n, Item(s.upper, s.High())), spans[id := s])
  {
    var x, y := Item(s.lower, s.Low()), Item(s.upper, s.High());
    var one := Inserted(its, k, x);
    var two, now := Inserted(one, n, y), spans[id := s];
    assert s.Owns(x) && s.Owns(y) && now[id] == s && id in now.Keys;
    assert Owned(now, x) && Owned(now, y);
    ListsSplit(its, spans);
    ListsSplit(two, now);
    hide Lists, Owned, Listed, AllOwned, Inserted, Unique, Index;
    OwnedAgree(its, spans, id, s);
    OwnedInserted(its, k, x, now);
    OwnedInserted(one, n, y, now);
    forall o <- now.Keys
      ensures Listed(two, now[o])
    {
      if o == id {
        HasNew(its, k, x);
        HasInserted(one, n, y, s.lower, s.Low());
        HasNew(one, n, y);
        ListedIs(two, s);
      } else {
        assert o in spans.Keys && now[o] == spans[o];
        ListedInserted(its, k, x, spans[o]);
        ListedInserted(one, n, y, spans[o]);
      }
    }
  }

  lemma ListedIs(its: seq<Item<ReadEnd>>, s: Span)
    requires Has(its, s.lower, s.Low()) && Has(its, s.upper, s.High())
    ensures Listed(its, s)
  {
  }

  lemma ListedHas(its: seq<Item<ReadEnd>>, s: Span)
    requires Listed(its, s)
    ensures Has(its, s.lower, s.Low()) && Has(its, s.upper, s.High())
  {
  }

  lemma ProperOne(spans: Spans, id: int)
    requires Proper(spans) && id in spans
    ensures spans[id].lower != spans[id].upper
  {
  }

  lemma OwnsUpper(spans: Spans, id: int)
    requires id in spans
    ensures Owned(spans, Item(spans[id].upper, spans[id].High()))
  {
  }

  lemma ProperPair(spans: Spans, a: int, b: int)
    requires Proper(spans) && a in spans && b in spans && a != b
    ensures spans[a].lower != spans[b].lower && spans[a].upper != spans[b].upper
    ensures spans[a].lower != spans[b].upper && spans[b].lower != spans[a].upper
  {
  }

  /** Without the upper end of `id`, what is left is as good for any other upper end. */
  lemma OwnedWithoutUpper(its: seq<Item<ReadEnd>>, spans: Spans, id: int, stop: int)
    requires AllOwned(its, spans) && id in spans && Absent(its, spans[id].upper)
    ensures AllOwned(its, spans[id := spans[id].(stop := stop)])
  {
    var now := spans[id := spans[id].(stop := stop)];
    forall k | 0 <= k < |its|
      ensures Owned(now, its[k])
    {
      assert Owned(spans, its[k]);
      var o :| o in spans.Keys && spans[o].Owns(its[k]);
      assert o in now.Keys && now[o].Owns(its[k]);
    }
  }

  /** The upper end of a borrow is taken out and put back elsewhere. */
  lemma MoveLists(its: seq<Item<ReadEnd>>, spans: Spans, id: int, stop: int, k: nat, n: nat)
    requires Lists(its, spans) && Unique(its) && Proper(spans) && id in spans && k < |its|
    requires its[k].node == spans[id].upper && n < |its|
    requires var s, one := spans[id].(stop := stop), Removed(its, k);
      Unique(one) && |one| == |its| - 1 && Unique(Inserted(one, n, Item(s.upper, s.High())))
    ensures var s := spans[id].(stop := stop);
      Lists(Inserted(Removed(its, k), n, Item(s.upper, s.High())), spans[id := s])
  {
    hide Lists, Owned, Listed, AllOwned, Inserted, Removed, Unique, Index, Proper, Has;
    var s, one := spans[id].(stop := stop), Removed(its, k);
    var y, now := Item(s.upper, s.High()), spans[id := s];
    var two := Inserted(one, n, y);
    OwnsUpper(now, id);
    ProperOne(spans, id);
    ListsSplit(its, spans);
    ListsSplit(two, now);
    OwnedRemoved(its, k, spans);
    RemovedAbsent(its, k);
    OwnedWithoutUpper(one, spans, id, stop);
    OwnedInserted(one, n, y, now);
    forall o <- now.Keys
      ensures Listed(two, now[o])
    {
      if o == id {
        ListedHas(its, spans[id]);
        HasRemoved(its, k, s.lower, s.Low());
        HasInserted(one, n, y, s.lower, s.Low());
        HasNew(one, n, y);
        ListedIs(two, s);
      } else {
        assert o in spans.Keys && now[o] == spans[o];
        ProperPair(spans, id, o);
        ListedRemoved(its, k, spans[o]);
        ListedInserted(one, n, y, spans[o]);
      }
    }
  }

  lemma OwnedWithoutBoth(its: seq<Item<ReadEnd>>, spans: Spans, id: int)
    requires AllOwned(its, spans) && id in spans && Absent(its, spans[id].upper) && Absent(its, spans[id].lower)
    ensures AllOwned(its, spans - {id})
  {
    var now := spans - {id};
    forall k | 0 <= k < |its|
      ensures Owned(now, its[k])
    {
      assert Owned(spans, its[k]);
      var o :| o in spans.Keys && spans[o].Owns(its[k]);
      assert o in now.Keys && now[o].Owns(its[k]);
    }
  }

  lemma StillAbsent(its: seq<Item<ReadEnd>>, k: nat, n: Node<ReadEnd>)
    requires k < |its| && Absent(its, n)
    ensures Absent(Removed(its, k), n)
  {
  }

  /** Both ends of a borrow are taken out, in either order. */
  lemma DeleteLists(its: seq<Item<ReadEnd>>, spans: Spans, id: int, k: nat, n: nat)
    requires Lists(its, spans) && Unique(its) && Proper(spans) && id in spans && k < |its| && n < |its| - 1
    requires var one := Removed(its, k); Unique(one) && |one| == |its| - 1 && Unique(Removed(one, n))
    requires {its[k].node, Removed(its, k)[n].node} == {spans[id].lower, spans[id].upper}
    ensures Lists(Removed(Removed(its, k), n), spans - {id})
  {
    hide Lists, Owned, Listed, AllOwned, Removed, Unique, Index, Proper, Absent, Has;
    var one := Removed(its, k);
    var two, now := Removed(one, n), spans - {id};
    ListsSplit(its, spans);
    ListsSplit(two, now);
    OwnedRemoved(its, k, spans);
    OwnedRemoved(one, n, spans);
    RemovedAbsent(its, k);
    RemovedAbsent(one, n);
    StillAbsent(one, n, its[k].node);
    OwnedWithoutBoth(two, spans, id);
    forall o <- now.Keys
      ensures Listed(two, now[o])
    {
      assert o in spans.Keys && now[o] == spans[o];
      ProperPair(spans, id, o);
      ListedRemoved(its, k, spans[o]);
      ListedRemoved(one, n, spans[o]);
    }
  }

  lemma AddProper(spans: Spans, id: int, s: Span)
    requires Proper(spans) && s.start < s.stop && s.lower != s.upper
    requires forall o <- spans.Keys :: {spans[o].lower, spans[o].upper} !! {s.lower, s.upper}
    ensures Proper(spans[id := s])
  {
  }

  lemma MoveProper(spans: Spans, id: int, stop: int)
    requires Proper(spans) && id in spans && spans[id].start < stop
    ensures Proper(spans[id := spans[id].(stop := stop)])
  {
  }

  lemma DeleteProper(spans: Spans, id: int)
    requires Proper(spans)
    ensures Proper(spans - {id})
  {
  }

  lemma SpanNodes(its: seq<Item<ReadEnd>>, spans: Spans, id: int)
    requires ReadView(its, spans) && id in spans
    ensures Index(its, spans[id].lower) < |its| && Index(its, spans[id].upper) < |its|
    ensures spans[id].lower != spans[id].upper
    ensures its[Index(its, spans[id].lower)] == Item(spans[id].lower, spans[id].Low())
    ensures its[Index(its, spans[id].upper)] == Item(spans[id].upper, spans[id].High())
  {
    assert Listed(its, spans[id]);
  }

  lemma EmptyView()
    ensures ReadView([], map[])
  {
  }
}
