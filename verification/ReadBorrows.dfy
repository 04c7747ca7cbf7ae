/** The tree of read borrow endpoints. */
module ReadBorrows {
  import opened Options
  import opened Shapes
  import opened Ordering
  import opened Listings
  import opened RbTree
  import opened ReadSpans

  class ReadTree {
    const tree: Tree<ReadEnd>
    ghost var spans: Spans

    constructor ()
      ensures Valid() && spans == map[] && fresh(tree) && tree.mem.Keys == {}
    {
      hide Tree.Valid, Tree.Seq, ReadView;
      tree := new Tree<ReadEnd>((e: ReadEnd) => e.weight, (a: ReadEnd, b: ReadEnd) => a.index < b.index);
      spans := map[];
      new;
      EmptyView();
    }

    ghost predicate Configured() {
      (forall e :: tree.weight(e) == e.weight) && forall a, b :: tree.before(a, b) == (a.index < b.index)
    }

    ghost predicate Valid()
      reads this, tree, tree.mem.Keys
    {
      Configured() && tree.Valid() && ReadView(tree.Seq(), spans)
    }

    /** The least index of `[lo, hi)` that some read borrow covers. */
    method First(lo: int, hi: int) returns (r: Option<int>)
      requires Valid() && lo < hi
      ensures r.Some? ==> lo <= r.value < hi && Covered(spans, r.value)
      ensures forall i | lo <= i < (if r.Some? then r.value else hi) :: !Covered(spans, i)
    {
      var reached := (e: ReadEnd) => lo < e.index;
      ghost var its := tree.Seq();
      ghost var n := Split(its, reached);
      SplitCuts(its, lo, reached);
      hide Tree.Valid, Tree.Seq, ReadView, Unique, Split, Index, Total, Covered, CutAt, Monotone;
      tree.Listed();
      var node := tree.LowerBound(reached);
      if node == null {
        NoneAbove(its, spans, lo);
        return None;
      }
      UniqueView(its, spans, n);
      assert its[n].node == node && its[n].elem == node.element;
      var sum := tree.PrefixSum(node);
      SumDecides(its, spans, n, lo, tree.weight);
      if sum > 0 {
        return Some(lo);
      }
      NextOpens(its, spans, n, lo);
      // The first endpoint behind `lo` must be a lower bound.
      assert node.element.weight == 1;
      r := if node.element.index < hi then Some(node.element.index) else None;
    }

    /** Insert one endpoint, behind those at the same index. */
    method InsertEnd(n: Node<ReadEnd>) returns (ghost k: nat)
      requires Configured() && tree.Valid() && Ascending(tree.Seq()) && n !in tree.mem && n.summary == n.element.weight
      modifies tree, tree.mem.Keys, n`left, n`right, n`parent, n`red, n`summary
      ensures tree.Valid() && tree.mem.Keys == old(tree.mem.Keys) + {n} && n.element == old(n.element)
      ensures k <= |old(tree.Seq())| && tree.Seq() == Inserted(old(tree.Seq()), k, Item(n, n.element))
      ensures Ascending(tree.Seq()) && Unique(tree.Seq())
    {
      ghost var its, f := tree.Seq(), tree.Precedes(n.element);
      SplitCuts(its, n.element.index, f);
      k := Split(its, f);
      AscendingInserted(its, k, Item(n, n.element));
      hide Tree.Valid, Tree.Seq, Ascending, Monotone, CutAt, Unique;
      tree.Insert(n);
      tree.Listed();
    }

    method RemoveEnd(n: Node<ReadEnd>) returns (ghost k: nat)
      requires tree.Valid() && Ascending(tree.Seq()) && n in tree.mem
      modifies tree, tree.mem.Keys
      ensures tree.Valid() && tree.mem.Keys == old(tree.mem.Keys) - {n} && n.element == old(n.element)
      ensures k < |old(tree.Seq())| && old(tree.Seq())[k].node == n && tree.Seq() == Removed(old(tree.Seq()), k)
      ensures Ascending(tree.Seq()) && Unique(tree.Seq())
    {
      ghost var its := tree.Seq();
      k := Index(its, n);
      hide Tree.Valid, Tree.Seq, Ascending, Monotone, CutAt, Unique;
      tree.Remove(n);
      tree.Listed();
      AscendingRemoved(its, k);
    }

    /** The nodes of the borrows are those of the tree. */
    lemma Held(id: int)
      requires Valid() && id in spans
      ensures spans[id].lower in tree.mem && spans[id].upper in tree.mem && spans[id].lower != spans[id].upper
      ensures spans[id].lower.element == spans[id].Low() && spans[id].upper.element == spans[id].High()
    {
      hide Tree.Valid, Tree.Seq, ReadView, Unique;
      tree.Listed();
      SpanNodes(tree.Seq(), spans, id);
    }

    lemma Emptied()
      requires Valid()
      ensures tree.root == null <==> forall id :: id !in spans
    {
      hide Tree.Valid, Tree.Seq, ReadView;
      tree.RootOrEmpty();
      if tree.Seq() != [] {
        var id := OwnerAt(tree.Seq(), spans, 0);
      }
      forall id: int
        ensures id in spans ==> tree.Seq() != []
      {
        if id in spans {
          SpanNodes(tree.Seq(), spans, id);
        }
      }
    }

    method Add(ghost id: int, start: int, stop: int) returns (lower: Node<ReadEnd>, upper: Node<ReadEnd>)
      requires Valid() && id !in spans && start < stop
      modifies this, tree, tree.mem.Keys
      ensures Valid() && spans == old(spans)[id := Span(lower, upper, start, stop)]
      ensures fresh(lower) && fresh(upper) && lower != upper && tree.mem.Keys == old(tree.mem.Keys) + {lower, upper}
    {
      hide Tree.Valid, Tree.Seq, ReadView, Unique, Ascending, Proper, Lists, Inserted;
      ghost var its := tree.Seq();
      ReadViewIs(its, spans);
      forall o <- spans.Keys
        ensures spans[o].lower in tree.mem && spans[o].upper in tree.mem
      {
        Held(o);
      }
      lower := new Node(ReadEnd(start, 1), 1);
      upper := new Node(ReadEnd(stop, -1), -1);
      ghost var s := Span(lower, upper, start, stop);
      AddProper(spans, id, s);
      ghost var k := InsertEnd(lower);
      InsertedItems(its, k, Item(lower, s.Low()));
      ghost var n := InsertEnd(upper);
      AddLists(its, spans, id, s, k, n);
      spans := spans[id := s];
      ReadViewIs(tree.Seq(), spans);
    }

    /** Put the upper end of a borrow elsewhere. */
    method Move(ghost id: int, upper: Node<ReadEnd>, stop: int)
      requires Valid() && id in spans && spans[id].upper == upper && spans[id].start < stop
      modifies this, tree, tree.mem.Keys
      ensures Valid() && spans == old(spans)[id := old(spans)[id].(stop := stop)]
      ensures tree.mem.Keys == old(tree.mem.Keys)
    {
      hide Tree.Valid, Tree.Seq, ReadView, Unique, Ascending, Proper, Lists, Inserted, Removed;
      ghost var its := tree.Seq();
      ReadViewIs(its, spans);
      Held(id);
      MoveProper(spans, id, stop);
      ghost var k := RemoveEnd(upper);
      RemovedItems(its, k);
      SetEnd(upper, stop);
      ghost var n := InsertEnd(upper);
      MoveLists(its, spans, id, stop, k, n);
      spans := spans[id := spans[id].(stop := stop)];
      ReadViewIs(tree.Seq(), spans);
    }

    /** A detached upper end still carries a stale summary, which is reset here. */
    method SetEnd(upper: Node<ReadEnd>, stop: int)
      requires tree.Valid() && upper !in tree.mem && upper.element.weight == -1
      modifies upper`element, upper`summary
      ensures tree.Valid() && tree.Seq() == old(tree.Seq())
      ensures upper.element == ReadEnd(stop, -1) && upper.summary == -1
    {
      hide *;
      upper.element := upper.element.(index := stop);
      upper.summary := -1;
    }

    /** Take both ends of a borrow out, in the given order. */
    method Delete(ghost id: int, first: Node<ReadEnd>, second: Node<ReadEnd>)
      requires Valid() && id in spans && {first, second} == {spans[id].lower, spans[id].upper}
      modifies this, tree, tree.mem.Keys
      ensures Valid() && spans == old(spans) - {id}
      ensures tree.mem.Keys == old(tree.mem.Keys) - {first, second}
    {
      hide Tree.Valid, Tree.Seq, ReadView, Unique, Ascending, Proper, Lists, Removed;
      ghost var its := tree.Seq();
      ReadViewIs(its, spans);
      Held(id);
      DeleteProper(spans, id);
      ghost var k := RemoveEnd(first);
      RemovedItems(its, k);
      ghost var n := RemoveEnd(second);
      DeleteLists(its, spans, id, k, n);
      spans := spans - {id};
      ReadViewIs(tree.Seq(), spans);
    }
  }
}
