/** The tree of write borrows. */
module WriteBorrows {
  import opened Options
  import opened Shapes
  import opened Ordering
  import opened RbTree
  import opened WriteSpans

  class WriteTree {
    const tree: Tree<Range>
    ghost var holds: HoldMap

    constructor ()
      ensures Valid() && holds == map[] && fresh(tree) && tree.mem.Keys == {}
    {
      hide Tree.Valid, Tree.Seq, WriteView;
      tree := new Tree<Range>((e: Range) => 0, (a: Range, b: Range) => a.start < b.start);
      holds := map[];
      new;
      EmptyView();
    }

    ghost predicate Configured() {
      (forall e :: tree.weight(e) == 0) && forall a, b :: tree.before(a, b) == (a.start < b.start)
    }

    ghost predicate Valid()
      reads this, tree, tree.mem.Keys
    {
      Configured() && tree.Valid() && WriteView(tree.Seq(), holds)
    }

    /** The least index of `[lo, hi)` that some write borrow covers. */
    method First(lo: int, hi: int) returns (r: Option<int>)
      requires Valid() && lo < hi
      ensures r.Some? ==> lo <= r.value < hi && Written(holds, r.value)
      ensures forall i | lo <= i < (if r.Some? then r.value else hi) :: !Written(holds, i)
    {
      hide Tree.Valid, Tree.Seq, Unique, Split, Index, Written, EndsCut, Monotone;
      var reached := (e: Range) => lo < e.end;
      ghost var its := tree.Seq();
      ghost var n := Split(its, reached);
      WriteViewIs(its, holds);
      hide WriteView;
      EndsRise(its, lo, reached);
      FirstWritten(its, holds, n, lo);
      tree.Listed();
      var node := tree.LowerBound(reached);
      if node != null {
        assert its[n].node == node && its[n].elem == node.element;
        if node.element.start < hi {
          return Some(if node.element.start > lo then node.element.start else lo);
        }
      }
      r := None;
    }

    /** The nodes of the borrows are those of the tree. */
    lemma Held(id: int)
      requires Valid() && id in holds
      ensures holds[id].node in tree.mem && holds[id].node.element == holds[id].Held()
      ensures Index(tree.Seq(), holds[id].node) < |tree.Seq()|
    {
      hide Tree.Valid, Tree.Seq, WriteView, Unique, Index;
      tree.Listed();
      var k := HoldAt(tree.Seq(), holds, id);
    }

    lemma Emptied()
      requires Valid()
      ensures tree.root == null <==> forall id :: id !in holds
    {
      hide Tree.Valid, Tree.Seq, WriteView;
      tree.RootOrEmpty();
      WriteViewIs(tree.Seq(), holds);
      if tree.Seq() != [] {
        var id := OwnerAt(tree.Seq(), holds, 0);
      }
      forall id: int
        ensures id in holds ==> tree.Seq() != []
      {
        if id in holds {
          var k := HoldAt(tree.Seq(), holds, id);
        }
      }
    }

    method Add(ghost id: int, start: int, stop: int) returns (node: Node<Range>)
      requires Valid() && id !in holds && start < stop && Free(holds, id, start, stop)
      modifies this, tree, tree.mem.Keys
      ensures Valid() && holds == old(holds)[id := Hold(node, start, stop)]
      ensures fresh(node) && tree.mem.Keys == old(tree.mem.Keys) + {node}
    {
      hide Tree.Valid, Tree.Seq, WriteView, Unique, Split, Index, Monotone, StartsCut, Free, Apart;
      ghost var its := tree.Seq();
      forall o <- holds.Keys
        ensures holds[o].node in tree.mem
      {
        Held(o);
      }
      node := new Node(Range(start, stop), 0);
      ghost var f := tree.Precedes(node.element);
      WriteViewIs(its, holds);
      StartsRise(its, start, f);
      tree.Insert(node);
      tree.Listed();
      AddView(its, holds, id, Split(its, f), Hold(node, start, stop));
      holds := holds[id := Hold(node, start, stop)];
    }

    /** Let a borrow end elsewhere, in place. */
    method Resize(ghost id: int, node: Node<Range>, stop: int)
      requires Valid() && id in holds && holds[id].node == node && holds[id].start < stop
      requires Free(holds, id, holds[id].start, stop)
      modifies this, tree, tree.mem.Keys
      ensures Valid() && holds == old(holds)[id := old(holds)[id].(stop := stop)]
      ensures tree.mem.Keys == old(tree.mem.Keys)
    {
      hide Tree.Valid, Tree.Seq, WriteView, Unique, Index, Free;
      ghost var its := tree.Seq();
      Held(id);
      tree.WriteElement(node, node.element.(end := stop));
      ResizeView(its, holds, id, Index(its, node), stop);
      holds := holds[id := holds[id].(stop := stop)];
    }

    method Delete(ghost id: int, node: Node<Range>)
      requires Valid() && id in holds && holds[id].node == node
      modifies this, tree, tree.mem.Keys
      ensures Valid() && holds == old(holds) - {id}
      ensures tree.mem.Keys == old(tree.mem.Keys) - {node}
    {
      hide Tree.Valid, Tree.Seq, WriteView, Unique, Index;
      ghost var its := tree.Seq();
      Held(id);
      tree.Remove(node);
      tree.Listed();
      DeleteView(its, holds, id, Index(its, node));
      holds := holds - {id};
    }
  }
}
