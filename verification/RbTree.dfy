module RbTree {
  import opened Shapes
  import opened ShapeLemmas
  import opened Balance
  import opened Ordering
  import opened Deletion
  import opened TreeFacts

  class Tree<E> {
    var root: Node?<E>
    /** How much an element adds to the sums. */
    const weight: E -> int
    /** Whether a new element goes before an existing one; ties are the caller's choice. */
    const before: (E, E) -> bool
    ghost var mem: Mem<E>
    ghost var shape: Shape<E>

    constructor (weight: E -> int, before: (E, E) -> bool)
      ensures Valid() && this.weight == weight && this.before == before && mem == map[] && Seq() == []
    {
      this.weight, this.before := weight, before;
      root, mem, shape := null, map[], Leaf;
    }

    ghost predicate Valid()
      reads this, mem.Keys
    {
      Focus(Top, shape) && RedBlack(shape)
    }

    ghost function Seq(): seq<Item<E>>
      reads this
    {
      Items(shape)
    }

    /** The snapshot is what the nodes hold. */
    ghost predicate Synced()
      reads this`mem, mem.Keys
    {
      forall n <- mem.Keys :: mem[n] == n.Read()
    }

    ghost predicate Focus(p: Path<E>, t: Shape<E>)
      reads this, mem.Keys
    {
      Synced() && At(mem, root, p, t, 0, weight)
    }

    lemma Opened()
      requires Valid()
      ensures Synced() && At(mem, root, Top, shape, 0, weight) && RedBlack(shape) && Seq() == Items(shape)
    {
    }

    /** The in-order sequence lists every node of the tree once, with its element. */
    lemma Listed()
      requires Valid()
      ensures Unique(Seq())
      ensures forall i | 0 <= i < |Seq()| :: Seq()[i].node in mem && Seq()[i].elem == Seq()[i].node.element
      ensures forall n <- mem.Keys :: Index(Seq(), n) < |Seq()|
    {
      Opened();
      TopLinked(mem, root, shape, weight);
      ItemsUnique(mem, shape, null, weight);
      var its := Seq();
      forall i | 0 <= i < |its|
        ensures its[i].node in mem && its[i].elem == its[i].node.element
      {
        assert its[i] in its;
      }
      hide *;
      forall n <- mem.Keys
        ensures Index(its, n) < |its|
      {
        var p, t := LocateAt(mem, root, shape, n, weight);
      }
    }

    /** Theorem: the height, which no way down from the root exceeds, is logarithmic in the number of nodes,
        although the root may be red. */
    lemma Logarithmic()
      requires Valid()
      ensures Pow2(Height(shape) / 2) <= |mem.Keys| + 1
      ensures forall way | Way(shape, way) :: |way| <= Height(shape) && Pow2(|way| / 2) <= |mem.Keys| + 1
    {
      Opened();
      TopLinked(mem, root, shape, weight);
      TopNodes(mem, root, shape, weight);
      hide *;
      ItemsCount(mem, shape, null, weight);
      HeightBound(shape);
    }

    /** Predecessor and successor, which step by one place, undo each other. */
    lemma StepsAreInverse(k: nat)
      requires Valid() && k + 1 < |Seq()|
      ensures var its := Seq();
        && NodeAt(its, Index(its, its[k].node) + 1) == its[k + 1].node
        && Index(its, its[k + 1].node) > 0 && its[Index(its, its[k + 1].node) - 1].node == its[k].node
    {
      Listed();
      hide Valid, Index;
      UniqueIndex(Seq(), k);
      UniqueIndex(Seq(), k + 1);
    }

    ghost function Precedes(e: E): E -> bool {
      x => before(e, x)
    }

    // ----- One write to one field

    method SetChild(n: Node<E>, side: bool, c: Node?<E>)
      requires Synced() && n in mem
      modifies this`mem, n`left, n`right
      ensures Synced() && root == old(root) && mem.Keys == old(mem.Keys)
      ensures mem == old(mem)[n := old(mem)[n].WithChild(side, c)]
    {
      if side { n.right := c; } else { n.left := c; }
      mem := mem[n := mem[n].WithChild(side, c)];
    }

    method SetParent(n: Node<E>, parent: Node?<E>)
      requires Synced() && n in mem
      modifies this`mem, n`parent
      ensures Synced() && root == old(root) && mem.Keys == old(mem.Keys)
      ensures mem == old(mem)[n := old(mem)[n].(parent := parent)]
    {
      n.parent := parent;
      mem := mem[n := mem[n].(parent := parent)];
    }

    method SetRed(n: Node<E>, red: bool)
      requires Synced() && n in mem
      modifies this`mem, n`red
      ensures Synced() && root == old(root) && mem.Keys == old(mem.Keys)
      ensures mem == old(mem)[n := old(mem)[n].(red := red)]
    {
      n.red := red;
      mem := mem[n := mem[n].(red := red)];
    }

    method SetSummary(n: Node<E>, summary: int)
      requires Synced() && n in mem
      modifies this`mem, n`summary
      ensures Synced() && root == old(root) && mem.Keys == old(mem.Keys)
      ensures mem == old(mem)[n := old(mem)[n].(summary := summary)]
    {
      n.summary := summary;
      mem := mem[n := mem[n].(summary := summary)];
    }

    function Child(n: Node<E>, side: bool): (c: Node?<E>)
      requires Synced() && n in mem
      reads this`mem, mem.Keys
      ensures c == mem[n].Child(side)
    {
      if side then n.right else n.left
    }

    method Relink(node: Node<E>, newRoot: Node<E>, mid: Node?<E>, dir: bool)
      requires Synced() && node in mem && newRoot in mem && (mid == null || mid in mem)
      requires node != newRoot && node != mid && newRoot != mid
      modifies this`mem, mem.Keys`left, mem.Keys`right, mem.Keys`parent
      ensures Synced() && mem.Keys == old(mem.Keys) && mem == RelinkMem(old(mem), node, newRoot, mid, dir)
    {
      hide Synced, Cell.WithChild;
      SetChild(node, !dir, mid);
      SetChild(newRoot, dir, node);
      SetParent(newRoot, ParentOf(node));
      SetParent(node, newRoot);
      if mid != null {
        SetParent(mid, node);
      }
    }

    method Resum(node: Node<E>, newRoot: Node<E>, mid: Node?<E>)
      requires Synced() && node in mem && newRoot in mem && (mid == null || mid in mem)
      requires node != newRoot && node != mid && newRoot != mid
      modifies this`mem, node`summary, newRoot`summary
      ensures Synced() && mem.Keys == old(mem.Keys) && mem == ResumMem(old(mem), node, newRoot, mid)
    {
      var s := node.summary - newRoot.summary;
      if mid != null {
        s := s + mid.summary;
      }
      SetSummary(newRoot, node.summary);
      SetSummary(node, s);
    }

    function ParentOf(n: Node<E>): (c: Node?<E>)
      requires Synced() && n in mem
      reads this`mem, mem.Keys
      ensures c == mem[n].parent
    {
      n.parent
    }

    function RedOf(n: Node<E>): (red: bool)
      requires Synced() && n in mem
      reads this`mem, mem.Keys
      ensures red == mem[n].red
    {
      n.red
    }

    /** Rotate `node`; `dir` is the side where it ends up below its former child. */
    method Rotate(node: Node<E>, dir: bool, ghost p: Path<E>, ghost t: Shape<E>)
      requires Focus(p, t) && t.Bin? && t.node == node && t.Kid(!dir).Bin?
      modifies this`root, this`mem, mem.Keys`left, mem.Keys`right, mem.Keys`parent, mem.Keys`red, mem.Keys`summary
      ensures Focus(p, Rotated(t, dir)) && mem.Keys == old(mem.Keys)
    {
      hide At, Rotated, RelinkMem, ResumMem, RootOf, Synced, Cell.Child, Cell.WithChild;
      RotateAt(mem, root, p, t, dir, weight);
      RotateReads(mem, root, p, t, dir, weight);
      var newRoot := Child(node, !dir);
      var mid := Child(newRoot, dir);
      var parent := ParentOf(node);
      Relink(node, newRoot, mid, dir);
      Resum(node, newRoot, mid);
      if parent == null {
        root := newRoot;
      } else {
        SetChild(parent, Child(parent, false) != node, newRoot);
      }
    }
  
    function SummaryOf(n: Node<E>): (s: int)
      requires Synced() && n in mem
      reads this`mem, mem.Keys
      ensures s == mem[n].summary
    {
      n.summary
    }

    function ElementOf(n: Node<E>): (e: E)
      requires Synced() && n in mem
      reads this`mem, mem.Keys
      ensures e == mem[n].elem
    {
      n.element
    }

    // ----- Recolouring

    method PaintNode(n: Node<E>, red: bool, ghost p: Path<E>, ghost t: Shape<E>)
      requires Focus(p, t) && t.Bin? && t.node == n
      modifies this`mem, n`red
      ensures Focus(p, Paint(t, red)) && mem.Keys == old(mem.Keys)
    {
      hide At, Synced;
      PaintAt(mem, root, p, t, red, weight);
      SetRed(n, red);
    }

    method PaintChild(n: Node<E>, red: bool, ghost p: Path<E>, ghost t: Shape<E>, ghost side: bool)
      requires Focus(p, t) && t.Bin? && t.Kid(side).Bin? && t.Kid(side).node == n
      modifies this`mem, n`red
      ensures Focus(p, PaintKid(t, side, red)) && mem.Keys == old(mem.Keys)
    {
      hide At, Synced;
      MoveDown(mem, root, p, t, side, weight);
      ghost var q := Down(p, t, side);
      PaintNode(n, red, q, t.Kid(side));
      MoveUp(mem, root, q, Paint(t.Kid(side), red), weight);
    }

    // ----- Insertion

    /** One node of the descent: it counts the new element and says where to go. */
    method PassBy(n: Node<E>, parent: Node<E>, ghost p: Path<E>, ghost t: Shape<E>)
      returns (side: bool, child: Node?<E>)
      requires Synced() && At(mem, root, p, t, n.summary, weight) && t.Bin? && t.node == parent && n !in mem
      modifies this`mem, parent`summary
      ensures Synced() && mem.Keys == old(mem.Keys)
      ensures side == !before(n.element, t.elem) && child == Root(t.Kid(side)) && (child == null || child in mem)
      ensures At(mem, root, Down(p, t, side), t.Kid(side), n.summary, weight)
    {
      hide At, Synced, Down, Shape.Kid;
      ghost var s := !before(n.element, t.elem);
      NodeReads(mem, root, p, t, n.summary, s, weight);
      Descend(mem, root, p, t, n.summary, s, weight);
      SetSummary(parent, SummaryOf(parent) + n.summary);
      side := !before(n.element, ElementOf(parent));
      child := Child(parent, side);
    }

    method FindSlot(n: Node<E>) returns (parent: Node<E>, side: bool, ghost p: Path<E>)
      requires Valid() && root != null && n !in mem && n.summary == weight(n.element)
      requires Monotone(Seq(), Precedes(n.element))
      modifies this`mem, mem.Keys`left, mem.Keys`right, mem.Keys`parent, mem.Keys`red, mem.Keys`summary
      ensures Synced() && mem.Keys == old(mem.Keys) && At(mem, root, p, Leaf, n.summary, weight)
      ensures p.Step? && p.node == parent && p.side == side && parent in mem
      ensures Stretch(old(Seq()), Precedes(n.element), p, Leaf)
      ensures Plug(p, Leaf) == shape
    {
      hide At, Synced, Valid, Focus, Stretch, Plug, Monotone, Seq, Items, RedBlack, Down;
      Opened();
      ghost var its, f, d, t := Seq(), Precedes(n.element), n.summary, shape;
      p := Top;
      parent := root;
      StartDown(mem, root, t, d, f, weight);
      while true
        invariant Synced() && mem.Keys == old(mem.Keys) && At(mem, root, p, t, d, weight)
        invariant t.Bin? && t.node == parent && parent in mem
        invariant Stretch(its, f, p, t)
        invariant Plug(p, t) == shape
        decreases t
      {
        var child;
        side, child := PassBy(n, parent, p, t);
        StretchDown(its, f, p, t, side);
        PlugDown(p, t, side);
        p, t := Down(p, t, side), t.Kid(side);
        if child == null {
          break;
        }
        parent := child;
      }
    }

    // ----- Restoring the colours after an insertion

    /** Settle on the shape that the focus spells out. */
    ghost method Conclude(p: Path<E>, t: Shape<E>, h: nat)
      requires Focus(p, t) && Balanced(t, h) && Fits(p, h, IsRed(t))
      modifies this`shape
      ensures Valid() && Seq() == Whole(p, t)
    {
      hide At, Synced, Items, Balanced, Fits;
      Replug(mem, root, p, t, weight);
      PlugBalanced(p, t, h);
      PlugItems(p, t);
      shape := Plug(p, t);
    }

    /** Parent and uncle are red: repaint them and the grandparent. */
    method Recolour(parent: Node<E>, uncle: Node<E>, grandparent: Node<E>, ghost p: Path<E>, ghost t: Shape<E>,
            ghost h: nat)
      returns (ghost g: Shape<E>)
      requires Focus(p, t) && Rising(p, t, h) && p.Step? && p.red && p.up.Step? && IsRed(p.up.sib)
      requires parent == p.node && grandparent == p.up.node && uncle == p.up.sib.node
      modifies this`mem, parent`red, uncle`red, grandparent`red
      ensures Focus(p.up.up, g) && Rising(p.up.up, g, h + 1) && g.node == grandparent
      ensures Whole(p.up.up, g) == Whole(p, t) && mem.Keys == old(mem.Keys)
    {
      RecolourBalanced(p, t, h);
      g := Up(p.up, Up(p, t));
      ghost var s := p.up.side;
      WholeUp(p, t);
      WholeUp(p.up, Up(p, t));
      PaintKidItems(g, s, false);
      PaintKidItems(PaintKid(g, s, false), !s, false);
      hide At, Synced, Items, Before, After, Balanced, Fits;
      MoveUp(mem, root, p, t, weight);
      MoveUp(mem, root, p.up, Up(p, t), weight);
      PaintChild(parent, false, p.up.up, g, s);
      PaintChild(uncle, false, p.up.up, PaintKid(g, s, false), !s);
      PaintNode(grandparent, true, p.up.up, PaintKid(PaintKid(g, s, false), !s, false));
      g := Recoloured(g, s);
    }

    /** The new node is an inner grandchild: turn it to the outside. */
    method Turn(parent: Node<E>, side: bool, ghost p: Path<E>, ghost t: Shape<E>, ghost h: nat)
      returns (ghost q: Path<E>, ghost k: Shape<E>)
      requires Focus(p, t) && Rising(p, t, h) && p.Step? && p.red && p.up.Step? && p.side == side != p.up.side
      requires parent == p.node
      modifies this`root, this`mem, mem.Keys`left, mem.Keys`right, mem.Keys`parent, mem.Keys`red, mem.Keys`summary
      ensures Focus(q, k) && Rising(q, k, h) && Whole(q, k) == Whole(p, t) && mem.Keys == old(mem.Keys)
      ensures q.Step? && q.red && q.node == t.node && q.up == p.up && q.side == p.up.side && k.node == parent
    {
      ghost var r := Rotated(Up(p, t), p.up.side);
      InnerBalanced(p, t, h);
      WholeUp(p, t);
      RotateItems(Up(p, t), p.up.side);
      WholeDown(p.up, r, p.up.side);
      hide At, Synced, Items, Before, After, Balanced, Fits;
      MoveUp(mem, root, p, t, weight);
      Rotate(parent, !side, p.up, Up(p, t));
      MoveDown(mem, root, p.up, r, p.up.side, weight);
      q, k := Down(p.up, r, p.up.side), r.Kid(p.up.side);
    }

    /** Parent red, uncle black, new node outside: rotate the grandparent away. */
    method Lift(parent: Node<E>, grandparent: Node<E>, side: bool, ghost p: Path<E>, ghost t: Shape<E>, ghost h: nat)
      returns (ghost g: Shape<E>)
      requires Focus(p, t) && Rising(p, t, h) && p.Step? && p.red && p.up.Step? && p.side == p.up.side == side
      requires !IsRed(p.up.sib)
      requires parent == p.node && grandparent == p.up.node
      modifies this`root, this`mem, mem.Keys`left, mem.Keys`right, mem.Keys`parent, mem.Keys`red, mem.Keys`summary
      ensures Focus(p.up.up, g) && Balanced(g, h + 1) && !IsRed(g) && Fits(p.up.up, h + 1, false)
      ensures Whole(p.up.up, g) == Whole(p, t) && mem.Keys == old(mem.Keys)
    {
      g := Up(p.up, Up(p, t));
      ghost var r := Rotated(g, !side);
      OuterBalanced(p, t, h);
      WholeUp(p, t);
      WholeUp(p.up, Up(p, t));
      RotateItems(g, !side);
      PaintKidItems(Paint(r, false), !side, true);
      NodesIn(mem, root, p, t, weight);
      hide At, Synced, Items, Before, After, Balanced, Fits;
      MoveUp(mem, root, p, t, weight);
      MoveUp(mem, root, p.up, Up(p, t), weight);
      Rotate(grandparent, !side, p.up.up, g);
      PaintNode(parent, false, p.up.up, r);
      PaintChild(grandparent, true, p.up.up, Paint(r, false), !side);
      g := Lifted(g, side);
    }

    /** Parent red, uncle black. */
    method Straighten(node: Node<E>, parent: Node<E>, grandparent: Node<E>, side: bool, parentSide: bool,
                      ghost p: Path<E>, ghost t: Shape<E>, ghost h: nat)
      returns (ghost g: Shape<E>)
      requires Focus(p, t) && Rising(p, t, h) && p.Step? && p.red && p.up.Step? && !IsRed(p.up.sib)
      requires node == t.node && parent == p.node && grandparent == p.up.node && side == p.side
      requires parentSide == p.up.side
      modifies this`root, this`mem, mem.Keys`left, mem.Keys`right, mem.Keys`parent, mem.Keys`red, mem.Keys`summary
      ensures Focus(p.up.up, g) && Balanced(g, h + 1) && !IsRed(g) && Fits(p.up.up, h + 1, false)
      ensures Whole(p.up.up, g) == Whole(p, t) && mem.Keys == old(mem.Keys)
    {
      hide At, Synced, Whole, Balanced, Fits, Up;
      if parentSide != side {
        ghost var q, k := Turn(parent, side, p, t, h);
        g := Lift(node, grandparent, parentSide, q, k, h);
      } else {
        g := Lift(parent, grandparent, side, p, t, h);
      }
    }

    /** The red parent is the root: blacken it. */
    method BlackenRoot(parent: Node<E>, ghost p: Path<E>, ghost t: Shape<E>, ghost h: nat)
      returns (ghost r: Shape<E>)
      requires Focus(p, t) && Rising(p, t, h) && p.Step? && p.red && p.up.Top? && parent == p.node
      modifies this`root, this`mem, mem.Keys`left, mem.Keys`right, mem.Keys`parent, mem.Keys`red, mem.Keys`summary
      ensures Focus(Top, r) && Balanced(r, h + 1) && !IsRed(r)
      ensures Whole(Top, r) == Whole(p, t) && mem.Keys == old(mem.Keys)
    {
      RootBalanced(p, t, h);
      WholeUp(p, t);
      NodesIn(mem, root, p, t, weight);
      MoveUp(mem, root, p, t, weight);
      hide At, Synced, Items, Balanced;
      PaintNode(parent, false, p.up, Up(p, t));
      r := Paint(Up(p, t), false);
      assert Items(r) == Items(Up(p, t)) by {
        PaintItems(Up(p, t), false);
      }
    }

    /** `node` is red; walk up until no red node has a red child. */
    method FixInsert(newNode: Node<E>, ghost p0: Path<E>, ghost t0: Shape<E>, ghost h0: nat)
      requires Focus(p0, t0) && Rising(p0, t0, h0) && t0.node == newNode
      modifies this, mem.Keys`left, mem.Keys`right, mem.Keys`parent, mem.Keys`red, mem.Keys`summary
      ensures Valid() && Seq() == Whole(p0, t0) && mem.Keys == old(mem.Keys)
    {
      hide At, Synced, Whole, Valid, Seq, Balanced, Up, Rising;
      ghost var p, t, h := p0, t0, h0;
      ghost var done := false;
      var node := newNode;
      FixReads(mem, root, p, t, h, weight);
      var parent := ParentOf(node);
      while parent != null && RedOf(parent)
        invariant Focus(p, t) && mem.Keys == old(mem.Keys) && Whole(p, t) == Whole(p0, t0)
        invariant Rising(p, t, h) && t.node == node
        invariant parent == Above(p, null) && (p.Step? ==> parent in mem && mem[parent].red == p.red)
        decreases p
      {
        ParentReads(mem, root, p, t, weight);
        var grandparent := ParentOf(parent);
        if grandparent == null {
          t := BlackenRoot(parent, p, t, h);
          p, h, done := Top, h + 1, true;
          break;
        }
        var side := Child(parent, true) == node;
        var parentSide := Child(grandparent, true) == parent;
        var uncle := Child(grandparent, !parentSide);
        if uncle == null || !RedOf(uncle) {
          t := Straighten(node, parent, grandparent, side, parentSide, p, t, h);
          p, h, done := p.up.up, h + 1, true;
          break;
        }
        ghost var g := Recolour(parent, uncle, grandparent, p, t, h);
        p, t, h := p.up.up, g, h + 1;
        node := grandparent;
        FixReads(mem, root, p, t, h, weight);
        parent := ParentOf(node);
      }
      if !done {
        FitsBlack(p, t, h);
      }
      Conclude(p, t, h);
    }

    method InsertRoot(n: Node<E>)
      requires Synced() && mem == map[] && n.Read() == Cell(null, null, n.parent, true, weight(n.element), n.element)
      modifies this, n`parent
      ensures Valid() && mem.Keys == {n} && Seq() == [Item(n, n.element)]
    {
      root := n;
      n.parent := null;
      mem := map[n := n.Read()];
      shape := Bin(Leaf, n, true, n.element, Leaf);
      LeafAt(mem, n, n.element, weight);
      hide At, RedBlack;
    }

    method AttachNode(n: Node<E>, parent: Node<E>, side: bool, ghost p: Path<E>)
      requires Synced() && At(mem, root, p, Leaf, n.summary, weight) && p.Step? && p.node == parent && p.side == side
      requires n !in mem && n.Read() == Cell(null, null, n.parent, true, weight(n.element), n.element)
      modifies this`mem, parent`left, parent`right, n`parent
      ensures Focus(p, Bin(Leaf, n, true, n.element, Leaf)) && mem.Keys == old(mem.Keys) + {n}
    {
      ghost var c := Cell(null, null, p.node, true, n.summary, n.element);
      Attach(mem, root, p, n, c, weight);
      hide *;
      LinkLeaf(n, parent, side, c);
    }

    method LinkLeaf(n: Node<E>, parent: Node<E>, side: bool, ghost c: Cell<E>)
      requires Synced() && n !in mem && parent in mem && c == n.Read().(parent := parent)
      modifies this`mem, parent`left, parent`right, n`parent
      ensures Synced() && mem == old(mem)[n := c][parent := old(mem)[parent].WithChild(side, n)]
    {
      if side { parent.right := n; } else { parent.left := n; }
      n.parent := parent;
      mem := mem[n := c][parent := mem[parent].WithChild(side, n)];
    }

    /** Insert a node; the caller has set its summary to its own weight. */
    method Insert(n: Node<E>)
      requires Valid() && n !in mem && n.summary == weight(n.element)
      requires Monotone(Seq(), Precedes(n.element))
      modifies this, mem.Keys`left, mem.Keys`right, mem.Keys`parent, mem.Keys`red, mem.Keys`summary, n`left, n`right
      modifies n`parent, n`red, n`summary
      ensures Valid() && mem.Keys == old(mem.Keys) + {n}
      ensures var its, k := old(Seq()), Split(old(Seq()), Precedes(old(n.element)));
        Seq() == its[..k] + [Item(n, old(n.element))] + its[k..]
    {
      hide Valid, Focus, Monotone, Stretch, At, Plug, RedBlack, Seq, Rising, Precedes;
      Opened();
      ghost var its, f, e := Seq(), Precedes(n.element), n.element;
      n.red := true;
      n.left, n.right := null, null;
      if root == null {
        EmptyTree(mem, root, shape, weight);
        InsertRoot(n);
      } else {
        var parent, side;
        ghost var p;
        parent, side, p := FindSlot(n);
        SlotReads(its, f, p, n, e);
        AttachNode(n, parent, side, p);
        FixInsert(n, p, Bin(Leaf, n, true, e, Leaf), 0);
      }
    }

    // ----- Removal, part one: the element leaves the sums

    /** Subtract `d` from every node from `start` up to but not including `stop`. */
    method SubtractUp(start: Node?<E>, stop: Node?<E>, d: int, ghost p: Path<E>, ghost hole: Node?<E>, ghost s: int)
      requires Synced() && PathLinked(mem, p, stop, hole, s, weight) && PathNodes(p) <= mem.Keys
      requires start == Above(p, stop) && stop !in PathNodes(p)
      modifies this`mem, mem.Keys`summary
      ensures Synced() && root == old(root) && mem.Keys == old(mem.Keys) && mem == SubtractMem(old(mem), p, d)
    {
      hide SubtractMem, PathNodes, PathLinked, Synced, Above;
      var n := start;
      ghost var q, hole', s' := p, hole, s;
      while n != stop
        invariant Synced() && mem.Keys == old(mem.Keys) && PathLinked(mem, q, stop, hole', s', weight)
        invariant PathNodes(q) <= mem.Keys && n == Above(q, stop) && stop !in PathNodes(q)
        invariant SubtractMem(mem, q, d) == SubtractMem(old(mem), p, d)
        decreases q
      {
        SubtractStep(mem, q, stop, hole', s', d, weight);
        hole', s' := q.node, SummaryOf(n);
        SetSummary(n, SummaryOf(n) - d);
        n := ParentOf(n);
        q := q.up;
      }
      SubtractDone(mem, q, stop, d);
    }

    /** The in-order predecessor of a node with two children: the end of the right spine of its left subtree. */
    method FindPred(node: Node<E>, child: Node<E>, ghost p: Path<E>, ghost t: Shape<E>)
      returns (pred: Node<E>, predParent: Node<E>, ghost r: Path<E>, ghost u: Shape<E>)
      requires Synced() && Emptied(mem, root, p, t, weight) && node == t.node && t.left.Bin? && child == t.left.node
      ensures Hung(mem, node, r, u, 0, weight) && Plug(r, u) == t.left && Spine(r)
      ensures Nodes(u) + PathNodes(r) == Nodes(t.left)
      ensures u.Bin? && u.node == pred && u.right.Leaf? && predParent == Above(r, node)
      ensures Items(t.left) != [] && pred == Items(t.left)[|Items(t.left)| - 1].node
    {
      r, u := Top, t.left;
      pred, predParent := child, node;
      SpineReads(mem, node, r, u, weight);
      var next := Child(pred, true);
      while next != null
        invariant Hung(mem, node, r, u, 0, weight) && Plug(r, u) == t.left && Spine(r)
        invariant Nodes(u) + PathNodes(r) == Nodes(t.left)
        invariant u.Bin? && u.node == pred && pred in mem && predParent == Above(r, node) && next == Root(u.right)
        decreases u
      {
        hide Hung, Nodes, PathNodes, Synced, Plug, Down, Emptied;
        HungDown(mem, node, r, u, true, weight);
        PlugDown(r, u, true);
        r, u := Down(r, u, true), u.right;
        predParent := pred;
        pred := next;
        SpineReads(mem, node, r, u, weight);
        next := Child(pred, true);
      }
      SpineLast(r, u);
    }

    /** Swap colours, sums and links with a predecessor further down. */
    method TradeApart(node: Node<E>, pred: Node<E>, predParent: Node<E>)
      requires node != pred && predParent != node && predParent != pred
      requires node.left != null && node.left != node && node.left != pred
      modifies node`left, node`right, node`parent, node`red, node`summary, pred`left, pred`right, pred`parent, pred`red
      modifies pred`summary
      modifies predParent`right, node.left`parent
      ensures node.Read() == old(pred.Read()).(elem := node.element)
      ensures pred.Read() == old(node.Read()).(elem := pred.element)
      ensures predParent.Read() == old(predParent.Read()).(right := node, parent := predParent.parent)
      ensures old(node.left).Read() == old(node.left.Read()).(parent := pred, right := old(node.left).right)
      ensures predParent != old(node.left) ==>
        predParent.parent == old(predParent.parent) && old(node.left).right == old(node.left.right)
    {
      node.red, pred.red := pred.red, node.red;
      node.summary, pred.summary := pred.summary, node.summary;
      node.left, pred.left := pred.left, node.left;
      node.right, pred.right := pred.right, node.right;
      node.parent, pred.parent := pred.parent, node.parent;
      predParent.right := node;
      pred.left.parent := pred;
    }

    /** The same when the predecessor is the left child itself. */
    method TradeAdjacent(node: Node<E>, pred: Node<E>)
      requires node != pred
      modifies node`left, node`right, node`parent, node`red, node`summary, pred`left, pred`right, pred`parent, pred`red
      modifies pred`summary
      ensures node.Read() == old(pred.Read()).(elem := node.element, parent := pred)
      ensures pred.Read() == old(node.Read()).(elem := pred.element, left := node)
    {
      node.red, pred.red := pred.red, node.red;
      node.summary, pred.summary := pred.summary, node.summary;
      node.right, pred.right := pred.right, node.right;
      node.left := pred.left;
      pred.left := node;
      pred.parent := node.parent;
      node.parent := pred;
    }

    method TradeFar(node: Node<E>, pred: Node<E>, predParent: Node<E>, ghost p: Path<E>, ghost t: Shape<E>,
            ghost r: Path<E>, ghost u: Shape<E>)
      requires Synced() && TradeReady(mem, p, t, r, u) && r.Step?
      requires node == t.node && pred == u.node && predParent == r.node
      modifies this`mem, mem.Keys`left, mem.Keys`right, mem.Keys`parent, mem.Keys`red, mem.Keys`summary
      ensures Synced() && root == old(root) && mem.Keys == old(mem.Keys) && mem == Traded(old(mem), p, t, r, u)
    {
      TradedCells(mem, p, t, r, u);
      hide Traded, PathNodes, Rebased, TopOf, Above;
      ghost var m1 := Traded(mem, p, t, r, u);
      TradeApart(node, pred, predParent);
      mem := m1;
    }

    method TradeNear(node: Node<E>, pred: Node<E>, ghost p: Path<E>, ghost t: Shape<E>, ghost u: Shape<E>)
      requires Synced() && TradeReady(mem, p, t, Top, u) && node == t.node && pred == u.node
      modifies this`mem, mem.Keys`left, mem.Keys`right, mem.Keys`parent, mem.Keys`red, mem.Keys`summary
      ensures Synced() && root == old(root) && mem.Keys == old(mem.Keys) && mem == Traded(old(mem), p, t, Top, u)
    {
      TradedCells(mem, p, t, Top, u);
      hide Traded, PathNodes, Rebased, TopOf;
      ghost var m1 := Traded(mem, p, t, Top, u);
      TradeAdjacent(node, pred);
      mem := m1;
    }

    /** Point the other neighbours at the node that took their old neighbour's place. */
    method Redirect(node: Node<E>, pred: Node<E>, parent: Node?<E>, ghost p: Path<E>, ghost t: Shape<E>,
            ghost u: Shape<E>)
      requires Synced() && RedirectReady(mem, p, t, u) && node == t.node && pred == u.node && parent == Above(p, null)
      modifies this`root, this`mem, mem.Keys`left, mem.Keys`right, mem.Keys`parent
      ensures Synced() && mem.Keys == old(mem.Keys) && mem == Redirected(old(mem), p, t, u)
      ensures root == if parent == null then pred else old(root)
    {
      hide Synced, Cell.WithChild;
      var c := Child(pred, true);
      if c != null {
        SetParent(c, pred);
      }
      c := Child(node, false);
      if c != null {
        SetParent(c, node);
      }
      if parent != null {
        SetChild(parent, Child(parent, true) == node, pred);
      } else {
        root := pred;
      }
    }

    /** A node with two children changes places with its in-order predecessor. */
    method SwapWithPredecessor(node: Node<E>, child: Node<E>, ghost p: Path<E>, ghost t: Shape<E>)
      returns (ghost p2: Path<E>, ghost u: Shape<E>)
      requires Synced() && Emptied(mem, root, p, t, weight) && RedBlack(Plug(p, t))
      requires t.Bin? && node == t.node && t.left.Bin? && t.right.Bin? && child == t.left.node
      modifies this`root, this`mem, mem.Keys`left, mem.Keys`right, mem.Keys`parent, mem.Keys`red, mem.Keys`summary
      ensures Synced() && mem.Keys == old(mem.Keys)
      ensures u.Bin? && u.right.Leaf? && Detached(mem, root, p2, node, u.red, u.left, weight)
      ensures Balanced(u, BlackHeight(u)) && Fits(p2, BlackHeight(u), u.red)
      ensures Whole(p2, u.left) == Before(p) + Items(t.left) + Items(t.right) + After(p)
    {
      hide Synced, Emptied, Hung, PathLinked, Nodes, PathNodes, Items, Before, After, Balanced, Fits, Traded;
      hide Redirected, Plug, Spine, Sum, Detached;
      var parent := EmptiedParent(node, p, t);
      var pred, predParent;
      ghost var r;
      pred, predParent, r, u := FindPred(node, child, p, t);
      p2 := NewPath(p, t, r, u);
      TradeBalanced(p, t, r, u);
      TradeItems(p, t, r, u);
      ForgetPred(node, pred, predParent, p, t, r, u);
      ReadyTrade(mem, root, p, t, r, u, weight);
      ReadyRedirect(mem, root, p, t, r, u, weight);
      TradeDetached(mem, root, p, t, r, u, weight);
      hide TradeReady, RedirectReady;
      if predParent != node {
        TradeFar(node, pred, predParent, p, t, r, u);
      } else {
        TradeNear(node, pred, p, t, u);
      }
      Redirect(node, pred, parent, p, t, u);
    }

    method EmptiedParent(node: Node<E>, ghost p: Path<E>, ghost t: Shape<E>) returns (parent: Node?<E>)
      requires Synced() && Emptied(mem, root, p, t, weight) && node == t.node
      ensures parent == Above(p, null)
    {
      parent := node.parent;
    }

    method ForgetPred(node: Node<E>, pred: Node<E>, predParent: Node<E>, ghost p: Path<E>, ghost t: Shape<E>,
            ghost r: Path<E>, ghost u: Shape<E>)
      requires Synced() && Emptied(mem, root, p, t, weight) && node == t.node && t.left.Bin? && t.right.Bin?
      requires Hung(mem, node, r, u, 0, weight) && Plug(r, u) == t.left && Nodes(u) + PathNodes(r) == Nodes(t.left)
      requires u.Bin? && u.right.Leaf? && pred == u.node && predParent == Above(r, node)
      modifies this`mem, mem.Keys`summary
      ensures Synced() && mem.Keys == old(mem.Keys) && root == old(root) && Ready(mem, root, p, t, r, u, weight)
    {
      MakeReady(mem, root, p, t, r, u, weight);
      Deletion.PredReads(mem, node, r, u, weight);
      EmptiedApart(mem, root, p, t, r, u, weight);
      hide Synced, Emptied, Hung, PathLinked, Nodes, PathNodes, Ready, Sum;
      SubtractUp(predParent, node, weight(ElementOf(pred)), r, pred, Sum(u, weight));
    }

    // ----- Removal, part two: restoring the black heights

    /** Red sibling: rotate it above the parent; the new sibling is black. */
    method LowerParent(parent: Node<E>, sibling: Node<E>, side: bool, ghost p: Path<E>, ghost t: Shape<E>, ghost h: nat)
      returns (ghost q: Path<E>)
      requires Focus(p, t) && Short(p, t, h) && p.Step? && IsRed(p.sib)
      requires parent == p.node && sibling == p.sib.node && side == p.side
      modifies this`root, this`mem, mem.Keys`left, mem.Keys`right, mem.Keys`parent, mem.Keys`red, mem.Keys`summary
      ensures Focus(q, t) && Short(q, t, h) && Whole(q, t) == Whole(p, t) && mem.Keys == old(mem.Keys)
      ensures q.Step? && q.red && q.node == parent && q.side == side && q.sib.Bin? && !q.sib.red
    {
      RedSibling(p, t, h);
      NodesIn(mem, root, p, t, weight);
      ghost var r1 := Rotated(Up(p, t), side);
      ghost var r2 := PaintKid(r1, side, true);
      ghost var r3 := Paint(r2, false);
      WholeUp(p, t);
      RotateItems(Up(p, t), side);
      PaintKidItems(r1, side, true);
      PaintItems(r2, false);
      WholeDown(p.up, r3, side);
      WholeDown(Down(p.up, r3, side), r3.Kid(side), side);
      q := Down(Down(p.up, r3, side), r3.Kid(side), side);
      hide At, Synced, Items, Before, After, Short;
      MoveUp(mem, root, p, t, weight);
      Rotate(parent, side, p.up, Up(p, t));
      PaintChild(parent, true, p.up, r1, side);
      PaintNode(sibling, false, p.up, r2);
      MoveDown(mem, root, p.up, r3, side, weight);
      MoveDown(mem, root, Down(p.up, r3, side), r3.Kid(side), side, weight);
    }

    /** Black nephews: the sibling turns red, and the shortage moves up or a red parent absorbs it. */
    method ReddenSibling(parent: Node<E>, sibling: Node<E>, side: bool, ghost p: Path<E>, ghost t: Shape<E>,
            ghost h: nat)
      returns (ghost r: Shape<E>)
      requires Focus(p, t) && Short(p, t, h) && p.Step? && p.sib.Bin? && !p.sib.red && !IsRed(p.sib.left)
      requires !IsRed(p.sib.right)
      requires parent == p.node && sibling == p.sib.node && side == p.side
      modifies this`root, this`mem, mem.Keys`left, mem.Keys`right, mem.Keys`parent, mem.Keys`red, mem.Keys`summary
      ensures Focus(p.up, r) && r.Bin? && r.node == parent && Whole(p.up, r) == Whole(p, t) && mem.Keys == old(mem.Keys)
      ensures if p.red then Balanced(r, h + 1) && !r.red && Fits(p.up, h + 1, false) else Short(p.up, r, h + 1)
    {
      BlackNephews(p, t, h);
      NodesIn(mem, root, p, t, weight);
      r := PaintKid(Up(p, t), !side, true);
      WholeUp(p, t);
      PaintKidItems(Up(p, t), !side, true);
      PaintItems(r, false);
      MoveUp(mem, root, p, t, weight);
      NodeReads(mem, root, p.up, Up(p, t), 0, true, weight);
      hide At, Synced, Items, Before, After, Short, Balanced, Fits;
      var red := RedOf(parent);
      PaintChild(sibling, true, p.up, Up(p, t), !side);
      if red {
        PaintNode(parent, false, p.up, r);
        r := Paint(r, false);
      }
    }

    /** Red distant nephew: the sibling takes the parent's place and colour. */
    method Borrow(parent: Node<E>, sibling: Node<E>, distant: Node<E>, side: bool, ghost p: Path<E>, ghost t: Shape<E>,
            ghost h: nat)
      returns (ghost r: Shape<E>)
      requires Focus(p, t) && Short(p, t, h) && p.Step? && p.sib.Bin? && !p.sib.red && IsRed(p.sib.Kid(!p.side))
      requires parent == p.node && sibling == p.sib.node && side == p.side && distant == p.sib.Kid(!side).node
      modifies this`root, this`mem, mem.Keys`left, mem.Keys`right, mem.Keys`parent, mem.Keys`red, mem.Keys`summary
      ensures Focus(p.up, r) && Whole(p.up, r) == Whole(p, t) && mem.Keys == old(mem.Keys)
      ensures var h2 := if p.red then h + 1 else h + 2;
        Balanced(r, h2) && r.Bin? && r.red == p.red && Fits(p.up, h2, p.red)
    {
      DistantRed(p, t, h);
      ghost var r1 := Rotated(Up(p, t), side);
      ghost var r2 := Paint(r1, p.red);
      ghost var r3 := PaintKid(r2, side, p.sib.red);
      r := Borrowed(Up(p, t), side);
      WholeUp(p, t);
      RotateItems(Up(p, t), side);
      PaintItems(r1, p.red);
      PaintKidItems(r2, side, p.sib.red);
      PaintKidItems(r3, !side, false);
      MoveUp(mem, root, p, t, weight);
      BorrowReads(mem, root, p, t, weight);
      hide At, Synced, Items, Before, After, Short, Balanced, Fits;
      var parentRed, siblingRed := RedOf(parent), RedOf(sibling);
      Rotate(parent, side, p.up, Up(p, t));
      PaintNode(sibling, parentRed, p.up, r1);
      PaintChild(parent, siblingRed, p.up, r2, side);
      PaintChild(distant, false, p.up, r3, !side);
    }

    /** Red close nephew: turn it into a distant one. */
    method Bend(parent: Node<E>, sibling: Node<E>, close: Node<E>, side: bool, ghost p: Path<E>, ghost t: Shape<E>,
            ghost h: nat)
      returns (ghost q: Path<E>)
      requires Focus(p, t) && Short(p, t, h) && p.Step? && p.sib.Bin? && !p.sib.red
      requires IsRed(p.sib.Kid(p.side)) && !IsRed(p.sib.Kid(!p.side))
      requires parent == p.node && sibling == p.sib.node && side == p.side && close == p.sib.Kid(side).node
      modifies this`root, this`mem, mem.Keys`left, mem.Keys`right, mem.Keys`parent, mem.Keys`red, mem.Keys`summary
      ensures Focus(q, t) && Short(q, t, h) && Whole(q, t) == Whole(p, t) && mem.Keys == old(mem.Keys)
      ensures q.Step? && q.red == p.red && q.node == parent && q.side == side && q.up == p.up
      ensures q.sib.Bin? && !q.sib.red && IsRed(q.sib.Kid(!side))
    {
      CloseRed(p, t, h);
      ghost var g := Up(p, t);
      ghost var s1, d := Rotated(p.sib, !side), Down(p.up, g, !side);
      ghost var s2 := PaintKid(s1, !side, true);
      ghost var s3 := Paint(s2, false);
      q := p.(sib := s3);
      RotateItems(p.sib, !side);
      PaintKidItems(s1, !side, true);
      PaintItems(s2, false);
      SibItems(p, s3, t);
      assert g.Kid(!side) == p.sib && Up(d, s3).Kid(side) == t && Down(p.up, Up(d, s3), side) == q;
      hide At, Synced, Items, Before, After, Short;
      MoveUp(mem, root, p, t, weight);
      MoveDown(mem, root, p.up, g, !side, weight);
      Rotate(sibling, !side, d, p.sib);
      PaintChild(sibling, true, d, s1, !side);
      PaintNode(close, false, d, s2);
      MoveUp(mem, root, d, s3, weight);
      MoveDown(mem, root, p.up, Up(d, s3), side, weight);
    }

    /** The subtree in the hole is one black node too low; walk up until the shortage is made good. */
    method FixRemove(parent0: Node<E>, side0: bool, ghost p0: Path<E>, ghost t0: Shape<E>, ghost h0: nat)
      requires Focus(p0, t0) && Short(p0, t0, h0) && p0.Step? && parent0 == p0.node && side0 == p0.side
      modifies this, mem.Keys`left, mem.Keys`right, mem.Keys`parent, mem.Keys`red, mem.Keys`summary
      ensures Valid() && Seq() == Whole(p0, t0) && mem.Keys == old(mem.Keys)
    {
      hide At, Synced, Whole, Valid, Seq, Balanced, Fits, Short;
      var parent, side := parent0, side0;
      ghost var p, t, h := p0, t0, h0;
      while true
        invariant Focus(p, t) && mem.Keys == old(mem.Keys) && Whole(p, t) == Whole(p0, t0)
        invariant Short(p, t, h) && p.Step? && parent == p.node && side == p.side
        decreases if p.red then 0 else 1 + Length(p), IsRed(p.sib), !(p.sib.Bin? && IsRed(p.sib.Kid(!side)))
      {
        SiblingExists(p, t, h);
        SiblingReads(mem, root, p, t, weight);
        var sibling := Child(parent, !side);
        assert sibling != null;
        var close, distant := Child(sibling, side), Child(sibling, !side);
        if RedOf(sibling) {
          // The other combinations of colours beside a red sibling do not occur.
          assert close != null && !RedOf(close) && distant != null && !RedOf(distant) && !RedOf(parent);
          p := LowerParent(parent, sibling, side, p, t, h);
        } else if (close == null || !RedOf(close)) && (distant == null || !RedOf(distant)) {
          var wasRed := RedOf(parent);
          t := ReddenSibling(parent, sibling, side, p, t, h);
          p, h := p.up, h + 1;
          if wasRed {
            break;
          }
          var node := parent;
          UpReads(mem, root, p, t, weight);
          var up := ParentOf(node);
          if up == null {
            ShortRoot(p, t, h);
            break;
          }
          parent, side := up, Child(up, true) == node;
        } else if distant != null && RedOf(distant) {
          t := Borrow(parent, sibling, distant, side, p, t, h);
          h := if p.red then h + 1 else h + 2;
          p := p.up;
          break;
        } else {
          p := Bend(parent, sibling, close, side, p, t, h);
        }
      }
      Conclude(p, t, h);
    }

    // ----- Removal, all together

    /** The parent's link to `node`, or the root, becomes a link to `child`. */
    method Supplant(node: Node<E>, parent: Node?<E>, child: Node?<E>) returns (side: bool)
      requires Synced() && (parent != null ==> parent in mem)
      modifies this`root, this`mem, mem.Keys`left, mem.Keys`right
      ensures Synced() && mem.Keys == old(mem.Keys)
      ensures parent == null ==> root == child && mem == old(mem)
      ensures parent != null ==> root == old(root) && (side <==> old(mem)[parent].Child(true) == node)
      ensures parent != null ==> mem == old(mem)[parent := old(mem)[parent].WithChild(side, child)]
    {
      hide Synced, Cell.WithChild, Cell.Child;
      side := false;
      if parent != null {
        side := Child(parent, true) == node;
        SetChild(parent, side, child);
      } else {
        root := child;
      }
    }

    /** Put the detached node's only subtree, if any, in its slot. */
    method FillSlot(node: Node<E>, ghost p: Path<E>, ghost red: bool, ghost c: Shape<E>)
      returns (parent: Node?<E>, side: bool)
      requires Synced() && Detached(mem, root, p, node, red, c, weight)
      modifies this`root, this`mem, mem.Keys`left, mem.Keys`right, mem.Keys`parent
      ensures Focus(p, c) && mem.Keys == old(mem.Keys) - {node}
      ensures parent == Above(p, null) && (p.Step? ==> side == p.side)
    {
      FillAt(mem, root, p, node, red, c, weight);
      SlotOf(mem, root, p, node, red, c, weight);
      hide Synced, Detached, At, Cell.WithChild, Cell.Child;
      ghost var m0 := mem;
      parent := ParentOf(node);
      var child := Child(node, false);
      if child != null {
        SetParent(child, parent);
      }
      side := Supplant(node, parent, child);
      assert mem - {node} == Filled(m0, p, node, c);
      Forget(node);
    }

    /** From now on the snapshot leaves `n` out. */
    ghost method Forget(n: Node<E>)
      requires Synced()
      modifies this`mem
      ensures Synced() && mem == old(mem) - {n}
    {
      mem := mem - {n};
    }

    /** Take the detached node out and restore the colours. */
    method Unhang(node: Node<E>, ghost p: Path<E>, ghost red: bool, ghost c: Shape<E>, ghost h: nat)
      requires Synced() && Detached(mem, root, p, node, red, c, weight)
      requires Balanced(Bin(c, node, red, node.element, Leaf), h) && Fits(p, h, red)
      modifies this, mem.Keys`left, mem.Keys`right, mem.Keys`parent, mem.Keys`red, mem.Keys`summary
      ensures Valid() && Seq() == Whole(p, c) && mem.Keys == old(mem.Keys) - {node}
    {
      hide Synced, Detached, At, Balanced, Fits, Short, Whole;
      OneChild(p, c, node, red, node.element, h);
      SlotOf(mem, root, p, node, red, c, weight);
      var wasRed := RedOf(node);
      var child := Child(node, false);
      var parent, side := FillSlot(node, p, red, c);
      if wasRed {
        assert child == null;
        Conclude(p, c, h);
      } else if child != null {
        PaintNode(child, false, p, c);
        PaintWhole(p, c, false);
        Conclude(p, Paint(c, false), h);
      } else if parent == null {
        ShortRoot(p, c, h - 1);
        Conclude(p, c, h - 1);
      } else {
        FixRemove(parent, side, p, c, h - 1);
      }
    }

    /** `node` no longer counts: detach it, swapping it down first if it has two children, and take it out. */
    method Extract(node: Node<E>, ghost p: Path<E>, ghost t: Shape<E>)
      requires Synced() && Emptied(mem, root, p, t, weight) && t.node == node && RedBlack(Plug(p, t))
      modifies this, mem.Keys`left, mem.Keys`right, mem.Keys`parent, mem.Keys`red, mem.Keys`summary
      ensures Valid() && mem.Keys == old(mem.Keys) - {node}
      ensures Seq() == Before(p) + Items(t.left) + Items(t.right) + After(p)
    {
      EmptiedReads(mem, root, p, t, weight);
      UnplugBalanced(p, t);
      hide Synced, Emptied, Detached, Balanced, Fits, Whole, Plug, RedBlack, At;
      var left, right := Child(node, false), Child(node, true);
      if ParentOf(node) == null && left == null && right == null {
        OnlyNode(mem, root, p, t, weight);
        root := null;
        Forget(node);
        shape := Leaf;
        assert Valid();
      } else if left != null && right != null {
        ghost var p2, u := SwapWithPredecessor(node, left, p, t);
        Renamed(u, node, node.element);
        Unhang(node, p2, u.red, u.left, BlackHeight(u));
      } else if left == null && right != null {
        SwapChildren(node, p, t);
        Mirrored(t, p, node.element);
        Unhang(node, p, t.red, t.right, BlackHeight(t));
      } else {
        LeftOnly(mem, root, p, t, node.element, weight);
        Unhang(node, p, t.red, t.left, BlackHeight(t));
      }
    }

    /** A lone right child becomes the left one; the order does not matter, the node is leaving. */
    method SwapChildren(node: Node<E>, ghost p: Path<E>, ghost t: Shape<E>)
      requires Synced() && Emptied(mem, root, p, t, weight) && t.node == node && t.left.Leaf?
      modifies this`mem, node`left, node`right
      ensures Synced() && root == old(root) && mem.Keys == old(mem.Keys)
      ensures Detached(mem, root, p, node, t.red, t.right, weight)
    {
      MirrorAt(mem, root, p, t, weight);
      hide *;
      FlipChildren(node);
    }

    method FlipChildren(node: Node<E>)
      requires Synced() && node in mem
      modifies this`mem, node`left, node`right
      ensures Synced() && root == old(root) && mem.Keys == old(mem.Keys)
      ensures mem == old(mem)[node := old(mem)[node].(left := old(mem)[node].right, right := old(mem)[node].left)]
    {
      node.left, node.right := node.right, node.left;
      mem := mem[node := mem[node].(left := mem[node].right, right := mem[node].left)];
    }

    method Remove(node: Node<E>)
      requires Valid() && node in mem
      modifies this, mem.Keys`left, mem.Keys`right, mem.Keys`parent, mem.Keys`red, mem.Keys`summary
      ensures Valid() && mem.Keys == old(mem.Keys) - {node}
      ensures var its, k := old(Seq()), Index(old(Seq()), node); k < |its| && Seq() == its[..k] + its[k + 1..]
    {
      hide Synced, Emptied, RedBlack, At, Items, Before, After, Whole, Seq, Valid, Plug, PathLinked, PathNodes;
      hide SubtractMem, Sum, Down, Above;
      ghost var p, t := Located(node);
      EmptyReads(mem, root, p, t, weight);
      EmptyAt(mem, root, p, t, weight);
      Regroup4(Before(p), Items(t.left), Items(t.right), After(p));
      SubtractUp(node, null, weight(ElementOf(node)), Down(p, t, false), Root(t.left), Sum(t.left, weight));
      Extract(node, p, t);
    }

    /** The focus on a given node, and its place in the sequence. */
    ghost method Located(node: Node<E>) returns (p: Path<E>, t: Shape<E>)
      requires Valid() && node in mem
      ensures Synced() && t.Bin? && t.node == node && RedBlack(Plug(p, t)) && At(mem, root, p, t, 0, weight)
      ensures Plug(p, t) == shape && Seq() == Whole(p, t)
      ensures Index(Seq(), node) == |Before(p)| + |Items(t.left)| < |Seq()|
      ensures var its, k := Seq(), Index(Seq(), node);
        its[..k] == Before(p) + Items(t.left) && its[k + 1..] == Items(t.right) + After(p)
          && its[k] == Item(node, t.elem)
    {
      Opened();
      hide *;
      p, t := LocateAt(mem, root, shape, node, weight);
    }

    // ----- Walking

    method Max(start: Node<E>, ghost p: Path<E>, ghost t: Shape<E>) returns (m: Node<E>)
      requires Focus(p, t) && t.Bin? && t.node == start
      ensures Items(t) != [] && m == Items(t)[|Items(t)| - 1].node
    {
      hide At, Synced, Down, Items;
      m := start;
      ghost var q, s, pre := p, t, [];
      NodeReads(mem, root, q, s, 0, true, weight);
      var child := Child(m, true);
      assert pre + Items(s) == Items(t);
      while child != null
        invariant Focus(q, s) && s.Bin? && s.node == m && m in mem && child == Root(s.right)
        invariant pre + Items(s) == Items(t)
        decreases s
      {
        RightItems(s, pre);
        MoveDown(mem, root, q, s, true, weight);
        pre := pre + Items(s.left) + [Item(s.node, s.elem)];
        q, s := Down(q, s, true), s.right;
        m := child;
        NodeReads(mem, root, q, s, 0, true, weight);
        child := Child(m, true);
      }
      LastItem(s);
    }

    method Min(start: Node<E>, ghost p: Path<E>, ghost t: Shape<E>) returns (m: Node<E>)
      requires Focus(p, t) && t.Bin? && t.node == start
      ensures Items(t) != [] && m == Items(t)[0].node
    {
      hide At, Synced, Down, Items;
      m := start;
      ghost var q, s, post := p, t, [];
      NodeReads(mem, root, q, s, 0, false, weight);
      var child := Child(m, false);
      assert Items(s) + post == Items(t);
      while child != null
        invariant Focus(q, s) && s.Bin? && s.node == m && m in mem && child == Root(s.left)
        invariant Items(s) + post == Items(t)
        decreases s
      {
        LeftItems(s, post);
        MoveDown(mem, root, q, s, false, weight);
        post := [Item(s.node, s.elem)] + Items(s.right) + post;
        q, s := Down(q, s, false), s.left;
        m := child;
        NodeReads(mem, root, q, s, 0, false, weight);
        child := Child(m, false);
      }
      FirstItem(s);
    }

    lemma RootOrEmpty()
      requires Valid()
      ensures root == null <==> Seq() == []
    {
    }

    /** The last node of all. */
    method Last() returns (r: Node?<E>)
      requires Valid()
      ensures var its := Seq(); r == if its == [] then null else its[|its| - 1].node
    {
      Opened();
      EmptyRoot(mem, root, shape, weight);
      hide At, Synced, Items, RedBlack;
      r := root;
      if r != null {
        r := Max(r, Top, shape);
      }
    }

    method Predecessor(node: Node<E>) returns (r: Node?<E>)
      requires Valid() && node in mem
      ensures var its, k := Seq(), Index(Seq(), node); k < |its| && r == if k == 0 then null else its[k - 1].node
    {
      hide At, Synced, Down, Items, Before, After, Seq, Valid, Emptied, SubtractMem, RedBlack;
      ghost var p, t := Located(node);
      ghost var its, k := Seq(), Index(Seq(), node);
      NodeReads(mem, root, p, t, 0, false, weight);
      var child := Child(node, false);
      if child != null {
        MoveDown(mem, root, p, t, false, weight);
        LeftLast(p, t, its, k);
        r := Max(child, Down(p, t, false), t.left);
        return;
      }
      LeafItems(t.left);
      var n := node;
      ghost var q, s := p, t;
      r := ParentOf(n);
      while r != null
        invariant Focus(q, s) && s.Bin? && s.node == n && n in mem && r == Above(q, null)
        invariant its == Whole(q, s) && |Before(q)| == k < |its|
        decreases q
      {
        WalkUp(mem, root, q, s, weight);
        if Child(r, true) == n {
          BeforeLast(q, s);
          return;
        }
        n := r;
        q, s := q.up, Up(q, s);
        r := ParentOf(n);
      }
      TopItems(q);
    }

    method Successor(node: Node<E>) returns (r: Node?<E>)
      requires Valid() && node in mem
      ensures var its, k := Seq(), Index(Seq(), node); k < |its| && r == NodeAt(its, k + 1)
    {
      hide At, Synced, Down, Items, Before, After, Seq, Valid, Emptied, SubtractMem, RedBlack;
      ghost var p, t := Located(node);
      ghost var its, k := Seq(), Index(Seq(), node);
      NodeReads(mem, root, p, t, 0, true, weight);
      var child := Child(node, true);
      if child != null {
        MoveDown(mem, root, p, t, true, weight);
        RightFirst(p, t, its, k);
        r := Min(child, Down(p, t, true), t.right);
        return;
      }
      LeafItems(t.right);
      NodeItems(t);
      var n := node;
      ghost var q, s := p, t;
      r := ParentOf(n);
      while r != null
        invariant Focus(q, s) && s.Bin? && s.node == n && n in mem && r == Above(q, null)
        invariant its == Whole(q, s) && |Before(q)| + |Items(s)| == k + 1
        decreases q
      {
        WalkUp(mem, root, q, s, weight);
        if Child(r, false) == n {
          AfterFirst(q, s);
          return;
        }
        n := r;
        q, s := q.up, Up(q, s);
        r := ParentOf(n);
      }
      TopItems(q);
    }

    /** The first node whose element is not less than the sought key, which `reached` tests. */
    method LowerBound(reached: E -> bool) returns (r: Node?<E>)
      requires Valid() && Monotone(Seq(), reached)
      ensures r == NodeAt(Seq(), Split(Seq(), reached))
    {
      hide At, Synced, Down, Items, Stretch, Seq, Valid, RedBlack, Monotone, Whole, Plug, Split, Index;
      Opened();
      if root == null {
        EmptyTree(mem, root, shape, weight);
        return null;
      }
      ghost var its, p, t := Seq(), Top, shape;
      StartDown(mem, root, t, 0, reached, weight);
      var node := root;
      while true
        invariant Focus(p, t) && t.Bin? && t.node == node && node in mem && Stretch(its, reached, p, t)
        decreases t
      {
        NodeReads(mem, root, p, t, 0, true, weight);
        NodeReads(mem, root, p, t, 0, false, weight);
        var right := !reached(ElementOf(node));
        StretchDown(its, reached, p, t, right);
        var child := Child(node, right);
        if child == null {
          StretchEnd(mem, root, its, reached, p, t, right, weight);
          if right {
            r := Successor(node);
          } else {
            r := node;
          }
          return;
        }
        MoveDown(mem, root, p, t, right, weight);
        node := child;
        p, t := Down(p, t, right), t.Kid(right);
      }
    }

    /** The sum of everything before `node`, or of everything if there is no node. */
    method PrefixSum(node: Node?<E>) returns (sum: int)
      requires Valid() && (node == null || node in mem)
      ensures sum == Total(if node == null then Seq() else Seq()[..Index(Seq(), node)], weight)
    {
      if node == null {
        SumTotal(shape, weight);
        sum := if root == null then 0 else root.summary;
        return;
      }
      hide At, Synced, Down, Items, Before, Seq, Valid, Total, Index, RedBlack;
      ghost var p, t := Located(node);
      ghost var its, k := Seq(), Index(Seq(), node);
      LeftSum(mem, root, p, t, weight);
      var left := Child(node, false);
      sum := if left == null then 0 else SummaryOf(left);
      var n, parent := node, ParentOf(node);
      ghost var q, s := p, t;
      while parent != null
        invariant Focus(q, s) && s.Bin? && s.node == n && n in mem && parent == Above(q, null)
        invariant Total(Before(q), weight) + sum == Total(its[..k], weight)
        decreases q
      {
        WalkUp(mem, root, q, s, weight);
        StepSum(mem, root, q, s, weight);
        if Child(parent, true) == n {
          var sib := Child(parent, false);
          if sib != null {
            sum := sum + SummaryOf(sib);
          }
          sum := sum + weight(ElementOf(parent));
        }
        n := parent;
        parent := ParentOf(n);
        q, s := q.up, Up(q, s);
      }
      EmptyTotal(q, weight);
    }

    /** Overwrite an element in place; neither its weight nor its position may suffer. */
    method WriteElement(node: Node<E>, e: E)
      requires Valid() && node in mem && weight(e) == weight(node.element)
      modifies this`mem, this`shape, node`element
      ensures Valid() && mem.Keys == old(mem.Keys) && node.element == e
      ensures var its, k := old(Seq()), Index(old(Seq()), node); k < |its| && Seq() == its[k := Item(node, e)]
    {
      hide At, Synced, Items, Before, After, Whole, Seq, Valid, Balanced, Fits, RedBlack, Index, Plug;
      ghost var p, t := Located(node);
      NodeReads(mem, root, p, t, 0, true, weight);
      UnplugBalanced(p, t);
      assert ElementOf(node) == t.elem;
      RelabelAt(mem, root, p, t, e, weight);
      Relabelled(p, t, e);
      Relabel(node, e);
      Conclude(p, t.(elem := e), BlackHeight(t));
    }

    method Relabel(node: Node<E>, e: E)
      requires Synced() && node in mem
      modifies this`mem, node`element
      ensures Synced() && root == old(root) && mem.Keys == old(mem.Keys)
      ensures mem == old(mem)[node := old(mem)[node].(elem := e)]
      ensures node.element == e
    {
      node.element := e;
      mem := mem[node := mem[node].(elem := e)];
    }
  }
}
