/** Facts that the tree's methods look up: what the fields around a focus say, and how a focus
    splits the sequence. */
module TreeFacts {
  import opened Shapes
  import opened ShapeLemmas
  import opened Balance
  import opened Ordering
  import opened Deletion

  // ----- Insertion

  lemma StartDown<E>(mem: Mem<E>, root: Node?<E>, t: Shape<E>, d: int, f: E -> bool, w: E -> int)
    requires At(mem, root, Top, t, 0, w)
    ensures At(mem, root, Top, t, d, w) && Stretch(Items(t), f, Top, t) && Plug(Top, t) == t && root == Root(t)
    ensures root == null || root in mem
  {
  }

  lemma FixReads<E>(mem: Mem<E>, root: Node?<E>, p: Path<E>, t: Shape<E>, h: nat, w: E -> int)
    requires At(mem, root, p, t, 0, w) && Rising(p, t, h)
    ensures t.node in mem && mem[t.node].parent == Above(p, null)
    ensures p.Step? ==> p.node in mem && mem[p.node].red == p.red
  {
  }

  lemma FitsBlack<E>(p: Path<E>, t: Shape<E>, h: nat)
    requires Rising(p, t, h) && (p.Step? ==> !p.red)
    ensures Balanced(t, h) && Fits(p, h, IsRed(t))
  {
  }

  lemma PaintItems<E>(t: Shape<E>, red: bool)
    requires t.Bin?
    ensures Items(Paint(t, red)) == Items(t)
  {
  }

  lemma LeafAt<E>(mem: Mem<E>, n: Node<E>, e: E, w: E -> int)
    requires mem == map[n := Cell(null, null, null, true, w(e), e)]
    ensures var t := Bin(Leaf, n, true, e, Leaf); At(mem, n, Top, t, 0, w) && RedBlack(t) && Items(t) == [Item(n, e)]
  {
  }

  lemma TopLinked<E>(mem: Mem<E>, root: Node?<E>, t: Shape<E>, w: E -> int)
    requires At(mem, root, Top, t, 0, w)
    ensures Linked(mem, t, null, w)
  {
  }

  lemma EmptyRoot<E>(mem: Mem<E>, root: Node?<E>, t: Shape<E>, w: E -> int)
    requires At(mem, root, Top, t, 0, w)
    ensures if root == null then Items(t) == [] else t.Bin? && t.node == root && Items(t) != []
  {
  }

  lemma EmptyTree<E>(mem: Mem<E>, root: Node?<E>, t: Shape<E>, w: E -> int)
    requires At(mem, root, Top, t, 0, w) && root == null
    ensures t == Leaf && mem == map[] && Items(t) == []
  {
  }

  lemma SlotReads<E>(its: seq<Item<E>>, f: E -> bool, p: Path<E>, n: Node<E>, e: E)
    requires Stretch(its, f, p, Leaf) && RedBlack(Plug(p, Leaf))
    ensures Rising(p, Bin(Leaf, n, true, e, Leaf), 0)
    ensures var k := Split(its, f); Whole(p, Bin(Leaf, n, true, e, Leaf)) == its[..k] + [Item(n, e)] + its[k..]
  {
    UnplugBalanced(p, Leaf);
    SplitIs(its, f, |Before(p)|);
    var k := |Before(p)|;
    var leaf: Shape<E> := Leaf;
    assert Items(leaf) == [];
    assert its == Before(p) + After(p);
    assert its[..k] == Before(p) && its[k..] == After(p);
  }

  // ----- Removal

  lemma SpineReads<E>(mem: Mem<E>, node: Node<E>, r: Path<E>, u: Shape<E>, w: E -> int)
    requires Hung(mem, node, r, u, 0, w) && u.Bin?
    ensures u.node in mem && mem[u.node].Child(true) == Root(u.right)
  {
  }

  lemma TradedCells<E>(mem: Mem<E>, p: Path<E>, t: Shape<E>, r: Path<E>, u: Shape<E>)
    requires TradeReady(mem, p, t, r, u)
    ensures var m1, n, k := Traded(mem, p, t, r, u), t.node, u.node;
      && m1.Keys == mem.Keys
      && m1[n] == mem[k].(elem := mem[n].elem, parent := Above(r, k))
      && m1[k] == mem[n].(elem := mem[k].elem, left := if r.Top? then n else t.left.node)
      && (Above(r, n) == n <==> r.Top?)
      && (forall x <- mem.Keys :: x != n && x != k && (r.Step? ==> x != r.node && x != t.left.node) ==> m1[x] == mem[x])
      && (r.Step? ==> n != t.left.node && k != t.left.node && r.node in mem && t.left.node in mem)
      && (r.Step? && r.node == t.left.node ==> m1[r.node] == mem[r.node].(right := n, parent := k))
      && (r.Step? && r.node != t.left.node ==>
          m1[r.node] == mem[r.node].(right := n) && m1[t.left.node] == mem[t.left.node].(parent := k))
  {
  }

  lemma EmptiedApart<E>(mem: Mem<E>, root: Node?<E>, p: Path<E>, t: Shape<E>, r: Path<E>, u: Shape<E>, w: E -> int)
    requires Emptied(mem, root, p, t, w) && Nodes(u) + PathNodes(r) == Nodes(t.left)
    ensures t.node !in PathNodes(r) && PathNodes(r) <= mem.Keys
  {
  }

  lemma SibItems<E>(p: Path<E>, s: Shape<E>, t: Shape<E>)
    requires p.Step? && Items(s) == Items(p.sib)
    ensures Whole(p.(sib := s), t) == Whole(p, t)
  {
  }

  lemma BorrowReads<E>(mem: Mem<E>, root: Node?<E>, p: Path<E>, t: Shape<E>, w: E -> int)
    requires At(mem, root, p, t, 0, w) && p.Step? && p.sib.Bin? && p.sib.Kid(!p.side).Bin?
    ensures p.node in mem && mem[p.node].red == p.red && p.sib.node in mem && mem[p.sib.node].red == p.sib.red
    ensures p.sib.Kid(!p.side).node in mem
  {
  }

  ghost function Length<E>(p: Path<E>): nat {
    if p.Top? then 0 else 1 + Length(p.up)
  }

  lemma SiblingReads<E>(mem: Mem<E>, root: Node?<E>, p: Path<E>, t: Shape<E>, w: E -> int)
    requires At(mem, root, p, t, 0, w) && p.Step? && p.sib.Bin?
    ensures p.node in mem && mem[p.node].red == p.red && mem[p.node].Child(!p.side) == p.sib.node
    ensures p.sib.node in mem && mem[p.sib.node].red == p.sib.red
    ensures mem[p.sib.node].Child(p.side) == Root(p.sib.Kid(p.side))
    ensures mem[p.sib.node].Child(!p.side) == Root(p.sib.Kid(!p.side))
    ensures p.sib.Kid(p.side).Bin? ==>
      p.sib.Kid(p.side).node in mem && mem[p.sib.Kid(p.side).node].red == p.sib.Kid(p.side).red
    ensures p.sib.Kid(!p.side).Bin? ==>
      p.sib.Kid(!p.side).node in mem && mem[p.sib.Kid(!p.side).node].red == p.sib.Kid(!p.side).red
  {
    Kids(mem, p.sib, p.side, p.node, w);
  }

  lemma UpReads<E>(mem: Mem<E>, root: Node?<E>, p: Path<E>, t: Shape<E>, w: E -> int)
    requires At(mem, root, p, t, 0, w) && t.Bin?
    ensures t.node in mem && mem[t.node].parent == Above(p, null)
    ensures p.Step? ==> p.node in mem && (mem[p.node].Child(true) == t.node <==> p.side)
  {
  }

  lemma ShortRoot<E>(p: Path<E>, t: Shape<E>, h: nat)
    requires Short(p, t, h) && p.Top?
    ensures Balanced(t, h) && Fits(p, h, IsRed(t))
  {
  }

  lemma SlotOf<E>(mem: Mem<E>, root: Node?<E>, p: Path<E>, node: Node<E>, red: bool, c: Shape<E>, w: E -> int)
    requires Detached(mem, root, p, node, red, c, w)
    ensures node in mem && mem[node].parent == Above(p, null) && mem[node].Child(false) == Root(c)
    ensures mem[node].red == red
    ensures c.Bin? ==> c.node in mem && c.node != node && (p.Step? ==> p.node != c.node)
    ensures p.Step? ==> p.node in mem && p.node != node && (mem[p.node].Child(true) == node <==> p.side)
    ensures RootOf(p, Root(c)) == if p.Step? then root else Root(c)
  {
  }

  /** A node without a right child is red and childless, or black over at most one red leaf. */
  lemma OneChild<E>(p: Path<E>, c: Shape<E>, node: Node<E>, red: bool, elem: E, h: nat)
    requires Balanced(Bin(c, node, red, elem, Leaf), h) && Fits(p, h, red)
    ensures red ==> c.Leaf? && Balanced(c, h) && Fits(p, h, IsRed(c))
    ensures !red && c.Bin? ==> c.red && Balanced(Paint(c, false), h) && Fits(p, h, false)
    ensures !red && c.Leaf? ==> h == 1 && Short(p, c, h - 1)
  {
  }

  lemma PaintWhole<E>(p: Path<E>, t: Shape<E>, red: bool)
    requires t.Bin?
    ensures Whole(p, Paint(t, red)) == Whole(p, t)
  {
  }

  lemma Regroup4<T>(a: seq<T>, b: seq<T>, c: seq<T>, d: seq<T>)
    ensures (a + b) + (c + d) == a + b + c + d
  {
  }

  lemma EmptyReads<E>(mem: Mem<E>, root: Node?<E>, p: Path<E>, t: Shape<E>, w: E -> int)
    requires At(mem, root, p, t, 0, w) && t.Bin?
    ensures PathLinked(mem, Down(p, t, false), null, Root(t.left), Sum(t.left, w), w)
    ensures PathNodes(Down(p, t, false)) <= mem.Keys
    ensures t.node in mem && mem[t.node].elem == t.elem && Above(Down(p, t, false), null) == t.node
  {
  }

  lemma EmptiedReads<E>(mem: Mem<E>, root: Node?<E>, p: Path<E>, t: Shape<E>, w: E -> int)
    requires Emptied(mem, root, p, t, w)
    ensures t.Bin? && t.node in mem && mem[t.node].Child(false) == Root(t.left)
    ensures mem[t.node].Child(true) == Root(t.right)
  {
  }

  lemma MirrorAt<E>(mem: Mem<E>, root: Node?<E>, p: Path<E>, t: Shape<E>, w: E -> int)
    requires Emptied(mem, root, p, t, w) && t.left.Leaf?
    ensures t.node in mem
    ensures var m := mem[t.node := mem[t.node].(left := mem[t.node].right, right := mem[t.node].left)];
      Detached(m, root, p, t.node, t.red, t.right, w)
  {
    var m2 := mem[t.node := mem[t.node].(left := mem[t.node].right, right := mem[t.node].left)];
    assert Sum(t.left, w) == 0;
    hide Linked, PathLinked, Nodes, PathNodes, Sum;
    LinkedAgree(mem, m2, t.right, t.node, w);
    PathAgree(mem, m2, p, null, t.node, Sum(t.right, w), w);
  }

  lemma LeftOnly<E>(mem: Mem<E>, root: Node?<E>, p: Path<E>, t: Shape<E>, e: E, w: E -> int)
    requires Emptied(mem, root, p, t, w) && t.right.Leaf?
    ensures Detached(mem, root, p, t.node, t.red, t.left, w)
    ensures Balanced(t, BlackHeight(t)) ==> Balanced(Bin(t.left, t.node, t.red, e, Leaf), BlackHeight(t))
    ensures Whole(p, t.left) == Before(p) + Items(t.left) + Items(t.right) + After(p)
  {
    assert Sum(t.right, w) == 0 && Items(t.right) == [];
  }

  lemma OnlyNode<E>(mem: Mem<E>, root: Node?<E>, p: Path<E>, t: Shape<E>, w: E -> int)
    requires Emptied(mem, root, p, t, w) && mem[t.node].parent == null && t.left.Leaf? && t.right.Leaf?
    ensures var leaf: Shape<E> := Leaf; p.Top? && At(mem - {t.node}, null, Top, leaf, 0, w) && RedBlack(leaf)
    ensures Before(p) + Items(t.left) + Items(t.right) + After(p) == []
  {
  }

  /** Balance looks neither at nodes nor at elements. */
  lemma Renamed<E>(u: Shape<E>, n: Node<E>, e: E)
    requires u.Bin? && u.right.Leaf? && Balanced(u, BlackHeight(u))
    ensures Balanced(Bin(u.left, n, u.red, e, Leaf), BlackHeight(u))
  {
  }

  lemma Mirrored<E>(t: Shape<E>, p: Path<E>, e: E)
    requires t.Bin? && t.left.Leaf? && Balanced(t, BlackHeight(t))
    ensures Balanced(Bin(t.right, t.node, t.red, e, Leaf), BlackHeight(t))
    ensures Whole(p, t.right) == Before(p) + Items(t.left) + Items(t.right) + After(p)
  {
  }

  // ----- Walking

  lemma RightItems<E>(s: Shape<E>, pre: seq<Item<E>>)
    requires s.Bin?
    ensures pre + Items(s) == pre + Items(s.left) + [Item(s.node, s.elem)] + Items(s.right)
  {
  }

  lemma LeftItems<E>(s: Shape<E>, post: seq<Item<E>>)
    requires s.Bin?
    ensures Items(s) + post == Items(s.left) + ([Item(s.node, s.elem)] + Items(s.right) + post)
  {
  }

  lemma LastItem<E>(s: Shape<E>)
    requires s.Bin? && s.right.Leaf?
    ensures Items(s) != [] && Items(s)[|Items(s)| - 1].node == s.node
  {
  }

  /** The end of the right spine comes last. */
  lemma SpineLast<E>(r: Path<E>, u: Shape<E>)
    requires Spine(r) && u.Bin? && u.right.Leaf?
    ensures var its := Items(Plug(r, u)); its != [] && its[|its| - 1].node == u.node
  {
    PlugItems(r, u);
    SpineAfter(r);
    LastItem(u);
  }

  lemma FirstItem<E>(s: Shape<E>)
    requires s.Bin? && s.left.Leaf?
    ensures Items(s) != [] && Items(s)[0].node == s.node
  {
  }

  lemma LeafItems<E>(s: Shape<E>)
    ensures s.Leaf? ==> Items(s) == []
  {
  }

  lemma NodeItems<E>(s: Shape<E>)
    requires s.Bin?
    ensures |Items(s)| == |Items(s.left)| + 1 + |Items(s.right)|
  {
  }

  lemma TopItems<E>(p: Path<E>)
    ensures p.Top? ==> Before(p) == [] && After(p) == []
  {
  }

  lemma LeftLast<E>(p: Path<E>, t: Shape<E>, its: seq<Item<E>>, k: nat)
    requires t.Bin? && its == Whole(p, t) && k == |Before(p)| + |Items(t.left)| && t.left.Bin?
    ensures 0 < |Items(t.left)| && k - 1 < |its| && its[k - 1] == Items(t.left)[|Items(t.left)| - 1]
  {
  }

  lemma RightFirst<E>(p: Path<E>, t: Shape<E>, its: seq<Item<E>>, k: nat)
    requires t.Bin? && its == Whole(p, t) && k == |Before(p)| + |Items(t.left)| && t.right.Bin?
    ensures 0 < |Items(t.right)| && k + 1 < |its| && its[k + 1] == Items(t.right)[0]
  {
  }

  /** One step of an upward walk. */
  lemma WalkUp<E>(mem: Mem<E>, root: Node?<E>, p: Path<E>, t: Shape<E>, w: E -> int)
    requires At(mem, root, p, t, 0, w) && t.Bin? && p.Step?
    ensures p.node in mem && (mem[p.node].Child(true) == t.node <==> p.side)
    ensures (mem[p.node].Child(false) == t.node <==> !p.side)
    ensures mem[p.node].parent == Above(p.up, null) && mem[p.node].elem == p.elem
    ensures At(mem, root, p.up, Up(p, t), 0, w) && Up(p, t).node == p.node && Whole(p.up, Up(p, t)) == Whole(p, t)
    ensures !p.side ==> Before(p.up) == Before(p)
    ensures p.side ==> |Before(p.up)| + |Items(Up(p, t))| == |Before(p)| + |Items(t)|
  {
    SideOf(mem, root, p, t, 0, w);
    MoveUp(mem, root, p, t, w);
    WholeUp(p, t);
  }

  lemma BeforeLast<E>(p: Path<E>, t: Shape<E>)
    requires p.Step? && p.side
    ensures 0 < |Before(p)| <= |Whole(p, t)| && Whole(p, t)[|Before(p)| - 1].node == p.node
  {
  }

  lemma AfterFirst<E>(p: Path<E>, t: Shape<E>)
    requires p.Step? && !p.side
    ensures |Before(p)| + |Items(t)| < |Whole(p, t)| && Whole(p, t)[|Before(p)| + |Items(t)|].node == p.node
  {
  }

  lemma StretchEnd<E>(mem: Mem<E>, root: Node?<E>, its: seq<Item<E>>, f: E -> bool, p: Path<E>, t: Shape<E>, side: bool,
          w: E -> int)
    requires At(mem, root, p, t, 0, w) && t.Bin? && t.Kid(side).Leaf?
    requires Stretch(its, f, p, t) && Stretch(its, f, Down(p, t, side), t.Kid(side))
    ensures var k := Index(its, t.node);
      k < |its| && its[k].node == t.node && Split(its, f) == if side then k + 1 else k
  {
    IndexAt(mem, root, p, t, w);
    SplitIs(its, f, |Before(Down(p, t, side))|);
  }

  lemma LeftSum<E>(mem: Mem<E>, root: Node?<E>, p: Path<E>, t: Shape<E>, w: E -> int)
    requires At(mem, root, p, t, 0, w) && t.Bin?
    ensures t.node in mem && mem[t.node].Child(false) == Root(t.left) && mem[t.node].parent == Above(p, null)
    ensures t.left.Bin? ==> t.left.node in mem
    ensures (if t.left.Bin? then mem[t.left.node].summary else 0) == Total(Items(t.left), w)
    ensures Total(Before(p) + Items(t.left), w) == Total(Before(p), w) + Total(Items(t.left), w)
  {
    Kids(mem, t, false, Above(p, null), w);
    SumRoot(mem, t.left, t.node, w);
    SumTotal(t.left, w);
    TotalConcat(Before(p), Items(t.left), w);
  }

  lemma StepSum<E>(mem: Mem<E>, root: Node?<E>, p: Path<E>, t: Shape<E>, w: E -> int)
    requires At(mem, root, p, t, 0, w) && p.Step?
    ensures p.node in mem && (p.side ==> mem[p.node].Child(false) == Root(p.sib)) && (p.sib.Bin? ==> p.sib.node in mem)
    ensures var d := (if p.sib.Bin? then mem[p.sib.node].summary else 0) + w(p.elem);
      Total(Before(p), w) == Total(Before(p.up), w) + if p.side then d else 0
  {
    if p.side {
      var x := [Item(p.node, p.elem)];
      SumTotal(p.sib, w);
      TotalConcat(Before(p.up), Items(p.sib), w);
      TotalConcat(Before(p.up) + Items(p.sib), x, w);
      assert Total(x, w) == w(p.elem);
    }
  }

  lemma EmptyTotal<E>(p: Path<E>, w: E -> int)
    ensures p.Top? ==> Total(Before(p), w) == 0
  {
  }

  lemma RelabelAt<E>(mem: Mem<E>, root: Node?<E>, p: Path<E>, t: Shape<E>, e: E, w: E -> int)
    requires At(mem, root, p, t, 0, w) && t.Bin? && w(e) == w(t.elem)
    ensures t.node in mem && At(mem[t.node := mem[t.node].(elem := e)], root, p, t.(elem := e), 0, w)
  {
    Kids(mem, t, true, Above(p, null), w);
    var m2 := mem[t.node := mem[t.node].(elem := e)];
    assert t.(elem := e) == Mk(true, t.right, t.node, t.red, e, t.left);
    hide Linked, PathLinked, Nodes, PathNodes, Sum, Mk;
    LinkedAgree(mem, m2, t.left, t.node, w);
    LinkedAgree(mem, m2, t.right, t.node, w);
    PathAgree(mem, m2, p, null, t.node, Sum(t, w), w);
    Join(m2, true, t.right, t.node, t.red, e, t.left, Above(p, null), w);
  }

  lemma Relabelled<E>(p: Path<E>, t: Shape<E>, e: E)
    requires t.Bin?
    ensures Balanced(t, BlackHeight(t)) ==> Balanced(t.(elem := e), BlackHeight(t))
    ensures var k := |Before(p)| + |Items(t.left)|;
      k < |Whole(p, t)| && Whole(p, t.(elem := e)) == Whole(p, t)[k := Item(t.node, e)]
  {
    ReplaceOne(Before(p), Items(t.left), Item(t.node, t.elem), Item(t.node, e), Items(t.right), After(p));
  }

  lemma ReplaceOne<T>(a: seq<T>, b: seq<T>, x: T, y: T, c: seq<T>, d: seq<T>)
    ensures a + (b + [y] + c) + d == (a + (b + [x] + c) + d)[|a| + |b| := y]
  {
  }
}
