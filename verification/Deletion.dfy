/** Taking a node out of the pointers: its sum leaves the ancestors, and a node with two children
    first changes places with its in-order predecessor. */
module Deletion {
  import opened Shapes
  import opened ShapeLemmas
  import opened Balance

  // ----- Sums along a path

  ghost function SubtractMem<E>(mem: Mem<E>, p: Path<E>, d: int): Mem<E> {
    if p.Top? || p.node !in mem then mem
    else SubtractMem(mem[p.node := mem[p.node].(summary := mem[p.node].summary - d)], p.up, d)
  }

  lemma {:induction false} SubtractPath<E>(mem: Mem<E>, p: Path<E>, base: Node?<E>, hole: Node?<E>, s: int, d: int,
          w: E -> int)
    requires PathLinked(mem, p, base, hole, s, w)
    ensures PathLinked(SubtractMem(mem, p, d), p, base, hole, s - d, w)
    ensures SubtractMem(mem, p, d).Keys == mem.Keys && Agree(mem, SubtractMem(mem, p, d), mem.Keys - PathNodes(p))
  {
    if p.Step? {
      var m1 := mem[p.node := mem[p.node].(summary := mem[p.node].summary - d)];
      PathAgree(mem, m1, p.up, base, p.node, mem[p.node].summary, w);
      SubtractPath(m1, p.up, base, p.node, mem[p.node].summary, d, w);
      var m2 := SubtractMem(m1, p.up, d);
      LinkedAgree(mem, m2, p.sib, p.node, w);
    }
  }

  lemma SubtractStep<E>(mem: Mem<E>, p: Path<E>, base: Node?<E>, hole: Node?<E>, s: int, d: int, w: E -> int)
    requires Above(p, base) != base && PathLinked(mem, p, base, hole, s, w)
    ensures p.Step? && Above(p, base) == p.node && p.node in mem && p.node in PathNodes(p)
    ensures mem[p.node].parent == Above(p.up, base)
    ensures var m1 := mem[p.node := mem[p.node].(summary := mem[p.node].summary - d)];
      PathLinked(m1, p.up, base, p.node, mem[p.node].summary, w) && SubtractMem(m1, p.up, d) == SubtractMem(mem, p, d)
    ensures PathNodes(p.up) <= PathNodes(p)
  {
    var m1 := mem[p.node := mem[p.node].(summary := mem[p.node].summary - d)];
    PathAgree(mem, m1, p.up, base, p.node, mem[p.node].summary, w);
  }

  lemma SubtractDone<E>(mem: Mem<E>, p: Path<E>, base: Node?<E>, d: int)
    requires Above(p, base) == base && base !in PathNodes(p)
    ensures SubtractMem(mem, p, d) == mem
  {
  }

  /** The whole tree, except that the focused node counts for nothing. */
  ghost predicate Emptied<E>(mem: Mem<E>, root: Node?<E>, p: Path<E>, t: Shape<E>, w: E -> int) {
    && t.Bin? && t.node in mem
    && mem[t.node] == Cell(Root(t.left), Root(t.right), Above(p, null), t.red, Sum(t.left, w) + Sum(t.right, w), t.elem)
    && t.node !in Nodes(t.left) && t.node !in Nodes(t.right) && t.node !in PathNodes(p)
    && Nodes(t.left) !! Nodes(t.right) && Nodes(t.left) !! PathNodes(p) && Nodes(t.right) !! PathNodes(p)
    && mem.Keys == Nodes(t.left) + {t.node} + Nodes(t.right) + PathNodes(p)
    && Linked(mem, t.left, t.node, w) && Linked(mem, t.right, t.node, w)
    && PathLinked(mem, p, null, t.node, Sum(t.left, w) + Sum(t.right, w), w)
    && root == RootOf(p, t.node)
  }

  lemma EmptyAt<E>(mem: Mem<E>, root: Node?<E>, p: Path<E>, t: Shape<E>, w: E -> int)
    requires At(mem, root, p, t, 0, w) && t.Bin?
    ensures Emptied(SubtractMem(mem, Down(p, t, false), w(t.elem)), root, p, t, w)
  {
    var q, m2 := Down(p, t, false), SubtractMem(mem, Down(p, t, false), w(t.elem));
    Kids(mem, t, false, Above(p, null), w);
    MoveDown(mem, root, p, t, false, w);
    SubtractPath(mem, q, null, Root(t.left), Sum(t.left, w), w(t.elem), w);
    LinkedAgree(mem, m2, t.left, t.node, w);
  }

  // ----- Moving a path below another node

  /** The topmost node of a path. */
  ghost function TopOf<E>(p: Path<E>): Node?<E> {
    if p.Top? then null else if p.up.Top? then p.node else TopOf(p.up)
  }

  /** The cell of `x`, a node of `p`, once `p` hangs below `base` and holds `hole`. */
  ghost function Rebased<E>(c: Cell<E>, x: Node<E>, p: Path<E>, base: Node?<E>, hole: Node?<E>): Cell<E>
    requires p.Step?
  {
    var c1 := if x == p.node then c.WithChild(p.side, hole) else c;
    if x == TopOf(p) then c1.(parent := base) else c1
  }

  lemma {:induction false} TopIn<E>(p: Path<E>)
    requires p.Step?
    ensures TopOf(p) != null && TopOf(p) in PathNodes(p)
  {
    if p.up.Step? { TopIn(p.up); }
  }

  lemma {:induction false} Rebase<E>(m1: Mem<E>, m2: Mem<E>, p: Path<E>, b1: Node?<E>, b2: Node?<E>, h1: Node?<E>,
          h2: Node?<E>, s: int, w: E -> int)
    requires PathLinked(m1, p, b1, h1, s, w) && PathNodes(p) <= m1.Keys
    requires forall x <- PathNodes(p) :: x in m2 && m2[x] == Rebased(m1[x], x, p, b2, h2)
    ensures PathLinked(m2, p, b2, h2, s, w)
  {
    if p.Step? {
      if p.up.Step? {
        TopIn(p.up);
        assert p.node != TopOf(p);
        RebaseUp(m1, m2, p, b1, b2, h1, h2, s, w);
        Rebase(m1, m2, p.up, b1, b2, p.node, p.node, m1[p.node].summary, w);
      }
      RebaseSib(m1, m2, p, b1, b2, h1, h2, s, w);
    }
  }

  lemma RebaseSib<E>(m1: Mem<E>, m2: Mem<E>, p: Path<E>, b1: Node?<E>, b2: Node?<E>, h1: Node?<E>, h2: Node?<E>, s: int,
          w: E -> int)
    requires p.Step? && PathLinked(m1, p, b1, h1, s, w) && PathNodes(p) <= m1.Keys
    requires forall x <- PathNodes(p) :: x in m2 && m2[x] == Rebased(m1[x], x, p, b2, h2)
    ensures Linked(m2, p.sib, p.node, w)
  {
    if p.up.Step? { TopIn(p.up); }
    LinkedAgree(m1, m2, p.sib, p.node, w);
  }

  lemma RebaseUp<E>(m1: Mem<E>, m2: Mem<E>, p: Path<E>, b1: Node?<E>, b2: Node?<E>, h1: Node?<E>, h2: Node?<E>, s: int,
          w: E -> int)
    requires p.Step? && p.up.Step? && PathLinked(m1, p, b1, h1, s, w) && PathNodes(p) <= m1.Keys
    requires forall x <- PathNodes(p) :: x in m2 && m2[x] == Rebased(m1[x], x, p, b2, h2)
    ensures forall x <- PathNodes(p.up) :: x in m2 && m2[x] == Rebased(m1[x], x, p.up, b2, p.node)
  {
  }

  // ----- Putting one path below another

  ghost function Append<E>(r: Path<E>, q: Path<E>): Path<E> {
    if r.Top? then q else r.(up := Append(r.up, q))
  }

  lemma {:induction false} AppendNodes<E>(r: Path<E>, q: Path<E>, hole: Node?<E>)
    ensures PathNodes(Append(r, q)) == PathNodes(r) + PathNodes(q)
    ensures RootOf(Append(r, q), hole) == RootOf(q, RootOf(r, hole))
    ensures Above(Append(r, q), null) == Above(r, Above(q, null))
  {
    if r.Step? { AppendNodes(r.up, q, r.node); }
  }

  lemma {:induction false} AppendLinked<E>(mem: Mem<E>, r: Path<E>, q: Path<E>, hole: Node?<E>, s: int, w: E -> int)
    requires q.Step? && PathLinked(mem, r, q.node, hole, s, w)
    requires PathLinked(mem, q, null, RootOf(r, hole), PathSum(r, s, w), w)
    requires PathNodes(r) !! PathNodes(q)
    ensures PathLinked(mem, Append(r, q), null, hole, s, w)
  {
    if r.Step? {
      AppendLinked(mem, r.up, q, r.node, mem[r.node].summary, w);
      AppendNodes(r.up, q, r.node);
    }
  }

  lemma {:induction false} AppendItems<E>(r: Path<E>, q: Path<E>)
    ensures Before(Append(r, q)) == Before(q) + Before(r)
    ensures After(Append(r, q)) == After(r) + After(q)
  {
    if r.Step? { AppendItems(r.up, q); }
  }

  lemma {:induction false} PlugSum<E>(r: Path<E>, u: Shape<E>, w: E -> int)
    ensures PathSum(r, Sum(u, w), w) == Sum(Plug(r, u), w)
  {
    if r.Step? {
      PlugSum(r.up, Up(r, u), w);
      assert Sum(Up(r, u), w) == Sum(u, w) + w(r.elem) + Sum(r.sib, w);
    }
  }

  /** A shift at the bottom of a path is the same shift at its top. */
  lemma {:induction false} PathSumShift<E>(r: Path<E>, s: int, d: int, w: E -> int)
    ensures PathSum(r, s - d, w) == PathSum(r, s, w) - d
  {
    if r.Step? {
      PathSumShift(r.up, s + w(r.elem) + Sum(r.sib, w), d, w);
      assert s - d + w(r.elem) + Sum(r.sib, w) == s + w(r.elem) + Sum(r.sib, w) - d;
    }
  }

  lemma {:induction false} FitsAppend<E>(r: Path<E>, q1: Path<E>, q2: Path<E>, h: nat, red: bool)
    requires Fits(Append(r, q1), h, red)
    requires q1.Step? && q2.Step? && q1.up == q2.up && q1.sib == q2.sib && q1.red == q2.red
    ensures Fits(Append(r, q2), h, red)
  {
    if r.Step? { FitsAppend(r.up, q1, q2, if r.red then h else h + 1, r.red); }
  }

  // ----- Trading places with the in-order predecessor

  /** `t.node` has two children and counts for nothing; `u`, at the end of the right spine `r` of
      its left subtree, holds its predecessor, which no longer counts on that spine. */
  ghost predicate Ready<E>(mem: Mem<E>, root: Node?<E>, p: Path<E>, t: Shape<E>, r: Path<E>, u: Shape<E>, w: E -> int) {
    && t.Bin? && t.left.Bin? && t.right.Bin? && u.Bin? && u.right.Leaf? && Plug(r, u) == t.left
    && t.node in mem && u.node in mem && t.node != u.node
    && mem[t.node] == Cell(t.left.node, t.right.node, Above(p, null), t.red, Sum(t.left, w) + Sum(t.right, w), t.elem)
    && mem[u.node] == Cell(Root(u.left), null, Above(r, t.node), u.red, Sum(u, w), u.elem)
    && Linked(mem, u.left, u.node, w) && Linked(mem, t.right, t.node, w)
    && PathLinked(mem, r, t.node, u.node, Sum(u.left, w), w)
    && PathLinked(mem, p, null, t.node, Sum(t.left, w) + Sum(t.right, w), w)
    && Parted(Nodes(u.left), PathNodes(r), Nodes(t.right), PathNodes(p), t.node, u.node)
    && mem.Keys == Nodes(u.left) + PathNodes(r) + Nodes(t.right) + PathNodes(p) + {t.node, u.node}
    && root == RootOf(p, t.node)
  }

  ghost predicate Parted<E>(a: set<Node<E>>, b: set<Node<E>>, c: set<Node<E>>, d: set<Node<E>>, m: Node<E>,
          n: Node<E>) {
    && a !! b && a !! c && a !! d && b !! c && b !! d && c !! d
    && m !in a && m !in b && m !in c && m !in d
    && n !in a && n !in b && n !in c && n !in d
  }

  /** The two nodes trade colour, sum and links, and the spine between them follows. */
  ghost function Traded<E>(mem: Mem<E>, p: Path<E>, t: Shape<E>, r: Path<E>, u: Shape<E>): Mem<E>
    requires t.Bin? && t.left.Bin? && t.right.Bin? && u.Bin? && t.node in mem && u.node in mem
  {
    map x | x in mem ::
      if x == t.node then Cell(Root(u.left), null, Above(r, u.node), u.red, mem[u.node].summary, mem[x].elem)
      else if x == u.node then
        var left := if r.Top? then t.node else t.left.node;
        Cell(left, t.right.node, Above(p, null), t.red, mem[t.node].summary, mem[x].elem)
      else if r.Step? && x in PathNodes(r) then Rebased(mem[x], x, r, u.node, t.node)
      else mem[x]
  }

  ghost function Reparented<E>(mem: Mem<E>, n: Node?<E>, parent: Node?<E>): Mem<E> {
    if n != null && n in mem then mem[n := mem[n].(parent := parent)] else mem
  }

  /** Their other neighbours follow. */
  ghost function Redirected<E>(mem: Mem<E>, p: Path<E>, t: Shape<E>, u: Shape<E>): Mem<E>
    requires t.Bin? && u.Bin?
  {
    var m := Reparented(Reparented(mem, Root(t.right), u.node), Root(u.left), t.node);
    if p.Step? && p.node in m then m[p.node := m[p.node].WithChild(p.side, u.node)] else m
  }

  ghost function NewPath<E>(p: Path<E>, t: Shape<E>, r: Path<E>, u: Shape<E>): Path<E>
    requires t.Bin? && u.Bin?
  {
    Append(r, Step(p, u.node, t.red, u.elem, false, t.right))
  }

  lemma TradeCells<E>(mem: Mem<E>, root: Node?<E>, p: Path<E>, t: Shape<E>, r: Path<E>, u: Shape<E>, w: E -> int)
    requires Ready(mem, root, p, t, r, u, w)
    ensures var m1 := Traded(mem, p, t, r, u);
      && m1.Keys == mem.Keys
      && m1[t.node] == Cell(Root(u.left), null, Above(r, u.node), u.red, Sum(u, w), t.elem)
      && m1[u.node] ==
        Cell(if r.Top? then t.node else t.left.node, t.right.node, Above(p, null), t.red,
             Sum(t.left, w) + Sum(t.right, w), u.elem)
      && (forall x <- PathNodes(r) :: x in m1 && m1[x] == Rebased(mem[x], x, r, u.node, t.node))
      && Agree(mem, m1, Nodes(u.left)) && Agree(mem, m1, Nodes(t.right)) && Agree(mem, m1, PathNodes(p))
  {
    hide Linked, PathLinked, Nodes, Sum, Rebased, Above, RootOf, Plug;
  }

  /** Two subtrees and a path, apart from each other, wait to be hung below `pa`, `pc` and above `hole`. */
  ghost predicate Loose<E>(mem: Mem<E>, a: Shape<E>, pa: Node?<E>, c: Shape<E>, pc: Node?<E>, p: Path<E>,
          hole: Node?<E>, s: int, w: E -> int) {
    && Linked(mem, a, pa, w) && Linked(mem, c, pc, w) && PathLinked(mem, p, null, hole, s, w)
    && Nodes(a) !! Nodes(c) && Nodes(a) !! PathNodes(p) && Nodes(c) !! PathNodes(p)
    && Nodes(a) <= mem.Keys && Nodes(c) <= mem.Keys && PathNodes(p) <= mem.Keys
  }

  lemma LooseSwap<E>(mem: Mem<E>, a: Shape<E>, pa: Node?<E>, c: Shape<E>, pc: Node?<E>, p: Path<E>, hole: Node?<E>,
          s: int, w: E -> int)
    requires Loose(mem, a, pa, c, pc, p, hole, s, w)
    ensures Loose(mem, c, pc, a, pa, p, hole, s, w)
  {
  }

  lemma HangTree<E>(mem: Mem<E>, a: Shape<E>, pa: Node?<E>, pa2: Node?<E>, c: Shape<E>, pc: Node?<E>, p: Path<E>,
          hole: Node?<E>, s: int, w: E -> int)
    requires Loose(mem, a, pa, c, pc, p, hole, s, w)
    ensures var m2 := Reparented(mem, Root(a), pa2);
      Loose(m2, a, pa2, c, pc, p, hole, s, w) && m2.Keys == mem.Keys && Agree(mem, m2, mem.Keys - Nodes(a))
  {
    var m2 := Reparented(mem, Root(a), pa2);
    assert a.Bin? ==> a.node in Nodes(a);
    hide Linked, PathLinked, Nodes, PathNodes;
    Reparent(mem, m2, a, pa, pa2, w);
    LinkedAgree(mem, m2, c, pc, w);
    PathAgree(mem, m2, p, null, hole, s, w);
  }

  lemma HangPath<E>(mem: Mem<E>, a: Shape<E>, pa: Node?<E>, c: Shape<E>, pc: Node?<E>, p: Path<E>, hole: Node?<E>,
          h2: Node?<E>, s: int, w: E -> int)
    requires Loose(mem, a, pa, c, pc, p, hole, s, w)
    ensures var m2 := if p.Step? && p.node in mem then mem[p.node := mem[p.node].WithChild(p.side, h2)] else mem;
      Loose(m2, a, pa, c, pc, p, h2, s, w) && m2.Keys == mem.Keys && Agree(mem, m2, mem.Keys - PathNodes(p))
  {
    var m2 := if p.Step? && p.node in mem then mem[p.node := mem[p.node].WithChild(p.side, h2)] else mem;
    assert p.Step? ==> p.node in PathNodes(p);
    hide Linked, PathLinked, Nodes, PathNodes, Cell.WithChild;
    LinkedAgree(mem, m2, a, pa, w);
    LinkedAgree(mem, m2, c, pc, w);
    PathRehole(mem, m2, p, null, hole, h2, s, w);
  }

  lemma HangAll<E>(m1: Mem<E>, p: Path<E>, t: Shape<E>, u: Shape<E>, s: int, w: E -> int)
    requires t.Bin? && u.Bin? && Loose(m1, t.right, t.node, u.left, u.node, p, t.node, s, w)
    ensures var m2 := Redirected(m1, p, t, u);
      && Loose(m2, u.left, t.node, t.right, u.node, p, u.node, s, w)
      && m2.Keys == m1.Keys && Agree(m1, m2, m1.Keys - Nodes(u.left) - Nodes(t.right) - PathNodes(p))
  {
    var a, c := u.left, t.right;
    var m2 := Reparented(m1, Root(c), u.node);
    var m3 := Reparented(m2, Root(a), t.node);
    hide Loose, Nodes, PathNodes, Reparented, Cell.WithChild, Root;
    HangTree(m1, c, t.node, u.node, a, u.node, p, t.node, s, w);
    LooseSwap(m2, c, u.node, a, u.node, p, t.node, s, w);
    HangTree(m2, a, u.node, t.node, c, u.node, p, t.node, s, w);
    HangPath(m3, a, t.node, c, u.node, p, t.node, u.node, s, w);
  }

  lemma ReadyLoose<E>(mem: Mem<E>, root: Node?<E>, p: Path<E>, t: Shape<E>, r: Path<E>, u: Shape<E>, m1: Mem<E>,
          w: E -> int)
    requires Ready(mem, root, p, t, r, u, w)
    requires m1.Keys == mem.Keys && Agree(mem, m1, Nodes(u.left)) && Agree(mem, m1, Nodes(t.right))
    requires Agree(mem, m1, PathNodes(p))
    ensures Loose(m1, t.right, t.node, u.left, u.node, p, t.node, Sum(t.left, w) + Sum(t.right, w), w)
    ensures PathNodes(r) + {t.node, u.node} <= m1.Keys - Nodes(u.left) - Nodes(t.right) - PathNodes(p)
  {
    hide Linked, PathLinked, Nodes, PathNodes, Sum, Above, RootOf, Plug, Agree;
    LinkedAgree(mem, m1, u.left, u.node, w);
    LinkedAgree(mem, m1, t.right, t.node, w);
    PathAgree(mem, m1, p, null, t.node, Sum(t.left, w) + Sum(t.right, w), w);
  }

  lemma RedirectCells<E>(mem: Mem<E>, root: Node?<E>, p: Path<E>, t: Shape<E>, r: Path<E>, u: Shape<E>, m1: Mem<E>,
          w: E -> int)
    requires Ready(mem, root, p, t, r, u, w)
    requires m1.Keys == mem.Keys && Agree(mem, m1, Nodes(u.left)) && Agree(mem, m1, Nodes(t.right))
    requires Agree(mem, m1, PathNodes(p))
    ensures var m2 := Redirected(m1, p, t, u);
      && m2.Keys == mem.Keys && Agree(m1, m2, PathNodes(r) + {t.node, u.node})
      && Linked(m2, u.left, t.node, w) && Linked(m2, t.right, u.node, w)
      && PathLinked(m2, p, null, u.node, Sum(t.left, w) + Sum(t.right, w), w)
  {
    hide Linked, PathLinked, Nodes, PathNodes, Sum, Redirected;
    ReadyLoose(mem, root, p, t, r, u, m1, w);
    hide Ready;
    HangAll(m1, p, t, u, Sum(t.left, w) + Sum(t.right, w), w);
  }

  lemma TradeSpine<E>(mem: Mem<E>, root: Node?<E>, p: Path<E>, t: Shape<E>, r: Path<E>, u: Shape<E>, m2: Mem<E>,
          w: E -> int)
    requires Ready(mem, root, p, t, r, u, w)
    requires m2.Keys == mem.Keys && Linked(m2, t.right, u.node, w)
    requires PathLinked(m2, p, null, u.node, Sum(t.left, w) + Sum(t.right, w), w)
    requires forall x <- PathNodes(r) :: x in m2 && m2[x] == Rebased(mem[x], x, r, u.node, t.node)
    requires m2[u.node] ==
      Cell(if r.Top? then t.node else t.left.node, t.right.node, Above(p, null), t.red,
           Sum(t.left, w) + Sum(t.right, w), u.elem)
    ensures PathLinked(m2, NewPath(p, t, r, u), null, t.node, Sum(u.left, w), w)
  {
    var q := Step(p, u.node, t.red, u.elem, false, t.right);
    RootSpine(r, u, t.node);
    PlugSum(r, u, w);
    PathSumShift(r, Sum(u, w), w(u.elem), w);
    assert Sum(u, w) == Sum(u.left, w) + w(u.elem);
    assert PathNodes(q) == PathNodes(p) + {u.node} + Nodes(t.right);
    hide Linked, PathLinked, Nodes, PathNodes, Sum, Rebased, RootOf, Plug, PathSum, Append;
    Rebase(mem, m2, r, t.node, u.node, u.node, t.node, Sum(u.left, w), w);
    Extend(m2, q, null, RootOf(r, t.node), PathSum(r, Sum(u.left, w), w), w);
    AppendLinked(m2, r, q, t.node, Sum(u.left, w), w);
  }

  lemma TradeDetached<E>(mem: Mem<E>, root: Node?<E>, p: Path<E>, t: Shape<E>, r: Path<E>, u: Shape<E>, w: E -> int)
    requires Ready(mem, root, p, t, r, u, w)
    ensures var m := Redirected(Traded(mem, p, t, r, u), p, t, u);
      Detached(m, RootOf(p, u.node), NewPath(p, t, r, u), t.node, u.red, u.left, w)
  {
    hide Linked, PathLinked, Nodes, Sum, Rebased, Redirected, Traded, Plug, NewPath;
    TradeCells(mem, root, p, t, r, u, w);
    var m1 := Traded(mem, p, t, r, u);
    RedirectCells(mem, root, p, t, r, u, m1, w);
    TradeSpine(mem, root, p, t, r, u, Redirected(m1, p, t, u), w);
    NewPathNodes(p, t, r, u);
    hide PathNodes;
  }

  lemma NewPathNodes<E>(p: Path<E>, t: Shape<E>, r: Path<E>, u: Shape<E>)
    requires t.Bin? && u.Bin?
    ensures PathNodes(NewPath(p, t, r, u)) == PathNodes(r) + PathNodes(p) + {u.node} + Nodes(t.right)
    ensures RootOf(NewPath(p, t, r, u), t.node) == RootOf(p, u.node)
    ensures Above(NewPath(p, t, r, u), null) == Above(r, u.node)
  {
    AppendNodes(r, Step(p, u.node, t.red, u.elem, false, t.right), t.node);
  }

  lemma {:induction false} RootSpine<E>(r: Path<E>, u: Shape<E>, n: Node<E>)
    requires u.Bin?
    ensures RootOf(r, n) == if r.Top? then n else Root(Plug(r, u))
    ensures r.Step? ==> TopOf(r) == Root(Plug(r, u))
  {
    if r.Step? { RootSpine(r.up, Up(r, u), r.node); }
  }

  ghost predicate Spine<E>(r: Path<E>) {
    r.Step? ==> r.side && Spine(r.up)
  }

  lemma MakeReady<E>(mem: Mem<E>, root: Node?<E>, p: Path<E>, t: Shape<E>, r: Path<E>, u: Shape<E>, w: E -> int)
    requires Emptied(mem, root, p, t, w) && t.left.Bin? && t.right.Bin?
    requires Hung(mem, t.node, r, u, 0, w) && Plug(r, u) == t.left && Nodes(u) + PathNodes(r) == Nodes(t.left)
    requires u.Bin? && u.right.Leaf?
    ensures Ready(SubtractMem(mem, r, w(u.elem)), root, p, t, r, u, w)
  {
    hide Linked, PathLinked, Nodes, PathNodes, Sum, SubtractMem, RootOf, Plug, Above, Hung;
    PredReads(mem, t.node, r, u, w);
    MakeParted(Nodes(u.left), PathNodes(r), Nodes(t.right), PathNodes(p), t.node, u.node, Nodes(t.left), mem.Keys);
    var sp := Sum(t.left, w) + Sum(t.right, w);
    SubtractKeeps(mem, p, t, r, u, Sum(u, w), sp, w(u.elem), w);
    hide Parted;
  }

  lemma PredReads<E>(mem: Mem<E>, base: Node?<E>, r: Path<E>, u: Shape<E>, w: E -> int)
    requires Hung(mem, base, r, u, 0, w) && u.Bin? && u.right.Leaf?
    ensures u.node in mem && mem[u.node] == Cell(Root(u.left), null, Above(r, base), u.red, Sum(u, w), u.elem)
    ensures Linked(mem, u.left, u.node, w) && PathLinked(mem, r, base, u.node, Sum(u, w), w)
    ensures Nodes(u) == Nodes(u.left) + {u.node} && u.node !in Nodes(u.left)
    ensures u.node !in PathNodes(r) && Nodes(u.left) !! PathNodes(r)
    ensures Sum(u, w) - w(u.elem) == Sum(u.left, w)
  {
  }

  lemma SubtractKeeps<E>(mem: Mem<E>, p: Path<E>, t: Shape<E>, r: Path<E>, u: Shape<E>, su: int, sp: int, d: int,
          w: E -> int)
    requires t.Bin? && u.Bin? && t.node in mem && u.node in mem
    requires PathLinked(mem, r, t.node, u.node, su, w) && PathLinked(mem, p, null, t.node, sp, w)
    requires Linked(mem, u.left, u.node, w) && Linked(mem, t.right, t.node, w)
    requires Parted(Nodes(u.left), PathNodes(r), Nodes(t.right), PathNodes(p), t.node, u.node)
    requires Nodes(u.left) <= mem.Keys && Nodes(t.right) <= mem.Keys && PathNodes(p) <= mem.Keys
    ensures var m1 := SubtractMem(mem, r, d);
      && m1.Keys == mem.Keys && m1[t.node] == mem[t.node] && m1[u.node] == mem[u.node]
      && PathLinked(m1, r, t.node, u.node, su - d, w) && PathLinked(m1, p, null, t.node, sp, w)
      && Linked(m1, u.left, u.node, w) && Linked(m1, t.right, t.node, w)
  {
    hide Linked, PathLinked, Nodes, PathNodes, SubtractMem;
    var m1 := SubtractMem(mem, r, d);
    SubtractPath(mem, r, t.node, u.node, su, d, w);
    var rest := mem.Keys - PathNodes(r);
    assert Nodes(u.left) <= rest && Nodes(t.right) <= rest && PathNodes(p) <= rest && t.node in rest && u.node in rest;
    hide Parted;
    LinkedAgree(mem, m1, u.left, u.node, w);
    LinkedAgree(mem, m1, t.right, t.node, w);
    PathAgree(mem, m1, p, null, t.node, sp, w);
  }

  lemma MakeParted<E>(a: set<Node<E>>, b: set<Node<E>>, c: set<Node<E>>, d: set<Node<E>>, m: Node<E>, n: Node<E>,
          l: set<Node<E>>, keys: set<Node<E>>)
    requires l == a + {n} + b && n !in a && n !in b && a !! b
    requires m !in l && m !in c && m !in d && l !! c && l !! d && c !! d
    requires keys == l + {m} + c + d
    ensures Parted(a, b, c, d, m, n) && keys == a + b + c + d + {m, n} && m != n
    ensures a <= keys - b && c <= keys - b && d <= keys - b && m in keys - b && n in keys - b
  {
  }

  /** What trading places reads: the two nodes and the spine between them. */
  ghost predicate TradeReady<E>(mem: Mem<E>, p: Path<E>, t: Shape<E>, r: Path<E>, u: Shape<E>) {
    && t.Bin? && t.left.Bin? && t.right.Bin? && u.Bin?
    && t.node in mem && u.node in mem && t.node != u.node
    && mem[t.node].left == t.left.node && mem[t.node].right == t.right.node && mem[t.node].parent == Above(p, null)
    && mem[t.node].red == t.red
    && mem[u.node].left == Root(u.left) && mem[u.node].right == null && mem[u.node].parent == Above(r, t.node)
    && mem[u.node].red == u.red
    && t.node !in PathNodes(r) && u.node !in PathNodes(r) && PathNodes(r) <= mem.Keys
    && (r.Step? ==> r.side && r.node in PathNodes(r) && TopOf(r) == t.left.node && t.left.node in PathNodes(r))
  }

  lemma ReadyTrade<E>(mem: Mem<E>, root: Node?<E>, p: Path<E>, t: Shape<E>, r: Path<E>, u: Shape<E>, w: E -> int)
    requires Ready(mem, root, p, t, r, u, w) && Spine(r)
    ensures TradeReady(mem, p, t, r, u)
  {
    RootSpine(r, u, t.node);
    if r.Step? { TopIn(r); }
    hide Linked, PathLinked, Nodes, Sum;
  }

  ghost predicate RedirectReady<E>(mem: Mem<E>, p: Path<E>, t: Shape<E>, u: Shape<E>) {
    && t.Bin? && t.right.Bin? && u.Bin? && t.node in mem && u.node in mem && t.node != u.node
    && t.right.node in mem && (u.left.Bin? ==> u.left.node in mem)
    && mem[u.node].right == t.right.node && mem[t.node].left == Root(u.left)
    && {t.right.node, Root(u.left)} !! {t.node, u.node}
    && (p.Step? ==> p.node !in {t.right.node, Root(u.left), t.node, u.node})
    && (p.Step? ==> p.node in mem && (mem[p.node].right == t.node <==> p.side))
  }

  lemma ReadyRedirect<E>(mem: Mem<E>, root: Node?<E>, p: Path<E>, t: Shape<E>, r: Path<E>, u: Shape<E>, w: E -> int)
    requires Ready(mem, root, p, t, r, u, w)
    ensures RedirectReady(Traded(mem, p, t, r, u), p, t, u)
  {
  }

  // ----- What is left, as a sequence and as a balanced shape

  lemma {:induction false} PlugAppend<E>(r: Path<E>, p: Path<E>, t: Shape<E>, u: Shape<E>)
    requires t.Bin? && Plug(r, u) == t.left
    ensures Plug(Append(r, Down(p, t, false)), u) == Plug(p, t)
  {
    PlugOver(r, Down(p, t, false), u);
    PlugDown(p, t, false);
  }

  lemma {:induction false} PlugOver<E>(r: Path<E>, q: Path<E>, u: Shape<E>)
    ensures Plug(Append(r, q), u) == Plug(q, Plug(r, u))
  {
    if r.Step? { PlugOver(r.up, q, Up(r, u)); }
  }

  lemma TradeBalanced<E>(p: Path<E>, t: Shape<E>, r: Path<E>, u: Shape<E>)
    requires t.Bin? && u.Bin? && Plug(r, u) == t.left && RedBlack(Plug(p, t))
    ensures Fits(NewPath(p, t, r, u), BlackHeight(u), u.red) && Balanced(u, BlackHeight(u))
  {
    PlugAppend(r, p, t, u);
    UnplugBalanced(Append(r, Down(p, t, false)), u);
    FitsAppend(r, Down(p, t, false), Step(p, u.node, t.red, u.elem, false, t.right), BlackHeight(u), u.red);
  }

  lemma {:induction false} SpineAfter<E>(r: Path<E>)
    requires Spine(r)
    ensures After(r) == []
  {
    if r.Step? { SpineAfter(r.up); }
  }

  lemma TradeItems<E>(p: Path<E>, t: Shape<E>, r: Path<E>, u: Shape<E>)
    requires t.Bin? && u.Bin? && u.right.Leaf? && Plug(r, u) == t.left && Spine(r)
    ensures Whole(NewPath(p, t, r, u), u.left) == Before(p) + Items(t.left) + Items(t.right) + After(p)
  {
    var q := Step(p, u.node, t.red, u.elem, false, t.right);
    AppendItems(r, q);
    SpineAfter(r);
    PlugItems(r, u);
    LowItems(p, u, t.right, q);
    var b, br, il, x, ir, e := Before(p), Before(r), Items(u.left), [Item(u.node, u.elem)], Items(t.right), After(p);
    hide *;
    Regroup(b, br, il, x, ir, e);
  }

  lemma Regroup<T>(b: seq<T>, br: seq<T>, il: seq<T>, x: seq<T>, ir: seq<T>, e: seq<T>)
    ensures (b + br) + il + ([] + (x + ir + e)) == b + (br + (il + x) + []) + ir + e
  {
  }

  lemma LowItems<E>(p: Path<E>, u: Shape<E>, c: Shape<E>, q: Path<E>)
    requires u.Bin? && u.right.Leaf? && q.Step? && q.up == p && !q.side && q.node == u.node && q.elem == u.elem
    requires q.sib == c
    ensures Items(u) == Items(u.left) + [Item(u.node, u.elem)]
    ensures Before(q) == Before(p) && After(q) == [Item(u.node, u.elem)] + Items(c) + After(p)
  {
  }

  /** Filling the hole that the detached node leaves with its only subtree. */
  ghost function Filled<E>(mem: Mem<E>, p: Path<E>, node: Node<E>, c: Shape<E>): Mem<E> {
    var m := Reparented(mem, Root(c), Above(p, null));
    (if p.Step? && p.node in m then m[p.node := m[p.node].WithChild(p.side, Root(c))] else m) - {node}
  }

  lemma FillAt<E>(mem: Mem<E>, root: Node?<E>, p: Path<E>, node: Node<E>, red: bool, c: Shape<E>, w: E -> int)
    requires Detached(mem, root, p, node, red, c, w)
    ensures At(Filled(mem, p, node, c), RootOf(p, Root(c)), p, c, 0, w)
  {
    var a: Shape<E> := Leaf;
    var m1 := Reparented(mem, Root(c), Above(p, null));
    var m2 := if p.Step? && p.node in m1 then m1[p.node := m1[p.node].WithChild(p.side, Root(c))] else m1;
    assert Loose(mem, c, node, a, null, p, node, Sum(c, w), w);
    HangTree(mem, c, node, Above(p, null), a, null, p, node, Sum(c, w), w);
    HangPath(m1, c, Above(p, null), a, null, p, node, Root(c), Sum(c, w), w);
    var m3 := m2 - {node};
    hide Linked, PathLinked, Nodes, PathNodes, Sum, Reparented;
    LinkedAgree(m2, m3, c, Above(p, null), w);
    PathAgree(m2, m3, p, null, Root(c), Sum(c, w), w);
  }
}
