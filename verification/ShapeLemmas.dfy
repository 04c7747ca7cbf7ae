/** Moving the focus of a zipper, and what recolouring and rotating at the focus keep. */
module ShapeLemmas {
  import opened Shapes

  // ----- Framing

  lemma {:induction false} LinkedAgree<E>(m1: Mem<E>, m2: Mem<E>, t: Shape<E>, parent: Node?<E>, w: E -> int)
    requires Linked(m1, t, parent, w) && Agree(m1, m2, Nodes(t))
    ensures Linked(m2, t, parent, w)
  {
    if t.Bin? {
      LinkedAgree(m1, m2, t.left, t.node, w);
      LinkedAgree(m1, m2, t.right, t.node, w);
    }
  }

  lemma {:induction false} PathAgree<E>(m1: Mem<E>, m2: Mem<E>, p: Path<E>, base: Node?<E>, hole: Node?<E>, s: int,
          w: E -> int)
    requires PathLinked(m1, p, base, hole, s, w) && Agree(m1, m2, PathNodes(p))
    ensures PathLinked(m2, p, base, hole, s, w)
  {
    if p.Step? {
      LinkedAgree(m1, m2, p.sib, p.node, w);
      PathAgree(m1, m2, p.up, base, p.node, m1[p.node].summary, w);
    }
  }

  /** Only the node at the hole's edge points into the hole. */
  lemma PathRehole<E>(m1: Mem<E>, m2: Mem<E>, p: Path<E>, base: Node?<E>, hole1: Node?<E>, hole2: Node?<E>, s: int,
          w: E -> int)
    requires PathLinked(m1, p, base, hole1, s, w)
    requires Agree(m1, m2, PathNodes(p) - if p.Step? then {p.node} else {})
    requires p.Step? ==> p.node in m2 && m2[p.node] == m1[p.node].WithChild(p.side, hole2)
    ensures PathLinked(m2, p, base, hole2, s, w)
  {
    if p.Step? {
      LinkedAgree(m1, m2, p.sib, p.node, w);
      PathAgree(m1, m2, p.up, base, p.node, m1[p.node].summary, w);
    }
  }

  lemma Reparent<E>(m1: Mem<E>, m2: Mem<E>, t: Shape<E>, p1: Node?<E>, p2: Node?<E>, w: E -> int)
    requires Linked(m1, t, p1, w)
    requires Agree(m1, m2, Nodes(t) - if t.Bin? then {t.node} else {})
    requires t.Bin? ==> t.node in m2 && m2[t.node] == m1[t.node].(parent := p2)
    ensures Linked(m2, t, p2, w)
  {
    if t.Bin? {
      LinkedAgree(m1, m2, t.left, t.node, w);
      LinkedAgree(m1, m2, t.right, t.node, w);
    }
  }

  // ----- Taking a shape apart and putting it together

  lemma Kids<E>(mem: Mem<E>, t: Shape<E>, side: bool, parent: Node?<E>, w: E -> int)
    requires Linked(mem, t, parent, w) && t.Bin?
    ensures Nodes(t) == Nodes(t.Kid(side)) + {t.node} + Nodes(t.Kid(!side))
    ensures t.node !in Nodes(t.Kid(side)) && t.node !in Nodes(t.Kid(!side))
    ensures Nodes(t.Kid(side)) !! Nodes(t.Kid(!side))
    ensures t.node in mem && mem[t.node].parent == parent && mem[t.node].red == t.red && mem[t.node].elem == t.elem
    ensures mem[t.node].Child(side) == Root(t.Kid(side)) && mem[t.node].Child(!side) == Root(t.Kid(!side))
    ensures mem[t.node].summary == Sum(t, w) == Sum(t.Kid(side), w) + w(t.elem) + Sum(t.Kid(!side), w)
    ensures Linked(mem, t.Kid(side), t.node, w) && Linked(mem, t.Kid(!side), t.node, w)
    ensures t.Kid(side).Bin? ==> t.Kid(side).node in Nodes(t.Kid(side)) && t.Kid(side).node in mem
    ensures t.Kid(!side).Bin? ==> t.Kid(!side).node in Nodes(t.Kid(!side)) && t.Kid(!side).node in mem
  {
  }

  lemma Join<E>(mem: Mem<E>, side: bool, inner: Shape<E>, n: Node<E>, red: bool, elem: E, outer: Shape<E>,
          parent: Node?<E>, w: E -> int)
    requires n in mem && Linked(mem, inner, n, w) && Linked(mem, outer, n, w)
    requires n !in Nodes(inner) && n !in Nodes(outer) && Nodes(inner) !! Nodes(outer)
    requires mem[n].parent == parent && mem[n].Child(side) == Root(inner) && mem[n].Child(!side) == Root(outer)
    requires mem[n].red == red && mem[n].elem == elem && mem[n].summary == Sum(inner, w) + w(elem) + Sum(outer, w)
    ensures var t := Mk(side, inner, n, red, elem, outer);
      Linked(mem, t, parent, w) && Nodes(t) == Nodes(inner) + {n} + Nodes(outer)
      && Sum(t, w) == Sum(inner, w) + w(elem) + Sum(outer, w)
  {
  }

  lemma Extend<E>(mem: Mem<E>, p: Path<E>, base: Node?<E>, hole: Node?<E>, s: int, w: E -> int)
    requires p.Step? && p.node in mem
    requires mem[p.node].parent == Above(p.up, base) && mem[p.node].Child(p.side) == hole
    requires mem[p.node].Child(!p.side) == Root(p.sib)
    requires mem[p.node].red == p.red && mem[p.node].elem == p.elem
    requires mem[p.node].summary == s + w(p.elem) + Sum(p.sib, w)
    requires p.node !in Nodes(p.sib) && p.node !in PathNodes(p.up) && Nodes(p.sib) !! PathNodes(p.up)
    requires Linked(mem, p.sib, p.node, w) && PathLinked(mem, p.up, base, p.node, mem[p.node].summary, w)
    ensures PathLinked(mem, p, base, hole, s, w)
    ensures PathNodes(p) == PathNodes(p.up) + {p.node} + Nodes(p.sib)
  {
  }

  // ----- Moving the focus

  ghost function Down<E>(p: Path<E>, t: Shape<E>, side: bool): (q: Path<E>)
    requires t.Bin?
    ensures q.Step? && q.node == t.node && q.side == side && q.up == p
  {
    Step(p, t.node, t.red, t.elem, side, t.Kid(!side))
  }

  ghost function Up<E>(p: Path<E>, t: Shape<E>): (u: Shape<E>)
    requires p.Step?
    ensures u.Bin?
  {
    Mk(p.side, t, p.node, p.red, p.elem, p.sib)
  }

  /** Going down with a pending change `d` of the sums: the node left behind receives it. */
  lemma HungDescend<E>(mem: Mem<E>, base: Node?<E>, p: Path<E>, t: Shape<E>, d: int, side: bool, w: E -> int)
    requires Hung(mem, base, p, t, d, w) && t.Bin?
    ensures t.node in mem
    ensures var m := mem[t.node := mem[t.node].(summary := mem[t.node].summary + d)];
      Hung(m, base, Down(p, t, side), t.Kid(side), d, w)
    ensures Nodes(t.Kid(side)) + PathNodes(Down(p, t, side)) == Nodes(t) + PathNodes(p)
  {
    hide Linked, PathLinked, Nodes, PathNodes, Sum;
    Kids(mem, t, side, Above(p, base), w);
    var k, o, n, q := t.Kid(side), t.Kid(!side), t.node, Down(p, t, side);
    var m2 := mem[n := mem[n].(summary := mem[n].summary + d)];
    assert m2.Keys == mem.Keys;
    assert forall x <- mem.Keys :: x != n ==> m2[x] == mem[x];
    assert m2[n].Child(side) == Root(k) && m2[n].Child(!side) == Root(o);
    hide Cell.Child, Shape.Kid;
    LinkedAgree(mem, m2, k, n, w);
    LinkedAgree(mem, m2, o, n, w);
    PathAgree(mem, m2, p, base, n, Sum(t, w) + d, w);
    Extend(m2, q, base, Root(k), Sum(k, w) + d, w);
  }

  lemma HungDown<E>(mem: Mem<E>, base: Node?<E>, p: Path<E>, t: Shape<E>, side: bool, w: E -> int)
    requires Hung(mem, base, p, t, 0, w) && t.Bin?
    ensures Hung(mem, base, Down(p, t, side), t.Kid(side), 0, w)
    ensures Nodes(t.Kid(side)) + PathNodes(Down(p, t, side)) == Nodes(t) + PathNodes(p)
  {
  }

  lemma Descend<E>(mem: Mem<E>, root: Node?<E>, p: Path<E>, t: Shape<E>, d: int, side: bool, w: E -> int)
    requires At(mem, root, p, t, d, w) && t.Bin?
    ensures t.node in mem
    ensures var m := mem[t.node := mem[t.node].(summary := mem[t.node].summary + d)];
      At(m, root, Down(p, t, side), t.Kid(side), d, w)
  {
    HungDescend(mem, null, p, t, d, side, w);
    var m2 := mem[t.node := mem[t.node].(summary := mem[t.node].summary + d)];
    assert m2.Keys == mem.Keys;
    hide Hung, Nodes, PathNodes;
  }

  lemma MoveDown<E>(mem: Mem<E>, root: Node?<E>, p: Path<E>, t: Shape<E>, side: bool, w: E -> int)
    requires At(mem, root, p, t, 0, w) && t.Bin?
    ensures At(mem, root, Down(p, t, side), t.Kid(side), 0, w)
  {
    HungDown(mem, null, p, t, side, w);
    hide Hung, Nodes, PathNodes;
  }

  lemma MoveUp<E>(mem: Mem<E>, root: Node?<E>, p: Path<E>, t: Shape<E>, w: E -> int)
    requires At(mem, root, p, t, 0, w) && p.Step?
    ensures At(mem, root, p.up, Up(p, t), 0, w)
  {
    hide Linked, Nodes, Sum;
    Join(mem, p.side, t, p.node, p.red, p.elem, p.sib, Above(p.up, null), w);
  }

  /** Any decomposition of a whole tree is a focus of it, and any focus gives back the whole. */
  lemma {:induction false} Unplug<E>(mem: Mem<E>, root: Node?<E>, p: Path<E>, t: Shape<E>, w: E -> int)
    requires At(mem, root, Top, Plug(p, t), 0, w)
    ensures At(mem, root, p, t, 0, w)
  {
    if p.Step? {
      Unplug(mem, root, p.up, Up(p, t), w);
      MoveDown(mem, root, p.up, Up(p, t), p.side, w);
    }
  }

  lemma {:induction false} Replug<E>(mem: Mem<E>, root: Node?<E>, p: Path<E>, t: Shape<E>, w: E -> int)
    requires At(mem, root, p, t, 0, w)
    ensures At(mem, root, Top, Plug(p, t), 0, w)
  {
    if p.Step? {
      MoveUp(mem, root, p, t, w);
      Replug(mem, root, p.up, Up(p, t), w);
    }
  }

  lemma {:induction false} PlugItems<E>(p: Path<E>, t: Shape<E>)
    ensures Items(Plug(p, t)) == Whole(p, t)
  {
    if p.Step? {
      PlugItems(p.up, Up(p, t));
      WholeUp(p, t);
    }
  }

  lemma PlugDown<E>(p: Path<E>, t: Shape<E>, side: bool)
    requires t.Bin?
    ensures Plug(Down(p, t, side), t.Kid(side)) == Plug(p, t)
  {
  }

  lemma WholeUp<E>(p: Path<E>, t: Shape<E>)
    requires p.Step?
    ensures Whole(p.up, Up(p, t)) == Whole(p, t)
  {
  }

  lemma WholeDown<E>(p: Path<E>, t: Shape<E>, side: bool)
    requires t.Bin?
    ensures Whole(Down(p, t, side), t.Kid(side)) == Whole(p, t)
  {
  }

  // ----- Recolouring and rotating at the focus

  ghost function Paint<E>(t: Shape<E>, red: bool): (r: Shape<E>)
    requires t.Bin?
    ensures r.Bin? && r.red == red
  {
    t.(red := red)
  }

  lemma PaintAt<E>(mem: Mem<E>, root: Node?<E>, p: Path<E>, t: Shape<E>, red: bool, w: E -> int)
    requires At(mem, root, p, t, 0, w) && t.Bin?
    ensures t.node in mem && At(mem[t.node := mem[t.node].(red := red)], root, p, Paint(t, red), 0, w)
    ensures Items(Paint(t, red)) == Items(t)
  {
    Kids(mem, t, true, Above(p, null), w);
    assert Paint(t, red) == Mk(true, t.right, t.node, red, t.elem, t.left);
    hide Linked, PathLinked, Nodes, PathNodes, Sum, Mk;
    var n := t.node;
    var m2 := mem[n := mem[n].(red := red)];
    assert m2.Keys == mem.Keys;
    LinkedAgree(mem, m2, t.left, n, w);
    LinkedAgree(mem, m2, t.right, n, w);
    PathAgree(mem, m2, p, null, n, Sum(t, w), w);
    Join(m2, true, t.right, n, red, t.elem, t.left, Above(p, null), w);
  }

  ghost function Rotated<E>(t: Shape<E>, dir: bool): (r: Shape<E>)
    requires t.Bin? && t.Kid(!dir).Bin?
    ensures r.Bin?
  {
    var k := t.Kid(!dir);
    Mk(dir, Mk(!dir, k.Kid(dir), t.node, t.red, t.elem, t.Kid(dir)), k.node, k.red, k.elem, k.Kid(!dir))
  }

  /** The pointers a rotation rewrites inside the rotated subtree. */
  ghost function RelinkMem<E>(mem: Mem<E>, n: Node<E>, k: Node<E>, mid: Node?<E>, dir: bool): Mem<E>
    requires n in mem && k in mem && (mid == null || mid in mem)
  {
    var m1 := mem[n := mem[n].WithChild(!dir, mid)];
    var m2 := m1[k := m1[k].WithChild(dir, n)];
    var m3 := m2[k := m2[k].(parent := m2[n].parent)];
    var m4 := m3[n := m3[n].(parent := k)];
    if mid == null then m4 else m4[mid := m4[mid].(parent := n)]
  }

  /** The sums of the two rotated nodes, computed from the old ones. */
  ghost function ResumMem<E>(mem: Mem<E>, n: Node<E>, k: Node<E>, mid: Node?<E>): Mem<E>
    requires n in mem && k in mem && (mid == null || mid in mem)
  {
    var s := mem[n].summary - mem[k].summary + if mid == null then 0 else mem[mid].summary;
    mem[k := mem[k].(summary := mem[n].summary)][n := mem[n].(summary := s)]
  }

  ghost function RotateMem<E>(mem: Mem<E>, t: Shape<E>, dir: bool): (m: Mem<E>)
    requires t.Bin? && t.Kid(!dir).Bin? && t.node in mem && t.Kid(!dir).node in mem
    requires t.Kid(!dir).Kid(dir).Bin? ==> t.Kid(!dir).Kid(dir).node in mem
  {
    var n, k, mid := t.node, t.Kid(!dir).node, Root(t.Kid(!dir).Kid(dir));
    ResumMem(RelinkMem(mem, n, k, mid, dir), n, k, mid)
  }

  lemma RotateCells<E>(mem: Mem<E>, n: Node<E>, k: Node<E>, mid: Node?<E>, dir: bool)
    requires n in mem && k in mem && (mid == null || mid in mem) && n != k && n != mid && k != mid
    ensures var m2 := ResumMem(RelinkMem(mem, n, k, mid, dir), n, k, mid);
      && m2.Keys == mem.Keys
      && (forall x <- mem.Keys :: x != n && x != k && x != mid ==> m2[x] == mem[x])
      && m2[n].Child(!dir) == mid && m2[n].Child(dir) == mem[n].Child(dir) && m2[n].parent == k
      && m2[n].red == mem[n].red && m2[n].elem == mem[n].elem
      && m2[n].summary == mem[n].summary - mem[k].summary + (if mid == null then 0 else mem[mid].summary)
      && m2[k].Child(dir) == n && m2[k].Child(!dir) == mem[k].Child(!dir) && m2[k].parent == mem[n].parent
      && m2[k].red == mem[k].red && m2[k].elem == mem[k].elem && m2[k].summary == mem[n].summary
      && (mid != null ==> m2[mid] == mem[mid].(parent := n))
  {
  }

  lemma Apart<E>(mem: Mem<E>, t: Shape<E>, dir: bool, parent: Node?<E>, w: E -> int)
    requires t.Bin? && t.Kid(!dir).Bin? && Linked(mem, t, parent, w)
    ensures t.node in mem && t.Kid(!dir).node in mem && (t.Kid(!dir).Kid(dir).Bin? ==> t.Kid(!dir).Kid(dir).node in mem)
    ensures t.node != t.Kid(!dir).node && t.node != Root(t.Kid(!dir).Kid(dir))
    ensures t.Kid(!dir).node != Root(t.Kid(!dir).Kid(dir))
  {
    Kids(mem, t, dir, parent, w);
    Kids(mem, t.Kid(!dir), dir, t.node, w);
  }

  lemma RotateParts<E>(mem: Mem<E>, t: Shape<E>, dir: bool, parent: Node?<E>, w: E -> int)
    requires t.Bin? && t.Kid(!dir).Bin? && Linked(mem, t, parent, w)
    requires t.node in mem && t.Kid(!dir).node in mem
    requires t.Kid(!dir).Kid(dir).Bin? ==> t.Kid(!dir).Kid(dir).node in mem
    ensures var k := t.Kid(!dir); var m2, m := RotateMem(mem, t, dir), k.Kid(dir);
      && Linked(m2, k.Kid(!dir), k.node, w) && Linked(m2, m, t.node, w) && Linked(m2, t.Kid(dir), t.node, w)
      && t.node in m2 && m2[t.node].Child(!dir) == Root(m) && m2[t.node].Child(dir) == Root(t.Kid(dir))
      && m2[t.node].parent == k.node && m2[t.node].red == t.red && m2[t.node].elem == t.elem
      && m2[t.node].summary == Sum(m, w) + w(t.elem) + Sum(t.Kid(dir), w)
      && k.node in m2 && m2[k.node].Child(dir) == t.node && m2[k.node].Child(!dir) == Root(k.Kid(!dir))
      && m2[k.node].parent == parent && m2[k.node].red == k.red && m2[k.node].elem == k.elem
      && m2[k.node].summary == Sum(t, w)
  {
    hide Linked, Nodes, Sum, Cell.Child;
    var k := t.Kid(!dir);
    var x, m, y := k.Kid(!dir), k.Kid(dir), t.Kid(dir);
    Kids(mem, t, dir, parent, w);
    Kids(mem, k, dir, t.node, w);
    Apart(mem, t, dir, parent, w);
    RotateCells(mem, t.node, t.Kid(!dir).node, Root(t.Kid(!dir).Kid(dir)), dir);
    hide RelinkMem, ResumMem;
    var mem2 := RotateMem(mem, t, dir);
    LinkedAgree(mem, mem2, x, k.node, w);
    LinkedAgree(mem, mem2, y, t.node, w);
    Reparent(mem, mem2, m, k.node, t.node, w);
    SumRoot(mem, m, k.node, w);
  }

  lemma RotateLinked<E>(mem: Mem<E>, t: Shape<E>, dir: bool, parent: Node?<E>, w: E -> int)
    requires t.Bin? && t.Kid(!dir).Bin? && Linked(mem, t, parent, w)
    requires t.node in mem && t.Kid(!dir).node in mem
    requires t.Kid(!dir).Kid(dir).Bin? ==> t.Kid(!dir).Kid(dir).node in mem
    ensures Linked(RotateMem(mem, t, dir), Rotated(t, dir), parent, w)
    ensures Nodes(Rotated(t, dir)) == Nodes(t)
    ensures Sum(Rotated(t, dir), w) == Sum(t, w)
  {
    hide Linked, Nodes, Sum, RotateMem, Mk;
    var k := t.Kid(!dir);
    var x, m, y := k.Kid(!dir), k.Kid(dir), t.Kid(dir);
    Kids(mem, t, dir, parent, w);
    Kids(mem, k, dir, t.node, w);
    RotateParts(mem, t, dir, parent, w);
    var mem2 := RotateMem(mem, t, dir);
    Join(mem2, !dir, m, t.node, t.red, t.elem, y, k.node, w);
    Join(mem2, dir, Mk(!dir, m, t.node, t.red, t.elem, y), k.node, k.red, k.elem, x, parent, w);
  }

  lemma SumRoot<E>(mem: Mem<E>, t: Shape<E>, parent: Node?<E>, w: E -> int)
    requires Linked(mem, t, parent, w)
    ensures t.Bin? ==> t.node in mem && mem[t.node].summary == Sum(t, w)
    ensures t.Leaf? ==> Sum(t, w) == 0
  {
  }

  lemma RotateItems<E>(t: Shape<E>, dir: bool)
    requires t.Bin? && t.Kid(!dir).Bin?
    ensures Items(Rotated(t, dir)) == Items(t)
  {
  }

  /** A rotation also redirects the pointer that led to the subtree. */
  lemma RotateAt<E>(mem: Mem<E>, root: Node?<E>, p: Path<E>, t: Shape<E>, dir: bool, w: E -> int)
    requires At(mem, root, p, t, 0, w) && t.Bin? && t.Kid(!dir).Bin?
    ensures t.node in mem && t.Kid(!dir).node in mem && (t.Kid(!dir).Kid(dir).Bin? ==> t.Kid(!dir).Kid(dir).node in mem)
    ensures p.Step? ==> p.node in mem && p.node !in Nodes(t)
    ensures var k, m1 := t.Kid(!dir).node, RotateMem(mem, t, dir);
      At(if p.Step? then m1[p.node := m1[p.node].WithChild(p.side, k)] else m1, RootOf(p, k), p, Rotated(t, dir), 0, w)
  {
    Kids(mem, t, dir, Above(p, null), w);
    Apart(mem, t, dir, Above(p, null), w);
    assert p.Step? ==> p.node in PathNodes(p);
    hide Linked, PathLinked, Nodes, PathNodes, Sum, RelinkMem, ResumMem, Rotated, Mk, Shape.Kid;
    RotateLinked(mem, t, dir, Above(p, null), w);
    RotateFrame(mem, t, dir, Above(p, null), w);
    var k, m1 := t.Kid(!dir).node, RotateMem(mem, t, dir);
    hide RotateMem;
    PathAgree(mem, m1, p, null, t.node, Sum(t, w), w);
    if p.Step? {
      var m2 := m1[p.node := m1[p.node].WithChild(p.side, k)];
      assert m2.Keys == m1.Keys;
      hide Cell.WithChild;
      LinkedAgree(m1, m2, Rotated(t, dir), Above(p, null), w);
      PathRehole(m1, m2, p, null, t.node, k, Sum(t, w), w);
    } else {
      PathTop(m1, p, k, Sum(t, w), w);
    }
  }

  /** What a rotation reads before it writes. */
  lemma RotateReads<E>(mem: Mem<E>, root: Node?<E>, p: Path<E>, t: Shape<E>, dir: bool, w: E -> int)
    requires At(mem, root, p, t, 0, w) && t.Bin? && t.Kid(!dir).Bin?
    ensures var k := t.Kid(!dir);
      && t.node in mem && mem[t.node].Child(!dir) == k.node && mem[t.node].parent == Above(p, null)
      && k.node in mem && mem[k.node].Child(dir) == Root(k.Kid(dir))
      && RootOf(p, k.node) == (if p.Step? then root else k.node)
      && (p.Step? ==> p.node in mem && p.node != t.node && p.node != k.node && p.node != Root(k.Kid(dir)))
      && (p.Step? ==> (mem[p.node].Child(false) == t.node <==> !p.side))
    ensures var n, k, mid := t.node, t.Kid(!dir).node, t.Kid(!dir).Kid(dir);
      n != k && n != Root(mid) && k != Root(mid) && (mid.Bin? ==> mid.node in mem)
    ensures p.Step? ==> p.node in RotateMem(mem, t, dir) && RotateMem(mem, t, dir)[p.node] == mem[p.node]
  {
    Kids(mem, t, dir, Above(p, null), w);
    Kids(mem, t.Kid(!dir), dir, t.node, w);
    if p.Step? { SideOf(mem, root, p, t, 0, w); }
  }

  lemma PathTop<E>(mem: Mem<E>, p: Path<E>, hole: Node?<E>, s: int, w: E -> int)
    requires p.Top?
    ensures PathLinked(mem, p, null, hole, s, w)
  {
  }

  lemma RotateFrame<E>(mem: Mem<E>, t: Shape<E>, dir: bool, parent: Node?<E>, w: E -> int)
    requires t.Bin? && t.Kid(!dir).Bin? && Linked(mem, t, parent, w)
    requires t.node in mem && t.Kid(!dir).node in mem
    requires t.Kid(!dir).Kid(dir).Bin? ==> t.Kid(!dir).Kid(dir).node in mem
    ensures RotateMem(mem, t, dir).Keys == mem.Keys && Agree(mem, RotateMem(mem, t, dir), mem.Keys - Nodes(t))
    ensures Root(Rotated(t, dir)) == t.Kid(!dir).node
  {
  }

  /** What the fields of the focused node say. */
  lemma NodeReads<E>(mem: Mem<E>, root: Node?<E>, p: Path<E>, t: Shape<E>, d: int, side: bool, w: E -> int)
    requires At(mem, root, p, t, d, w) && t.Bin?
    ensures t.node in mem && mem[t.node].parent == Above(p, null) && mem[t.node].red == t.red
    ensures mem[t.node].elem == t.elem
    ensures mem[t.node].Child(side) == Root(t.Kid(side)) && mem[t.node].summary == Sum(t, w)
    ensures (t.Kid(side).Bin? ==> t.Kid(side).node in mem) && (p.Step? ==> p.node in mem)
  {
  }

  lemma NodesIn<E>(mem: Mem<E>, root: Node?<E>, p: Path<E>, t: Shape<E>, w: E -> int)
    requires At(mem, root, p, t, 0, w)
    ensures t.Bin? ==> t.node in mem
    ensures p.Step? ==> p.node in mem && (p.sib.Bin? ==> p.sib.node in mem) && (p.up.Step? ==> p.up.node in mem)
  {
  }

  /** Which child of its parent a node is can be read off the parent. */
  lemma SideOf<E>(mem: Mem<E>, root: Node?<E>, p: Path<E>, t: Shape<E>, d: int, w: E -> int)
    requires At(mem, root, p, t, d, w) && t.Bin? && p.Step?
    ensures p.node in mem && (mem[p.node].left == t.node <==> !p.side) && (mem[p.node].right == t.node <==> p.side)
  {
  }

  /** Hanging a fresh red leaf in an empty hole settles the change `w(e)` its ancestors already carry. */
  lemma Attach<E>(mem: Mem<E>, root: Node?<E>, p: Path<E>, n: Node<E>, c: Cell<E>, w: E -> int)
    requires At(mem, root, p, Leaf, w(c.elem), w) && p.Step? && n !in mem
    requires c == Cell(null, null, p.node, true, w(c.elem), c.elem)
    ensures p.node in mem && p.node != n
    ensures At(mem[n := c][p.node := mem[p.node].WithChild(p.side, n)], root, p, Bin(Leaf, n, true, c.elem, Leaf), 0, w)
  {
    var m1 := mem[n := c];
    var m2 := m1[p.node := mem[p.node].WithChild(p.side, n)];
    var t: Shape<E> := Bin(Leaf, n, true, c.elem, Leaf);
    assert Nodes(t) == {n} && Sum(t, w) == w(c.elem) && Linked(m2, t, p.node, w);
    hide Linked, PathLinked, PathNodes, Nodes, Sum;
    PathAgree(mem, m1, p, null, null, w(c.elem), w);
    PathRehole(m1, m2, p, null, null, n, w(c.elem), w);
  }

  /** What an upward walk reads at the parent and the grandparent of the focus. */
  lemma ParentReads<E>(mem: Mem<E>, root: Node?<E>, p: Path<E>, t: Shape<E>, w: E -> int)
    requires At(mem, root, p, t, 0, w) && t.Bin? && p.Step?
    ensures p.node in mem && mem[p.node].parent == Above(p.up, null) && mem[p.node].red == p.red
    ensures mem[p.node].Child(true) == t.node <==> p.side
    ensures mem[p.node].Child(!p.side) == Root(p.sib)
    ensures (p.sib.Bin? ==> p.sib.node in mem && mem[p.sib.node].red == p.sib.red)
    ensures p.up.Step? ==> p.up.node in mem && (mem[p.up.node].Child(true) == p.node <==> p.up.side)
    ensures p.up.Step? ==> mem[p.up.node].Child(!p.up.side) == Root(p.up.sib)
    ensures p.up.Step? && p.up.sib.Bin? ==> p.up.sib.node in mem && mem[p.up.sib.node].red == p.up.sib.red
  {
    SideOf(mem, root, p, t, 0, w);
    if p.up.Step? {
      MoveUp(mem, root, p, t, w);
      SideOf(mem, root, p.up, Up(p, t), 0, w);
    }
  }
}
