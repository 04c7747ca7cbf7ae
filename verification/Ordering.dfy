/** Where a monotone test changes its answer along a sequence of items. */
module Ordering {
  import opened Shapes
  import opened ShapeLemmas

  ghost predicate Monotone<E>(its: seq<Item<E>>, f: E -> bool) {
    forall i, j :: 0 <= i < j < |its| && f(its[i].elem) ==> f(its[j].elem)
  }

  /** The index of the first item that passes, or the length if there is none. */
  ghost function Split<E>(its: seq<Item<E>>, f: E -> bool): (k: nat)
    ensures k <= |its|
    ensures forall i | 0 <= i < k :: !f(its[i].elem)
    ensures k < |its| ==> f(its[k].elem)
  {
    if its == [] || f(its[0].elem) then 0 else 1 + Split(its[1..], f)
  }

  /** Everything before `lo` fails and everything from `hi` on passes. */
  ghost predicate Cut<E>(its: seq<Item<E>>, f: E -> bool, lo: nat, hi: nat) {
    && lo <= hi <= |its|
    && (forall i | 0 <= i < lo :: !f(its[i].elem))
    && (forall i | hi <= i < |its| :: f(its[i].elem))
  }

  lemma SplitIs<E>(its: seq<Item<E>>, f: E -> bool, k: nat)
    requires Cut(its, f, k, k)
    ensures Split(its, f) == k
  {
    assert k < |its| ==> f(its[k].elem);
  }

  /** Looking at one item inside the open stretch narrows it from one side. */
  lemma Narrow<E>(its: seq<Item<E>>, f: E -> bool, lo: nat, hi: nat, m: nat)
    requires Monotone(its, f) && Cut(its, f, lo, hi) && lo <= m < hi
    ensures if f(its[m].elem) then Cut(its, f, lo, m) else Cut(its, f, m + 1, hi)
  {
  }

  ghost function NodeAt<E>(its: seq<Item<E>>, k: nat): Node?<E> {
    if k < |its| then its[k].node else null
  }

  /** The stretch of the whole sequence that the focused subtree spells. */
  ghost predicate Stretch<E>(its: seq<Item<E>>, f: E -> bool, p: Path<E>, t: Shape<E>) {
    its == Whole(p, t) && Cut(its, f, |Before(p)|, |Before(p)| + |Items(t)|)
  }

  lemma StretchDown<E>(its: seq<Item<E>>, f: E -> bool, p: Path<E>, t: Shape<E>, side: bool)
    requires Monotone(its, f) && Stretch(its, f, p, t) && t.Bin? && side == !f(t.elem)
    ensures Stretch(its, f, Down(p, t, side), t.Kid(side))
  {
    var q, l, r := Down(p, t, side), Items(t.left), Items(t.right);
    var x, m := [Item(t.node, t.elem)], |Before(p)| + |l|;
    assert Items(t) == l + x + r;
    assert Before(q) == (if side then Before(p) + l + x else Before(p))
      && After(q) == (if side then After(p) else x + r + After(p));
    hide Items, Before, After;
    assert its == Before(p) + (l + x + r) + After(p);
    assert its[m] == x[0];
    assert its == Whole(q, t.Kid(side));
    Narrow(its, f, |Before(p)|, |Before(p)| + |l + x + r|, m);
  }

  // ----- Finding a node in the sequence

  /** The position of a node, or the length if it is absent. */
  ghost function Index<E>(its: seq<Item<E>>, n: Node<E>): (k: nat)
    ensures k <= |its| && (k < |its| ==> its[k].node == n)
    ensures forall i | 0 <= i < k :: its[i].node != n
  {
    if its == [] || its[0].node == n then 0 else 1 + Index(its[1..], n)
  }

  lemma {:induction false} ItemsNodes<E>(t: Shape<E>)
    ensures forall it <- Items(t) :: it.node in Nodes(t)
  {
    if t.Bin? {
      ItemsNodes(t.left);
      ItemsNodes(t.right);
    }
  }

  lemma {:induction false} PathItems<E>(p: Path<E>)
    ensures forall it <- Before(p) :: it.node in PathNodes(p)
    ensures forall it <- After(p) :: it.node in PathNodes(p)
  {
    if p.Step? {
      PathItems(p.up);
      ItemsNodes(p.sib);
    }
  }

  lemma IndexAt<E>(mem: Mem<E>, root: Node?<E>, p: Path<E>, t: Shape<E>, w: E -> int)
    requires At(mem, root, p, t, 0, w) && t.Bin?
    ensures var its, k := Whole(p, t), |Before(p)| + |Items(t.left)|;
      && Index(its, t.node) == k < |its| && its[k] == Item(t.node, t.elem)
      && its[..k] == Before(p) + Items(t.left) && its[k + 1..] == Items(t.right) + After(p)
  {
    hide *;
    FocusItems(mem, root, p, t, w);
    WholeIs(p, t);
    MiddleAt(Before(p), Items(t.left), Item(t.node, t.elem), Items(t.right), After(p));
  }

  lemma WholeIs<E>(p: Path<E>, t: Shape<E>)
    ensures Whole(p, t) == Before(p) + Items(t) + After(p)
  {
  }

  lemma MiddleAt<E>(b: seq<Item<E>>, l: seq<Item<E>>, x: Item<E>, r: seq<Item<E>>, a: seq<Item<E>>)
    requires (forall it <- b :: it.node != x.node) && (forall it <- l :: it.node != x.node)
    ensures var its, k := b + (l + [x] + r) + a, |b| + |l|;
      Index(its, x.node) == k < |its| && its[k] == x && its[..k] == b + l && its[k + 1..] == r + a
  {
  }

  lemma FocusItems<E>(mem: Mem<E>, root: Node?<E>, p: Path<E>, t: Shape<E>, w: E -> int)
    requires At(mem, root, p, t, 0, w) && t.Bin?
    ensures (forall it <- Before(p) :: it.node != t.node) && (forall it <- Items(t.left) :: it.node != t.node)
    ensures Items(t) == Items(t.left) + [Item(t.node, t.elem)] + Items(t.right)
  {
    PathItems(p);
    ItemsNodes(t.left);
    assert t.node !in Nodes(t.left) && t.node !in PathNodes(p);
  }

  ghost function Locate<E>(p: Path<E>, t: Shape<E>, n: Node<E>): (r: (Path<E>, Shape<E>))
    requires n in Nodes(t)
    ensures r.1.Bin? && r.1.node == n && Plug(r.0, r.1) == Plug(p, t)
    decreases t
  {
    if t.node == n then (p, t)
    else if n in Nodes(t.left) then
      PlugDown(p, t, false);
      Locate(Down(p, t, false), t.left, n)
    else
      PlugDown(p, t, true);
      Locate(Down(p, t, true), t.right, n)
  }

  lemma TopNodes<E>(mem: Mem<E>, root: Node?<E>, shape: Shape<E>, w: E -> int)
    requires At(mem, root, Top, shape, 0, w)
    ensures Nodes(shape) == mem.Keys && Plug(Top, shape) == shape
  {
  }

  lemma LocateAt<E>(mem: Mem<E>, root: Node?<E>, shape: Shape<E>, n: Node<E>, w: E -> int)
    returns (p: Path<E>, t: Shape<E>)
    requires At(mem, root, Top, shape, 0, w) && n in mem
    ensures t.Bin? && t.node == n && Plug(p, t) == shape && Items(shape) == Whole(p, t)
    ensures At(mem, root, p, t, 0, w)
    ensures var its, k := Items(shape), Index(Items(shape), n);
      && k == |Before(p)| + |Items(t.left)| < |its| && its[k] == Item(n, t.elem)
      && its[..k] == Before(p) + Items(t.left) && its[k + 1..] == Items(t.right) + After(p)
  {
    hide *;
    var top: Path<E> := Top;
    TopNodes(mem, root, shape, w);
    var r := Locate(top, shape, n);
    p, t := r.0, r.1;
    Unplug(mem, root, p, t, w);
    PlugItems(p, t);
    IndexAt(mem, root, p, t, w);
  }

  // ----- The sequence as a listing of the nodes

  ghost predicate Unique<E>(its: seq<Item<E>>) {
    forall i, j :: 0 <= i < j < |its| ==> its[i].node != its[j].node
  }

  lemma UniqueIndex<E>(its: seq<Item<E>>, i: nat)
    requires Unique(its) && i < |its|
    ensures Index(its, its[i].node) == i
  {
  }

  lemma UniqueConcat<E>(a: seq<Item<E>>, x: Item<E>, b: seq<Item<E>>)
    requires Unique(a) && Unique(b)
    requires forall i, j :: 0 <= i < |a| && 0 <= j < |b| ==> a[i].node != b[j].node
    requires forall i :: 0 <= i < |a| ==> a[i].node != x.node
    requires forall j :: 0 <= j < |b| ==> b[j].node != x.node
    ensures Unique(a + [x] + b)
  {
  }

  lemma {:induction false} ItemsUnique<E>(mem: Mem<E>, t: Shape<E>, parent: Node?<E>, w: E -> int)
    requires Linked(mem, t, parent, w)
    ensures Unique(Items(t)) && forall it <- Items(t) :: it.node in mem && it.elem == mem[it.node].elem
  {
    if t.Bin? {
      ItemsUnique(mem, t.left, t.node, w);
      ItemsUnique(mem, t.right, t.node, w);
      ItemsNodes(t.left);
      ItemsNodes(t.right);
      var a, x, b := Items(t.left), Item(t.node, t.elem), Items(t.right);
      assert forall i | 0 <= i < |a| :: a[i] in a;
      assert forall i | 0 <= i < |b| :: b[i] in b;
      UniqueConcat(a, x, b);
    }
  }

  lemma {:induction false} ItemsCount<E>(mem: Mem<E>, t: Shape<E>, parent: Node?<E>, w: E -> int)
    requires Linked(mem, t, parent, w)
    ensures |Items(t)| == |Nodes(t)|
  {
    if t.Bin? {
      ItemsCount(mem, t.left, t.node, w);
      ItemsCount(mem, t.right, t.node, w);
      assert |Nodes(t.left) + {t.node}| == |Nodes(t.left)| + 1;
      assert (Nodes(t.left) + {t.node}) !! Nodes(t.right);
    }
  }

  // ----- Sums

  ghost function Total<E>(its: seq<Item<E>>, w: E -> int): int {
    if its == [] then 0 else Total(its[..|its| - 1], w) + w(its[|its| - 1].elem)
  }

  lemma {:induction false} TotalConcat<E>(a: seq<Item<E>>, b: seq<Item<E>>, w: E -> int)
    ensures Total(a + b, w) == Total(a, w) + Total(b, w)
  {
    if b == [] {
      assert a + b == a;
    } else {
      var c := b[..|b| - 1];
      assert (a + b)[..|a + b| - 1] == a + c;
      TotalConcat(a, c, w);
    }
  }

  lemma {:induction false} SumTotal<E>(t: Shape<E>, w: E -> int)
    ensures Sum(t, w) == Total(Items(t), w)
  {
    if t.Bin? {
      var x := [Item(t.node, t.elem)];
      SumTotal(t.left, w);
      SumTotal(t.right, w);
      TotalConcat(Items(t.left), x, w);
      TotalConcat(Items(t.left) + x, Items(t.right), w);
      assert Total(x, w) == w(t.elem);
    }
  }
}
