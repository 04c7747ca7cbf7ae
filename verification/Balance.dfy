/** Red-black balance under the fix-up steps, as facts about shapes alone. */
module Balance {
  import opened Shapes
  import opened ShapeLemmas

  lemma {:induction false} HeightUnique<E>(t: Shape<E>, h: nat)
    requires Balanced(t, h)
    ensures h == BlackHeight(t)
  {
    if t.Bin? {
      HeightUnique(t.left, if t.red then h else h - 1);
    }
  }

  lemma {:induction false} PlugBalanced<E>(p: Path<E>, t: Shape<E>, h: nat)
    requires Balanced(t, h) && Fits(p, h, IsRed(t))
    ensures RedBlack(Plug(p, t))
  {
    if p.Step? {
      PlugBalanced(p.up, Up(p, t), if p.red then h else h + 1);
    } else {
      HeightUnique(t, h);
    }
  }

  lemma {:induction false} UnplugBalanced<E>(p: Path<E>, t: Shape<E>)
    requires RedBlack(Plug(p, t))
    ensures Balanced(t, BlackHeight(t)) && Fits(p, BlackHeight(t), IsRed(t))
  {
    if p.Step? {
      UnplugBalanced(p.up, Up(p, t));
      HeightUnique(t, if p.red then BlackHeight(Up(p, t)) else BlackHeight(Up(p, t)) - 1);
    }
  }

  ghost function PaintKid<E>(t: Shape<E>, side: bool, red: bool): (r: Shape<E>)
    requires t.Bin? && t.Kid(side).Bin?
    ensures r.Bin?
  {
    Mk(side, Paint(t.Kid(side), red), t.node, t.red, t.elem, t.Kid(!side))
  }

  lemma PaintKidItems<E>(t: Shape<E>, side: bool, red: bool)
    requires t.Bin? && t.Kid(side).Bin?
    ensures Items(PaintKid(t, side, red)) == Items(t)
  {
  }

  // ----- Insertion: a red subtree `t` whose parent may be red too

  ghost predicate Rising<E>(p: Path<E>, t: Shape<E>, h: nat)
    ensures Rising(p, t, h) ==> t.Bin? && t.red
  {
    t.Bin? && t.red && Balanced(t, h) && Fits(p, h, false)
  }

  /** The shape left by repainting a red parent, a red uncle and their black parent. */
  ghost function Recoloured<E>(g: Shape<E>, side: bool): Shape<E>
    requires g.Bin? && g.left.Bin? && g.right.Bin?
  {
    Paint(PaintKid(PaintKid(g, side, false), !side, false), true)
  }

  lemma RecolourBalanced<E>(p: Path<E>, t: Shape<E>, h: nat)
    requires Rising(p, t, h)
    requires p.Step? && p.red && p.up.Step? && IsRed(p.up.sib)
    ensures var f := Recoloured(Up(p.up, Up(p, t)), p.up.side);
      Rising(p.up.up, f, h + 1)
  {
    assert Fits(p, h, false) && Balanced(t, h);
    assert Fits(p.up, h, true) && Balanced(p.sib, h);
    assert Fits(p.up.up, h + 1, false) && Balanced(p.up.sib, h);
    assert Balanced(p.up.sib.left, h) && Balanced(p.up.sib.right, h);
    assert Balanced(Paint(p.up.sib, false), h + 1) && Balanced(Paint(Up(p, t), false), h + 1);
  }

  lemma RootBalanced<E>(p: Path<E>, t: Shape<E>, h: nat)
    requires Rising(p, t, h)
    requires p.Step? && p.red && p.up.Top?
    ensures Balanced(Paint(Up(p, t), false), h + 1)
  {
  }

  /** Bringing an inner grandchild to the outside keeps the violation where it is. */
  lemma InnerBalanced<E>(p: Path<E>, t: Shape<E>, h: nat)
    requires Rising(p, t, h)
    requires p.Step? && p.red && p.up.Step? && p.side != p.up.side
    ensures var r := Rotated(Up(p, t), p.up.side); var k := r.Kid(p.up.side); var q := Down(p.up, r, p.up.side);
      Rising(q, k, h) && q.red && q.side == q.up.side
  {
  }

  /** The shape left by rotating the grandparent away and swapping colours. */
  ghost function Lifted<E>(g: Shape<E>, side: bool): Shape<E>
    requires g.Bin? && g.Kid(side).Bin?
  {
    PaintKid(Paint(Rotated(g, !side), false), !side, true)
  }

  lemma OuterBalanced<E>(p: Path<E>, t: Shape<E>, h: nat)
    requires Rising(p, t, h)
    requires p.Step? && p.red && p.up.Step? && p.side == p.up.side && !IsRed(p.up.sib)
    ensures var f := Lifted(Up(p.up, Up(p, t)), p.side);
      Balanced(f, h + 1) && !f.red && Fits(p.up.up, h + 1, false)
  {
    assert Fits(p, h, false) && Balanced(t, h);
    assert Fits(p.up, h, true) && Balanced(p.sib, h);
  }

  // ----- Removal: a subtree `t` that is one black node too low

  /** The hole of `p` wants one more black than the black-rooted `t` has. */
  ghost predicate Short<E>(p: Path<E>, t: Shape<E>, h: nat) {
    Balanced(t, h) && !IsRed(t) && Fits(p, h + 1, false)
  }

  lemma SiblingExists<E>(p: Path<E>, t: Shape<E>, h: nat)
    requires Short(p, t, h) && p.Step?
    ensures p.sib.Bin?
    ensures p.sib.red ==> !p.red && p.sib.left.Bin? && !p.sib.left.red && p.sib.right.Bin? && !p.sib.right.red
  {
    assert Balanced(p.sib, h + 1);
    if p.sib.Bin? && p.sib.red {
      assert Balanced(p.sib.left, h + 1) && Balanced(p.sib.right, h + 1);
    }
  }

  lemma RedSibling<E>(p: Path<E>, t: Shape<E>, h: nat)
    requires Short(p, t, h) && p.Step? && IsRed(p.sib)
    ensures var s := p.side; var r := Paint(PaintKid(Rotated(Up(p, t), s), s, true), false);
      var q := Down(Down(p.up, r, s), r.Kid(s), s);
      r.Kid(s).Kid(s) == t && Short(q, t, h) && q.red && q.node == p.node && q.sib.Bin? && !q.sib.red
  {
    SiblingExists(p, t, h);
  }

  lemma BlackNephews<E>(p: Path<E>, t: Shape<E>, h: nat)
    requires Short(p, t, h) && p.Step? && p.sib.Bin? && !p.sib.red
    requires !IsRed(p.sib.left) && !IsRed(p.sib.right)
    ensures var r := PaintKid(Up(p, t), !p.side, true);
      if p.red then Balanced(Paint(r, false), h + 1) && Fits(p.up, h + 1, false) else Short(p.up, r, h + 1)
  {
    assert Balanced(p.sib, h + 1);
    if p.red {
      assert Fits(p.up, h + 1, true);
    }
  }

  /** The sibling takes the parent's colour and place, the parent and the distant nephew turn black. */
  ghost function Borrowed<E>(t: Shape<E>, side: bool): Shape<E>
    requires t.Bin? && t.Kid(!side).Bin? && t.Kid(!side).Kid(!side).Bin?
  {
    PaintKid(PaintKid(Paint(Rotated(t, side), t.red), side, t.Kid(!side).red), !side, false)
  }

  lemma DistantRed<E>(p: Path<E>, t: Shape<E>, h: nat)
    requires Short(p, t, h) && p.Step? && p.sib.Bin? && !p.sib.red && IsRed(p.sib.Kid(!p.side))
    ensures var f := Borrowed(Up(p, t), p.side);
      Balanced(f, if p.red then h + 1 else h + 2) && f.red == p.red && Fits(p.up, if p.red then h + 1 else h + 2, p.red)
  {
    var close, distant := p.sib.Kid(p.side), p.sib.Kid(!p.side);
    assert Balanced(p.sib, h + 1);
    assert Balanced(close, h) && Balanced(distant, h);
    assert Balanced(distant.left, h) && Balanced(distant.right, h);
    var d, n := Paint(distant, false), Mk(!p.side, close, p.node, false, p.elem, t);
    assert Balanced(d, h + 1) && Balanced(n, h + 1);
    assert Borrowed(Up(p, t), p.side) == Mk(p.side, n, p.sib.node, p.red, p.sib.elem, d);
  }

  lemma CloseRed<E>(p: Path<E>, t: Shape<E>, h: nat)
    requires Short(p, t, h) && p.Step? && p.sib.Bin? && !p.sib.red && IsRed(p.sib.Kid(p.side))
    requires !IsRed(p.sib.Kid(!p.side))
    ensures var r := Paint(PaintKid(Rotated(p.sib, !p.side), !p.side, true), false);
      Short(p.(sib := r), t, h) && !r.red && IsRed(r.Kid(!p.side))
  {
    var close, distant := p.sib.Kid(p.side), p.sib.Kid(!p.side);
    assert Balanced(p.sib, h + 1);
    assert Balanced(close, h) && Balanced(distant, h);
    assert Balanced(close.left, h) && Balanced(close.right, h) && !IsRed(close.left) && !IsRed(close.right);
    var low := Mk(!p.side, distant, p.sib.node, true, p.sib.elem, close.Kid(!p.side));
    assert Balanced(low, h);
    var r := Paint(PaintKid(Rotated(p.sib, !p.side), !p.side, true), false);
    assert r == Mk(!p.side, low, close.node, false, close.elem, close.Kid(p.side));
    assert Balanced(r, h + 1);
  }

  /** The logarithmic bound: a tree of n nodes and height h has 2^(h / 2) <= n + 1. */
  ghost function Pow2(n: nat): nat {
    if n == 0 then 1 else 2 * Pow2(n - 1)
  }

  lemma {:induction false} Pow2Grows(a: nat, b: nat)
    requires a <= b
    ensures Pow2(a) <= Pow2(b)
  {
    if a < b { Pow2Grows(a, b - 1); }
  }

  lemma {:induction false} BalancedBounds<E>(t: Shape<E>, h: nat)
    requires Balanced(t, h)
    ensures Pow2(h) <= |Items(t)| + 1
    ensures Height(t) <= 2 * h + if IsRed(t) then 1 else 0
  {
    if t.Bin? {
      var k := if t.red then h else h - 1;
      BalancedBounds(t.left, k);
      BalancedBounds(t.right, k);
    }
  }

  lemma HeightBound<E>(t: Shape<E>)
    requires RedBlack(t)
    ensures Pow2(Height(t) / 2) <= |Items(t)| + 1
    ensures forall way | Way(t, way) :: |way| <= Height(t) && Pow2(|way| / 2) <= |Items(t)| + 1
  {
    BalancedBounds(t, BlackHeight(t));
    Pow2Grows(Height(t) / 2, BlackHeight(t));
    forall way | Way(t, way)
      ensures |way| <= Height(t) && Pow2(|way| / 2) <= |Items(t)| + 1
    {
      WayLength(t, way);
      Pow2Grows(|way| / 2, Height(t) / 2);
    }
  }

  /** A way down from the root, turning right where it is true. */
  ghost predicate Way<E>(t: Shape<E>, way: seq<bool>) {
    way != [] ==> t.Bin? && Way(t.Kid(way[0]), way[1..])
  }

  /** No way down is longer than the height, and one is as long. */
  lemma {:induction false} WayLength<E>(t: Shape<E>, way: seq<bool>)
    requires Way(t, way)
    ensures |way| <= Height(t)
  {
    if way != [] {
      WayLength(t.Kid(way[0]), way[1..]);
    }
  }

  lemma {:induction false} LongestWay<E>(t: Shape<E>) returns (way: seq<bool>)
    ensures Way(t, way) && |way| == Height(t)
  {
    if t.Leaf? {
      way := [];
    } else {
      var side := Height(t.left) <= Height(t.right);
      var rest := LongestWay(t.Kid(side));
      way := [side] + rest;
      assert way[1..] == rest;
    }
  }
}
