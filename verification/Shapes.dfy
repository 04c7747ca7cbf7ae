/** The memory of an intrusive red-black tree and the ghost values that describe it.

    A tree is linked through nodes that its users own.  `Mem` is a snapshot of the fields of
    those nodes; `Shape` is the tree the pointers spell out; `Path` is a zipper, the way from a
    subtree up to the root.  `At` says that the pointers, colours and cached sums of a snapshot
    are exactly those of the subtree `t` hanging in the hole of the path `p`.

    The two children of a node are indexed by a `side`, `true` being the right one. */
module Shapes {
  class Node<E> {
    var left: Node?<E>
    var right: Node?<E>
    var parent: Node?<E>
    var red: bool
    var summary: int
    var element: E

    constructor (element: E, summary: int)
      ensures Read() == Cell(null, null, null, false, summary, element)
    {
      left, right, parent, red := null, null, null, false;
      this.element, this.summary := element, summary;
    }

    ghost function Read(): Cell<E>
      reads this
    {
      Cell(left, right, parent, red, summary, element)
    }
  }

  /** The fields of one node. */
  datatype Cell<E> = Cell(left: Node?<E>, right: Node?<E>, parent: Node?<E>, red: bool, summary: int, elem: E)
  {
    ghost function Child(side: bool): Node?<E> {
      if side then right else left
    }

    ghost function WithChild(side: bool, n: Node?<E>): Cell<E> {
      if side then this.(right := n) else this.(left := n)
    }
  }

  type Mem<E> = map<Node<E>, Cell<E>>

  datatype Item<E> = Item(node: Node<E>, elem: E)

  datatype Shape<E> = Leaf | Bin(left: Shape<E>, node: Node<E>, red: bool, elem: E, right: Shape<E>)
  {
    ghost function Kid(side: bool): Shape<E>
      requires Bin?
    {
      if side then right else left
    }
  }

  datatype Path<E> = Top | Step(up: Path<E>, node: Node<E>, red: bool, elem: E, side: bool, sib: Shape<E>)

  ghost function Mk<E>(side: bool, inner: Shape<E>, node: Node<E>, red: bool, elem: E, outer: Shape<E>): (t: Shape<E>)
    ensures t.Bin? && t.node == node && t.red == red && t.elem == elem
    ensures t.Kid(side) == inner && t.Kid(!side) == outer
  {
    if side then Bin(outer, node, red, elem, inner) else Bin(inner, node, red, elem, outer)
  }

  ghost function Root<E>(t: Shape<E>): Node?<E> {
    if t.Leaf? then null else t.node
  }

  ghost predicate IsRed<E>(t: Shape<E>) {
    t.Bin? && t.red
  }

  /** The node just above the hole of `p`; `base` stands above the whole path. */
  ghost function Above<E>(p: Path<E>, base: Node?<E>): Node?<E> {
    if p.Top? then base else p.node
  }

  /** The topmost node of `p` with `hole` in its hole. */
  ghost function RootOf<E>(p: Path<E>, hole: Node?<E>): Node?<E> {
    if p.Top? then hole else RootOf(p.up, p.node)
  }

  ghost function Plug<E>(p: Path<E>, t: Shape<E>): Shape<E> {
    if p.Top? then t else Plug(p.up, Mk(p.side, t, p.node, p.red, p.elem, p.sib))
  }

  // ----- What a shape holds

  ghost function Nodes<E>(t: Shape<E>): set<Node<E>> {
    if t.Leaf? then {} else Nodes(t.left) + {t.node} + Nodes(t.right)
  }

  ghost function PathNodes<E>(p: Path<E>): set<Node<E>> {
    if p.Top? then {} else PathNodes(p.up) + {p.node} + Nodes(p.sib)
  }

  ghost function Sum<E>(t: Shape<E>, w: E -> int): int {
    if t.Leaf? then 0 else Sum(t.left, w) + w(t.elem) + Sum(t.right, w)
  }

  /** The sum of the whole when the hole of `p` holds `s`. */
  ghost function PathSum<E>(p: Path<E>, s: int, w: E -> int): int {
    if p.Top? then s else PathSum(p.up, s + w(p.elem) + Sum(p.sib, w), w)
  }

  /** The in-order sequence. */
  ghost function Items<E>(t: Shape<E>): seq<Item<E>> {
    if t.Leaf? then [] else Items(t.left) + [Item(t.node, t.elem)] + Items(t.right)
  }

  ghost function Before<E>(p: Path<E>): seq<Item<E>> {
    if p.Top? then [] else if p.side then Before(p.up) + Items(p.sib) + [Item(p.node, p.elem)] else Before(p.up)
  }

  ghost function After<E>(p: Path<E>): seq<Item<E>> {
    if p.Top? then [] else if p.side then After(p.up) else [Item(p.node, p.elem)] + Items(p.sib) + After(p.up)
  }

  ghost function Whole<E>(p: Path<E>, t: Shape<E>): seq<Item<E>> {
    Before(p) + Items(t) + After(p)
  }

  // ----- Red-black balance; the root may be red

  ghost predicate Balanced<E>(t: Shape<E>, h: nat) {
    if t.Leaf? then h == 0
    else if t.red then !IsRed(t.left) && !IsRed(t.right) && Balanced(t.left, h) && Balanced(t.right, h)
    else h > 0 && Balanced(t.left, h - 1) && Balanced(t.right, h - 1)
  }

  /** The hole of `p` takes a subtree of black height `h` whose root is red if `red`. */
  ghost predicate Fits<E>(p: Path<E>, h: nat, red: bool) {
    p.Step? ==>
      && Balanced(p.sib, h)
      && (p.red ==> !red && !IsRed(p.sib))
      && Fits(p.up, if p.red then h else h + 1, p.red)
  }

  ghost function BlackHeight<E>(t: Shape<E>): nat {
    if t.Leaf? then 0 else BlackHeight(t.left) + if t.red then 0 else 1
  }

  ghost predicate RedBlack<E>(t: Shape<E>) {
    Balanced(t, BlackHeight(t))
  }

  ghost function Height<E>(t: Shape<E>): nat {
    if t.Leaf? then 0 else 1 + if Height(t.left) > Height(t.right) then Height(t.left) else Height(t.right)
  }

  // ----- Snapshots that spell out a shape

  ghost predicate Linked<E>(mem: Mem<E>, t: Shape<E>, parent: Node?<E>, w: E -> int) {
    t.Bin? ==>
      && t.node in mem
      && mem[t.node] == Cell(Root(t.left), Root(t.right), parent, t.red, Sum(t, w), t.elem)
      && t.node !in Nodes(t.left) && t.node !in Nodes(t.right)
      && Nodes(t.left) !! Nodes(t.right)
      && Linked(mem, t.left, t.node, w)
      && Linked(mem, t.right, t.node, w)
  }

  /** The path `p`, below `base`, is linked as if its hole held the node `hole` with sum `s`. */
  ghost predicate PathLinked<E>(mem: Mem<E>, p: Path<E>, base: Node?<E>, hole: Node?<E>, s: int, w: E -> int) {
    p.Step? ==>
      && p.node in mem
      && mem[p.node].parent == Above(p.up, base)
      && mem[p.node].Child(p.side) == hole
      && mem[p.node].Child(!p.side) == Root(p.sib)
      && mem[p.node].red == p.red
      && mem[p.node].elem == p.elem
      && mem[p.node].summary == s + w(p.elem) + Sum(p.sib, w)
      && p.node !in Nodes(p.sib) && p.node !in PathNodes(p.up)
      && Nodes(p.sib) !! PathNodes(p.up)
      && Linked(mem, p.sib, p.node, w)
      && PathLinked(mem, p.up, base, p.node, mem[p.node].summary, w)
  }

  /** The subtree `t` hangs in the hole of `p`.  The sums along `p` are off by `d`. */
  ghost predicate Hung<E>(mem: Mem<E>, base: Node?<E>, p: Path<E>, t: Shape<E>, d: int, w: E -> int) {
    && Nodes(t) !! PathNodes(p)
    && Linked(mem, t, Above(p, base), w)
    && PathLinked(mem, p, base, Root(t), Sum(t, w) + d, w)
  }

  /** The whole tree, focused on the subtree `t`. */
  ghost predicate At<E>(mem: Mem<E>, root: Node?<E>, p: Path<E>, t: Shape<E>, d: int, w: E -> int) {
    && Hung(mem, null, p, t, d, w)
    && mem.Keys == Nodes(t) + PathNodes(p)
    && root == RootOf(p, Root(t))
  }

  /** The whole tree, except that the hole of `p` holds a node that no longer counts: it sits
      above the subtree `c` as its left child, and neither its sum nor its element matters. */
  ghost predicate Detached<E>(mem: Mem<E>, root: Node?<E>, p: Path<E>, node: Node<E>, red: bool, c: Shape<E>,
          w: E -> int) {
    && node !in Nodes(c) && node !in PathNodes(p)
    && Nodes(c) !! PathNodes(p)
    && mem.Keys == Nodes(c) + PathNodes(p) + {node}
    && mem[node].left == Root(c) && mem[node].right == null && mem[node].parent == Above(p, null)
    && mem[node].red == red
    && Linked(mem, c, node, w)
    && PathLinked(mem, p, null, node, Sum(c, w), w)
    && root == RootOf(p, node)
  }

  ghost predicate Agree<E>(m1: Mem<E>, m2: Mem<E>, s: set<Node<E>>) {
    forall n <- s :: n in m1 ==> n in m2 && m2[n] == m1[n]
  }
}
