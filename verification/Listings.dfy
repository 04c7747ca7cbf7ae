/** How a sequence of items changes when one is inserted, removed or replaced. */
module Listings {
  import opened Shapes
  import opened Ordering

  /** The sequence lists the node `n` with the element `e`. */
  ghost predicate Has<E>(its: seq<Item<E>>, n: Node<E>, e: E) {
    Index(its, n) < |its| && its[Index(its, n)] == Item(n, e)
  }

  ghost predicate Absent<E>(its: seq<Item<E>>, n: Node<E>) {
    forall i | 0 <= i < |its| :: its[i].node != n
  }

  ghost function Inserted<E>(its: seq<Item<E>>, k: nat, x: Item<E>): seq<Item<E>>
    requires k <= |its|
  {
    its[..k] + [x] + its[k..]
  }

  ghost function Removed<E>(its: seq<Item<E>>, k: nat): seq<Item<E>>
    requires k < |its|
  {
    its[..k] + its[k + 1..]
  }

  lemma InsertedItems<E>(its: seq<Item<E>>, k: nat, x: Item<E>)
    requires k <= |its|
    ensures var r := Inserted(its, k, x); |r| == |its| + 1 && r[k] == x
    ensures forall i | 0 <= i < k :: Inserted(its, k, x)[i] == its[i]
    ensures forall i | k < i <= |its| :: Inserted(its, k, x)[i] == its[i - 1]
  {
  }

  lemma RemovedItems<E>(its: seq<Item<E>>, k: nat)
    requires k < |its|
    ensures |Removed(its, k)| == |its| - 1
    ensures forall i | 0 <= i < k :: Removed(its, k)[i] == its[i]
    ensures forall i | k <= i < |its| - 1 :: Removed(its, k)[i] == its[i + 1]
  {
  }

  /** In a listing without repetitions any place will do. */
  lemma HasAt<E>(its: seq<Item<E>>, i: nat)
    requires Unique(its) && i < |its|
    ensures Has(its, its[i].node, its[i].elem) && Index(its, its[i].node) == i
  {
  }

  lemma HasIs<E>(its: seq<Item<E>>, n: Node<E>, e: E)
    requires Has(its, n, e)
    ensures Index(its, n) < |its| && its[Index(its, n)] == Item(n, e)
  {
  }

  lemma HasInserted<E>(its: seq<Item<E>>, k: nat, x: Item<E>, n: Node<E>, e: E)
    requires k <= |its| && Unique(Inserted(its, k, x)) && Has(its, n, e)
    ensures Has(Inserted(its, k, x), n, e)
  {
    hide *;
    HasIs(its, n, e);
    var i := Index(its, n);
    InsertedItems(its, k, x);
    var j := if i < k then i else i + 1;
    assert Inserted(its, k, x)[j] == its[i];
    HasAt(Inserted(its, k, x), j);
  }

  lemma HasNew<E>(its: seq<Item<E>>, k: nat, x: Item<E>)
    requires k <= |its| && Unique(Inserted(its, k, x))
    ensures Has(Inserted(its, k, x), x.node, x.elem)
  {
    hide *;
    InsertedItems(its, k, x);
    HasAt(Inserted(its, k, x), k);
  }

  lemma HasRemoved<E>(its: seq<Item<E>>, k: nat, n: Node<E>, e: E)
    requires k < |its| && Unique(Removed(its, k)) && Has(its, n, e) && n != its[k].node
    ensures Has(Removed(its, k), n, e)
  {
    hide *;
    HasIs(its, n, e);
    var i := Index(its, n);
    RemovedItems(its, k);
    var j := if i < k then i else i - 1;
    assert Removed(its, k)[j] == its[i];
    HasAt(Removed(its, k), j);
  }

  lemma RemovedAbsent<E>(its: seq<Item<E>>, k: nat)
    requires k < |its| && Unique(its)
    ensures Absent(Removed(its, k), its[k].node)
  {
  }

  lemma UpdatedUnique<E>(its: seq<Item<E>>, k: nat, e: E)
    requires k < |its| && Unique(its)
    ensures Unique(its[k := Item(its[k].node, e)])
  {
  }

  lemma HasUpdated<E>(its: seq<Item<E>>, k: nat, e: E, n: Node<E>, f: E)
    requires k < |its| && Unique(its) && Has(its, n, f)
    ensures Has(its[k := Item(its[k].node, e)], n, if n == its[k].node then e else f)
  {
    UpdatedUnique(its, k, e);
    hide *;
    HasIs(its, n, f);
    HasAt(its, k);
    HasAt(its[k := Item(its[k].node, e)], Index(its, n));
  }
}
