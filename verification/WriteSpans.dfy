/** Write borrows as the intervals listed in a tree: ordered by start, searched by end. */
module WriteSpans {
  import opened Shapes
  import opened Ordering
  import opened Listings

  datatype Range = Range(start: int, end: int)

  /** One write borrow and the node that stands for it. */
  datatype Hold = Hold(node: Node<Range>, start: int, stop: int)
  {
    function Held(): Range { Range(start, stop) }
    predicate Covers(i: int) { start <= i < stop }
  }

  type HoldMap = map<int, Hold>

  ghost predicate Written(holds: HoldMap, i: int) {
    exists id <- holds.Keys :: holds[id].Covers(i)
  }

  ghost predicate Owned(holds: HoldMap, x: Item<Range>) {
    exists id <- holds.Keys :: x == Item(holds[id].node, holds[id].Held())
  }

  ghost predicate AllOwned(its: seq<Item<Range>>, holds: HoldMap) {
    forall k | 0 <= k < |its| :: Owned(holds, its[k])
  }

  ghost predicate AllListed(its: seq<Item<Range>>, holds: HoldMap) {
    forall id <- holds.Keys :: Has(its, holds[id].node, holds[id].Held())
  }

  /** No interval is empty, and each ends before the next begins. */
  ghost predicate Apart(its: seq<Item<Range>>) {
    && (forall i | 0 <= i < |its| :: its[i].elem.start < its[i].elem.end)
    && (forall i, j :: 0 <= i < j < |its| ==> its[i].elem.end <= its[j].elem.start)
  }

  ghost predicate NodesDiffer(holds: HoldMap) {
    forall a <- holds.Keys, b <- holds.Keys | a != b :: holds[a].node != holds[b].node
  }

  ghost predicate WriteView(its: seq<Item<Range>>, holds: HoldMap) {
    Unique(its) && Apart(its) && NodesDiffer(holds) && AllOwned(its, holds) && AllListed(its, holds)
  }

  /** `[start, stop)` meets no borrow but that of `id`. */
  ghost predicate Free(holds: HoldMap, id: int, start: int, stop: int) {
    forall o <- holds.Keys | o != id :: holds[o].stop <= start || stop <= holds[o].start
  }

  lemma WriteViewIs(its: seq<Item<Range>>, holds: HoldMap)
    ensures WriteView(its, holds)
       <==> Unique(its) && Apart(its) && NodesDiffer(holds) && AllOwned(its, holds) && AllListed(its, holds)
  {
  }

  lemma OwnerAt(its: seq<Item<Range>>, holds: HoldMap, k: nat) returns (id: int)
    requires AllOwned(its, holds) && k < |its|
    ensures id in holds && its[k] == Item(holds[id].node, holds[id].Held())
  {
    assert Owned(holds, its[k]);
    id :| id in holds.Keys && its[k] == Item(holds[id].node, holds[id].Held());
  }

  lemma HoldAt(its: seq<Item<Range>>, holds: HoldMap, id: int) returns (k: nat)
    requires WriteView(its, holds) && id in holds
    ensures k < |its| && its[k] == Item(holds[id].node, holds[id].Held()) && k == Index(its, holds[id].node)
  {
    assert Has(its, holds[id].node, holds[id].Held());
    k := Index(its, holds[id].node);
  }

  // ----- Searching

  /** Before `n` everything ends at `lo` or earlier, from `n` on everything ends later. */
  ghost predicate EndsCut(its: seq<Item<Range>>, n: nat, lo: int) {
    n <= |its| && (forall i | 0 <= i < n :: its[i].elem.end <= lo)
      && (forall i | n <= i < |its| :: its[i].elem.end > lo)
  }

  /** Since the intervals are apart, their ends rise with their starts. */
  lemma EndsRise(its: seq<Item<Range>>, lo: int, f: Range -> bool)
    requires Apart(its) && forall e :: f(e) == (lo < e.end)
    ensures Monotone(its, f) && EndsCut(its, Split(its, f), lo)
  {
  }

  lemma FirstWritten(its: seq<Item<Range>>, holds: HoldMap, n: nat, lo: int)
    requires WriteView(its, holds) && EndsCut(its, n, lo)
    ensures n < |its| ==> Written(holds, if its[n].elem.start < lo then lo else its[n].elem.start)
    ensures forall i | lo <= i && (n < |its| ==> i < its[n].elem.start) :: !Written(holds, i)
  {
  }

  // ----- Adding, resizing and deleting a borrow

  /** Before `k` everything starts at `start` or earlier, from `k` on everything starts later. */
  ghost predicate StartsCut(its: seq<Item<Range>>, k: nat, start: int) {
    k <= |its| && (forall i | 0 <= i < k :: its[i].elem.start <= start)
      && (forall i | k <= i < |its| :: its[i].elem.start > start)
  }

  lemma StartsRise(its: seq<Item<Range>>, start: int, f: Range -> bool)
    requires Apart(its) && forall e :: f(e) == (start < e.start)
    ensures Monotone(its, f) && StartsCut(its, Split(its, f), start)
  {
  }

  lemma ApartInserted(its: seq<Item<Range>>, holds: HoldMap, id: int, k: nat, x: Item<Range>)
    requires WriteView(its, holds) && id !in holds && StartsCut(its, k, x.elem.start)
    requires x.elem.start < x.elem.end && Free(holds, id, x.elem.start, x.elem.end)
    ensures Apart(Inserted(its, k, x))
  {
    hide NodesDiffer, AllListed, Unique;
    forall i | 0 <= i < |its|
      ensures i < k ==> its[i].elem.end <= x.elem.start
      ensures k <= i ==> x.elem.end <= its[i].elem.start
    {
      var o := OwnerAt(its, holds, i);
      assert holds[o].stop <= x.elem.start || x.elem.end <= holds[o].start;
    }
    assert Apart(its);
    hide WriteView, StartsCut, Free;
    InsertedItems(its, k, x);
  }

  lemma OwnedInserted(its: seq<Item<Range>>, k: nat, x: Item<Range>, holds: HoldMap)
    requires k <= |its| && AllOwned(its, holds) && Owned(holds, x)
    ensures AllOwned(Inserted(its, k, x), holds)
  {
  }

  lemma OwnedGrows(its: seq<Item<Range>>, holds: HoldMap, id: int, h: Hold)
    requires AllOwned(its, holds) && id !in holds
    ensures AllOwned(its, holds[id := h])
  {
    forall k | 0 <= k < |its|
      ensures Owned(holds[id := h], its[k])
    {
      var o := OwnerAt(its, holds, k);
      assert o in holds[id := h].Keys && holds[id := h][o] == holds[o];
    }
  }

  lemma AddView(its: seq<Item<Range>>, holds: HoldMap, id: int, k: nat, h: Hold)
    requires WriteView(its, holds) && id !in holds && StartsCut(its, k, h.start) && h.start < h.stop
    requires Free(holds, id, h.start, h.stop)
    requires k <= |its| && Unique(Inserted(its, k, Item(h.node, h.Held())))
    requires forall o <- holds.Keys :: holds[o].node != h.node
    ensures WriteView(Inserted(its, k, Item(h.node, h.Held())), holds[id := h])
  {
    var x, now := Item(h.node, h.Held()), holds[id := h];
    var two := Inserted(its, k, x);
    ApartInserted(its, holds, id, k, x);
    WriteViewIs(its, holds);
    WriteViewIs(two, now);
    assert id in now.Keys && now[id] == h;
    assert Owned(now, x);
    hide WriteView, Unique, Apart, AllOwned, Owned, Inserted, Has, Free, StartsCut;
    OwnedGrows(its, holds, id, h);
    OwnedInserted(its, k, x, now);
    forall o <- now.Keys
      ensures Has(two, now[o].node, now[o].Held())
    {
      if o == id {
        HasNew(its, k, x);
      } else {
        assert o in holds.Keys && now[o] == holds[o];
        HasInserted(its, k, x, holds[o].node, holds[o].Held());
      }
    }
  }

  lemma ApartResized(its: seq<Item<Range>>, holds: HoldMap, id: int, k: nat, stop: int)
    requires WriteView(its, holds) && id in holds && k < |its| && its[k] == Item(holds[id].node, holds[id].Held())
    requires holds[id].start < stop && Free(holds, id, holds[id].start, stop)
    ensures Apart(its[k := Item(holds[id].node, Range(holds[id].start, stop))])
  {
  }

  lemma OwnedResized(its: seq<Item<Range>>, holds: HoldMap, id: int, k: nat, h: Hold)
    requires AllOwned(its, holds) && Unique(its) && id in holds && k < |its| && its[k].node == holds[id].node == h.node
    ensures AllOwned(its[k := Item(h.node, h.Held())], holds[id := h])
  {
    var now, two := holds[id := h], its[k := Item(h.node, h.Held())];
    forall i | 0 <= i < |two|
      ensures Owned(now, two[i])
    {
      if i == k {
        assert id in now.Keys && now[id] == h;
      } else {
        var o := OwnerAt(its, holds, i);
        assert its[i].node != its[k].node;
        assert o in now.Keys && now[o] == holds[o];
      }
    }
  }

  lemma ResizeView(its: seq<Item<Range>>, holds: HoldMap, id: int, k: nat, stop: int)
    requires WriteView(its, holds) && id in holds && k < |its| && its[k].node == holds[id].node
    requires holds[id].start < stop && Free(holds, id, holds[id].start, stop)
    ensures var h := holds[id].(stop := stop); WriteView(its[k := Item(h.node, h.Held())], holds[id := h])
  {
    var h := holds[id].(stop := stop);
    var x, now := Item(h.node, h.Held()), holds[id := h];
    var two := its[k := x];
    var n := HoldAt(its, holds, id);
    UniqueIndex(its, k);
    ApartResized(its, holds, id, k, stop);
    WriteViewIs(its, holds);
    WriteViewIs(two, now);
    hide WriteView, Apart, AllOwned, Owned, Has, Free, Index;
    UpdatedUnique(its, k, x.elem);
    OwnedResized(its, holds, id, k, h);
    hide Unique;
    forall o <- now.Keys
      ensures Has(two, now[o].node, now[o].Held())
    {
      HasUpdated(its, k, x.elem, holds[o].node, holds[o].Held());
    }
  }

  lemma OwnedRemoved(its: seq<Item<Range>>, holds: HoldMap, id: int, k: nat)
    requires AllOwned(its, holds) && Unique(its) && id in holds && k < |its| && its[k].node == holds[id].node
    ensures AllOwned(Removed(its, k), holds - {id})
  {
    var now := holds - {id};
    RemovedItems(its, k);
    RemovedAbsent(its, k);
    hide Removed;
    forall i | 0 <= i < |its| - 1
      ensures Owned(now, Removed(its, k)[i])
    {
      var o := OwnerAt(its, holds, if i < k then i else i + 1);
      assert Removed(its, k)[i].node != holds[id].node;
      assert o in now.Keys && now[o] == holds[o];
    }
  }

  lemma ApartRemoved(its: seq<Item<Range>>, k: nat)
    requires Apart(its) && k < |its|
    ensures Apart(Removed(its, k))
  {
  }

  lemma DeleteView(its: seq<Item<Range>>, holds: HoldMap, id: int, k: nat)
    requires WriteView(its, holds) && id in holds && k < |its| && its[k].node == holds[id].node
    requires Unique(Removed(its, k))
    ensures WriteView(Removed(its, k), holds - {id})
  {
    var two, now := Removed(its, k), holds - {id};
    WriteViewIs(its, holds);
    WriteViewIs(two, now);
    hide WriteView, Apart, AllOwned, Owned, Has, Unique, Removed;
    ApartRemoved(its, k);
    OwnedRemoved(its, holds, id, k);
    forall o <- now.Keys
      ensures Has(two, now[o].node, now[o].Held())
    {
      HasRemoved(its, k, holds[o].node, holds[o].Held());
    }
  }

  lemma EmptyView()
    ensures WriteView([], map[])
  {
  }
}
