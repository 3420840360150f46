/**
 Regions of the file, the tracker that guesses which of them can serve a request, and growing and
 shrinking the file.
 */
module Regions {
  import opened Bits
  import opened BuddySpace
  import opened BuddyAllocator

  const ORDERS: nat := 21
  const INITIAL_REGIONS: nat := 1000

  /** For each order, the regions that may have a block of that order free are the clear bits. */
  class RegionTracker {
    var orders: seq<Bits>

    constructor (regions: nat)
      ensures Valid() && orders[0].len == regions && forall o :: 0 <= o < ORDERS ==> orders[o].clear == {}
    {
      orders := seq(ORDERS, o => Bits(regions, {}));
    }

    ghost predicate Valid()
      reads this
    {
      |orders| == ORDERS && forall o :: 0 <= o < ORDERS ==> orders[o].Valid() && orders[o].len == orders[0].len
    }

    /** The lowest region named for the order, if one is. */
    method FindFree(order: nat) returns (r: Option<nat>)
      requires Valid() && order < ORDERS
      ensures r.None? <==> orders[order].clear == {}
      ensures r.Some? ==> r.value in orders[order].clear && forall k :: k in orders[order].clear ==> r.value <= k
    {
      r := orders[order].FirstClear();
    }

    /** A region with a block of some order free may serve every lower order too. */
    method MarkFree(order: nat, region: nat)
      requires Valid() && order < ORDERS && region < orders[0].len
      modifies this
      ensures Valid() && orders[0].len == old(orders[0].len)
      ensures forall o :: 0 <= o < ORDERS ==> orders[o].clear == if o <= order then old(orders)[o].clear + {region}
        else old(orders)[o].clear
    {
      for i := 0 to order + 1
        invariant Valid() && orders[0].len == old(orders[0].len)
        invariant forall o :: 0 <= o < ORDERS ==> orders[o].clear == if o < i then old(orders)[o].clear + {region}
          else old(orders)[o].clear
      {
        orders := orders[i := orders[i].WithClear(region)];
      }
    }

    /** A region without a block of some order cannot serve a higher one either. */
    method MarkFull(order: nat, region: nat)
      requires Valid() && order < ORDERS
      modifies this
      ensures Valid() && orders[0].len == old(orders[0].len)
      ensures forall o :: 0 <= o < ORDERS ==> orders[o].clear == if o >= order then old(orders)[o].clear - {region}
        else old(orders)[o].clear
    {
      for i := order to ORDERS
        invariant Valid() && orders[0].len == old(orders[0].len)
        invariant forall o :: 0 <= o < ORDERS ==>
          orders[o].clear == if order <= o < i then old(orders)[o].clear - {region} else old(orders)[o].clear
      {
        orders := orders[i := orders[i].WithSet(region)];
      }
    }

    method Resize(n: nat)
      requires Valid() && n >= orders[0].len
      modifies this
      ensures Valid() && orders[0].len == n && forall o :: 0 <= o < ORDERS ==> orders[o].clear == old(orders)[o].clear
    {
      orders := seq(ORDERS, o requires 0 <= o < |orders| reads this => Bits(n, orders[o].clear));
    }
  }

  ghost predicate FreeRange(pages: set<nat>, lo: int, hi: nat)
  {
    forall x: nat :: lo <= x < hi ==> x in pages
  }

  // ----- where an aligned block fits -----

  /** A free tail long enough, or cut at a multiple of the block size, holds an aligned block. */
  lemma TailHoldsBlock(pages: set<nat>, lo: nat, o: nat, len: nat) returns (p: nat)
    requires FreeRange(pages, lo, len)
    requires len >= lo + 2 * Size(o) - 1 || (len >= lo + Size(o) && len % Size(o) == 0)
    ensures BlockIn(pages, o, p, len)
  {
    var s := Size(o);
    p := if len >= lo + 2 * s - 1 then (lo + s - 1) / s else len / s - 1;
    BlockStarts(lo, len, s, p);
    var x := First(o, p);
    hide Up, First, Size;
    FirstIsProduct(o, p);
    assert Up(x, o) == p;
    assert Aligned(x, o);
    AlignedBlock(x, o);
    AlignedInside(x, o, len);
  }

  lemma BlockStarts(lo: nat, len: nat, s: nat, p: int)
    requires s > 0
    requires if len >= lo + 2 * s - 1 then p == (lo + s - 1) / s else len >= lo + s && len % s == 0 && p == len / s - 1
    ensures p >= 0 && lo <= p * s && p * s + s <= len
  {
    if len >= lo + 2 * s - 1 {
      var q, r := (lo + s - 1) / s, (lo + s - 1) % s;
      assert q * s + r == lo + s - 1;
    } else {
      assert (len / s) * s == len;
      assert p * s == len - s;
    }
  }

  // ----- allocating -----

  /** The pages of the block handed out, in the region it came from. */
  ghost function Taken(order: nat, page: nat, len: nat, here: bool): set<nat>
  {
    if here then Block(order, page, len) else {}
  }

  /** Free afterwards: what was free or was added, but for what was taken. */
  ghost predicate Served(before: set<nat>, after: set<nat>, lo: nat, hi: nat, taken: set<nat>)
  {
    forall x: nat :: x in after <==> (x in before || lo <= x < hi) && x !in taken
  }

  lemma ServedGrown(before: set<nat>, mid: set<nat>, after: set<nat>, lo: nat, hi: nat, taken: set<nat>)
    requires WithRange(before, mid, lo, hi) && Served(mid, after, hi, hi, taken)
    ensures Served(before, after, lo, hi, taken)
  {
  }

  class Allocators {
    const tracker: RegionTracker
    const capacity: nat
    const maxOrder: nat
    var regions: seq<BuddyAllocator>
    var full: nat
    var trailing: Option<nat>

    /** A fresh file with the given layout, everything free. */
    constructor (full: nat, trailing: Option<nat>, capacity: nat)
      requires 0 < capacity && (trailing.Some? ==> 0 < trailing.value <= capacity) && (full > 0 || trailing.Some?)
      ensures Valid() && this.full == full && this.trailing == trailing && this.capacity == capacity && fresh(tracker)
      ensures forall k :: 0 <= k < |regions| ==>
        fresh(regions[k]) && WithRange({}, regions[k].FreePages(), 0, regions[k].len)
    {
      hide Inv, Size, PagesOf, WithRange, UsableOrder;
      var count := full + (if trailing.Some? then 1 else 0);
      tracker := new RegionTracker(if count < INITIAL_REGIONS then INITIAL_REGIONS else count);
      this.capacity := capacity;
      maxOrder := UsableOrder(capacity);
      regions := [];
      this.full, this.trailing := full, trailing;
      new;
      UsableOrderBounds(capacity);
      assert Core();
      Populate(count);
    }

    method Populate(count: nat)
      requires Core() && regions == [] && count == full + (if trailing.Some? then 1 else 0)
      requires trailing.Some? ==> 0 < trailing.value <= capacity
      modifies this`regions, tracker
      ensures Core() && |regions| == count
      ensures forall k :: 0 <= k < count ==>
        fresh(regions[k]) && regions[k].len == (if k < full then capacity else trailing.value)
      ensures forall k :: 0 <= k < count ==> WithRange({}, regions[k].FreePages(), 0, regions[k].len)
    {
      hide Inv, Size, PagesOf, WithRange;
      for i := 0 to count
        invariant Core() && |regions| == i
        invariant forall k :: 0 <= k < i ==>
          fresh(regions[k]) && regions[k].len == (if k < full then capacity else trailing.value)
        invariant forall k :: 0 <= k < i ==> WithRange({}, regions[k].FreePages(), 0, regions[k].len)
      {
        ghost var before := regions;
        AddRegion(if i < full then capacity else trailing.value);
        assert forall k :: 0 <= k < i ==> regions[k] == before[k];
      }
    }

    ghost predicate Core()
      reads this, tracker, regions
    {
      && tracker.Valid() && |regions| <= tracker.orders[0].len && maxOrder < ORDERS && 0 < capacity
      && Size(maxOrder) <= capacity && (maxOrder < 20 ==> capacity < 2 * Size(maxOrder))
      && (forall o, r :: 0 <= o < ORDERS && r in tracker.orders[o].clear ==> r < |regions|)
      && (forall i, j :: 0 <= i < j < |regions| ==> regions[i] != regions[j])
      && (forall i :: 0 <= i < |regions| ==>
          regions[i].Valid() && regions[i].maxOrder == maxOrder && 0 < regions[i].len <= capacity)
      && (forall i :: 0 <= i < |regions| - 1 ==> regions[i].len == capacity)
    }

    /** The regions are those of the layout: full ones, and perhaps one shorter at the end. */
    ghost predicate Valid()
      reads this, tracker, regions
    {
      && Core() && |regions| > 0
      && |regions| == full + (if trailing.Some? then 1 else 0)
      && (trailing.None? ==> regions[|regions| - 1].len == capacity)
      && (trailing.Some? ==> regions[full].len == trailing.value)
    }

    /** Whatever block the region has, the tracker names the region for it. */
    ghost predicate Named(k: nat)
      requires k < |regions| && tracker.Valid() && maxOrder < ORDERS
      reads this, tracker, regions
    {
      forall o: nat, p: nat {:trigger BlockIn(regions[k].FreePages(), o, p, regions[k].len)} ::
        o <= maxOrder && BlockIn(regions[k].FreePages(), o, p, regions[k].len) ==> k in tracker.orders[o].clear
    }

    /** A new region after the others, which must all be full. */
    method AddRegion(pages: nat)
      requires Core() && 0 < pages <= capacity && (|regions| > 0 ==> regions[|regions| - 1].len == capacity)
      modifies this`regions, tracker
      ensures Core() && |regions| == old(|regions|) + 1 && regions[..|regions| - 1] == old(regions)
        && fresh(regions[|regions| - 1])
      ensures regions[|regions| - 1].len == pages && WithRange({}, regions[|regions| - 1].FreePages(), 0, pages)
      ensures tracker.orders[0].len >= old(tracker.orders[0].len) && Named(|regions| - 1)
      ensures forall o :: 0 <= o < ORDERS ==> old(tracker.orders)[o].clear <= tracker.orders[o].clear
    {
      hide Inv, Size, PagesOf, BlockIn, WithRange;
      var region, highest := CreateRegion(pages);
      NameRegion(|regions|, highest);
      regions := regions + [region];
      assert region == regions[|regions| - 1];
    }

    method CreateRegion(pages: nat) returns (region: BuddyAllocator, highest: nat)
      requires 0 < pages <= capacity && maxOrder <= 20 && Size(maxOrder) <= capacity
        && (maxOrder < 20 ==> capacity < 2 * Size(maxOrder))
      ensures fresh(region) && region.Valid() && region.len == pages && region.maxOrder == maxOrder
        && WithRange({}, region.FreePages(), 0, pages)
      ensures highest <= maxOrder
      ensures forall o: nat, p: nat {:trigger BlockIn(region.FreePages(), o, p, pages)} ::
        o <= maxOrder && BlockIn(region.FreePages(), o, p, pages) ==> o <= highest
    {
      hide Inv, PagesOf, BlockIn;
      region := new BuddyAllocator(pages, capacity);
      OrderUnique(capacity, maxOrder, region.maxOrder);
      SomethingFree(region.FreePages(), pages);
      var h := region.HighestFreeOrder();
      assert BlockIn(region.FreePages(), 0, 0, region.len);
      highest := h.value;
    }

    method NameRegion(i: nat, highest: nat)
      requires tracker.Valid() && highest < ORDERS
      modifies tracker
      ensures tracker.Valid() && tracker.orders[0].len >= old(tracker.orders[0].len) && i < tracker.orders[0].len
      ensures forall o :: 0 <= o < ORDERS ==>
        tracker.orders[o].clear == if o <= highest then old(tracker.orders)[o].clear + {i}
          else old(tracker.orders)[o].clear
    {
      if i >= tracker.orders[0].len {
        tracker.Resize(i + 1);
      }
      tracker.MarkFree(highest, i);
    }

    /** Tries the regions the tracker names, striking out each that cannot serve the request. */
    method Retry(order: nat, lowest: bool) returns (r: Option<(nat, nat)>)
      requires Core() && order <= maxOrder
      modifies tracker, regions
      ensures Core() && tracker.orders[0].len == old(tracker.orders[0].len)
      ensures forall k :: 0 <= k < |regions| ==> regions[k].len == old(regions[k].len)
      ensures r.None? ==> forall k :: 0 <= k < |regions| ==> regions[k].free == old(regions[k].free)
      ensures r.None? ==> forall k :: k in old(tracker.orders[order].clear) ==>
        k < |regions| && NoBlock(regions[k].FreePages(), order, regions[k].len)
      ensures r.Some? ==>
        r.value.0 < |regions| && BlockIn(old(regions[r.value.0].FreePages()), order, r.value.1, regions[r.value.0].len)
      ensures r.Some? ==>
        regions[r.value.0].FreePages() == old(regions[r.value.0].FreePages()) - Block(order, r.value.1,
                regions[r.value.0].len)
      ensures r.Some? ==> forall k :: 0 <= k < |regions| && k != r.value.0 ==> regions[k].free == old(regions[k].free)
    {
      hide Inv, Size, PagesOf, BlockIn, NoBlock;
      ghost var named := tracker.orders[order].clear;
      while true
        invariant Core() && tracker.orders[0].len == old(tracker.orders[0].len)
        invariant forall k :: 0 <= k < |regions| ==>
          regions[k].free == old(regions[k].free) && regions[k].len == old(regions[k].len)
        invariant tracker.orders[order].clear <= named
        invariant forall k :: k in named && k !in tracker.orders[order].clear ==>
          k < |regions| && NoBlock(regions[k].FreePages(), order, regions[k].len)
        decreases tracker.orders[order].clear
      {
        var candidate := tracker.FindFree(order);
        if candidate.None? {
          return None;
        }
        var c := candidate.value;
        var page := TryNamed(c, order, lowest);
        if page.Some? {
          return Some((c, page.value));
        }
      }
    }

    /** Tries a region the tracker names; one that cannot serve the request is struck out. */
    method TryNamed(c: nat, order: nat, lowest: bool) returns (page: Option<nat>)
      requires Core() && order <= maxOrder && c < |regions| && c in tracker.orders[order].clear
      modifies tracker, regions[c]
      ensures Core() && tracker.orders[0].len == old(tracker.orders[0].len) && regions[c].len == old(regions[c].len)
      ensures page.None? ==>
        regions[c].free == old(regions[c].free) && NoBlock(regions[c].FreePages(), order, regions[c].len)
      ensures page.None? ==> tracker.orders[order].clear == old(tracker.orders[order].clear) - {c}
      ensures page.Some? ==> BlockIn(old(regions[c].FreePages()), order, page.value, regions[c].len)
      ensures page.Some? ==>
        regions[c].FreePages() == old(regions[c].FreePages()) - Block(order, page.value, regions[c].len)
    {
      hide Inv, Size, PagesOf, BlockIn, NoBlock;
      page := TryRegion(c, order, lowest);
      if page.None? {
        tracker.MarkFull(order, c);
      }
    }

    method TryRegion(c: nat, order: nat, lowest: bool) returns (page: Option<nat>)
      requires Core() && order <= maxOrder && c < |regions|
      modifies regions[c]
      ensures Core() && regions[c].len == old(regions[c].len)
      ensures page.None? ==>
        regions[c].free == old(regions[c].free) && NoBlock(regions[c].FreePages(), order, regions[c].len)
      ensures page.Some? ==> BlockIn(old(regions[c].FreePages()), order, page.value, regions[c].len)
      ensures page.Some? ==>
        regions[c].FreePages() == old(regions[c].FreePages()) - Block(order, page.value, regions[c].len)
    {
      hide Inv, Size, PagesOf, BlockIn, NoBlock, LowestOfLowestOrder;
      if lowest {
        page := regions[c].AllocLowest(order);
        if page.Some? {
          LowestIsIn(old(regions[c].FreePages()), order, page.value, regions[c].len);
        }
      } else {
        page := regions[c].AllocInner(order);
      }
    }

    // ----- growing -----

    method GrowLast(pages: nat)
      requires Core() && |regions| > 0 && regions[|regions| - 1].len < pages <= capacity
      modifies tracker, regions[|regions| - 1]
      ensures Core() && regions[|regions| - 1].len == pages && Named(|regions| - 1)
      ensures WithRange(old(regions[|regions| - 1].FreePages()), regions[|regions| - 1].FreePages(),
                        old(regions[|regions| - 1].len), pages)
      ensures tracker.orders[0].len == old(tracker.orders[0].len)
      ensures forall o :: 0 <= o < ORDERS ==> old(tracker.orders)[o].clear <= tracker.orders[o].clear
    {
      hide Inv, Size, PagesOf, BlockIn, WithRange;
      var region := regions[|regions| - 1];
      ghost var before, n := region.FreePages(), region.len;
      var highest := ResizeRegion(region, pages);
      tracker.MarkFree(highest, |regions| - 1);
    }

    method ResizeRegion(region: BuddyAllocator, pages: nat) returns (highest: nat)
      requires region.Valid() && region.maxOrder <= 20 && 0 < region.len < pages
      modifies region
      ensures region.Valid() && region.len == pages && region.maxOrder == old(region.maxOrder)
        && highest <= region.maxOrder
      ensures WithRange(old(region.FreePages()), region.FreePages(), old(region.len), pages)
      ensures forall o: nat, p: nat {:trigger BlockIn(region.FreePages(), o, p, pages)} ::
        o <= region.maxOrder && BlockIn(region.FreePages(), o, p, pages) ==> o <= highest
    {
      hide Inv, Size, PagesOf, BlockIn;
      ghost var before, n := region.FreePages(), region.len;
      region.Resize(pages);
      var h := region.HighestFreeOrder();
      GrownSomewhere(before, region.FreePages(), n, pages);
      assert BlockIn(region.FreePages(), 0, pages - 1, region.len);
      highest := h.value;
    }

    /** Makes the last region as long as the new layout says and adds the regions it has beyond. */
    method GrowTo(nf: nat, nt: Option<nat>)
      requires Valid() && |regions| <= nf + (if nt.Some? then 1 else 0) && (nt.Some? ==> 0 < nt.value <= capacity)
      requires regions[|regions| - 1].len <= (if |regions| - 1 < nf then capacity else nt.value)
      modifies this`regions, this`full, this`trailing, tracker, regions[|regions| - 1]
      ensures Valid() && full == nf && trailing == nt && |regions| >= |old(regions)|
        && regions[..|old(regions)|] == old(regions)
      ensures forall k :: 0 <= k < |regions| ==> regions[k].len == if k < nf then capacity else nt.value
      ensures var l := |old(regions)| - 1;
        && WithRange(old(regions[l].FreePages()), regions[l].FreePages(), old(regions[l].len), regions[l].len)
        && (regions[l].len > old(regions[l].len) ==> Named(l))
      ensures forall k :: |old(regions)| <= k < |regions| ==>
        fresh(regions[k]) && WithRange({}, regions[k].FreePages(), 0, regions[k].len) && Named(k)
    {
      hide Inv, Size, PagesOf, BlockIn, Allocators.Named, WithRange;
      var l := |regions| - 1;
      var pages := if l < nf then capacity else nt.value;
      full, trailing := nf, nt;
      FillLast(pages);
      AddRegions(nf, nt);
    }

    method FillLast(pages: nat)
      requires Core() && |regions| > 0 && regions[|regions| - 1].len <= pages <= capacity
      modifies tracker, regions[|regions| - 1]
      ensures Core() && regions[|regions| - 1].len == pages
      ensures WithRange(old(regions[|regions| - 1].FreePages()), regions[|regions| - 1].FreePages(),
                        old(regions[|regions| - 1].len), pages)
      ensures pages > old(regions[|regions| - 1].len) ==> Named(|regions| - 1)
    {
      hide Inv, Size, PagesOf, BlockIn;
      if regions[|regions| - 1].len != pages {
        GrowLast(pages);
      }
    }

    method AddRegions(nf: nat, nt: Option<nat>)
      requires Core() && 0 < |regions| <= nf + (if nt.Some? then 1 else 0) && (nt.Some? ==> 0 < nt.value <= capacity)
      requires regions[|regions| - 1].len == if |regions| - 1 < nf then capacity else nt.value
      modifies this`regions, tracker
      ensures Core() && |regions| == nf + (if nt.Some? then 1 else 0) && regions[..|old(regions)|] == old(regions)
      ensures forall k :: |old(regions)| <= k < |regions| ==>
        fresh(regions[k]) && regions[k].len == if k < nf then capacity else nt.value
      ensures forall k :: |old(regions)| <= k < |regions| ==>
        WithRange({}, regions[k].FreePages(), 0, regions[k].len) && Named(k)
      ensures forall k :: 0 <= k < |old(regions)| && old(Named(k)) ==> Named(k)
    {
      hide Inv, Size, PagesOf, BlockIn, WithRange;
      var n := |regions|;
      var count := nf + (if nt.Some? then 1 else 0);
      for i := n to count
        invariant Core() && |regions| == i && regions[..n] == old(regions)
        invariant regions[i - 1].len == if i - 1 < nf then capacity else nt.value
        invariant forall k :: n <= k < i ==> fresh(regions[k]) && regions[k].len == if k < nf then capacity
          else nt.value
        invariant forall k :: n <= k < i ==> WithRange({}, regions[k].FreePages(), 0, regions[k].len) && Named(k)
        invariant forall k :: 0 <= k < n && old(Named(k)) ==> Named(k)
      {
        ghost var before := regions;
        AddRegion(if i < nf then capacity else nt.value);
        assert forall k :: 0 <= k < i ==> regions[k] == before[k];
      }
    }

    /** Grows the file for a request: afterwards some region the tracker names holds an aligned block of the order. */
    method Grow(order: nat) returns (ghost k: nat)
      requires Valid() && order <= maxOrder && capacity == Size(maxOrder)
      modifies this`regions, this`full, this`trailing, tracker, regions[|regions| - 1]
      ensures Valid() && |regions| >= |old(regions)| && regions[..|old(regions)|] == old(regions)
      ensures var l := |old(regions)| - 1;
        WithRange(old(regions[l].FreePages()), regions[l].FreePages(), old(regions[l].len), regions[l].len)
      ensures forall i :: |old(regions)| <= i < |regions| ==>
        fresh(regions[i]) && WithRange({}, regions[i].FreePages(), 0, regions[i].len)
      ensures k < |regions| && k in tracker.orders[order].clear
        && !NoBlock(regions[k].FreePages(), order, regions[k].len)
    {
      var desired := Desired(full, trailing, capacity, Size(order));
      var layout := Calculate(desired, capacity);
      var nf, nt := layout.0, layout.1;
      ghost var l, n := |regions| - 1, regions[|regions| - 1].len;
      NextLayout(full, trailing, capacity, maxOrder, order);
      hide Inv, PagesOf, BlockIn, NoBlock;
      GrowTo(nf, nt);
      ghost var p;
      k, p := FindBlock(order, l, n, nf, nt);
    }

    /** One of the grown or added regions holds an aligned block, and the tracker names it. */
    lemma FindBlock(order: nat, l: nat, n: nat, nf: nat, nt: Option<nat>) returns (k: nat, p: nat)
      requires Valid() && l < |regions| && order <= maxOrder && nf == full && nt == trailing && n <= regions[l].len
      requires regions[l].len > n ==> Named(l)
      requires FreeRange(regions[l].FreePages(), n, regions[l].len)
      requires forall i :: l < i < |regions| ==> Named(i) && WithRange({}, regions[i].FreePages(), 0, regions[i].len)
      requires TailFits(n, regions[l].len, Size(order)) || (l + 1 < |regions| && regions[l + 1].len >= Size(order))
      ensures k < |regions| && k in tracker.orders[order].clear
        && !NoBlock(regions[k].FreePages(), order, regions[k].len)
    {
      if TailFits(n, regions[l].len, Size(order)) {
        k := l;
        p := TailHoldsBlock(regions[l].FreePages(), n, order, regions[l].len);
      } else {
        k := l + 1;
        p := 0;
        HeadHoldsBlock(regions[k].FreePages(), order, regions[k].len);
      }
      hide Inv, PagesOf, BlockIn, NoBlock, WithRange, Size;
      assert BlockIn(regions[k].FreePages(), order, p, regions[k].len);
      assert k in tracker.orders[order].clear;
      HasBlock(regions[k].FreePages(), order, p, regions[k].len);
    }

    /** Allocates a block of the order, growing the file when no region can serve it. It never fails. */
    method Allocate(order: nat, lowest: bool) returns (region: nat, page: nat, grown: bool)
      requires Valid() && order <= maxOrder && capacity == Size(maxOrder)
      modifies this, tracker, regions
      ensures Valid() && region < |regions| && |regions| >= |old(regions)| && regions[..|old(regions)|] == old(regions)
      ensures !grown ==>
        |regions| == |old(regions)| && BlockIn(old(regions[region].FreePages()), order, page, old(regions[region].len))
      ensures page < Up(regions[region].len, order)
        && regions[region].FreePages() !! Block(order, page, regions[region].len)
      ensures forall k :: 0 <= k < |old(regions)| ==>
        Served(old(regions[k].FreePages()), regions[k].FreePages(), old(regions[k].len), regions[k].len,
               Taken(order, page, regions[k].len, k == region))
      ensures forall k :: |old(regions)| <= k < |regions| ==>
        Served({}, regions[k].FreePages(), 0, regions[k].len, Taken(order, page, regions[k].len, k == region))
    {
      hide Inv, Size, PagesOf, BlockIn, NoBlock, Block, Taken, Served, WithRange;
      var r := Serve(order, lowest);
      grown := r.None?;
      if grown {
        region, page := AllocateGrown(order, lowest);
      } else {
        region, page := r.value.0, r.value.1;
      }
    }

    /** Grows the file by enough for the block, and allocates it. */
    method AllocateGrown(order: nat, lowest: bool) returns (region: nat, page: nat)
      requires Valid() && order <= maxOrder && capacity == Size(maxOrder)
      modifies this, tracker, regions
      ensures Valid() && region < |regions| && |regions| >= |old(regions)| && regions[..|old(regions)|] == old(regions)
      ensures page < Up(regions[region].len, order)
        && regions[region].FreePages() !! Block(order, page, regions[region].len)
      ensures forall k :: 0 <= k < |old(regions)| ==>
        Served(old(regions[k].FreePages()), regions[k].FreePages(), old(regions[k].len), regions[k].len,
               Taken(order, page, regions[k].len, k == region))
      ensures forall k :: |old(regions)| <= k < |regions| ==>
        Served({}, regions[k].FreePages(), 0, regions[k].len, Taken(order, page, regions[k].len, k == region))
    {
      hide Inv, Size, PagesOf, BlockIn, NoBlock, Block, Taken, Served, WithRange;
      ghost var k := GrowFor(order);
      label Mid:
      var r := Serve(order, lowest);
      region, page := r.value.0, r.value.1;
      forall k | 0 <= k < |old(regions)|
        ensures Served(old(regions[k].FreePages()), regions[k].FreePages(), old(regions[k].len), regions[k].len,
                       Taken(order, page, regions[k].len, k == region))
      {
        ServedGrown(old(regions[k].FreePages()), old@Mid(regions[k].FreePages()), regions[k].FreePages(),
                    old(regions[k].len), regions[k].len, Taken(order, page, regions[k].len, k == region));
      }
      forall k | |old(regions)| <= k < |regions|
        ensures Served({}, regions[k].FreePages(), 0, regions[k].len, Taken(order, page, regions[k].len, k == region))
      {
        ServedGrown({}, old@Mid(regions[k].FreePages()), regions[k].FreePages(), 0, regions[k].len,
                    Taken(order, page, regions[k].len, k == region));
      }
    }

    /** Retry, told of all regions: the block leaves the free pages of its region, and no other page does. */
    method Serve(order: nat, lowest: bool) returns (r: Option<(nat, nat)>)
      requires Core() && order <= maxOrder
      modifies tracker, regions
      ensures Core() && tracker.orders[0].len == old(tracker.orders[0].len)
      ensures forall k :: 0 <= k < |regions| ==> regions[k].len == old(regions[k].len)
      ensures r.None? ==> forall k :: 0 <= k < |regions| ==> regions[k].free == old(regions[k].free)
      ensures r.None? ==> forall k :: k in old(tracker.orders[order].clear) ==>
        k < |regions| && NoBlock(regions[k].FreePages(), order, regions[k].len)
      ensures r.Some? ==> var (region, page) := r.value;
        && region < |regions| && BlockIn(old(regions[region].FreePages()), order, page, regions[region].len)
        && page < Up(regions[region].len, order) && regions[region].FreePages() !! Block(order, page,
                regions[region].len)
        && forall k :: 0 <= k < |regions| ==>
             Served(old(regions[k].FreePages()), regions[k].FreePages(), regions[k].len, regions[k].len,
                    Taken(order, page, regions[k].len, k == region))
    {
      hide Inv, Size, PagesOf, BlockIn, NoBlock;
      r := Retry(order, lowest);
      if r.Some? {
        BlockMeans(old(regions[r.value.0].FreePages()), order, r.value.1, regions[r.value.0].len);
      }
    }

    /** The growth of one region, told of all of them. */
    method GrowFor(order: nat) returns (ghost k: nat)
      requires Valid() && order <= maxOrder && capacity == Size(maxOrder)
      modifies this`regions, this`full, this`trailing, tracker, regions[|regions| - 1]
      ensures Valid() && |regions| >= |old(regions)| && regions[..|old(regions)|] == old(regions)
      ensures forall i :: 0 <= i < |old(regions)| ==>
        WithRange(old(regions[i].FreePages()), regions[i].FreePages(), old(regions[i].len), regions[i].len)
      ensures forall i :: |old(regions)| <= i < |regions| ==>
        fresh(regions[i]) && WithRange({}, regions[i].FreePages(), 0, regions[i].len)
      ensures k < |regions| && k in tracker.orders[order].clear
        && !NoBlock(regions[k].FreePages(), order, regions[k].len)
    {
      hide Inv, Size, PagesOf, BlockIn, NoBlock;
      k := Grow(order);
    }

    // ----- shrinking -----

    /** Gives up free pages at the end of the file; a page in use is never given up. */
    method TryShrink(force: bool) returns (shrunk: bool)
      requires Valid()
      modifies this`regions, this`full, this`trailing, tracker, regions[|regions| - 1]
      ensures Valid() && 0 < |regions| <= |old(regions)| && regions == old(regions)[..|regions|]
      ensures forall k :: 0 <= k < |regions| ==>
        && regions[k].len <= old(regions[k].len)
        && WithoutRange(old(regions[k].FreePages()), regions[k].FreePages(), regions[k].len, old(regions[k].len))
        && FreeRange(old(regions[k].FreePages()), regions[k].len, old(regions[k].len))
      ensures forall k :: |regions| <= k < |old(regions)| ==>
        FreeRange(old(regions[k].FreePages()), 0, old(regions[k].len))
    {
      hide Inv, Size, PagesOf, BlockIn;
      var last := regions[|regions| - 1];
      var trailingFree := last.TrailingFreePages();
      if trailingFree == 0 || (trailingFree < last.len / 2 && !force) {
        return false;
      }
      assert FreeRange(last.FreePages(), last.len - trailingFree, last.len);
      if |regions| > 1 && trailingFree == last.len {
        DropLast();
        return true;
      }
      var reduceBy := if !force then trailingFree / 2 else if last.len - 1 < trailingFree then last.len - 1
        else trailingFree;
      ReduceLast(reduceBy);
      return true;
    }

    method DropLast()
      requires Valid() && |regions| > 1
      modifies this`regions, this`full, this`trailing, tracker
      ensures Valid() && regions == old(regions)[..|old(regions)| - 1]
    {
      hide Inv, Size;
      if trailing.Some? {
        trailing := None;
      } else {
        full := full - 1;
      }
      tracker.MarkFull(0, |regions| - 1);
      regions := regions[..|regions| - 1];
    }

    method ReduceLast(pages: nat)
      requires Valid() && pages < regions[|regions| - 1].len
      requires FreeRange(regions[|regions| - 1].FreePages(), regions[|regions| - 1].len - pages,
                         regions[|regions| - 1].len)
      modifies this`full, this`trailing, regions[|regions| - 1]
      ensures Valid() && regions[|regions| - 1].len == old(regions[|regions| - 1].len) - pages
      ensures WithoutRange(old(regions[|regions| - 1].FreePages()), regions[|regions| - 1].FreePages(),
                           regions[|regions| - 1].len, old(regions[|regions| - 1].len))
    {
      hide Inv, Size, PagesOf;
      var last := regions[|regions| - 1];
      var n := last.len - pages;
      if trailing.Some? {
        trailing := Some(n);
      } else {
        full, trailing := full - 1, Some(n);
      }
      if last.len > n {
        last.Resize(n);
      }
    }
  }

  ghost predicate TailFits(lo: nat, len: nat, s: nat)
    requires s > 0
  {
    len >= lo + 2 * s - 1 || (len >= lo + s && len % s == 0)
  }

  lemma {:induction false} BlockMeans(pages: set<nat>, o: nat, p: nat, len: nat)
    requires BlockIn(pages, o, p, len)
    ensures p < Up(len, o) && Block(o, p, len) <= pages
  {
  }

  lemma HasBlock(pages: set<nat>, o: nat, p: nat, len: nat)
    requires BlockIn(pages, o, p, len)
    ensures !NoBlock(pages, o, len)
  {
  }

  lemma {:induction false} HeadHoldsBlock(pages: set<nat>, o: nat, len: nat)
    requires len >= Size(o) && WithRange({}, pages, 0, len)
    ensures BlockIn(pages, o, 0, len)
  {
    hide Up, First, Size;
    FirstIsProduct(o, 0);
    assert Up(First(o, 0), o) == 0;
    AlignedBlock(0, o);
    AlignedInside(0, o, len);
  }

  function Calculate(desired: nat, capacity: nat): (nat, Option<nat>)
    requires capacity > 0
  {
    if desired <= capacity then (0, Some(desired))
    else
      var fullRegions := desired / capacity;
      var remaining := desired - fullRegions * capacity;
      (fullRegions, if remaining > 0 then Some(remaining) else None)
  }

  lemma UsableOrderBounds(capacity: nat)
    requires capacity > 0
    ensures var o := UsableOrder(capacity); o <= 20 && Size(o) <= capacity && (o < 20 ==> capacity < 2 * Size(o))
  {
  }

  lemma {:induction false} OrderAtMost(capacity: nat, a: nat, b: nat)
    requires a <= 20 && Size(a) <= capacity && (b < 20 ==> capacity < 2 * Size(b))
    ensures a <= b
  {
    if b < a {
      SizeMonotone(b + 1, a);
      SizeStep(b);
    }
  }

  /** The capacity fixes the highest order. */
  lemma {:induction false} OrderUnique(capacity: nat, a: nat, b: nat)
    requires a <= 20 && Size(a) <= capacity && (a < 20 ==> capacity < 2 * Size(a))
    requires b <= 20 && Size(b) <= capacity && (b < 20 ==> capacity < 2 * Size(b))
    ensures a == b
  {
    OrderAtMost(capacity, a, b);
    OrderAtMost(capacity, b, a);
  }

  lemma SomethingFree(pages: set<nat>, n: nat)
    requires n > 0 && WithRange({}, pages, 0, n)
    ensures BlockIn(pages, 0, 0, n)
  {
  }

  lemma LowestIsIn(pages: set<nat>, o: nat, p: nat, len: nat)
    requires LowestBlock(pages, o, p, len)
    ensures BlockIn(pages, o, p, len)
  {
  }

  lemma GrownSomewhere(before: set<nat>, after: set<nat>, lo: nat, n: nat)
    requires lo < n && WithRange(before, after, lo, n)
    ensures BlockIn(after, 0, n - 1, n)
  {
  }

  lemma {:induction false} SizeProduct(a: nat, b: nat)
    ensures Size(a + b) == Size(a) * Size(b)
    decreases a
  {
    if a > 0 {
      SizeProduct(a - 1, b);
      assert Size(a + b) == 2 * Size(a - 1 + b);
      assert Size(a) * Size(b) == 2 * (Size(a - 1) * Size(b));
    }
  }

  lemma MultipleMod(p: nat, s: nat)
    requires s > 0
    ensures p * s % s == 0
  {
    ProductQuotient(p, s);
    var x := p * s;
    assert x == s * (x / s) + x % s;
  }

  lemma {:induction false} SizeDivides(a: nat, b: nat)
    requires a <= b
    ensures Size(b) % Size(a) == 0 && Size(a) <= Size(b)
  {
    SizeProduct(b - a, a);
    MultipleMod(Size(b - a), Size(a));
    SizeMonotone(a, b);
  }

  /** The size asked for when the file grows. */
  function Desired(full: nat, trailing: Option<nat>, capacity: nat, required: nat): nat
    requires trailing.Some? ==> trailing.value <= capacity
  {
    var usable := full * capacity + (if trailing.Some? then trailing.value else 0);
    if full > 0 then
      if trailing.Some? then
        if 2 * required < capacity - trailing.value then usable + (capacity - trailing.value)
        else usable + 2 * capacity - trailing.value
      else usable + capacity
    else if usable * 2 > usable + required * 2 then usable * 2 else usable + required * 2
  }

  /** The new layout keeps what there is, and has room for an aligned block in the added part. */
  ghost predicate GoodLayout(full: nat, trailing: Option<nat>, capacity: nat, g: nat, r: (nat, Option<nat>))
    requires g > 0 && (full > 0 || trailing.Some?)
  {
    var count, newCount := full + (if trailing.Some? then 1 else 0), r.0 + (if r.1.Some? then 1 else 0);
    var n := if trailing.Some? then trailing.value else capacity;
    && count <= newCount && (r.1.Some? ==> 0 < r.1.value <= capacity)
    && var len := if count - 1 < r.0 then capacity else r.1.value;
       && n <= len
       && (TailFits(n, len, g) || (count < newCount && (if count < r.0 then capacity else r.1.value) >= g))
  }

  lemma {:induction false} NextLayout(full: nat, trailing: Option<nat>, capacity: nat, maxOrder: nat, order: nat)
    requires order <= maxOrder && capacity == Size(maxOrder) && (full > 0 || trailing.Some?)
      && (trailing.Some? ==> 0 < trailing.value <= capacity)
    ensures GoodLayout(full, trailing, capacity, Size(order),
                       Calculate(Desired(full, trailing, capacity, Size(order)), capacity))
  {
    SizeDivides(order, maxOrder);
    hide Size;
    if full > 0 {
      MoreRegions(full, trailing, capacity, Size(order));
    } else {
      LongerRegion(trailing.value, capacity, Size(order));
    }
  }

  lemma MoreRegions(full: nat, trailing: Option<nat>, capacity: nat, g: nat)
    requires full > 0 && (trailing.Some? ==> 0 < trailing.value <= capacity) && 0 < g <= capacity
    ensures GoodLayout(full, trailing, capacity, g, Calculate(Desired(full, trailing, capacity, g), capacity))
  {
    var more := if trailing.None? then 1 else if 2 * g < capacity - trailing.value then 1 else 2;
    Distribute(full, more, capacity);
    assert Desired(full, trailing, capacity, g) == (full + more) * capacity;
    Multiple(full + more, capacity);
    hide Calculate, Desired;
  }

  lemma Distribute(a: nat, b: nat, c: nat)
    ensures (a + b) * c == a * c + b * c
  {
  }

  lemma LongerRegion(t: nat, capacity: nat, g: nat)
    requires 0 < t <= capacity && 0 < g <= capacity && capacity % g == 0
    ensures GoodLayout(0, Some(t), capacity, g, Calculate(Desired(0, Some(t), capacity, g), capacity))
  {
    var d := Desired(0, Some(t), capacity, g);
    assert d >= t + 2 * g && d >= 2 * t;
    if d > capacity {
      Divided(d, capacity);
      hide Calculate, Desired;
    }
  }

  lemma Multiple(k: nat, c: nat)
    requires c > 0 && k >= 2
    ensures k * c > c && Calculate(k * c, c) == (k, None)
  {
    ProductQuotient(k, c);
    assert k * c >= 2 * c;
  }

  lemma Divided(d: nat, c: nat)
    requires 0 < c < d
    ensures var r := Calculate(d, c);
      && r.0 >= 1 && (r.0 == 1 ==> if d > c then r.1 == Some(d - c) else true) && (r.1.Some? ==> 0 < r.1.value < c)
  {
    var q := d / c;
    assert d == q * c + d % c;
  }
}
