/**
 The buddy allocator of one region. Every operation is specified by what it does to the set of
 free pages; BuddySpace.Canonical then fixes every bit of the index.
 */
module BuddyAllocator {
  import opened Bits
  import opened BuddySpace

  class BuddyAllocator {
    var free: seq<Bits>
    var len: nat
    var maxOrder: nat

    ghost predicate Valid()
      reads this
    {
      |free| == maxOrder + 1 && Inv(free, len)
    }

    ghost function FreePages(): set<nat>
      reads this
    {
      PagesOf(free, len)
    }

    /** Marks a block free, merging it with its buddy as long as the buddy is free. */
    method FreeInner(p: nat, o: nat)
      requires Valid() && o <= maxOrder && p < Up(len, o)
      requires FreePages() !! Block(o, p, len)
      modifies this`free
      ensures Valid()
      ensures FreePages() == old(FreePages()) + Block(o, p, len)
      decreases maxOrder - o
    {
      NothingFree(free, len, o, p);
      if o == maxOrder {
        AddBlock(free, len, o, p);
        free := free[o := free[o].WithClear(p)];
        return;
      }
      var buddy := Buddy(p);
      if buddy >= free[o].len || buddy !in free[o].clear {
        AddBlock(free, len, o, p);
        free := free[o := free[o].WithClear(p)];
      } else {
        RemoveBlock(free, len, o, buddy);
        ParentInside(len, o, p);
        free := free[o := free[o].WithSet(buddy)];
        assert FreePages() == old(FreePages()) - Block(o, buddy, len);
        FreeInner(p / 2, o + 1);
      }
    }
  
    /** Takes a wholly free block out of the index, splitting the recorded block that holds it. */
    method RecordAllocInner(p: nat, o: nat)
      requires Valid() && o <= maxOrder && BlockIn(FreePages(), o, p, len)
      modifies this`free
      ensures Valid()
      ensures FreePages() == old(FreePages()) - Block(o, p, len)
      decreases maxOrder - o
    {
      BlockFreeAsSet(free, len, o, p);
      if p !in free[o].clear {
        // Need to split parent page
        var upper := p / 2;
        SplitParent(free, len, o, p);
        ParentInside(len, o, p);
        RecordAllocInner(upper, o + 1);
        var other := if p == upper * 2 then upper * 2 + 1 else upper * 2;
        SplitOff(free, len, o, p, old(FreePages()));
        free := free[o := free[o].WithClear(other)];
      } else {
        RemoveBlock(free, len, o, p);
        free := free[o := free[o].WithSet(p)];
      }
    }

    /** Takes the lowest recorded block of the lowest order that can serve the request. */
    method AllocInner(o: nat) returns (r: Option<nat>)
      requires Valid()
      modifies this`free
      ensures Valid()
      ensures r.None? ==> free == old(free)
      ensures r.None? ==> o > maxOrder || NoBlock(FreePages(), o, len)
      ensures r.Some? ==> o <= maxOrder && BlockIn(old(FreePages()), o, r.value, len)
      ensures r.Some? ==> FreePages() == old(FreePages()) - Block(o, r.value, len)
      ensures r.Some? ==> LowestOfLowestOrder(old(free), o, r.value)
      decreases maxOrder + 1 - o
    {
      hide Inv, IsFree, NoBlock, ServedBy;
      if o > maxOrder {
        return None;
      }
      var x := free[o].FirstClear();
      if x.Some? {
        RecordedIsFree(free, len, o, x.value);
        RemoveBlock(free, len, o, x.value);
        ServedDirectly(free, o, x.value);
        free := free[o := free[o].WithSet(x.value)];
        return x;
      }
      // Try to allocate a higher order page and split it
      var upper := AllocInner(o + 1);
      if upper.None? {
        NoneBelow(free, len, o);
        return None;
      }
      var free1, free2 := upper.value * 2, upper.value * 2 + 1;
      ChildrenInside(len, o, upper.value);
      SplitOff(free, len, o, free1, old(FreePages()));
      ChildIn(old(FreePages()), len, o, free1);
      ServedOneDown(old(free), o, upper.value);
      free := free[o := free[o].WithClear(free2)];
      return Some(free1);
    }
  
    /** Allocates at the lowest address that can hold a block of this order, by trying every order from `o` up. */
    method AllocLowest(o: nat) returns (r: Option<nat>)
      requires Valid()
      modifies this`free
      ensures Valid()
      ensures r.None? ==> free == old(free)
      ensures r.None? ==> o > maxOrder || NoBlock(FreePages(), o, len)
      ensures r.Some? ==> o <= maxOrder && LowestBlock(old(FreePages()), o, r.value, len)
      ensures r.Some? ==> FreePages() == old(FreePages()) - Block(o, r.value, len)
    {
      hide Inv, IsFree, NoBlock, ServedBy, LowestOfLowestOrder, BeginsRecorded, NoneBefore;
      // Lowest index at the requested order
      var first := AllocInner(o);
      if first.None? {
        return None;
      }
      var bestAtOrder := first.value;
      var best: nat, bestOrder: nat := first.value, o;
      FirstTrial(old(free), free, len, o, best);

      // Find the lowest index at which we can fill this allocation, across all orders
      var multiplier := 2;
      var i := o + 1;
      while i <= maxOrder
        invariant o < i <= maxOrder + 1 && multiplier == Size(i - o)
        invariant Valid() && len == old(len)
        invariant Held(old(free), free, len, o, i, bestOrder, best, bestAtOrder)
      {
        ghost var before := free;
        var t := AllocInner(i);
        if t.Some? {
          var indexAtOrder := t.value * multiplier;
          ScaleIndex(o, i, t.value);
          if indexAtOrder < bestAtOrder {
            FreeInner(best, bestOrder);
            TrialTaken(old(free), before, free, len, o, i, bestOrder, best, bestAtOrder, t.value);
            bestAtOrder := indexAtOrder;
            best, bestOrder := t.value, i;
          } else {
            FreeInner(t.value, i);
            assert FreePages() == PagesOf(before, len);
            TrialKept(old(free), before, free, len, o, i, bestOrder, best, bestAtOrder, t);
          }
        } else {
          TrialKept(old(free), before, free, len, o, i, bestOrder, best, bestAtOrder, t);
        }
        multiplier := multiplier * 2;
        i := i + 1;
      }

      AllTried(old(free), free, len, o, bestOrder, best, bestAtOrder);
      // Split the page, until we get to the requested order
      while bestOrder > o
        invariant o <= bestOrder <= maxOrder && Valid() && len == old(len)
        invariant bestAtOrder == First(bestOrder - o, best)
        invariant BlockIn(old(FreePages()), bestOrder, best, len)
        invariant FreePages() == old(FreePages()) - Block(bestOrder, best, len)
      {
        var free1, free2 := best * 2, best * 2 + 1;
        ChildrenInside(len, bestOrder - 1, best);
        SplitOff(free, len, bestOrder - 1, free1, old(FreePages()));
        ChildIn(old(FreePages()), len, bestOrder - 1, free1);
        free := free[bestOrder - 1 := free[bestOrder - 1].WithClear(free2)];
        best, bestOrder := free1, bestOrder - 1;
      }
      return Some(best);
    }
  
    /** The order at which a page is recorded free. */
    method FindFreeOrder(page: nat) returns (r: Option<nat>)
      requires Valid()
      ensures r.Some? ==> r.value <= maxOrder && Up(page, r.value) in free[r.value].clear
      ensures r.Some? <==> page in FreePages()
    {
      hide OneOrder, Merged, PagesOf, IsFree;
      NotFree(free, len, page);
      var p := page;
      for order := 0 to maxOrder + 1
        invariant p == Up(page, order)
        invariant forall k {:trigger free[k]} :: 0 <= k < order ==> Up(page, k) !in free[k].clear
      {
        if p < free[order].len && p in free[order].clear {
          return Some(order);
        }
        p := p / 2;
      }
      return None;
    }

    /** The length of the longest free tail of the region. */
    method TrailingFreePages() returns (n: nat)
      requires Valid() && len > 0
      ensures n <= len && forall x: nat :: len - n <= x < len ==> x in FreePages()
      ensures n < len ==> len - n - 1 !in FreePages()
    {
      hide Inv, IsFree;
      n := 0;
      var next := len - 1;
      while true
        invariant 0 <= next < len && n + next + 1 == len
        invariant forall x: nat :: next < x < len ==> x in FreePages()
        invariant next + 1 == len || BeginsRecorded(free, 0, next + 1)
        decreases next
      {
        var order := FindFreeOrder(next);
        if order.None? {
          break;
        }
        var orderSize := Size(order.value);
        BlockEndsAt(free, len, order.value, next);
        TailGrows(free, len, order.value, next);
        n := n + orderSize;
        if orderSize > next {
          break;
        }
        next := next - orderSize;
      }
    }

    method CountFreePages() returns (pages: nat)
      requires Valid()
      ensures pages == |FreePages()|
    {
      pages := 0;
      for order := 0 to maxOrder + 1
        invariant pages == CountTo(free, order)
      {
        pages := pages + |free[order].clear| * Size(order);
      }
      CountIsCard(free, len);
    }
  
    /** The highest order with a recorded block: no larger block is free anywhere. */
    method HighestFreeOrder() returns (r: Option<nat>)
      requires Valid()
      ensures r.Some? ==> r.value <= maxOrder && free[r.value].clear != {}
      ensures forall o: nat, p: nat {:trigger BlockIn(FreePages(), o, p, len)} ::
        o <= maxOrder && BlockIn(FreePages(), o, p, len) ==> r.Some? && o <= r.value
    {
      hide Inv, IsFree, BlockIn, PagesOf;
      ghost var pages := PagesOf(free, len);
      r := None;
      var i := maxOrder + 1;
      while i > 0 && r.None?
        invariant 0 <= i <= maxOrder + 1 && (r.Some? ==> r.value == i <= maxOrder && free[i].clear != {})
        invariant forall o: nat {:trigger NoBlock(pages, o, len)} ::
          (if r.Some? then i + 1 else i) <= o <= maxOrder ==> NoBlock(pages, o, len)
      {
        i := i - 1;
        if free[i].clear != {} {
          r := Some(i);
        } else {
          assert i + 1 <= maxOrder ==> NoBlock(pages, i + 1, len);
          NoneBelow(free, len, i);
        }
      }
      forall o: nat, p: nat | o <= maxOrder && BlockIn(pages, o, p, len)
        ensures r.Some? && o <= r.value
      {
        assert !NoBlock(pages, o, len);
      }
    }

    method ResizeBitmaps(newSize: nat)
      requires Valid() && forall x :: x in FreePages() ==> x < newSize
      modifies this`free, this`len
      ensures Valid() && len == newSize && FreePages() == old(FreePages())
    {
      hide Inv, IsFree;
      assert forall x :: x in PagesOf(free, len) ==> x in FreePages();
      var pagesForOrder := newSize;
      for i := 0 to |free|
        invariant |free| == |old(free)| && len == old(len) && pagesForOrder == Up(newSize, i)
        invariant forall o :: 0 <= o < |free| ==> free[o].clear == old(free)[o].clear
        invariant forall o {:trigger free[o]} :: 0 <= o < i ==> free[o].len == Up(newSize, o)
      {
        free := free[i := free[i].(len := pagesForOrder)];
        pagesForOrder := pagesForOrder / 2;
      }
      Relength(old(free), free, len, newSize);
      len := newSize;
    }

    /** Adds the pages up to `newSize` as free. */
    method Grow(newSize: nat)
      requires Valid() && 0 < len < newSize
      modifies this`free, this`len
      ensures Valid() && len == newSize
      ensures WithRange(old(FreePages()), FreePages(), old(len), newSize)
    {
      hide Inv, IsFree, Up;
      var oldLen := len;
      var processed := len;
      ResizeBitmaps(newSize);
      // Align to the highest order possible
      while processed < newSize
        invariant oldLen <= processed <= newSize && Valid() && len == newSize
        invariant WithRange(old(FreePages()), FreePages(), oldLen, processed)
      {
        var order := TrailingZeros(processed);
        var orderSize := Size(order);
        var page := processed / orderSize;
        if order >= maxOrder || processed + orderSize > newSize {
          break;
        }
        TrailingZerosAligned(processed);
        ExtendRange(old(FreePages()), FreePages(), oldLen, processed, order, newSize);
        FreeInner(page, order);
        processed := processed + orderSize;
      }
      if processed < newSize {
        ReadyAfterAligning(processed, maxOrder, newSize);
      }
      // Free the remaining space, at the highest order
      var order := maxOrder + 1;
      while order > 0
        invariant 0 <= order <= maxOrder + 1
        invariant oldLen <= processed <= newSize && Valid() && len == newSize
        invariant WithRange(old(FreePages()), FreePages(), oldLen, processed)
        invariant order > 0 ==> Ready(processed, order - 1, newSize)
        invariant order == 0 ==> processed == newSize
      {
        order := order - 1;
        var orderSize := Size(order);
        while processed + orderSize <= newSize
          invariant oldLen <= processed <= newSize && Valid() && len == newSize
          invariant WithRange(old(FreePages()), FreePages(), oldLen, processed)
          invariant Ready(processed, order, newSize)
          decreases newSize - processed
        {
          assert Aligned(processed, order);
          ExtendRange(old(FreePages()), FreePages(), oldLen, processed, order, newSize);
          ReadyNext(processed, order, newSize);
          var page := processed / orderSize;
          FreeInner(page, order);
          processed := processed + orderSize;
        }
      }
    }

    /** Drops the pages from `newSize` on, all of which must be free. */
    method Shrink(newSize: nat)
      requires Valid() && maxOrder <= 20 && newSize <= len
      requires forall x: nat :: newSize <= x < len ==> x in FreePages()
      modifies this`free, this`len
      ensures Valid() && len == newSize
      ensures WithoutRange(old(FreePages()), FreePages(), newSize, old(len))
    {
      hide Inv, IsFree, Up;
      var processed := newSize;
      // Align to the highest order possible
      while processed < len
        invariant newSize <= processed <= len && Valid() && len == old(len)
        invariant WithoutRange(old(FreePages()), FreePages(), newSize, processed)
      {
        var order := TrailingZeros(processed);
        if order >= maxOrder {
          break;
        }
        var orderSize := Size(order);
        var page := processed / orderSize;
        if processed + orderSize > len {
          break;
        }
        TrailingZerosAligned(processed);
        ExtendRemoval(old(FreePages()), FreePages(), newSize, processed, order, len);
        RecordAllocInner(page, order);
        processed := processed + orderSize;
      }
      if processed < len {
        ReadyAfterAligning(processed, maxOrder, len);
      }
      // Allocate the remaining space, at the highest order
      var order := maxOrder + 1;
      while order > 0
        invariant 0 <= order <= maxOrder + 1
        invariant newSize <= processed <= len && Valid() && len == old(len)
        invariant WithoutRange(old(FreePages()), FreePages(), newSize, processed)
        invariant order > 0 ==> Ready(processed, order - 1, len)
        invariant order == 0 ==> processed == len
      {
        order := order - 1;
        var orderSize := Size(order);
        while processed + orderSize <= len
          invariant newSize <= processed <= len && Valid() && len == old(len)
          invariant WithoutRange(old(FreePages()), FreePages(), newSize, processed)
          invariant Ready(processed, order, len)
          decreases len - processed
        {
          assert Aligned(processed, order);
          ExtendRemoval(old(FreePages()), FreePages(), newSize, processed, order, len);
          ReadyNext(processed, order, len);
          var page := processed / orderSize;
          RecordAllocInner(page, order);
          processed := processed + orderSize;
        }
      }
      ResizeBitmaps(newSize);
    }
  
    method Resize(newSize: nat)
      requires Valid() && maxOrder <= 20
      requires newSize > len ==> len > 0
      requires forall x: nat :: newSize <= x < len ==> x in FreePages()
      modifies this`free, this`len
      ensures Valid() && len == newSize
      ensures newSize > old(len) ==> WithRange(old(FreePages()), FreePages(), old(len), newSize)
      ensures newSize <= old(len) ==> WithoutRange(old(FreePages()), FreePages(), newSize, old(len))
    {
      if newSize > len {
        Grow(newSize);
      } else {
        Shrink(newSize);
      }
    }

    /** One bitmap per order with every bit set. */
    static method FullBitmaps(numPages: nat, order: nat) returns (bitmaps: seq<Bits>)
      ensures |bitmaps| == order + 1 && Inv(bitmaps, numPages) && PagesOf(bitmaps, numPages) == {}
      ensures Ready(0, order, numPages)
      ensures forall k {:trigger bitmaps[k]} :: 0 <= k <= order ==> bitmaps[k].clear == {}
    {
      bitmaps := [];
      var pagesForOrder := numPages;
      for i := 0 to order + 1
        invariant |bitmaps| == i && pagesForOrder == Up(numPages, i)
        invariant forall o {:trigger bitmaps[o]} :: 0 <= o < i ==> bitmaps[o] == Bits(Up(numPages, o), {})
      {
        bitmaps := bitmaps + [Bits(pagesForOrder, {})];
        pagesForOrder := pagesForOrder / 2;
      }
      NothingRecorded(bitmaps, numPages);
    }

    /** A region of `numPages` free pages that may later grow to `capacity`. */
    constructor (numPages: nat, capacity: nat)
      requires 0 < capacity && numPages <= capacity
      ensures Valid() && len == numPages && maxOrder <= 20
      ensures WithRange({}, FreePages(), 0, numPages)
      ensures Size(maxOrder) <= capacity && (maxOrder < 20 ==> capacity < 2 * Size(maxOrder))
    {
      hide Inv, IsFree, Up, PagesOf, WithRange, Ready, Aligned, Size;
      var order := UsableOrder(capacity);
      var bitmaps := FullBitmaps(numPages, order);
      EmptyRange();
      // Mark the available pages, starting with the highest order
      var accounted := 0;
      var o := order + 1;
      while o > 0
        invariant 0 <= o <= order + 1 && |bitmaps| == order + 1 && Inv(bitmaps, numPages)
        invariant 0 <= accounted <= numPages && WithRange({}, PagesOf(bitmaps, numPages), 0, accounted)
        invariant forall k {:trigger bitmaps[k]} :: 0 <= k < o ==> bitmaps[k].clear == {}
        invariant o > 0 ==> Ready(accounted, o - 1, numPages)
        invariant o <= order ==> accounted + Size(o) > numPages
      {
        o := o - 1;
        SizeStep(o);
        var orderSize := Size(o);
        while accounted + orderSize <= numPages
          invariant |bitmaps| == order + 1 && Inv(bitmaps, numPages)
          invariant 0 <= accounted <= numPages && WithRange({}, PagesOf(bitmaps, numPages), 0, accounted)
          invariant forall k {:trigger bitmaps[k]} :: 0 <= k < o ==> bitmaps[k].clear == {}
          invariant bitmaps[o].clear == {} || o == order || accounted + orderSize > numPages
          invariant Ready(accounted, o, numPages)
          decreases numPages - accounted
        {
          ReadyAligned(accounted, o, numPages);
          PlaceBlock(bitmaps, numPages, o, accounted);
          ReadyNext(accounted, o, numPages);
          var page := accounted / orderSize;
          bitmaps := bitmaps[o := bitmaps[o].WithClear(page)];
          accounted := accounted + orderSize;
        }
        if o > 0 {
          ReadyDown(accounted, o, numPages);
        }
      }
      SizeStep(0);
      free, len, maxOrder := bitmaps, numPages, order;
    }
  }

  /**
   The allocator state is a function of what is free: two allocators of one length and one number
   of orders with the same free pages agree on every bit, whatever histories of allocations,
   frees, recorded allocations and resizes led to them.
   */
  lemma SameFreePagesSameState(a: BuddyAllocator, b: BuddyAllocator)
    requires a.Valid() && b.Valid() && a.len == b.len && a.maxOrder == b.maxOrder
    requires a.FreePages() == b.FreePages()
    ensures a.free == b.free
  {
    forall x: nat
      ensures IsFree(a.free, x) <==> IsFree(b.free, x)
    {
      NotFree(a.free, a.len, x);
      NotFree(b.free, b.len, x);
      assert x in a.FreePages() <==> x in b.FreePages();
    }
    Canonical(a.free, b.free, a.len);
  }

  /** All pages of the given (order, index) blocks. */
  ghost function UnionOf(blocks: seq<(nat, nat)>, len: nat): set<nat>
  {
    set x: nat | x < len && InSome(blocks, x)
  }

  ghost predicate InSome(blocks: seq<(nat, nat)>, x: nat)
  {
    exists b :: b in blocks && Up(x, b.0) == b.1
  }

  ghost predicate DisjointBlocks(blocks: seq<(nat, nat)>)
  {
    forall i, j, x: nat :: 0 <= i < j < |blocks| && Up(x, blocks[i].0) == blocks[i].1 ==>
      Up(x, blocks[j].0) != blocks[j].1
  }

  lemma UnionStep(blocks: seq<(nat, nat)>, i: nat, len: nat)
    requires DisjointBlocks(blocks) && i < |blocks|
    ensures UnionOf(blocks[..i + 1], len) == UnionOf(blocks[..i], len) + Block(blocks[i].0, blocks[i].1, len)
    ensures UnionOf(blocks[..i], len) !! Block(blocks[i].0, blocks[i].1, len)
  {
    forall x: nat
      ensures InSome(blocks[..i + 1], x) <==> InSome(blocks[..i], x) || Up(x, blocks[i].0) == blocks[i].1
      ensures !(InSome(blocks[..i], x) && Up(x, blocks[i].0) == blocks[i].1)
    {
      assert blocks[..i + 1] == blocks[..i] + [blocks[i]];
      if InSome(blocks[..i], x) {
        var b :| b in blocks[..i] && Up(x, b.0) == b.1;
        assert b in blocks[..i + 1];
      }
    }
  }

  /** Rebuilding an index, as repair does: recording each block of a list of disjoint free blocks. */
  method RecordAll(a: BuddyAllocator, blocks: seq<(nat, nat)>)
    requires a.Valid() && DisjointBlocks(blocks)
    requires forall b :: b in blocks ==> b.0 <= a.maxOrder && BlockIn(a.FreePages(), b.0, b.1, a.len)
    modifies a`free
    ensures a.Valid()
    ensures a.FreePages() == old(a.FreePages()) - UnionOf(blocks, a.len)
  {
    hide Inv, IsFree, DisjointBlocks, UnionOf;
    ghost var pages := a.FreePages();
    assert UnionOf([], a.len) == {} by { NoBlocks(a.len); }
    assert blocks[..0] == [];
    for i := 0 to |blocks|
      invariant a.Valid()
      invariant a.FreePages() == pages - UnionOf(blocks[..i], a.len)
    {
      var (o, p) := blocks[i];
      UnionStep(blocks, i, a.len);
      a.RecordAllocInner(p, o);
    }
    assert blocks[..|blocks|] == blocks;
  }

  lemma NoBlocks(len: nat)
    ensures UnionOf([], len) == {}
  {
  }

  /** The order in which a repair records the blocks makes no difference to any bit. */
  lemma RebuildInAnyOrder(f1: seq<Bits>, f2: seq<Bits>, len: nat, pages: set<nat>, b1: seq<(nat, nat)>,
                          b2: seq<(nat, nat)>)
    requires Inv(f1, len) && Inv(f2, len) && |f1| == |f2|
    requires PagesOf(f1, len) == pages - UnionOf(b1, len)
    requires PagesOf(f2, len) == pages - UnionOf(b2, len)
    requires multiset(b1) == multiset(b2)
    ensures f1 == f2
  {
    forall x: nat
      ensures InSome(b1, x) <==> InSome(b2, x)
    {
      assert forall b :: b in b1 <==> b in multiset(b1);
      assert forall b :: b in b2 <==> b in multiset(b2);
    }
    assert UnionOf(b1, len) == UnionOf(b2, len);
    forall x: nat
      ensures IsFree(f1, x) <==> IsFree(f2, x)
    {
      NotFree(f1, len, x);
      NotFree(f2, len, x);
    }
    Canonical(f1, f2, len);
  }

  /** Freeing a block just allocated restores every bit. */
  method FreeUndoesAlloc(a: BuddyAllocator, o: nat) returns (r: Option<nat>)
    requires a.Valid()
    modifies a
    ensures a.Valid() && a.len == old(a.len) && a.free == old(a.free)
  {
    ghost var before := a.free;
    hide Inv, IsFree, NoBlock, LowestOfLowestOrder;
    r := a.AllocInner(o);
    if r.Some? {
      a.FreeInner(r.value, o);
      assert a.FreePages() == PagesOf(before, a.len);
      SamePagesSameBits(before, a.free, a.len);
    }
  }

  lemma SamePagesSameBits(a: seq<Bits>, b: seq<Bits>, len: nat)
    requires Inv(a, len) && Inv(b, len) && |a| == |b| && PagesOf(a, len) == PagesOf(b, len)
    ensures a == b
  {
    forall x: nat
      ensures IsFree(a, x) <==> IsFree(b, x)
    {
      NotFree(a, len, x);
      NotFree(b, len, x);
      assert x in PagesOf(a, len) <==> x in PagesOf(b, len);
    }
    Canonical(a, b, len);
  }
}
