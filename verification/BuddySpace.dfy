/**
 The page space of a region as a buddy allocator sees it.

 A block is a pair (order, index) and stands for the pages whose number, shifted right `order`
 times, is the index. Free space is kept as one bitmap per order, a clear bit meaning "this
 block is free at this order".
 */
module BuddySpace {
  import opened Bits

  /** `x >> o`: the index of the order-`o` block that holds page (or lower block) `x`. */
  function Up(x: nat, o: nat): nat
  {
    if o == 0 then x else Up(x, o - 1) / 2
  }

  /** `p << o`: the first page of block (o, p). */
  function First(o: nat, p: nat): (x: nat)
    ensures Up(x, o) == p
  {
    if o == 0 then p
    else
      var x := First(o - 1, 2 * p);
      x
  }

  function Size(o: nat): (s: nat)
    ensures s >= 1
  {
    if o == 0 then 1 else 2 * Size(o - 1)
  }

  lemma SizeStep(o: nat)
    ensures Size(o + 1) == 2 * Size(o) && Size(0) == 1
  {
  }

  lemma {:induction false} UpMonotone(x: nat, y: nat, o: nat)
    requires x <= y
    ensures Up(x, o) <= Up(y, o)
  {
    if o > 0 {
      UpMonotone(x, y, o - 1);
    }
  }

  lemma {:induction false} UpUp(x: nat, a: nat, b: nat)
    ensures Up(Up(x, a), b) == Up(x, a + b)
  {
    if b > 0 {
      UpUp(x, a, b - 1);
    }
  }

  /** A block covers exactly the pages from `First(o, p)` up to `First(o, p + 1)`. */
  lemma {:induction false} BlockRange(o: nat, p: nat, x: nat)
    ensures First(o, p) < First(o, p + 1)
    ensures Up(x, o) == p <==> First(o, p) <= x < First(o, p + 1)
  {
    if o > 0 {
      BlockRange(o - 1, 2 * p, x);
      BlockRange(o - 1, 2 * p + 1, x);
      assert First(o, p) == First(o - 1, 2 * p);
      assert First(o, p + 1) == First(o - 1, 2 * p + 2);
      assert Up(x, o) == p <==> Up(x, o - 1) == 2 * p || Up(x, o - 1) == 2 * p + 1;
    }
  }

  lemma {:induction false} FirstIsProduct(o: nat, p: nat)
    ensures First(o, p) == p * Size(o)
  {
    if o > 0 {
      FirstIsProduct(o - 1, 2 * p);
    }
  }

  ghost predicate IsFree(free: seq<Bits>, x: nat)
  {
    exists o {:trigger free[o]} :: 0 <= o < |free| && Up(x, o) in free[o].clear
  }

  /** All pages of block (o, p) are free, whatever orders they are recorded at. */
  ghost predicate BlockFree(free: seq<Bits>, o: nat, p: nat)
  {
    forall x: nat {:trigger IsFree(free, x)} :: Up(x, o) == p ==> IsFree(free, x)
  }

  /** What every operation keeps (the assertions of debug_check_consistency, plus the bitmap lengths). */
  ghost predicate Inv(free: seq<Bits>, len: nat)
  {
    Shape(free, len) && OneOrder(free) && Merged(free)
  }

  /** One bitmap per order, each half as long as the one below, with no bit clear past its length. */
  ghost predicate Shape(free: seq<Bits>, len: nat)
  {
    && |free| > 0
    && (forall o {:trigger free[o]} :: 0 <= o < |free| ==> free[o].len == Up(len, o) && free[o].Valid())
  }

  /** No page is free at two orders. */
  ghost predicate OneOrder(free: seq<Bits>)
  {
    forall x: nat, a, b :: 0 <= a < b < |free| && Up(x, a) in free[a].clear ==> Up(x, b) !in free[b].clear
  }

  function Buddy(p: nat): nat
  {
    if p % 2 == 0 then p + 1 else p - 1
  }

  /** Below the top order two free buddies never stay apart. */
  ghost predicate Merged(free: seq<Bits>)
  {
    forall o, p :: 0 <= o < |free| - 1 && p in free[o].clear ==> Buddy(p) !in free[o].clear
  }

  lemma FreeIsInside(free: seq<Bits>, len: nat, x: nat)
    requires Inv(free, len) && IsFree(free, x)
    ensures x < len
  {
    var o :| 0 <= o < |free| && Up(x, o) in free[o].clear;
    if x >= len {
      UpMonotone(len, x, o);
    }
  }

  /** A block all of whose pages are free lies in one recorded free block of the same or a higher order. */
  lemma {:induction false} Covered(free: seq<Bits>, o: nat, p: nat) returns (c: nat)
    requires Merged(free) && o < |free| && BlockFree(free, o, p)
    ensures o <= c < |free| && Up(p, c - o) in free[c].clear
  {
    if o == 0 {
      assert Up(p, 0) == p;
      assert IsFree(free, p);
      c :| 0 <= c < |free| && Up(p, c) in free[c].clear;
    } else {
      ChildrenFree(free, o, p);
      var l := Covered(free, o - 1, 2 * p);
      var r := Covered(free, o - 1, 2 * p + 1);
      assert Up(2 * p, 0) == 2 * p && Up(2 * p + 1, 0) == 2 * p + 1 && Buddy(2 * p) == 2 * p + 1;
      if l >= o {
        UpUp(2 * p, 1, l - o);
        c := l;
      } else if r >= o {
        UpUp(2 * p + 1, 1, r - o);
        c := r;
      } else {
        assert false;
      }
    }
  }

  lemma ChildrenFree(free: seq<Bits>, o: nat, p: nat)
    requires o > 0 && BlockFree(free, o, p)
    ensures BlockFree(free, o - 1, 2 * p) && BlockFree(free, o - 1, 2 * p + 1)
  {
    forall x: nat | Up(x, o - 1) == 2 * p || Up(x, o - 1) == 2 * p + 1
      ensures IsFree(free, x)
    {
      assert Up(x, o) == p;
    }
  }

  /** Clearing the bit of a block with no free page, and no free buddy to merge with, frees just that block. */
  lemma {:induction false} AddBlock(free: seq<Bits>, len: nat, o: nat, p: nat)
    requires Inv(free, len) && o < |free| && p < Up(len, o)
    requires forall x: nat :: Up(x, o) == p ==> !IsFree(free, x)
    requires o == |free| - 1 || Buddy(p) !in free[o].clear
    ensures var free' := free[o := free[o].WithClear(p)];
            Inv(free', len) && forall x: nat :: IsFree(free', x) <==> IsFree(free, x) || Up(x, o) == p
  {
    AddKeepsOneOrder(free, o, p);
    AddKeepsMerged(free, o, p);
    AddPages(free, o, p);
  }

  lemma AddKeepsMerged(free: seq<Bits>, o: nat, p: nat)
    requires Merged(free) && o < |free|
    requires o == |free| - 1 || Buddy(p) !in free[o].clear
    ensures Merged(free[o := free[o].WithClear(p)])
  {
  }

  lemma {:induction false} AddPages(free: seq<Bits>, o: nat, p: nat)
    requires o < |free|
    ensures var free' := free[o := free[o].WithClear(p)];
            forall x: nat :: IsFree(free', x) <==> IsFree(free, x) || Up(x, o) == p
  {
    var free' := free[o := free[o].WithClear(p)];
    forall x: nat
      ensures IsFree(free', x) <==> IsFree(free, x) || Up(x, o) == p
    {
      if IsFree(free, x) {
        var c :| 0 <= c < |free| && Up(x, c) in free[c].clear;
        assert Up(x, c) in free'[c].clear;
      }
      if Up(x, o) == p {
        assert Up(x, o) in free'[o].clear;
      }
    }
  }

  lemma {:induction false} AddKeepsOneOrder(free: seq<Bits>, o: nat, p: nat)
    requires OneOrder(free) && o < |free|
    requires forall x: nat :: Up(x, o) == p ==> !IsFree(free, x)
    ensures OneOrder(free[o := free[o].WithClear(p)])
  {
    var free' := free[o := free[o].WithClear(p)];
    forall x: nat, a, b | 0 <= a < b < |free'| && Up(x, a) in free'[a].clear
      ensures Up(x, b) !in free'[b].clear
    {
      if Up(x, o) == p {
        assert !IsFree(free, x);
        assert Up(x, a) !in free[a].clear && Up(x, b) !in free[b].clear;
      }
    }
  }

  /** Setting the bit of a recorded free block takes away just its pages. */
  lemma {:induction false} RemoveBlock(free: seq<Bits>, len: nat, o: nat, p: nat)
    requires Inv(free, len) && o < |free| && p in free[o].clear
    ensures var free' := free[o := free[o].WithSet(p)];
            Inv(free', len) && forall x: nat :: IsFree(free', x) <==> IsFree(free, x) && Up(x, o) != p
  {
    var free' := free[o := free[o].WithSet(p)];
    forall x: nat
      ensures IsFree(free', x) <==> IsFree(free, x) && Up(x, o) != p
    {
      if IsFree(free, x) && Up(x, o) != p {
        var c :| 0 <= c < |free| && Up(x, c) in free[c].clear;
        assert Up(x, c) in free'[c].clear;
      }
    }
  }

  /** A wholly free block lies inside the region, and so does its sibling once its parent is wholly free. */
  lemma FreeBlockInside(free: seq<Bits>, len: nat, o: nat, p: nat)
    requires Inv(free, len) && o < |free| && BlockFree(free, o, p)
    ensures p < free[o].len
  {
    var c := Covered(free, o, p);
    UpUp(len, o, c - o);
    if p >= Up(len, o) {
      UpMonotone(Up(len, o), p, c - o);
    }
  }

  /** A recorded block is one none of whose enclosing blocks is wholly free. */
  lemma RecordedIsMaximal(free: seq<Bits>, len: nat, o: nat, p: nat)
    requires Inv(free, len) && o < |free|
    ensures p in free[o].clear <==> BlockFree(free, o, p) && (o == |free| - 1 || !BlockFree(free, o + 1, p / 2))
  {
    if p in free[o].clear {
      var x := First(o, p);
      assert Up(x, o + 1) == p / 2;
      if o < |free| - 1 && BlockFree(free, o + 1, p / 2) {
        var c := Covered(free, o + 1, p / 2);
        UpUp(x, o + 1, c - (o + 1));
        assert false;
      }
    }
    if BlockFree(free, o, p) && p !in free[o].clear {
      var c := Covered(free, o, p);
      assert c > o by { assert Up(p, 0) == p; }
      ParentFree(free, o, p, c);
    }
  }

  lemma ParentFree(free: seq<Bits>, o: nat, p: nat, c: nat)
    requires o < c < |free| && Up(p, c - o) in free[c].clear
    ensures BlockFree(free, o + 1, p / 2)
  {
    forall x: nat | Up(x, o + 1) == p / 2
      ensures IsFree(free, x)
    {
      UpUp(x, o + 1, c - o - 1);
      UpUp(p, 1, c - o - 1);
      assert Up(p, 1) == p / 2 by { assert Up(p, 0) == p; }
      assert Up(x, c) in free[c].clear;
    }
  }

  /**
   The free index is canonical: the set of free pages, the length and the number of orders
   determine every bit at every order.
   */
  lemma Canonical(a: seq<Bits>, b: seq<Bits>, len: nat)
    requires Inv(a, len) && Inv(b, len) && |a| == |b|
    requires forall x: nat :: IsFree(a, x) <==> IsFree(b, x)
    ensures a == b
  {
    forall o, p: nat | 0 <= o < |a|
      ensures p in a[o].clear <==> p in b[o].clear
    {
      SameBlocks(a, b, o, p);
      SameBlocks(a, b, o + 1, p / 2);
      RecordedIsMaximal(a, len, o, p);
      RecordedIsMaximal(b, len, o, p);
    }
    forall o | 0 <= o < |a|
      ensures a[o] == b[o]
    {
      assert a[o].clear == b[o].clear;
    }
  }

  lemma SameBlocks(a: seq<Bits>, b: seq<Bits>, o: nat, p: nat)
    requires forall x: nat :: IsFree(a, x) <==> IsFree(b, x)
    ensures BlockFree(a, o, p) <==> BlockFree(b, o, p)
  {
  }

  ghost function PagesOf(free: seq<Bits>, len: nat): set<nat>
  {
    set x: nat | x < len && IsFree(free, x)
  }

  ghost function Block(o: nat, p: nat, len: nat): set<nat>
  {
    set x: nat | x < len && Up(x, o) == p
  }

  /** Block (o, p) is inside the region and all its pages are in the given set. */
  ghost predicate BlockIn(pages: set<nat>, o: nat, p: nat, len: nat)
  {
    p < Up(len, o) && Block(o, p, len) <= pages
  }

  ghost predicate NoBlock(pages: set<nat>, o: nat, len: nat)
  {
    forall p: nat :: !BlockIn(pages, o, p, len)
  }

  lemma {:induction false} NothingFree(free: seq<Bits>, len: nat, o: nat, p: nat)
    requires Inv(free, len) && PagesOf(free, len) !! Block(o, p, len)
    ensures forall x: nat :: Up(x, o) == p ==> !IsFree(free, x)
  {
    forall x: nat | Up(x, o) == p && IsFree(free, x)
      ensures x in PagesOf(free, len) * Block(o, p, len)
    {
      FreeIsInside(free, len, x);
    }
  }

  lemma ParentInside(len: nat, o: nat, p: nat)
    requires p < Up(len, o) && Buddy(p) < Up(len, o)
    ensures p / 2 < Up(len, o + 1)
    ensures Block(o + 1, p / 2, len) == Block(o, p, len) + Block(o, Buddy(p), len)
  {
  }

  /** In terms of page sets: block (o, p) is wholly free exactly when it is inside the region and its pages are free. */
  lemma BlockFreeAsSet(free: seq<Bits>, len: nat, o: nat, p: nat)
    requires Inv(free, len) && o < |free|
    ensures BlockFree(free, o, p) <==> BlockIn(PagesOf(free, len), o, p, len)
  {
    if BlockFree(free, o, p) {
      FreeBlockInside(free, len, o, p);
    }
    if p < Up(len, o) && Block(o, p, len) <= PagesOf(free, len) {
      forall x: nat | Up(x, o) == p
        ensures IsFree(free, x)
      {
        InsideBlock(len, o, p, x);
        assert x in Block(o, p, len);
      }
    }
  }

  lemma {:induction false} InsideBlock(len: nat, o: nat, p: nat, x: nat)
    requires p < Up(len, o) && Up(x, o) == p
    ensures x < len
  {
    if x >= len {
      UpMonotone(len, x, o);
    }
  }

  /** Splitting: a free block that is not recorded at its own order sits in a wholly free parent. */
  lemma {:induction false} SplitParent(free: seq<Bits>, len: nat, o: nat, p: nat)
    requires Inv(free, len) && o < |free| && BlockFree(free, o, p) && p !in free[o].clear
    ensures o + 1 < |free| && BlockFree(free, o + 1, p / 2)
    ensures p < Up(len, o) && Buddy(p) < Up(len, o)
  {
    RecordedIsMaximal(free, len, o, p);
    FreeBlockInside(free, len, o, p);
    FreeBlockInside(free, len, o + 1, p / 2);
  }

  /** Once the parent of (o, p) has no free page, neither half does. */
  lemma {:induction false} SiblingGone(free: seq<Bits>, len: nat, o: nat, p: nat)
    requires Inv(free, len) && o < |free|
    requires PagesOf(free, len) !! Block(o + 1, p / 2, len)
    ensures p !in free[o].clear
    ensures forall x: nat :: Up(x, o) == Buddy(p) ==> !IsFree(free, x)
  {
    NothingFree(free, len, o + 1, p / 2);
    forall x: nat | Up(x, o) == p || Up(x, o) == Buddy(p)
      ensures !IsFree(free, x)
    {
      assert Up(x, o + 1) == p / 2;
    }
    assert Up(First(o, p), o) == p;
  }

  lemma RecordedIsFree(free: seq<Bits>, len: nat, o: nat, p: nat)
    requires Inv(free, len) && o < |free| && p in free[o].clear
    ensures BlockIn(PagesOf(free, len), o, p, len)
  {
  }

  lemma ChildrenInside(len: nat, o: nat, p: nat)
    requires p < Up(len, o + 1)
    ensures 2 * p + 1 < Up(len, o)
  {
  }

  /** With nothing recorded at order o and no free block one order up, no order-o block is wholly free. */
  lemma NoneBelow(free: seq<Bits>, len: nat, o: nat)
    requires Inv(free, len) && o < |free| && free[o].clear == {}
    requires o + 1 < |free| ==> NoBlock(PagesOf(free, len), o + 1, len)
    ensures NoBlock(PagesOf(free, len), o, len)
  {
    forall p: nat
      ensures !BlockIn(PagesOf(free, len), o, p, len)
    {
      BlockFreeAsSet(free, len, o, p);
      RecordedIsMaximal(free, len, o, p);
      if o + 1 < |free| {
        BlockFreeAsSet(free, len, o + 1, p / 2);
      }
    }
  }

  /** `p` starts the lowest recorded block of the lowest order, from `o` up, that has any recorded block. */
  ghost predicate LowestOfLowestOrder(free: seq<Bits>, o: nat, p: nat)
  {
    exists c: nat, q: nat :: ServedBy(free, o, p, c, q)
  }

  ghost predicate ServedBy(free: seq<Bits>, o: nat, p: nat, c: nat, q: nat)
  {
    && o <= c < |free| && q in free[c].clear && p == First(c - o, q)
    && (forall k :: o <= k < c ==> free[k].clear == {})
    && (forall m :: m in free[c].clear ==> q <= m)
  }

  lemma BlocksApart(len: nat, o: nat, p: nat, q: nat)
    requires p != q
    ensures Block(o, p, len) !! Block(o, q, len)
  {
  }

  // ----- alloc_lowest -----

  lemma {:induction false} FirstFirst(a: nat, b: nat, q: nat)
    ensures First(a, First(b, q)) == First(a + b, q)
  {
    if b > 0 {
      FirstFirst(a, b - 1, 2 * q);
      assert First(b, q) == First(b - 1, 2 * q);
      assert First(a + b, q) == First(a + b - 1, 2 * q);
    }
  }

  lemma {:induction false} FirstMonotone(o: nat, p: nat, q: nat)
    ensures p < q <==> First(o, p) < First(o, q)
  {
    if o > 0 {
      FirstMonotone(o - 1, 2 * p, 2 * q);
    }
  }

  /** Block (o, p) begins where some recorded block, of the same or a higher order, begins. */
  ghost predicate BeginsRecorded(free: seq<Bits>, o: nat, p: nat)
  {
    exists c, q :: o <= c < |free| && q in free[c].clear && First(c, q) == First(o, p)
  }

  /** No recorded block of an order from `lo` up to `hi` begins before page `y`. */
  ghost predicate NoneBefore(free: seq<Bits>, lo: nat, hi: nat, y: nat)
  {
    forall k, m :: lo <= k < hi <= |free| && m in free[k].clear ==> y <= First(k, m)
  }

  lemma {:induction false} OneRecorded(free: seq<Bits>, x: nat, a: nat, p: nat, b: nat, q: nat)
    requires OneOrder(free) && a < |free| && b < |free|
    requires p in free[a].clear && Up(x, a) == p
    requires q in free[b].clear && Up(x, b) == q
    ensures a == b && p == q
  {
    assert Up(x, a) in free[a].clear && Up(x, b) in free[b].clear;
  }

  /** Blocks are nested or apart: a block of a higher order that misses the first page of (bo, b) misses all of it. */
  lemma {:induction false} NestedOrApart(len: nat, bo: nat, b: nat, i: nat, m: nat)
    requires bo <= i && Up(First(bo, b), i) != m
    ensures Block(i, m, len) !! Block(bo, b, len)
  {
    forall x: nat | x in Block(bo, b, len)
      ensures x !in Block(i, m, len)
    {
      UpUp(x, bo, i - bo);
      UpUp(First(bo, b), bo, i - bo);
    }
  }

  lemma {:induction false} BeginsAt(free: seq<Bits>, bo: nat, b: nat, i: nat, m: nat)
    requires OneOrder(free) && i < |free|
    requires BeginsRecorded(free, bo, b) && m in free[i].clear && Up(First(bo, b), i) == m
    ensures First(bo, b) == First(i, m)
  {
    var c, q :| bo <= c < |free| && q in free[c].clear && First(c, q) == First(bo, b);
    OneRecorded(free, First(bo, b), i, m, c, q);
  }

  /** A recorded block none of whose pages is taken away stays recorded. */
  lemma StaysRecorded(f0: seq<Bits>, f1: seq<Bits>, len: nat, i: nat, m: nat)
    requires Inv(f0, len) && Inv(f1, len) && |f0| == |f1| && i < |f0|
    requires PagesOf(f1, len) <= PagesOf(f0, len)
    requires m in f0[i].clear && Block(i, m, len) <= PagesOf(f1, len)
    ensures m in f1[i].clear
  {
    RecordedIsFree(f0, len, i, m);
    RecordedIsMaximal(f0, len, i, m);
    RecordedIsMaximal(f1, len, i, m);
    BlockFreeAsSet(f1, len, i, m);
    if i < |f0| - 1 {
      ShrinkKeepsUnfree(f0, f1, len, i + 1, m / 2);
    }
  }

  /** The block held while order `i` is tried either begins at recorded block (i, m), or leaves it recorded. */
  lemma {:induction false} HeldOrKept(f0: seq<Bits>, f1: seq<Bits>, len: nat, bo: nat, b: nat, i: nat, m: nat)
    requires Inv(f0, len) && Inv(f1, len) && |f0| == |f1| && bo < i < |f0|
    requires PagesOf(f1, len) == PagesOf(f0, len) - Block(bo, b, len)
    requires BeginsRecorded(f0, bo, b) && m in f0[i].clear
    ensures First(bo, b) == First(i, m) || m in f1[i].clear
  {
    if Up(First(bo, b), i) == m {
      BeginsAt(f0, bo, b, i, m);
    } else {
      NestedOrApart(len, bo, b, i, m);
      RecordedIsFree(f0, len, i, m);
      StaysRecorded(f0, f1, len, i, m);
    }
  }

  lemma ShrinkKeepsUnfree(f0: seq<Bits>, f1: seq<Bits>, len: nat, o: nat, p: nat)
    requires Inv(f0, len) && Inv(f1, len) && |f0| == |f1| && o < |f0|
    requires PagesOf(f1, len) <= PagesOf(f0, len)
    ensures BlockFree(f1, o, p) ==> BlockFree(f0, o, p)
  {
    BlockFreeAsSet(f0, len, o, p);
    BlockFreeAsSet(f1, len, o, p);
  }

  /** A wholly free block sharing a page with (bo, b), itself begun by a recorded block, begins no earlier. */
  lemma {:induction false} BeginsNoEarlier(free: seq<Bits>, bo: nat, b: nat, o: nat, p: nat, w: nat)
    requires OneOrder(free) && Merged(free) && bo < |free| && o < |free|
    requires BeginsRecorded(free, bo, b) && BlockFree(free, o, p)
    requires Up(w, bo) == b && Up(w, o) == p
    ensures First(bo, b) <= First(o, p)
  {
    var e := Covered(free, o, p);
    var g, h :| bo <= g < |free| && h in free[g].clear && First(g, h) == First(bo, b);
    SameCover(free, bo, b, g, h, o, p, e, w);
  }

  lemma SameCover(free: seq<Bits>, bo: nat, b: nat, g: nat, h: nat, o: nat, p: nat, e: nat, w: nat)
    requires OneOrder(free)
    requires bo <= g < |free| && h in free[g].clear && First(g, h) == First(bo, b)
    requires o <= e < |free| && Up(p, e - o) in free[e].clear
    requires Up(w, bo) == b && Up(w, o) == p
    ensures First(bo, b) <= First(o, p)
  {
    hide Up, First;
    UpUp(w, o, e - o);
    UpUp(w, bo, g - bo);
    UpUp(First(bo, b), bo, g - bo);
    OneRecorded(free, w, e, Up(p, e - o), g, h);
    UpUp(First(o, p), o, e - o);
    BlockRange(g, h, First(o, p));
  }

  /** A block served while (bo, b) is held and found to begin earlier begins at a block recorded from the start. */
  lemma {:induction false} EarlierBeginsRecorded(f0: seq<Bits>, f1: seq<Bits>, len: nat, bo: nat, b: nat, c: nat,
                                                 q: nat)
    requires Inv(f0, len) && Inv(f1, len) && |f0| == |f1| && bo < |f0|
    requires PagesOf(f1, len) == PagesOf(f0, len) - Block(bo, b, len)
    requires BeginsRecorded(f0, bo, b)
    requires c < |f0| && q in f1[c].clear && First(c, q) < First(bo, b)
    ensures q in f0[c].clear
  {
    assert OneOrder(f0) && Merged(f0);
    hide Inv, OneOrder, Merged, BlockFree, PagesOf, Block, BeginsRecorded, First, Up;
    RecordedIsMaximal(f0, len, c, q);
    RecordedIsMaximal(f1, len, c, q);
    ShrinkKeepsUnfree(f0, f1, len, c, q);
    if c < |f0| - 1 {
      HalvesBegin(c, q);
      if BlockFree(f0, c + 1, q / 2) {
        // the parent is free only together with the held block
        var w := SharedPage(f0, f1, len, bo, b, c + 1, q / 2);
        BeginsNoEarlier(f0, bo, b, c + 1, q / 2, w);
      }
    }
  }

  lemma HalvesBegin(c: nat, q: nat)
    ensures First(c + 1, q / 2) <= First(c, q)
  {
    FirstMonotone(c, 2 * (q / 2), q);
    assert First(c + 1, q / 2) == First(c, 2 * (q / 2));
  }

  lemma SharedPage(f0: seq<Bits>, f1: seq<Bits>, len: nat, bo: nat, b: nat, o: nat, p: nat) returns (w: nat)
    requires Inv(f0, len)
    requires PagesOf(f1, len) == PagesOf(f0, len) - Block(bo, b, len)
    requires BlockFree(f0, o, p) && !BlockFree(f1, o, p)
    ensures Up(w, bo) == b && Up(w, o) == p
  {
    w :| Up(w, o) == p && !IsFree(f1, w);
    assert IsFree(f0, w);
    FreeIsInside(f0, len, w);
    assert w in PagesOf(f0, len) && w !in PagesOf(f1, len);
  }

  /**
   Splitting off one half: with the whole of the parent of (o, p) already taken from `pages`,
   clearing the bit of the other half leaves `pages` minus block (o, p).
   */
  lemma {:induction false} SplitOff(free: seq<Bits>, len: nat, o: nat, p: nat, pages: set<nat>)
    requires Inv(free, len) && o < |free| && p < Up(len, o) && Buddy(p) < Up(len, o)
    requires Block(o + 1, p / 2, len) <= pages
    requires PagesOf(free, len) == pages - Block(o + 1, p / 2, len)
    ensures var free' := free[o := free[o].WithClear(Buddy(p))];
            Inv(free', len) && PagesOf(free', len) == pages - Block(o, p, len)
  {
    ParentInside(len, o, p);
    BlocksApart(len, o, p, Buddy(p));
    SiblingGone(free, len, o, p);
    AddBlock(free, len, o, Buddy(p));
    var free' := free[o := free[o].WithClear(Buddy(p))];
    assert PagesOf(free', len) == PagesOf(free, len) + Block(o, Buddy(p), len);
  }

  lemma {:induction false} ChildIn(pages: set<nat>, len: nat, o: nat, p: nat)
    requires BlockIn(pages, o + 1, p / 2, len) && p < Up(len, o)
    ensures BlockIn(pages, o, p, len)
  {
  }

  lemma {:induction false} FirstDoubles(o: nat, p: nat)
    ensures First(o, 2 * p) == 2 * First(o, p)
  {
    if o > 0 {
      FirstDoubles(o - 1, 2 * p);
    }
  }

  lemma ServedOneDown(free: seq<Bits>, o: nat, p: nat)
    requires o < |free| && free[o].clear == {} && LowestOfLowestOrder(free, o + 1, p)
    ensures LowestOfLowestOrder(free, o, 2 * p)
  {
    var c: nat, q: nat :| ServedBy(free, o + 1, p, c, q);
    FirstDoubles(c - o - 1, q);
    assert ServedBy(free, o, 2 * p, c, q);
  }

  lemma ServedDirectly(free: seq<Bits>, o: nat, p: nat)
    requires o < |free| && p in free[o].clear && forall m :: m in free[o].clear ==> p <= m
    ensures LowestOfLowestOrder(free, o, p)
  {
    assert ServedBy(free, o, p, o, p);
  }

  /** Block (o, p) is wholly in `pages`, and no block of its order with a lower index is. */
  ghost predicate LowestBlock(pages: set<nat>, o: nat, p: nat, len: nat)
  {
    BlockIn(pages, o, p, len) && forall q: nat :: BlockIn(pages, o, q, len) ==> p <= q
  }

  /**
   What holds while alloc_lowest tries order `i`: the only block missing from the original free
   pages is (bo, b), it begins at an originally recorded block, and none recorded at an order
   already tried begins before it. `at` is its index counted in blocks of order `o`.
   */
  ghost predicate Held(f0: seq<Bits>, f1: seq<Bits>, len: nat, o: nat, i: nat, bo: nat, b: nat, at: nat)
  {
    && o <= bo < i <= |f0| && |f1| == |f0| && at == First(bo - o, b)
    && BlockIn(PagesOf(f0, len), bo, b, len)
    && PagesOf(f1, len) == PagesOf(f0, len) - Block(bo, b, len)
    && BeginsRecorded(f0, bo, b)
    && NoneBefore(f0, o, i, First(bo, b))
  }

  lemma FirstTrial(f0: seq<Bits>, f1: seq<Bits>, len: nat, o: nat, b: nat)
    requires Inv(f0, len) && o < |f0| && |f1| == |f0|
    requires BlockIn(PagesOf(f0, len), o, b, len) && LowestOfLowestOrder(f0, o, b)
    requires PagesOf(f1, len) == PagesOf(f0, len) - Block(o, b, len)
    ensures Held(f0, f1, len, o, o + 1, o, b, b)
  {
    hide Inv, IsFree, BlockIn;
    var c: nat, q: nat :| ServedBy(f0, o, b, c, q);
    FirstFirst(o, c - o, q);
    forall k, m | o <= k < o + 1 && m in f0[k].clear
      ensures First(o, b) <= First(k, m)
    {
      FirstMonotone(o, q, m);
    }
  }

  /** After order `i` was tried no block recorded there begins before both the held block and the one served. */
  lemma {:induction false} TriedOrder(f0: seq<Bits>, f1: seq<Bits>, len: nat, o: nat, i: nat, bo: nat, b: nat,
                                      at: nat, t: Option<nat>,
                   m: nat)
    requires Inv(f0, len) && Inv(f1, len) && i < |f0| && Held(f0, f1, len, o, i, bo, b, at)
    requires t.None? ==> NoBlock(PagesOf(f1, len), i, len)
    requires t.Some? ==> LowestOfLowestOrder(f1, i, t.value)
    requires m in f0[i].clear
    ensures First(bo, b) <= First(i, m) || (t.Some? && First(i, t.value) <= First(i, m))
  {
    hide Inv, IsFree, BeginsRecorded, NoneBefore;
    HeldOrKept(f0, f1, len, bo, b, i, m);
    if m in f1[i].clear {
      RecordedIsFree(f1, len, i, m);
      assert BlockIn(PagesOf(f1, len), i, m, len);
      var c: nat, q: nat :| ServedBy(f1, i, t.value, c, q);
      FirstMonotone(i, q, m);
    }
  }

  lemma ScaleIndex(o: nat, i: nat, p: nat)
    requires o <= i
    ensures p * Size(i - o) == First(i - o, p)
    ensures First(o, First(i - o, p)) == First(i, p)
  {
    FirstIsProduct(i - o, p);
    FirstFirst(o, i - o, p);
  }

  /** The block served at order `i` begins no earlier than the held one, and was put back. */
  lemma {:induction false} TrialKept(f0: seq<Bits>, f1: seq<Bits>, f2: seq<Bits>, len: nat, o: nat, i: nat, bo: nat,
                                     b: nat, at: nat,
                  t: Option<nat>)
    requires Inv(f0, len) && Inv(f1, len) && i < |f0| && Held(f0, f1, len, o, i, bo, b, at)
    requires |f2| == |f0| && PagesOf(f2, len) == PagesOf(f1, len)
    requires t.None? ==> NoBlock(PagesOf(f1, len), i, len)
    requires t.Some? ==> LowestOfLowestOrder(f1, i, t.value) && First(i - o, t.value) >= at
    ensures Held(f0, f2, len, o, i + 1, bo, b, at)
  {
    hide Inv, IsFree, BeginsRecorded, LowestOfLowestOrder, NoBlock, BlockIn;
    ScaleIndex(o, bo, b);
    forall k, m | o <= k < i + 1 && m in f0[k].clear
      ensures First(bo, b) <= First(k, m)
    {
      if k == i {
        TriedOrder(f0, f1, len, o, i, bo, b, at, t, m);
        if t.Some? {
          ScaleIndex(o, i, t.value);
          FirstMonotone(o, First(i - o, t.value), at);
        }
      }
    }
  }

  /** The block served at order `i` begins earlier and takes the place of the held one. */
  lemma {:induction false} TrialTaken(f0: seq<Bits>, f1: seq<Bits>, f2: seq<Bits>, len: nat, o: nat, i: nat, bo: nat,
                                      b: nat, at: nat,
                   t: nat)
    requires Inv(f0, len) && Inv(f1, len) && i < |f0| && Held(f0, f1, len, o, i, bo, b, at)
    requires BlockIn(PagesOf(f1, len), i, t, len)
    requires |f2| == |f0| && PagesOf(f2, len) == PagesOf(f1, len) - Block(i, t, len) + Block(bo, b, len)
    requires LowestOfLowestOrder(f1, i, t) && First(i - o, t) < at
    ensures Held(f0, f2, len, o, i + 1, i, t, First(i - o, t))
  {
    hide Inv, IsFree, NoBlock;
    ScaleIndex(o, bo, b);
    ScaleIndex(o, i, t);
    FirstMonotone(o, First(i - o, t), at);
    var c: nat, q: nat :| ServedBy(f1, i, t, c, q);
    FirstFirst(i, c - i, q);
    EarlierBeginsRecorded(f0, f1, len, bo, b, c, q);
    assert BeginsRecorded(f0, i, t);
    forall k, m | o <= k < i + 1 && m in f0[k].clear
      ensures First(i, t) <= First(k, m)
    {
      if k == i {
        TriedOrder(f0, f1, len, o, i, bo, b, at, Some(t), m);
      }
    }
  }

  /** Once all orders were tried the held block begins at the lowest block of order `o`. */
  lemma AllTried(f0: seq<Bits>, f1: seq<Bits>, len: nat, o: nat, bo: nat, b: nat, at: nat)
    requires Inv(f0, len) && Held(f0, f1, len, o, |f0|, bo, b, at)
    ensures forall q: nat :: BlockIn(PagesOf(f0, len), o, q, len) ==> at <= q
  {
    hide IsFree, BeginsRecorded;
    ScaleIndex(o, bo, b);
    forall q: nat | BlockIn(PagesOf(f0, len), o, q, len)
      ensures at <= q
    {
      BlockFreeAsSet(f0, len, o, q);
      var c := Covered(f0, o, q);
      var m := Up(q, c - o);
      UpUp(First(o, q), o, c - o);
      BlockRange(c, m, First(o, q));
      FirstMonotone(o, q, at);
    }
  }

  // ----- counting and the free tail -----

  /**
   The recorded block holding page `last` ends there, when the next page begins a recorded block or
   ends the region.
   */
  lemma {:induction false} BlockEndsAt(free: seq<Bits>, len: nat, c: nat, last: nat)
    requires Inv(free, len) && c < |free| && Up(last, c) in free[c].clear && last < len
    requires last + 1 == len || BeginsRecorded(free, 0, last + 1)
    ensures First(c, Up(last, c)) + Size(c) == last + 1
  {
    hide IsFree, Merged, OneOrder;
    var p := Up(last, c);
    BlockEnd(c, p, last);
    BlockRange(c, p, last + 1);
    if Up(last + 1, c) == p {
      InsideBlock(len, c, p, last + 1);
      SharedStart(free, c, p, last);
    }
  }

  lemma BlockEnd(c: nat, p: nat, x: nat)
    requires Up(x, c) == p
    ensures First(c, p) <= x < First(c, p + 1) == First(c, p) + Size(c)
  {
    hide Up, First, Size;
    BlockRange(c, p, x);
    FirstIsProduct(c, p);
    FirstIsProduct(c, p + 1);
    assert (p + 1) * Size(c) == p * Size(c) + Size(c);
  }

  lemma SharedStart(free: seq<Bits>, c: nat, p: nat, last: nat)
    requires OneOrder(free) && c < |free| && p in free[c].clear
    requires BeginsRecorded(free, 0, last + 1) && Up(last + 1, c) == p
    ensures First(c, p) == last + 1
  {
    BeginsAt(free, 0, last + 1, c, p);
  }

  lemma {:induction false} BlockCard(o: nat, p: nat, len: nat)
    requires p < Up(len, o)
    ensures |Block(o, p, len)| == Size(o)
  {
    if o == 0 {
      assert Block(0, p, len) == {p};
    } else {
      ChildrenInside(len, o - 1, p);
      BlockCard(o - 1, 2 * p, len);
      BlockCard(o - 1, 2 * p + 1, len);
      ParentInside(len, o - 1, 2 * p);
      BlocksApart(len, o - 1, 2 * p, 2 * p + 1);
    }
  }

  ghost function PagesAt(clear: set<nat>, o: nat, len: nat): set<nat>
  {
    set x: nat | x < len && Up(x, o) in clear
  }

  lemma {:induction false} PagesAtCard(clear: set<nat>, o: nat, len: nat)
    requires forall p :: p in clear ==> p < Up(len, o)
    ensures |PagesAt(clear, o, len)| == |clear| * Size(o)
    decreases |clear|
  {
    if clear == {} {
      assert PagesAt(clear, o, len) == {};
    } else {
      var p :| p in clear;
      var rest := clear - {p};
      PagesAtCard(rest, o, len);
      BlockCard(o, p, len);
      assert PagesAt(clear, o, len) == PagesAt(rest, o, len) + Block(o, p, len);
      assert PagesAt(rest, o, len) !! Block(o, p, len);
      assert |clear| == |rest| + 1;
      assert (|rest| + 1) * Size(o) == |rest| * Size(o) + Size(o);
    }
  }

  /** What count_free_pages adds up: blocks recorded at the first `k` orders, times their sizes. */
  function CountTo(free: seq<Bits>, k: nat): nat
    requires k <= |free|
  {
    if k == 0 then 0 else CountTo(free, k - 1) + |free[k - 1].clear| * Size(k - 1)
  }

  ghost function PagesTo(free: seq<Bits>, len: nat, k: nat): set<nat>
    requires k <= |free|
  {
    set x: nat | x < len && IsFree(free[..k], x)
  }

  lemma {:induction false} CountToCard(free: seq<Bits>, len: nat, k: nat)
    requires Shape(free, len) && OneOrder(free) && k <= |free|
    ensures CountTo(free, k) == |PagesTo(free, len, k)|
  {
    if k == 0 {
      assert PagesTo(free, len, 0) == {};
    } else {
      hide IsFree, OneOrder, Up, Size, PagesTo, PagesAt;
      CountToCard(free, len, k - 1);
      PagesAtCard(free[k - 1].clear, k - 1, len);
      NextOrderPages(free, len, k - 1);
    }
  }

  lemma NextOrderPages(free: seq<Bits>, len: nat, k: nat)
    requires OneOrder(free) && k < |free|
    ensures |PagesTo(free, len, k + 1)| == |PagesTo(free, len, k)| + |PagesAt(free[k].clear, k, len)|
  {
    hide Up;
    forall x: nat
      ensures IsFree(free[..k + 1], x) <==> IsFree(free[..k], x) || Up(x, k) in free[k].clear
      ensures !(IsFree(free[..k], x) && Up(x, k) in free[k].clear)
    {
      if IsFree(free[..k + 1], x) {
        var o :| 0 <= o < k + 1 && Up(x, o) in free[..k + 1][o].clear;
        assert o < k ==> free[..k][o] == free[o];
      }
      if IsFree(free[..k], x) {
        var o :| 0 <= o < k && Up(x, o) in free[..k][o].clear;
        assert free[..k + 1][o] == free[o];
      }
      assert free[..k + 1][k] == free[k];
    }
    var below, here := PagesTo(free, len, k), PagesAt(free[k].clear, k, len);
    assert PagesTo(free, len, k + 1) == below + here && below !! here;
  }

  /** The count over all orders is the number of free pages, because no page is recorded twice. */
  lemma {:induction false} CountIsCard(free: seq<Bits>, len: nat)
    requires Inv(free, len)
    ensures CountTo(free, |free|) == |PagesOf(free, len)|
  {
    CountToCard(free, len, |free|);
    assert PagesTo(free, len, |free|) == PagesOf(free, len);
  }

  lemma {:induction false} TailGrows(free: seq<Bits>, len: nat, c: nat, last: nat)
    requires Inv(free, len) && c < |free| && Up(last, c) in free[c].clear
    requires First(c, Up(last, c)) + Size(c) == last + 1
    ensures forall x: nat :: last + 1 - Size(c) <= x <= last ==> x in PagesOf(free, len)
    ensures BeginsRecorded(free, 0, last + 1 - Size(c))
  {
    hide Merged, OneOrder;
    var p := Up(last, c);
    BlockEnd(c, p, last);
    assert First(0, First(c, p)) == First(c, p);
    forall x: nat | First(c, p) <= x <= last
      ensures x in PagesOf(free, len)
    {
      BlockRange(c, p, x);
      InsideBlock(len, c, p, x);
      assert Up(x, c) in free[c].clear;
    }
  }

  lemma {:induction false} NotFree(free: seq<Bits>, len: nat, x: nat)
    requires Inv(free, len)
    ensures x in PagesOf(free, len) <==> exists o {:trigger free[o]} :: 0 <= o < |free| && Up(x, o) in free[o].clear
  {
    if IsFree(free, x) {
      FreeIsInside(free, len, x);
    }
  }

  // ----- laying blocks over a range of pages -----

  /** Page `x` begins a block of order `o`. */
  ghost predicate Aligned(x: nat, o: nat)
  {
    First(o, Up(x, o)) == x
  }

  /** u32::trailing_zeros. */
  function TrailingZeros(x: nat): nat
  {
    if x == 0 then 32 else if x % 2 == 1 then 0 else 1 + TrailingZeros(x / 2)
  }

  lemma {:induction false} ZeroAligned(o: nat)
    ensures Up(0, o) == 0 && First(o, 0) == 0
  {
    if o > 0 {
      ZeroAligned(o - 1);
    }
  }

  lemma {:induction false} TrailingZerosAligned(x: nat)
    ensures Aligned(x, TrailingZeros(x))
  {
    if x == 0 {
      ZeroAligned(32);
    } else if x % 2 == 0 {
      var t := TrailingZeros(x / 2);
      TrailingZerosAligned(x / 2);
      UpUp(x, 1, t);
      assert Up(x, 1) == x / 2 by { assert Up(x, 0) == x; }
      FirstDoubles(t, Up(x / 2, t));
    }
  }

  lemma {:induction false} AlignedBelow(x: nat, o: nat, k: nat)
    requires Aligned(x, o) && k <= o
    ensures Aligned(x, k)
  {
    if k < o {
      assert First(o, Up(x, o)) == First(o - 1, 2 * Up(x, o));
      assert Up(First(o - 1, 2 * Up(x, o)), o - 1) == 2 * Up(x, o);
      AlignedBelow(x, o - 1, k);
    }
  }

  /** The block of order `o` at an aligned page: its index, its extent, and where the next one begins. */
  lemma AlignedBlock(x: nat, o: nat)
    requires Aligned(x, o)
    ensures x / Size(o) == Up(x, o)
    ensures forall y: nat :: Up(y, o) == Up(x, o) <==> x <= y < x + Size(o)
    ensures Aligned(x + Size(o), o)
    ensures Up(x + Size(o), o) == Up(x, o) + 1
  {
    var p, s := Up(x, o), Size(o);
    hide Up, First, Size;
    FirstIsProduct(o, p);
    FirstIsProduct(o, p + 1);
    ProductQuotient(p, s);
    forall y: nat
      ensures Up(y, o) == p <==> x <= y < x + s
    {
      BlockRange(o, p, y);
    }
  }

  lemma ProductQuotient(p: nat, s: nat)
    requires s > 0
    ensures (p + 1) * s == p * s + s
    ensures p * s / s == p
  {
    var q, r := p * s / s, p * s % s;
    assert p * s == q * s + r;
    var d := p - q;
    assert d * s == r;
    if d > 0 {
      AtLeastOnce(d, s);
    } else if d < 0 {
      AtLeastOnce(-d, s);
    }
  }

  lemma AtLeastOnce(d: int, s: int)
    requires d > 0 && s > 0
    ensures d * s >= s
  {
  }

  lemma AlignedInside(x: nat, o: nat, len: nat)
    requires Aligned(x, o) && x + Size(o) <= len
    ensures Up(x, o) < Up(len, o)
  {
    AlignedBlock(x, o);
    UpMonotone(x + Size(o), len, o);
  }

  lemma {:induction false} SizeMonotone(a: nat, b: nat)
    requires a <= b
    ensures Size(a) <= Size(b)
  {
    if a < b {
      SizeMonotone(a, b - 1);
    }
  }

  /** From `x`, every order up to `top` whose block still ends by `end` is aligned. */
  ghost predicate Ready(x: nat, top: nat, end: nat)
  {
    forall k: nat {:trigger Aligned(x, k)} :: k <= top && x + Size(k) <= end ==> Aligned(x, k)
  }

  lemma {:induction false} ReadyAfterAligning(x: nat, top: nat, end: nat)
    requires TrailingZeros(x) >= top || x + Size(TrailingZeros(x)) > end
    ensures Ready(x, top, end)
  {
    TrailingZerosAligned(x);
    var t := TrailingZeros(x);
    forall k: nat | k <= top && x + Size(k) <= end
      ensures Aligned(x, k)
    {
      if k > t {
        SizeMonotone(t, k);
      } else {
        AlignedBelow(x, t, k);
      }
    }
  }

  lemma {:induction false} ReadyNext(x: nat, o: nat, end: nat)
    requires Aligned(x, o)
    ensures Ready(x + Size(o), o, end)
  {
    AlignedBlock(x, o);
    var y := x + Size(o);
    forall k: nat | k <= o
      ensures Aligned(y, k)
    {
      AlignedBelow(y, o, k);
    }
  }

  ghost predicate WithRange(before: set<nat>, after: set<nat>, lo: nat, hi: nat)
  {
    forall x: nat :: x in after <==> x in before || lo <= x < hi
  }

  ghost predicate WithoutRange(before: set<nat>, after: set<nat>, lo: nat, hi: nat)
  {
    forall x: nat :: x in after <==> x in before && !(lo <= x < hi)
  }

  /** An aligned block just past the added range is not free yet, and adding it extends the range. */
  lemma {:induction false} ExtendRange(before: set<nat>, after: set<nat>, lo: nat, x: nat, o: nat, len: nat)
    requires Aligned(x, o) && lo <= x && x + Size(o) <= len
    requires WithRange(before, after, lo, x) && forall y :: y in before ==> y < lo
    ensures Up(x, o) < Up(len, o) && x / Size(o) == Up(x, o)
    ensures after !! Block(o, Up(x, o), len)
    ensures WithRange(before, after + Block(o, Up(x, o), len), lo, x + Size(o))
  {
    AlignedInside(x, o, len);
    AlignedBlock(x, o);
  }

  /** An aligned block just past the removed range is still free, and removing it extends the range. */
  lemma {:induction false} ExtendRemoval(before: set<nat>, after: set<nat>, lo: nat, x: nat, o: nat, len: nat)
    requires Aligned(x, o) && lo <= x && x + Size(o) <= len
    requires WithoutRange(before, after, lo, x) && forall y: nat :: x <= y < len ==> y in before
    ensures x / Size(o) == Up(x, o)
    ensures BlockIn(after, o, Up(x, o), len)
    ensures WithoutRange(before, after - Block(o, Up(x, o), len), lo, x + Size(o))
  {
    AlignedInside(x, o, len);
    AlignedBlock(x, o);
  }

  /** Changing the bitmap lengths alone, when no free page is cut off, changes no free page. */
  lemma {:induction false} Relength(f0: seq<Bits>, f1: seq<Bits>, len: nat, newLen: nat)
    requires Inv(f0, len) && |f1| == |f0|
    requires forall o {:trigger f1[o]} :: 0 <= o < |f0| ==> f1[o].clear == f0[o].clear && f1[o].len == Up(newLen, o)
    requires forall x :: x in PagesOf(f0, len) ==> x < newLen
    ensures Inv(f1, newLen) && PagesOf(f1, newLen) == PagesOf(f0, len)
  {
    assert Merged(f1) by { hide OneOrder, Shape; }
    assert OneOrder(f1) by { hide Merged, Shape; }
    forall o, p | 0 <= o < |f1| && p in f1[o].clear
      ensures p < Up(newLen, o)
    {
      assert p in f0[o].clear;
      RecordedEnds(f0, len, newLen, o, p);
    }
    SameFree(f0, f1);
    forall x: nat
      ensures x in PagesOf(f1, newLen) <==> x in PagesOf(f0, len)
    {
      if IsFree(f0, x) {
        FreeIsInside(f0, len, x);
      }
    }
  }

  lemma SameFree(f0: seq<Bits>, f1: seq<Bits>)
    requires |f1| == |f0| && forall o :: 0 <= o < |f0| ==> f1[o].clear == f0[o].clear
    ensures forall x: nat :: IsFree(f1, x) <==> IsFree(f0, x)
  {
    forall x: nat
      ensures IsFree(f1, x) <==> IsFree(f0, x)
    {
      if IsFree(f0, x) {
        var o :| 0 <= o < |f0| && Up(x, o) in f0[o].clear;
        assert Up(x, o) in f1[o].clear;
      }
      if IsFree(f1, x) {
        var o :| 0 <= o < |f1| && Up(x, o) in f1[o].clear;
        assert Up(x, o) in f0[o].clear;
      }
    }
  }

  lemma {:induction false} RecordedEnds(free: seq<Bits>, len: nat, newLen: nat, o: nat, p: nat)
    requires Inv(free, len) && o < |free| && p in free[o].clear
    requires forall x :: x in PagesOf(free, len) ==> x < newLen
    ensures p < Up(newLen, o)
  {
    hide OneOrder, Merged;
    RecordedIsFree(free, len, o, p);
    BlockRange(o, p, 0);
    var last: nat := First(o, p + 1) - 1;
    BlockRange(o, p, last);
    InsideBlock(len, o, p, last);
    assert last in Block(o, p, len);
    UpMonotone(First(o, p + 1), newLen, o);
  }

  lemma {:induction false} NothingRecorded(free: seq<Bits>, len: nat)
    requires |free| > 0
    requires forall o {:trigger free[o]} :: 0 <= o < |free| ==> free[o] == Bits(Up(len, o), {})
    ensures Inv(free, len) && PagesOf(free, len) == {}
    ensures Ready(0, |free| - 1, len)
  {
    forall k: nat
      ensures Aligned(0, k)
    {
      ZeroAligned(k);
    }
  }

  /** calculate_usable_order: the largest order a region of this many pages can hold, at most 20. */
  function UsableOrder(pages: nat): (o: nat)
    requires pages > 0
    ensures o <= 20 && Size(o) <= pages && (o < 20 ==> pages < 2 * Size(o))
  {
    var log := Log2(pages);
    if log < 20 then log else SizeMonotone(20, log); 20
  }

  function Log2(x: nat): (o: nat)
    requires x > 0
    ensures Size(o) <= x < 2 * Size(o)
  {
    if x == 1 then 0 else 1 + Log2(x / 2)
  }

  /** Recording one more block right after the pages recorded so far. */
  lemma {:induction false} PlaceBlock(free: seq<Bits>, len: nat, o: nat, x: nat)
    requires Inv(free, len) && o < |free| && Aligned(x, o) && x + Size(o) <= len
    requires WithRange({}, PagesOf(free, len), 0, x)
    requires o == |free| - 1 || free[o].clear == {}
    ensures x / Size(o) == Up(x, o)
    ensures var free' := free[o := free[o].WithClear(Up(x, o))];
            Inv(free', len) && WithRange({}, PagesOf(free', len), 0, x + Size(o))
  {
    hide Inv, IsFree, Up, Size, WithRange, Aligned;
    var p := Up(x, o);
    ExtendRange({}, PagesOf(free, len), 0, x, o, len);
    NothingFree(free, len, o, p);
    AddBlock(free, len, o, p);
    var free' := free[o := free[o].WithClear(p)];
    AddedPages(free, free', len, o, p);
  }

  lemma {:induction false} AddedPages(free: seq<Bits>, free': seq<Bits>, len: nat, o: nat, p: nat)
    requires forall x: nat :: IsFree(free', x) <==> IsFree(free, x) || Up(x, o) == p
    ensures PagesOf(free', len) == PagesOf(free, len) + Block(o, p, len)
  {
    hide IsFree, Up;
  }

  lemma {:induction false} ReadyAligned(x: nat, o: nat, end: nat)
    requires Ready(x, o, end) && x + Size(o) <= end
    ensures Aligned(x, o)
  {
    assert Aligned(x, o);
  }

  lemma ReadyDown(x: nat, o: nat, end: nat)
    requires Ready(x, o, end) && o > 0
    ensures Ready(x, o - 1, end)
  {
  }

  lemma EmptyRange()
    ensures WithRange({}, {}, 0, 0)
  {
  }
}
