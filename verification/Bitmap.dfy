/**
 The 64-way summary bitmap: every level above the last says of each group of 64 bits below it
 whether the group is all ones.
 */
module Bitmap {
  import opened Bits

  type Word = w: seq<bool> | |w| == 64 witness seq(64, i => true)

  function Ones(): Word
  {
    seq(64, i => true)
  }

  function Words(n: nat): nat
  {
    (n + 63) / 64
  }

  /** A row of bits stored in words; bits at or past the length are set. */
  datatype Level = Level(len: nat, data: seq<Word>) {
    ghost predicate Valid() {
      Words(len) <= |data| && forall i: nat :: len <= i < 64 * |data| ==> Get(i)
    }

    predicate Get(i: nat)
      requires i < 64 * |data|
    {
      data[i / 64][i % 64]
    }

    function With(i: nat, b: bool): (r: Level)
      requires i < 64 * |data|
      ensures r.len == len && |r.data| == |data|
      ensures forall j: nat :: j < 64 * |data| ==> r.Get(j) == if j == i then b else Get(j)
    {
      WithBit(this, i, b);
      this.(data := data[i / 64 := data[i / 64][i % 64 := b]])
    }

    predicate Full(g: nat)
      requires g < |data|
    {
      data[g] == Ones()
    }
  }

  lemma WithBit(l: Level, i: nat, b: bool)
    requires i < 64 * |l.data|
    ensures var r := l.(data := l.data[i / 64 := l.data[i / 64][i % 64 := b]]);
      forall j: nat :: j < 64 * |l.data| ==> r.Get(j) == if j == i then b else l.Get(j)
  {
    var r := l.(data := l.data[i / 64 := l.data[i / 64][i % 64 := b]]);
    forall j: nat | j < 64 * |l.data|
      ensures r.Get(j) == if j == i then b else l.Get(j)
    {
      if j / 64 == i / 64 && j % 64 == i % 64 {
        assert j == i;
      }
    }
  }

  lemma FullBits(l: Level, g: nat)
    requires g < |l.data|
    ensures l.Full(g) <==> forall i: nat :: 64 * g <= i < 64 * g + 64 ==> l.Get(i)
  {
    if forall i: nat :: 64 * g <= i < 64 * g + 64 ==> l.Get(i) {
      forall b | 0 <= b < 64
        ensures l.data[g][b]
      {
        assert l.Get(64 * g + b);
      }
      assert l.data[g] == Ones();
    }
  }

  /** The parent has one bit for each group, set exactly when the group is full. */
  ghost predicate Linked(p: Level, c: Level)
  {
    p.len == Words(c.len) && p.len <= |c.data| && p.len <= 64 * |p.data| && forall g: nat :: g < p.len ==>
      (p.Get(g) <==> c.Full(g))
  }

  ghost predicate Tree(hs: seq<Level>)
  {
    && hs != [] && hs[0].len <= 64
    && (forall h :: 0 <= h < |hs| ==> hs[h].Valid())
    && forall h :: 0 < h < |hs| ==> Linked(hs[h - 1], hs[h])
  }

  // ----- words -----

  /**
   The first clear bit of a word at or after a position: the trailing ones of the word with the bits
   before it set.
   */
  method TrailingOnes(w: Word) returns (n: nat)
    ensures n <= 64 && (forall i :: 0 <= i < n ==> w[i]) && (n < 64 ==> !w[n])
  {
    n := 0;
    while n < 64 && w[n]
      invariant n <= 64 && forall i :: 0 <= i < n ==> w[i]
    {
      n := n + 1;
    }
  }

  method FirstUnset(l: Level, start: nat) returns (r: Option<nat>)
    requires l.Valid() && start % 64 == 0 && (l.len > 0 ==> start < l.len)
    ensures r.None? ==> l.len == 0 || l.Full(start / 64)
    ensures r.Some? ==>
      start <= r.value < start + 64 && r.value < l.len && !l.Get(r.value) && forall i: nat :: start <= i < r.value ==>
        l.Get(i)
  {
    if l.len == 0 {
      return None;
    }
    var w := l.data[start / 64];
    var n := TrailingOnes(w);
    if n == 64 {
      assert w == Ones();
      return None;
    }
    assert !l.Get(start + n);
    forall i: nat | start <= i < start + n
      ensures l.Get(i)
    {
      assert i / 64 == start / 64 && i % 64 == i - start;
    }
    return Some(start + n);
  }

  class BtreeBitmap {
    var heights: seq<Level>

    ghost predicate Valid()
      reads this
    {
      Tree(heights)
    }

    function Leaf(): Level
      requires heights != []
      reads this
    {
      heights[|heights| - 1]
    }

    /** The bits the map stands for: those of the last level. */
    ghost function Value(): Bits
      requires Valid()
      reads this
    {
      LevelBits(Leaf())
    }

    /** Room for `capacity` ids, all of them in use; the levels are built from the last one up. */
    constructor (numPages: nat, capacity: nat)
      requires numPages <= capacity
      ensures Valid() && Value() == Bits(numPages, {})
    {
      var hs, n, c := [NewFull(numPages, capacity)], numPages, capacity;
      FullLevel(numPages, capacity);
      while c > 64
        invariant hs != [] && n <= c && hs[0] == NewFull(n, c) && hs[|hs| - 1] == NewFull(numPages, capacity)
        invariant (forall h :: 0 <= h < |hs| ==> hs[h].Valid()) && forall h :: 0 < h < |hs| ==> Linked(hs[h - 1], hs[h])
        decreases c
      {
        FullLinked(n, c);
        FullLevel(Words(n), Words(c));
        n, c := Words(n), Words(c);
        hs := [NewFull(n, c)] + hs;
      }
      heights := hs;
    }

    /** Changes the number of ids. New ones are in use; those given up must be. */
    method Resize(newLen: nat)
      requires Valid() && Up64(newLen, |heights| - 1) <= 64
      requires forall i :: i in Value().clear ==> i < newLen
      modifies this
      ensures Valid() && |heights| == old(|heights|) && Value() == Bits(newLen, old(Value()).clear)
    {
      LeafClosed(Leaf(), newLen);
      GrownBits(Leaf(), newLen);
      GrownTree(heights, newLen);
      heights := ResizeLevels(heights, newLen);
    }

    method Get(i: nat) returns (b: bool)
      requires Valid() && i < Value().len
      ensures b <==> i !in Value().clear
    {
      b := Leaf().Get(i);
    }

    /** Walks down through the first group that is not full on every level; the result is the least clear bit of all. */
    method FindFirstUnset() returns (r: Option<nat>)
      requires Valid()
      ensures r == Value().FirstClear()
    {
      var first := FirstUnset(heights[0], 0);
      if first.None? {
        RootFull(heights[0]);
        AllSetBelow(heights, 0);
        return None;
      }
      var entry: nat, height := first.value, 0;
      while height < |heights| - 1
        invariant 0 <= height < |heights| && entry < heights[height].len && !heights[height].Get(entry)
          && AllSet(heights[height], entry)
      {
        height := height + 1;
        GroupStarts(heights[height - 1], heights[height], entry);
        var next := FirstUnset(heights[height], entry * 64);
        entry := next.value;
      }
      FirstIs(Leaf(), entry);
      return Some(entry);
    }

    /** Sets a bit and brings the levels above up to date. */
    method Set(i: nat)
      requires Valid() && i < Value().len
      modifies this
      ensures Valid() && |heights| == old(|heights|) && Value() == old(Value()).WithSet(i)
    {
      var leaf := Leaf().With(i, true);
      Touched(heights, i, true);
      hide Linked;
      heights := heights[|heights| - 1 := leaf];
      UpdateToRoot(i, leaf.Full(i / 64));
    }

    method Clear(i: nat)
      requires Valid() && i < Value().len
      modifies this
      ensures Valid() && |heights| == old(|heights|) && Value() == old(Value()).WithClear(i)
    {
      var leaf := Leaf().With(i, false);
      Touched(heights, i, false);
      NotFull(leaf, i);
      hide Linked;
      heights := heights[|heights| - 1 := leaf];
      UpdateToRoot(i, false);
    }

    /** Returns the first unset id, and sets it. */
    method Alloc() returns (r: Option<nat>)
      requires Valid()
      modifies this
      ensures Valid() && r == old(Value()).FirstClear()
      ensures r.None? ==> Value() == old(Value())
      ensures r.Some? ==> Value() == old(Value()).WithSet(r.value)
    {
      r := FindFirstUnset();
      if r.Some? {
        Set(r.value);
      }
    }

    /** Each level above gets the bit that says whether the group just touched below it is full. */
    method UpdateToRoot(i: nat, isFull: bool)
      requires if |heights| == 1 then Tree(heights) else heights != [] && Stale(heights, |heights| - 2, i / 64, isFull)
      modifies this
      ensures Valid() && |heights| == old(|heights|) && Leaf() == old(Leaf())
    {
      if |heights| == 1 {
        return;
      }
      var full := isFull;
      var parent, entry: nat := |heights| - 2, i / 64;
      while true
        invariant 0 <= parent <= |heights| - 2 && |heights| == old(|heights|) && Leaf() == old(Leaf())
          && Stale(heights, parent, entry, full)
        decreases parent
      {
        Refreshed(heights, parent, entry, full);
        hide Linked, NearlyLinked;
        // set tells whether the parent's own group is now full; after a clear it cannot be
        var level := heights[parent].With(entry, full);
        heights := heights[parent := level];
        full := full && level.Full(entry / 64);
        if parent == 0 {
          break;
        }
        parent, entry := parent - 1, entry / 64;
      }
    }
  }

  ghost function LevelBits(l: Level): Bits
    requires l.Valid()
  {
    Bits(l.len, set i: nat | i < l.len && !l.Get(i))
  }

  ghost predicate AllSet(l: Level, n: nat)
  {
    forall i: nat :: i < n && i < 64 * |l.data| ==> l.Get(i)
  }

  // ----- searching -----

  lemma RootFull(l: Level)
    requires l.Valid() && l.len <= 64 && (l.len == 0 || l.Full(0))
    ensures AllSet(l, l.len)
  {
    if l.len > 0 {
      FullBits(l, 0);
    }
  }

  /** Below a level that is all ones everything is. */
  lemma {:induction false} AllSetBelow(hs: seq<Level>, h: nat)
    requires Tree(hs) && h < |hs| && AllSet(hs[h], hs[h].len)
    ensures LevelBits(hs[|hs| - 1]).clear == {}
    decreases |hs| - h
  {
    if h < |hs| - 1 {
      GroupsSet(hs[h], hs[h + 1]);
      AllSetBelow(hs, h + 1);
    }
  }

  lemma GroupsSet(p: Level, c: Level)
    requires Linked(p, c) && p.Valid() && c.Valid() && AllSet(p, p.len)
    ensures AllSet(c, c.len)
  {
    forall i: nat | i < c.len
      ensures c.Get(i)
    {
      assert p.Get(i / 64);
      FullBits(c, i / 64);
    }
  }

  lemma GroupStarts(p: Level, c: Level, entry: nat)
    requires Linked(p, c) && p.Valid() && c.Valid() && entry < p.len && !p.Get(entry) && AllSet(p, entry)
    ensures entry * 64 < c.len && !c.Full(entry) && AllSet(c, entry * 64)
  {
    forall i: nat | i < entry * 64
      ensures c.Get(i)
    {
      assert p.Get(i / 64);
      FullBits(c, i / 64);
    }
  }

  lemma FirstIs(l: Level, e: nat)
    requires l.Valid() && e < l.len && !l.Get(e) && AllSet(l, e)
    ensures LevelBits(l).FirstClear() == Some(e)
  {
    assert e in LevelBits(l).clear;
  }

  // ----- updating -----

  /** Linked but for one group. */
  ghost predicate NearlyLinked(p: Level, c: Level, g0: nat)
  {
    && p.len == Words(c.len) && p.len <= |c.data| && p.len <= 64 * |p.data| && g0 < p.len
    && forall g: nat :: g < p.len && g != g0 ==> (p.Get(g) <==> c.Full(g))
  }

  /** All levels agree, except that `parent` has not yet heard that group `entry` below it is full or not. */
  ghost predicate Stale(hs: seq<Level>, parent: int, entry: nat, full: bool)
  {
    && 0 <= parent <= |hs| - 2 && hs[0].len <= 64
    && (forall h :: 0 <= h < |hs| ==> hs[h].Valid())
    && (forall h :: 0 < h < |hs| && h != parent + 1 ==> Linked(hs[h - 1], hs[h]))
    && NearlyLinked(hs[parent], hs[parent + 1], entry) && hs[parent + 1].Full(entry) == full
  }

  /** Changing a bit below the length touches one group only. */
  lemma Touch(p: Level, c: Level, i: nat, b: bool)
    requires Linked(p, c) && c.Valid() && i < c.len
    ensures c.With(i, b).Valid() && NearlyLinked(p, c.With(i, b), i / 64)
  {
    var d := c.With(i, b);
    forall g: nat | g < p.len && g != i / 64
      ensures p.Get(g) <==> d.Full(g)
    {
      assert d.data[g] == c.data[g];
    }
  }

  lemma TouchValid(c: Level, i: nat, b: bool)
    requires c.Valid() && i < c.len
    ensures i < 64 * |c.data| && c.With(i, b).Valid()
    ensures LevelBits(c.With(i, b)) == if b then LevelBits(c).WithSet(i) else LevelBits(c).WithClear(i)
  {
    var d := c.With(i, b);
    var x := if b then LevelBits(c).WithSet(i) else LevelBits(c).WithClear(i);
    forall j: nat
      ensures j in LevelBits(d).clear <==> j in x.clear
    {
      if j < c.len {
        assert d.Get(j) == if j == i then b else c.Get(j);
      }
    }
    assert LevelBits(d).clear == x.clear;
  }

  lemma NotFull(l: Level, i: nat)
    requires i < 64 * |l.data| && !l.Get(i)
    ensures !l.Full(i / 64)
  {
    FullBits(l, i / 64);
  }

  lemma Touched(hs: seq<Level>, i: nat, b: bool)
    requires Tree(hs) && i < hs[|hs| - 1].len
    ensures var n, leaf := |hs| - 1, hs[|hs| - 1];
      && i < 64 * |leaf.data| && leaf.With(i, b).Valid()
      && LevelBits(leaf.With(i, b)) == (if b then LevelBits(leaf).WithSet(i) else LevelBits(leaf).WithClear(i))
      && var r := hs[n := leaf.With(i, b)];
         if n == 0 then Tree(r) else Stale(r, n - 1, i / 64, leaf.With(i, b).Full(i / 64))
  {
    var n, leaf := |hs| - 1, hs[|hs| - 1];
    TouchValid(leaf, i, b);
    if n > 0 {
      Touch(hs[n - 1], leaf, i, b);
      hide Linked, NearlyLinked, LevelBits;
    }
  }

  /** Once the parent's bit is right, at most the level above it is stale. */
  lemma Refreshed(hs: seq<Level>, parent: int, entry: nat, full: bool)
    requires Stale(hs, parent, entry, full)
    ensures entry < 64 * |hs[parent].data|
    ensures var level := hs[parent].With(entry, full);
      var r := hs[parent := level];
      if parent == 0 then Tree(r) else Stale(r, parent - 1, entry / 64, full && level.Full(entry / 64))
  {
    var p, c := hs[parent], hs[parent + 1];
    var level := p.With(entry, full);
    TouchValid(p, entry, full);
    assert Linked(level, c) by {
      forall g: nat | g < p.len
        ensures level.Get(g) <==> c.Full(g)
      {
      }
    }
    if !full {
      NotFull(level, entry);
    }
    if parent > 0 {
      Touch(hs[parent - 1], p, entry, full);
    }
    hide Linked, NearlyLinked, LevelBits;
  }

  // ----- creation and resizing -----

  function Repeat(n: nat): (r: seq<Word>)
    ensures |r| == n && forall i :: 0 <= i < n ==> r[i] == Ones()
  {
    if n == 0 then [] else Repeat(n - 1) + [Ones()]
  }

  function NewFull(len: nat, capacity: nat): Level
  {
    Level(len, Repeat(Words(capacity)))
  }

  lemma FullLevel(n: nat, c: nat)
    requires n <= c
    ensures NewFull(n, c).Valid() && LevelBits(NewFull(n, c)) == Bits(n, {})
  {
    assert LevelBits(NewFull(n, c)).clear == {};
  }

  lemma FullLinked(n: nat, c: nat)
    requires n <= c
    ensures Linked(NewFull(Words(n), Words(c)), NewFull(n, c))
  {
  }

  /** The length of the level `k` levels up. */
  function Up64(n: nat, k: nat): nat
  {
    if k == 0 then n else Up64(Words(n), k - 1)
  }

  function Padding(l: Level, n: nat): nat
  {
    if |l.data| < Words(n) then Words(n) - |l.data| else 0
  }

  function GrownLevel(l: Level, n: nat): Level
  {
    Level(n, l.data + Repeat(Padding(l, n)))
  }

  /** Every level resized, the last one to `n`. */
  function Grown(hs: seq<Level>, n: nat): (r: seq<Level>)
    ensures |r| == |hs|
  {
    if hs == [] then [] else Grown(hs[..|hs| - 1], Words(n)) + [GrownLevel(hs[|hs| - 1], n)]
  }

  /** No clear bit at or past `n`. */
  ghost predicate Closed(l: Level, n: nat)
  {
    forall i: nat :: n <= i < 64 * |l.data| ==> l.Get(i)
  }

  lemma LeafClosed(l: Level, n: nat)
    requires l.Valid() && forall i :: i in LevelBits(l).clear ==> i < n
    ensures Closed(l, n)
  {
    forall i: nat | n <= i < 64 * |l.data|
      ensures l.Get(i)
    {
      assert i !in LevelBits(l).clear;
    }
  }

  /** Adds words and sets the new bits, which are set already. */
  method ResizeLevel(l: Level, n: nat) returns (r: Level)
    requires l.Valid() && Closed(l, n)
    ensures r == GrownLevel(l, n)
  {
    r := Level(n, l.data + Repeat(Padding(l, n)));
    ghost var target := r;
    if l.len < n {
      for i := l.len to n
        invariant r == target
      {
        GrownGet(l, n, i);
        assert r.data[i / 64][i % 64];
        r := r.With(i, true);
        assert r.data[i / 64] == target.data[i / 64];
        assert r.data == target.data;
      }
    }
  }

  lemma GrownGet(l: Level, n: nat, i: nat)
    requires l.Valid() && i < 64 * |GrownLevel(l, n).data|
    ensures GrownLevel(l, n).Get(i) == (i >= 64 * |l.data| || l.Get(i))
  {
    var r := GrownLevel(l, n);
    if i >= 64 * |l.data| {
      assert r.data[i / 64] == Ones();
    } else {
      assert r.data[i / 64] == l.data[i / 64];
    }
  }

  lemma GrownValid(l: Level, n: nat)
    requires l.Valid() && Closed(l, n)
    ensures GrownLevel(l, n).Valid()
  {
    var r := GrownLevel(l, n);
    forall i: nat | n <= i < 64 * |r.data|
      ensures r.Get(i)
    {
      GrownGet(l, n, i);
    }
  }

  lemma GrownBits(l: Level, n: nat)
    requires l.Valid() && Closed(l, n)
    ensures GrownLevel(l, n).Valid() && LevelBits(GrownLevel(l, n)) == Bits(n, LevelBits(l).clear)
  {
    GrownValid(l, n);
    var r := GrownLevel(l, n);
    forall i: nat
      ensures i in LevelBits(r).clear <==> i in LevelBits(l).clear
    {
      if i < 64 * |r.data| {
        GrownGet(l, n, i);
      }
    }
    assert LevelBits(r).clear == LevelBits(l).clear;
  }

  /** What is given up below is full, so its bits above are set. */
  lemma ParentClosed(p: Level, c: Level, n: nat)
    requires Linked(p, c) && p.Valid() && c.Valid() && Closed(c, n)
    ensures Closed(p, Words(n))
  {
    forall g: nat | Words(n) <= g < 64 * |p.data|
      ensures p.Get(g)
    {
      if g < p.len {
        FullBits(c, g);
      }
    }
  }

  lemma ClosedAbove(hs: seq<Level>, h: nat, n: nat)
    requires Tree(hs) && h < |hs| && Closed(hs[h], n)
    ensures hs[h].Valid() && (h > 0 ==> Closed(hs[h - 1], Words(n)))
  {
    if h > 0 {
      ParentClosed(hs[h - 1], hs[h], n);
    }
  }

  lemma GrownLinked(p: Level, c: Level, n: nat)
    requires Linked(p, c) && p.Valid() && c.Valid() && Closed(c, n)
    ensures Linked(GrownLevel(p, Words(n)), GrownLevel(c, n))
  {
    var q, d := GrownLevel(p, Words(n)), GrownLevel(c, n);
    forall g: nat | g < q.len
      ensures q.Get(g) <==> d.Full(g)
    {
      GrownGet(p, Words(n), g);
      if g < p.len {
        assert d.data[g] == c.data[g];
      } else if g < |c.data| {
        assert d.data[g] == c.data[g];
        FullBits(c, g);
      } else {
        assert d.data[g] == Ones();
      }
    }
  }

  /** From the last level up. */
  method ResizeLevels(hs: seq<Level>, newLen: nat) returns (r: seq<Level>)
    requires Tree(hs) && Closed(hs[|hs| - 1], newLen)
    ensures r == Grown(hs, newLen)
  {
    hide Level.Valid, Linked, Closed, GrownLevel;
    var n: nat, h: nat := newLen, |hs|;
    r := hs;
    assert hs[..|hs|] == hs;
    while h > 0
      invariant 0 <= h <= |hs| == |r| && r[..h] == hs[..h]
      invariant Grown(hs, newLen) == Grown(hs[..h], n) + r[h..]
      invariant h > 0 ==> Closed(hs[h - 1], n)
    {
      h := h - 1;
      ClosedAbove(hs, h, n);
      assert hs[..h + 1][..h] == hs[..h] && r[h] == hs[h];
      var level := ResizeLevel(r[h], n);
      assert r[h := level][h..] == [level] + r[h + 1..];
      r := r[h := level];
      n := Words(n);
    }
  }

  lemma {:induction false} GrownLevels(hs: seq<Level>, n: nat)
    requires (forall h :: 0 <= h < |hs| ==> hs[h].Valid()) && (forall h :: 0 < h < |hs| ==> Linked(hs[h - 1], hs[h]))
    requires hs != [] && Closed(hs[|hs| - 1], n)
    ensures var r := Grown(hs, n);
      && r[|hs| - 1] == GrownLevel(hs[|hs| - 1], n) && r[0].len == Up64(n, |hs| - 1)
      && (forall h :: 0 <= h < |hs| ==> r[h].Valid()) && forall h :: 0 < h < |hs| ==> Linked(r[h - 1], r[h])
    decreases |hs|
  {
    var k := |hs| - 1;
    GrownValid(hs[k], n);
    if k > 0 {
      var up := hs[..k];
      ParentClosed(hs[k - 1], hs[k], n);
      GrownLevels(up, Words(n));
      GrownLinked(hs[k - 1], hs[k], n);
      hide Linked, Closed, Level.Valid, GrownLevel;
    }
  }

  lemma {:induction false} GrownTree(hs: seq<Level>, n: nat)
    requires Tree(hs) && Closed(hs[|hs| - 1], n) && Up64(n, |hs| - 1) <= 64
    ensures Tree(Grown(hs, n)) && Grown(hs, n)[|hs| - 1] == GrownLevel(hs[|hs| - 1], n)
  {
    hide Linked, Closed, Level.Valid, GrownLevel;
    GrownLevels(hs, n);
  }
}
