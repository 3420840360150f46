/**
 The range iterator itself: any interleaving of `Next` and `NextBack` consumes the entries within
 the bounds from its two ends.
 */
module BtreeRangeIter {
  import opened Bits
  import opened BtreeSpec
  import opened BtreeLocate
  import opened BtreeIter
  import opened BtreeRange

  /** The entries within the bounds. */
  function Selected(es: seq<Entry>, lo: RangeBound, hi: RangeBound): seq<Entry>
  {
    if es == [] then []
    else (if PastStart(lo, es[0].key) && BeforeEnd(hi, es[0].key) then [es[0]] else []) + Selected(es[1..], lo, hi)
  }

  ghost predicate Picks(es: seq<Entry>, lo: RangeBound, hi: RangeBound, a: int, b: int)
  {
    forall z :: 0 <= z < |es| ==> (PastStart(lo, es[z].key) && BeforeEnd(hi, es[z].key) <==> a <= z < b)
  }

  function Clamp(k: int, n: nat): nat
  {
    if k < 0 then 0 else if k > n then n else k
  }

  lemma DropOne(es: seq<Entry>, i: nat, j: nat)
    requires 1 <= i <= j <= |es|
    ensures es[i..j] == es[1..][i - 1..j - 1]
  {
    forall k | 0 <= k < j - i
      ensures es[i..j][k] == es[1..][i - 1..j - 1][k]
    {
      assert es[1..][i - 1 + k] == es[i + k];
    }
  }

  lemma SliceStep(es: seq<Entry>, a: int, b: int)
    requires es != [] && a <= b
    ensures es[Clamp(a, |es|)..Clamp(b, |es|)] == (if a <= 0 < b then [es[0]] else [])
      + es[1..][Clamp(a - 1, |es| - 1)..Clamp(b - 1, |es| - 1)]
  {
    var i, j := Clamp(a, |es|), Clamp(b, |es|);
    if a > 0 {
      DropOne(es, i, j);
    } else if b > 0 {
      assert es[0..j] == [es[0]] + es[1..][0..j - 1];
    }
  }

  lemma {:induction false} SelectedIs(es: seq<Entry>, lo: RangeBound, hi: RangeBound, a: int, b: int)
    requires a <= b && Picks(es, lo, hi, a, b)
    ensures Selected(es, lo, hi) == es[Clamp(a, |es|)..Clamp(b, |es|)]
    decreases |es|
  {
    if es != [] {
      assert Picks(es[1..], lo, hi, a - 1, b - 1) by {
        forall z | 0 <= z < |es| - 1
          ensures PastStart(lo, es[1..][z].key) && BeforeEnd(hi, es[1..][z].key) <==> a - 1 <= z < b - 1
        {
          assert es[1..][z] == es[z + 1];
        }
      }
      SelectedIs(es[1..], lo, hi, a - 1, b - 1);
      assert PastStart(lo, es[0].key) && BeforeEnd(hi, es[0].key) <==> a <= 0 < b;
      SliceStep(es, a, b);
    }
  }

  lemma {:induction false} SelectedEmpty(es: seq<Entry>, lo: RangeBound, hi: RangeBound)
    requires RangeIsEmpty(lo, hi)
    ensures Selected(es, lo, hi) == []
    decreases |es|
  {
    if es != [] {
      SelectedEmpty(es[1..], lo, hi);
    }
  }

  ghost function Window(s: seq<Entry>, lo: nat, hi: nat): seq<Entry>
  {
    if lo <= hi <= |s| then s[lo..hi] else []
  }

  lemma WindowEnd(s: seq<Entry>, lo: nat, hi: nat)
    requires lo < hi <= |s|
    ensures |Window(s, lo, hi)| == hi - lo && Window(s, lo, hi)[hi - lo - 1] == s[hi - 1]
      && Window(s, lo, hi)[..hi - lo - 1] == Window(s, lo, hi - 1)
  {
  }

  lemma WindowNone(s: seq<Entry>, lo: nat, hi: nat)
    requires hi <= lo
    ensures Window(s, lo, hi) == []
  {
  }

  /** Two cursors on the same page are as far apart there as in the tree; at the same entry they share the page. */
  lemma {:induction false} Compared(t: Node, left: State, i: nat, right: State, j: nat)
    requires Forward(t, left, i) && Backward(t, right, j + 1) && left.LeafAt? && right.LeafAt? && Distinct(Pages(t))
    ensures i < Size(t) && j < Size(t) && left.node.Leaf? && left.entry < |left.node.entries| && right.node.Leaf?
      && right.entry < |right.node.entries|
    ensures left.node.page == right.node.page ==> left.entry - right.entry == i - j
    ensures i == j ==> left.node == right.node && left.entry == right.entry
    ensures left.node.entries[left.entry] == Entries(t)[i] && right.node.entries[right.entry] == Entries(t)[j]
  {
    assert AheadAt(left, 0) == Locate(t, i + 0);
    assert BehindAt(right, j) == Locate(t, j);
    if left.node.page == right.node.page {
      SamePage(t, i, j);
    }
  }

  function Reverse(s: seq<Entry>): seq<Entry>
  {
    if s == [] then [] else Reverse(s[1..]) + [s[0]]
  }

  lemma {:induction false} ReverseAppend(s: seq<Entry>, e: Entry)
    ensures Reverse(s + [e]) == [e] + Reverse(s)
    decreases |s|
  {
    if s == [] {
      assert s + [e] == [e];
    } else {
      assert (s + [e])[1..] == s[1..] + [e];
      ReverseAppend(s[1..], e);
    }
  }

  lemma {:induction false} ReverseLength(s: seq<Entry>)
    ensures |Reverse(s)| == |s|
    decreases |s|
  {
    if s != [] {
      ReverseLength(s[1..]);
    }
  }

  class BtreeRangeIter {
    var left: State
    var right: State
    var includeLeft: bool
    var includeRight: bool
    ghost var tree: Node
    ghost var i: nat
    ghost var j: nat

    ghost predicate Valid()
      reads this
    {
      || (left.Done? && right.Done?)
      || (left.LeafAt? && right.LeafAt? && Forward(tree, left, i) && Backward(tree, right, j + 1)
          && i <= j < Size(tree) && Distinct(Pages(tree)))
    }

    ghost function Remaining(): seq<Entry>
      reads this
    {
      if left.Done? then []
        else Window(Entries(tree), if includeLeft then i else i + 1, if includeRight then j + 1 else j)
    }

    constructor (root: Option<Node>, lo: RangeBound, hi: RangeBound, ghost h: nat)
      requires root.Some? ==> WF(root.value, h, Min, Max) && Distinct(Pages(root.value))
      ensures Valid() && Remaining() == if root.Some? then Selected(Entries(root.value), lo, hi) else []
    {
      left, right, includeLeft, includeRight := Done, Done, false, false;
      tree, i, j := Leaf(0, 0, []), 0, 0;
      new;
      hide Forward, Backward, Distinct, SplitsStart, SplitsEnd, Landing, WF, Full, Branchy, RangeIsEmpty, Selected,
           Entries, Pages;
      if RangeIsEmpty(lo, hi) {
        if root.Some? {
          SelectedEmpty(Entries(root.value), lo, hi);
        }
        return;
      }
      if root.Some? {
        Place(root.value, lo, hi, h);
      }
    }

    method Place(t: Node, lo: RangeBound, hi: RangeBound, ghost h: nat)
      requires WF(t, h, Min, Max) && Distinct(Pages(t)) && !RangeIsEmpty(lo, hi)
      modifies this
      ensures Valid() && Remaining() == Selected(Entries(t), lo, hi)
    {
      hide Forward, Backward, Distinct, SplitsStart, SplitsEnd, Landing, WF, Full, Branchy, RangeIsEmpty, Selected,
           Entries, Pages;
      ghost var a, b;
      includeLeft, left, i, a := PlaceLeft(t, lo, h);
      includeRight, right, j, b := PlaceRight(t, hi, h);
      tree := t;
      Ordered(t, lo, hi, h, i, j, a, b);
    }

    /** Both cursors stand on the same page, and there the range between them is used up. */
    method Exhausted(takeLeft: bool, takeRight: bool) returns (b: bool)
      requires left.LeafAt? && right.LeafAt? && Forward(tree, left, i) && Backward(tree, right, j + 1)
        && i <= j < Size(tree) && Distinct(Pages(tree))
      ensures b <==> i == j && !(takeLeft && takeRight)
    {
      Compared(tree, left, i, right, j);
      b := left.node.page == right.node.page && (left.entry > right.entry
          || (left.entry == right.entry && (!takeLeft || !takeRight)));
    }

    method Next() returns (r: Option<Entry>)
      requires Valid()
      modifies this
      ensures Valid() && tree == old(tree)
      ensures old(Remaining()) == [] ==> r.None? && Remaining() == []
      ensures old(Remaining()) != [] ==> r == Some(old(Remaining())[0]) && Remaining() == old(Remaining())[1..]
    {
      hide Forward, Backward, Distinct, Entries;
      if left.Done? {
        return None;
      }
      Compared(tree, left, i, right, j);
      var over := Exhausted(includeLeft, includeRight);
      if over {
        return None;
      }
      if !includeLeft {
        AdvanceLeft();
      }
      over := Exhausted(true, includeRight);
      if over {
        return None;
      }
      includeLeft := false;
      Compared(tree, left, i, right, j);
      r := Some(left.node.entries[left.entry]);
    }

    /** Moves the left cursor to the next leaf entry. */
    method AdvanceLeft()
      requires left.LeafAt? && right.LeafAt? && Forward(tree, left, i) && Backward(tree, right, j + 1)
        && i < j < Size(tree) && Distinct(Pages(tree))
      modifies this`left, this`i
      ensures left.LeafAt? && Forward(tree, left, i) && i == old(i) + 1
    {
      ForwardNext(tree, left, i);
      left := BtreeIter.Next(left, false);
      i := i + 1;
      while !left.LeafAt?
        invariant Forward(tree, left, i) && i == old(i) + 1
        decreases Depth(left)
      {
        assert !left.Done?;
        ForwardNext(tree, left, i);
        ChildHeight(left.node.children, left.child);
        left := BtreeIter.Next(left, false);
      }
    }

    method NextBack() returns (r: Option<Entry>)
      requires Valid()
      modifies this
      ensures Valid() && tree == old(tree)
      ensures old(Remaining()) == [] ==> r.None? && Remaining() == []
      ensures old(Remaining()) != [] ==>
        var s := old(Remaining()); r == Some(s[|s| - 1]) && Remaining() == s[..|s| - 1]
    {
      assert Size(tree) == |Entries(tree)|;
      hide Forward, Backward, Distinct, Entries, Size, Pages, Window;
      if right.Done? {
        return None;
      }
      ghost var lo, hi := if includeLeft then i else i + 1, if includeRight then j + 1 else j;
      r := TakeBack();
      if lo < hi {
        WindowEnd(Entries(tree), lo, hi);
      } else {
        WindowNone(Entries(tree), lo, hi);
        WindowNone(Entries(tree), lo, if includeRight then j + 1 else j);
      }
    }

    method TakeBack() returns (r: Option<Entry>)
      requires Valid() && !right.Done?
      modifies this
      ensures Valid() && tree == old(tree) && left == old(left) && i == old(i) && includeLeft == old(includeLeft)
        && !right.Done?
      ensures var lo, hi := if includeLeft then i else i + 1, if old(includeRight) then old(j) + 1 else old(j);
        if lo < hi then r == Some(Entries(tree)[hi - 1]) && !includeRight && j == hi - 1
        else r.None? && (if includeRight then j + 1 else j) <= lo
    {
      hide Forward, Backward, Distinct, Entries;
      Compared(tree, left, i, right, j);
      var over := Exhausted(includeLeft, includeRight);
      if over {
        return None;
      }
      if !includeRight {
        AdvanceRight();
      }
      over := Exhausted(includeLeft, true);
      if over {
        return None;
      }
      includeRight := false;
      Compared(tree, left, i, right, j);
      r := Some(right.node.entries[right.entry]);
    }

    method AdvanceRight()
      requires left.LeafAt? && right.LeafAt? && Forward(tree, left, i) && Backward(tree, right, j + 1)
        && i < j < Size(tree) && Distinct(Pages(tree))
      modifies this`right, this`j
      ensures right.LeafAt? && Backward(tree, right, j + 1) && j == old(j) - 1
    {
      BackwardNext(tree, right, j + 1);
      right := BtreeIter.Next(right, true);
      j := j - 1;
      while !right.LeafAt?
        invariant j >= 0 && Backward(tree, right, j + 1) && j == old(j) - 1
        decreases Depth(right)
      {
        assert !right.Done?;
        BackwardNext(tree, right, j + 1);
        ChildHeight(right.node.children, right.child);
        right := BtreeIter.Next(right, true);
      }
    }

    /**
     Whatever the order of the calls, what came from the front, what is left, and what came from the
     back make up the range.
     */
    method Interleave(directions: seq<bool>) returns (fronts: seq<Entry>, backs: seq<Entry>)
      requires Valid()
      modifies this
      ensures Valid() && fronts + Remaining() + Reverse(backs) == old(Remaining())
      ensures |directions| >= |old(Remaining())| ==> Remaining() == []
    {
      hide Valid, Remaining, Reverse;
      fronts, backs := [], [];
      ReverseLength([]);
      for k := 0 to |directions|
        invariant Valid() && fronts + Remaining() + Reverse(backs) == old(Remaining())
        invariant Remaining() == [] || |fronts| + |backs| == k
      {
        if directions[k] {
          var r := Next();
          if r.Some? {
            fronts := fronts + [r.value];
          }
        } else {
          var r := NextBack();
          if r.Some? {
            ReverseAppend(backs, r.value);
            backs := backs + [r.value];
          }
        }
      }
      ReverseLength(backs);
    }
  }

  /** How far down a cursor at a branch still has to go. */
  ghost function Depth(s: State): nat
  {
    if s.InternalAt? then 1 + Height(s.node) else 0
  }

  ghost function Height(n: Node): nat
    decreases n, 0
  {
    match n
    case Leaf(_, _, _) => 0
    case Branch(_, _, cs) => 1 + MaxHeight(cs)
  }

  ghost function MaxHeight(ts: seq<Node>): nat
    decreases ts, 1
  {
    if ts == [] then 0 else var a, b := Height(ts[0]), MaxHeight(ts[1..]); if a < b then b else a
  }

  lemma {:induction false} ChildHeight(ts: seq<Node>, c: nat)
    requires c < |ts|
    ensures Height(ts[c]) <= MaxHeight(ts)
    decreases |ts|
  {
    if c > 0 {
      ChildHeight(ts[1..], c - 1);
    }
  }

  method PlaceLeft(t: Node, b: RangeBound, ghost h: nat) returns (inclusive: bool, s: State, ghost i: nat, ghost k: nat)
    requires WF(t, h, Min, Max)
    ensures s.LeafAt? && Forward(t, s, i) && SplitsStart(Entries(t), b, k) && k == i + (if inclusive then 0 else 1)
    ensures Full(t) && Branchy(t) && i == if b.Unbounded? then 0 else Landing(t, b.key)
  {
    WellFormedFull(t, h, Min, Max);
    WellFormedBranchy(t, h, Min, Max);
    if b.Unbounded? {
      s := FindFirst(t, Done, t, 0, h, Min, Max);
      inclusive, i, k := true, 0, 0;
    } else {
      inclusive, s, k := FindLeft(t, Done, b, t, 0, h, Min, Max);
      i := Landing(t, b.key);
    }
  }

  method PlaceRight(t: Node, b: RangeBound, ghost h: nat)
    returns (inclusive: bool, s: State, ghost j: nat, ghost k: nat)
    requires WF(t, h, Min, Max)
    ensures s.LeafAt? && Backward(t, s, j + 1) && SplitsEnd(Entries(t), b, k) && k == j + (if inclusive then 1 else 0)
    ensures Full(t) && Branchy(t) && Size(t) > 0 && j == if b.Unbounded? then Size(t) - 1 else Landing(t, b.key)
  {
    WellFormedFull(t, h, Min, Max);
    WellFormedBranchy(t, h, Min, Max);
    FullSize(t);
    if b.Unbounded? {
      s := FindLast(t, Done, t, 0, h, Min, Max);
      inclusive, j, k := true, Size(t) - 1, Size(t);
    } else {
      inclusive, s, k := FindRight(t, Done, b, t, 0, h, Min, Max);
      j := Landing(t, b.key);
    }
  }

  /** The cursors do not cross, and what lies between the two cuts is what the bounds select. */
  lemma {:induction false} Ordered(t: Node, lo: RangeBound, hi: RangeBound, h: nat, i: nat, j: nat, a: nat, b: nat)
    requires WF(t, h, Min, Max) && !RangeIsEmpty(lo, hi) && Full(t) && Branchy(t) && Size(t) > 0
    requires i == (if lo.Unbounded? then 0 else Landing(t, lo.key)) && j == if hi.Unbounded? then Size(t) - 1
      else Landing(t, hi.key)
    requires SplitsStart(Entries(t), lo, a) && SplitsEnd(Entries(t), hi, b) && i <= a <= i + 1 && j <= b <= j + 1
    ensures i <= j < Size(t) && Selected(Entries(t), lo, hi) == Window(Entries(t), a, b)
  {
    if !lo.Unbounded? && !hi.Unbounded? {
      LandingMonotone(t, lo.key, hi.key);
    }
    var es := Entries(t);
    hide Landing, WF, Full, Branchy, Entries;
    assert Picks(es, lo, hi, a, b);
    if a <= b {
      SelectedIs(es, lo, hi, a, b);
    } else {
      assert Picks(es, lo, hi, 0, 0);
      SelectedIs(es, lo, hi, 0, 0);
    }
  }
}
