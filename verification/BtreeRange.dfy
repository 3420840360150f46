/**
 Placing the two cursors for a range, and walking it from both ends.
 */
module BtreeRange {
  import opened BtreeSpec
  import opened BtreeNodes
  import opened BtreeRows
  import opened BtreeInsert
  import opened BtreeLocate
  import opened BtreeIter

  datatype RangeBound = Unbounded | Included(key: Key) | Excluded(key: Key)

  /** Whether a key is past the start of the range, and before its end. */
  predicate PastStart(b: RangeBound, k: Key)
  {
    match b
    case Unbounded => true
    case Included(q) => k >= q
    case Excluded(q) => k > q
  }

  predicate BeforeEnd(b: RangeBound, k: Key)
  {
    match b
    case Unbounded => true
    case Included(q) => k <= q
    case Excluded(q) => k < q
  }

  predicate RangeIsEmpty(lo: RangeBound, hi: RangeBound)
  {
    if lo.Unbounded? || hi.Unbounded? then false
    else if lo.Included? && hi.Included? then lo.key > hi.key
    else lo.key >= hi.key
  }

  // ----- a subtree inside the tree -----

  ghost predicate Inside(t: Node, n: Node, x: nat)
  {
    x + Size(n) <= Size(t) && forall z: nat :: z < Size(n) ==> Locate(n, z) == Locate(t, x + z)
  }

  lemma ChildSizes(n: Node, c: nat)
    requires n.Branch? && c < |n.children|
    ensures Size(n) == AllSize(n.children[..c]) + Size(n.children[c]) + AllSize(n.children[c + 1..])
    ensures AllSize(n.children[..c + 1]) == AllSize(n.children[..c]) + Size(n.children[c])
    ensures AllSize(n.children[c..]) == Size(n.children[c]) + AllSize(n.children[c + 1..])
  {
    DescendParts(n, c);
    LastChild(n.children, c);
    assert n.children[c..][1..] == n.children[c + 1..];
  }

  lemma {:induction false} LocateChild(n: Node, c: nat, z: nat)
    requires n.Branch? && c < |n.children| && z < Size(n)
    ensures Size(n) == AllSize(n.children[..c]) + AllSize(n.children[c..])
    ensures Locate(n, z) == if z < AllSize(n.children[..c]) then LocateRow(n.children[..c], z)
      else LocateRow(n.children[c..], z - AllSize(n.children[..c]))
  {
    assert n.children == n.children[..c] + n.children[c..];
    LocateConcat(n.children[..c], n.children[c..], z);
  }

  lemma InsideChild(t: Node, n: Node, x: nat, c: nat)
    requires Inside(t, n, x) && n.Branch? && c < |n.children|
    ensures Inside(t, n.children[c], x + AllSize(n.children[..c]))
  {
    ChildSizes(n, c);
    var o := AllSize(n.children[..c]);
    forall z: nat | z < Size(n.children[c])
      ensures Locate(n.children[c], z) == Locate(t, x + o + z)
    {
      assert Locate(n, o + z) == Locate(t, x + (o + z));
      LocateChild(n, c, o + z);
      SplitChildren(n.children, c, z);
    }
  }

  lemma ForwardPush(t: Node, n: Node, x: nat, c: nat, parent: State)
    requires Inside(t, n, x) && Forward(t, parent, x + Size(n)) && n.Branch? && c + 1 < |n.children|
      && AllFull(n.children) && !parent.LeafAt?
    ensures Forward(t, InternalAt(n, c + 1, parent), x + AllSize(n.children[..c + 1]))
  {
    var s, o := InternalAt(n, c + 1, parent), AllSize(n.children[..c + 1]);
    ChildSizes(n, c);
    ChildSizes(n, c + 1);
    assert Sound(s) && x + o + Ahead(s) == Size(t);
    forall z: nat | z < Ahead(s)
      ensures AheadAt(s, z) == Locate(t, x + o + z)
    {
      PushedAt(t, n, x, c, parent, z);
    }
  }

  lemma PushedAt(t: Node, n: Node, x: nat, c: nat, parent: State, z: nat)
    requires Inside(t, n, x) && Forward(t, parent, x + Size(n)) && n.Branch? && c + 1 < |n.children|
      && Sound(InternalAt(n, c + 1, parent))
    requires z < Ahead(InternalAt(n, c + 1, parent))
      && Size(n) == AllSize(n.children[..c + 1]) + AllSize(n.children[c + 1..])
    ensures x + AllSize(n.children[..c + 1]) + z < Size(t)
    ensures AheadAt(InternalAt(n, c + 1, parent), z) == Locate(t, x + AllSize(n.children[..c + 1]) + z)
  {
    var o, k := AllSize(n.children[..c + 1]), AllSize(n.children[c + 1..]);
    if z < k {
      LocateChild(n, c + 1, o + z);
      assert Locate(n, o + z) == Locate(t, x + (o + z));
    } else {
      assert AheadAt(parent, z - k) == Locate(t, x + Size(n) + (z - k));
    }
  }

  lemma ForwardAtLeaf(t: Node, n: Node, x: nat, e: nat, parent: State)
    requires Inside(t, n, x) && Forward(t, parent, x + Size(n)) && n.Leaf? && e < |n.entries| && !parent.LeafAt?
    ensures Forward(t, LeafAt(n, e, parent), x + e)
  {
    var s := LeafAt(n, e, parent);
    assert Sound(s) && x + e + Ahead(s) == Size(t);
    forall z: nat | z < Ahead(s)
      ensures AheadAt(s, z) == Locate(t, x + e + z)
    {
      LeafForwardAt(t, n, x, e, parent, z);
    }
  }

  lemma {:induction false} LeafForwardAt(t: Node, n: Node, x: nat, e: nat, parent: State, z: nat)
    requires Inside(t, n, x) && n.Leaf? && Forward(t, parent, x + |n.entries|) && e < |n.entries|
    requires Sound(LeafAt(n, e, parent)) && z < Ahead(LeafAt(n, e, parent))
    ensures x + e + z < Size(t) && AheadAt(LeafAt(n, e, parent), z) == Locate(t, x + e + z)
  {
    hide Inside, Forward, AheadAt, Ahead, Sound, Locate, Size;
    LeafAhead(n, e, parent, z);
    var k := |n.entries| - e;
    if z < k {
      InLeaf(t, n, x, e + z);
    } else {
      AheadIs(t, parent, x + |n.entries|, z - k);
    }
  }

  lemma LeafAhead(n: Node, e: nat, parent: State, z: nat)
    requires Sound(LeafAt(n, e, parent)) && z < Ahead(LeafAt(n, e, parent))
    ensures var k := |n.entries| - e;
      if z < k then AheadAt(LeafAt(n, e, parent), z) == (n, e + z)
        else z - k < Ahead(parent) && AheadAt(LeafAt(n, e, parent), z) == AheadAt(parent, z - k)
  {
  }

  lemma {:induction false} AheadIs(t: Node, s: State, x: nat, z: nat)
    requires Forward(t, s, x) && z < Ahead(s)
    ensures x + z < Size(t) && AheadAt(s, z) == Locate(t, x + z)
  {
    hide AheadAt, Ahead, Locate, Sound;
  }

  lemma BackwardPush(t: Node, n: Node, x: nat, c: nat, parent: State)
    requires Inside(t, n, x) && Backward(t, parent, x) && n.Branch? && 0 < c < |n.children| && AllFull(n.children)
      && !parent.LeafAt?
    ensures Backward(t, InternalAt(n, c - 1, parent), x + AllSize(n.children[..c]))
  {
    var s, o := InternalAt(n, c - 1, parent), AllSize(n.children[..c]);
    ChildSizes(n, c);
    assert n.children[..c - 1 + 1] == n.children[..c];
    hide Locate, LocateRow, AllEntries, Entries, Size, AllSize, AllFull;
    forall y: nat | y < x + o
      ensures BehindAt(s, y) == Locate(t, y)
    {
      BehindPushed(t, n, x, c, parent, y);
    }
  }

  lemma {:induction false} BehindPushed(t: Node, n: Node, x: nat, c: nat, parent: State, y: nat)
    requires Inside(t, n, x) && Backward(t, parent, x) && n.Branch? && 0 < c < |n.children|
    requires Sound(InternalAt(n, c - 1, parent)) && y < x + AllSize(n.children[..c])
      && Behind(InternalAt(n, c - 1, parent)) == x + AllSize(n.children[..c]) <= x + Size(n)
    ensures y < Size(t) && BehindAt(InternalAt(n, c - 1, parent), y) == Locate(t, y)
  {
    hide Locate, LocateRow, AllEntries, Entries, Size, AllSize, AllFull, Sound;
    assert n.children[..c - 1 + 1] == n.children[..c];
    if y < x {
      BehindIs(t, parent, x, y);
    } else {
      LocateChild(n, c, y - x);
      assert Locate(n, y - x) == Locate(t, x + (y - x));
    }
  }

  lemma BackwardAtLeaf(t: Node, n: Node, x: nat, e: nat, parent: State)
    requires Inside(t, n, x) && Backward(t, parent, x) && n.Leaf? && e < |n.entries| && !parent.LeafAt?
    ensures Backward(t, LeafAt(n, e, parent), x + e + 1)
  {
    var s := LeafAt(n, e, parent);
    assert Sound(s) && Behind(s) == x + e + 1 <= Size(t);
    forall y: nat | y < x + e + 1
      ensures BehindAt(s, y) == Locate(t, y)
    {
      LeafBackwardAt(t, n, x, e, parent, y);
    }
  }

  lemma {:induction false} LeafBackwardAt(t: Node, n: Node, x: nat, e: nat, parent: State, y: nat)
    requires Inside(t, n, x) && Backward(t, parent, x) && n.Leaf? && e < |n.entries| && Behind(parent) == x
    requires Sound(LeafAt(n, e, parent)) && y < Behind(LeafAt(n, e, parent)) == x + e + 1
    ensures y < Size(t) && BehindAt(LeafAt(n, e, parent), y) == Locate(t, y)
  {
    hide Inside, Backward, BehindAt, Behind, Sound, Locate, Size;
    LeafBehind(n, e, parent, y);
    if y < x {
      BehindIs(t, parent, x, y);
    } else {
      InLeaf(t, n, x, y - x);
    }
  }

  lemma {:induction false} InLeaf(t: Node, n: Node, x: nat, z: nat)
    requires Inside(t, n, x) && n.Leaf? && z < |n.entries|
    ensures x + z < Size(t) && Locate(t, x + z) == (n, z)
  {
    assert Locate(n, z) == (n, z) && Size(n) == |n.entries|;
    hide Locate, Size;
  }

  lemma {:induction false} LeafBehind(n: Node, e: nat, parent: State, y: nat)
    requires Sound(LeafAt(n, e, parent)) && y < Behind(LeafAt(n, e, parent))
    ensures if y < Behind(parent) then BehindAt(LeafAt(n, e, parent), y) == BehindAt(parent, y)
            else BehindAt(LeafAt(n, e, parent), y) == (n, y - Behind(parent))
  {
  }

  lemma {:induction false} BehindIs(t: Node, s: State, x: nat, y: nat)
    requires Backward(t, s, x) && y < x
    ensures y < Size(t) && y < Behind(s) && BehindAt(s, y) == Locate(t, y)
  {
    hide BehindAt, Locate, Sound;
  }

  // ----- where a key leads -----

  ghost function KeysBelow(ks: seq<Key>, q: Key): nat
    ensures KeysBelow(ks, q) <= |ks|
  {
    if ks == [] || ks[0] >= q then 0 else 1 + KeysBelow(ks[1..], q)
  }

  lemma {:induction false} KeysBelowIs(ks: seq<Key>, q: Key, c: nat)
    requires c <= |ks| && (forall i :: 0 <= i < c ==> ks[i] < q) && forall i :: c <= i < |ks| ==> q <= ks[i]
    ensures KeysBelow(ks, q) == c
    decreases |ks|
  {
    if c > 0 {
      KeysBelowIs(ks[1..], q, c - 1);
    }
  }

  lemma {:induction false} KeysBelowMonotone(ks: seq<Key>, q: Key, r: Key)
    requires q <= r
    ensures KeysBelow(ks, q) <= KeysBelow(ks, r)
    decreases |ks|
  {
    if ks != [] {
      KeysBelowMonotone(ks[1..], q, r);
    }
  }

  /**
   The index of the entry at which the search for a key ends: the first not below it in its leaf, or
   the leaf's last.
   */
  ghost function Landing(t: Node, q: Key): (r: nat)
    requires Full(t) && Branchy(t)
    ensures r < Size(t)
    decreases t
  {
    match t
    case Leaf(_, _, es) => var p := |Below(es, q)|; if p < |es| then p else |es| - 1
    case Branch(_, ks, cs) =>
      var c := KeysBelow(ks, q);
      FullAt(cs, c);
      BranchyAt(cs, c);
      ChildSizes(t, c);
      AllSize(cs[..c]) + Landing(cs[c], q)
  }

  ghost predicate Branchy(t: Node)
    decreases t, 0
  {
    t.Branch? ==> |t.children| == |t.keys| + 1 && AllBranchy(t.children)
  }

  ghost predicate AllBranchy(ts: seq<Node>)
    decreases ts, 1
  {
    ts == [] || (Branchy(ts[0]) && AllBranchy(ts[1..]))
  }

  lemma {:induction false} BranchyAt(ts: seq<Node>, i: nat)
    requires AllBranchy(ts) && i < |ts|
    ensures Branchy(ts[i])
    decreases |ts|
  {
    if i > 0 {
      BranchyAt(ts[1..], i - 1);
    }
  }

  lemma {:induction false} WellFormedBranchy(t: Node, h: nat, lo: Bound, hi: Bound)
    requires WF(t, h, lo, hi)
    ensures Branchy(t)
    decreases h, 0
  {
    if t.Branch? {
      RowBranchy(t.children, Ups(t.keys, hi), h - 1, lo);
    }
  }

  lemma {:induction false} RowBranchy(ts: seq<Node>, ups: seq<Bound>, h: nat, lo: Bound)
    requires Row(ts, ups, h, lo)
    ensures AllBranchy(ts)
    decreases h, |ts| + 1
  {
    if ts != [] {
      WellFormedBranchy(ts[0], h, lo, ups[0]);
      RowBranchy(ts[1..], ups[1..], h, ups[0]);
    }
  }

  lemma {:induction false} BelowMonotone(es: seq<Entry>, q: Key, r: Key)
    requires q <= r
    ensures |Below(es, q)| <= |Below(es, r)|
    decreases |es|
  {
    if es != [] {
      BelowMonotone(es[1..], q, r);
    }
  }

  /** Later keys land later. */
  lemma {:induction false} LandingMonotone(t: Node, q: Key, r: Key)
    requires Full(t) && Branchy(t) && q <= r
    ensures Landing(t, q) <= Landing(t, r)
    decreases t
  {
    match t
    case Leaf(_, _, es) => BelowMonotone(es, q, r);
    case Branch(_, ks, cs) =>
      var c, d := KeysBelow(ks, q), KeysBelow(ks, r);
      KeysBelowMonotone(ks, q, r);
      FullAt(cs, c);
      BranchyAt(cs, c);
      FullAt(cs, d);
      BranchyAt(cs, d);
      if c == d {
        LandingMonotone(cs[c], q, r);
      } else {
        ChildSizes(t, c);
        assert cs[..d] == cs[..c + 1] + cs[c + 1..d];
        Concat(cs[..c + 1], cs[c + 1..d]);
      }
  }

  // ----- placing the cursors -----

  ghost predicate SplitsStart(es: seq<Entry>, b: RangeBound, k: nat)
  {
    k <= |es| && forall z :: 0 <= z < |es| ==> (PastStart(b, es[z].key) <==> z >= k)
  }

  ghost predicate SplitsEnd(es: seq<Entry>, b: RangeBound, k: nat)
  {
    k <= |es| && forall z :: 0 <= z < |es| ==> (BeforeEnd(b, es[z].key) <==> z < k)
  }

  lemma {:induction false} LandsInLeaf(es: seq<Entry>, b: RangeBound, p: nat, found: bool)
    requires !b.Unbounded? && p <= |es| && AllBelow(es[..p], b.key)
    requires if found then p < |es| && es[p].key == b.key && AllOver(es[p + 1..], b.key) else AllOver(es[p..], b.key)
    ensures |Below(es, b.key)| == p
    ensures SplitsStart(es, b, if found && b.Excluded? then p + 1 else p)
    ensures SplitsEnd(es, b, if found && b.Included? then p + 1 else p)
  {
    CutBelow(es, b.key, p, found);
    CutKeys(es, b.key, p, found);
    hide Below, AllBelow, AllOver;
  }

  lemma {:induction false} CutBelow(es: seq<Entry>, q: Key, p: nat, found: bool)
    requires p <= |es| && AllBelow(es[..p], q)
    requires if found then p < |es| && es[p].key == q && AllOver(es[p + 1..], q) else AllOver(es[p..], q)
    ensures |Below(es, q)| == p
  {
    assert es == es[..p] + es[p..];
    BelowConcat(es[..p], es[p..], q);
    FilterBelow(es[..p], q);
    if found {
      assert es[p..][1..] == es[p + 1..];
      FilterOver(es[p + 1..], q);
    } else {
      FilterOver(es[p..], q);
    }
  }

  lemma SplitsWhole(a: seq<Entry>, m: seq<Entry>, c: seq<Entry>, b: RangeBound, k: nat)
    requires !b.Unbounded? && AllBelow(a, b.key) && AllOver(c, b.key)
    ensures SplitsStart(m, b, k) ==> SplitsStart(a + m + c, b, |a| + k)
    ensures SplitsEnd(m, b, k) ==> SplitsEnd(a + m + c, b, |a| + k)
  {
    var s := a + m + c;
    assert forall z :: 0 <= z < |a| ==> s[z] == a[z];
    assert forall z :: |a| <= z < |a| + |m| ==> s[z] == m[z - |a|];
    assert forall z :: |a| + |m| <= z < |s| ==> s[z] == c[z - |a| - |m|];
  }

  /** Everything a search needs to know about the subtree it has reached. */
  ghost predicate Searching(t: Node, n: Node, x: nat, q: Key, h: nat, lo: Bound, hi: Bound)
  {
    WF(n, h, lo, hi) && InRange(q, lo, hi) && Inside(t, n, x) && Full(n) && Branchy(n)
  }

  lemma {:induction false} SearchChild(t: Node, n: Node, x: nat, b: RangeBound, h: nat, lo: Bound, hi: Bound, c: nat)
    requires !b.Unbounded? && Searching(t, n, x, b.key, h, lo, hi) && Chosen(n, c, b.key)
    ensures h > 0 && Searching(t, n.children[c], x + AllSize(n.children[..c]), b.key, h - 1, ChildLow(n, c, lo, hi),
                               ChildHigh(n, c, hi))
    ensures Landing(n, b.key) == AllSize(n.children[..c]) + Landing(n.children[c], b.key)
    ensures forall k: nat :: SplitsStart(Entries(n.children[c]), b, k) ==>
      SplitsStart(Entries(n), b, AllSize(n.children[..c]) + k)
    ensures forall k: nat :: SplitsEnd(Entries(n.children[c]), b, k) ==>
      SplitsEnd(Entries(n), b, AllSize(n.children[..c]) + k)
  {
    var q := b.key;
    DescendBounds(n, c, q, h, lo, hi);
    DescendParts(n, c);
    InsideChild(t, n, x, c);
    FullAt(n.children, c);
    BranchyAt(n.children, c);
    KeysBelowIs(n.keys, q, c);
    hide WF, Inside, AllEntries, Entries, Chosen;
    forall k: nat
      ensures SplitsStart(Entries(n.children[c]), b, k) ==> SplitsStart(Entries(n), b, AllSize(n.children[..c]) + k)
      ensures SplitsEnd(Entries(n.children[c]), b, k) ==> SplitsEnd(Entries(n), b, AllSize(n.children[..c]) + k)
    {
      SplitsWhole(AllEntries(n.children[..c]), Entries(n.children[c]), AllEntries(n.children[c + 1..]), b, k);
    }
  }

  method LeftInLeaf(n: Node, parent: State, b: RangeBound, ghost t: Node, ghost x: nat, ghost h: nat, ghost lo: Bound,
                    ghost hi: Bound)
    returns (inclusive: bool, s: State, ghost k: nat)
    requires !b.Unbounded? && Searching(t, n, x, b.key, h, lo, hi) && n.Leaf?
    requires Forward(t, parent, x + Size(n)) && !parent.LeafAt?
    ensures s.LeafAt? && Forward(t, s, x + Landing(n, b.key))
    ensures SplitsStart(Entries(n), b, k) && k == Landing(n, b.key) + (if inclusive then 0 else 1)
  {
    var p, found := Position(n.entries, b.key);
    LandsInLeaf(n.entries, b, p, found);
    hide SplitsStart, SplitsEnd, Sorted, Below;
    var e := p;
    if p < |n.entries| {
      inclusive := b.Included? || !found;
    } else {
      // back up to the last entry, and exclude it
      e := p - 1;
      inclusive := false;
    }
    s := LeafAt(n, e, parent);
    ForwardAtLeaf(t, n, x, e, parent);
    k := if found && b.Excluded? then p + 1 else p;
  }

  method SearchFor(n: Node, q: Key, ghost t: Node, ghost x: nat, ghost h: nat, ghost lo: Bound, ghost hi: Bound)
    returns (c: nat)
    requires Searching(t, n, x, q, h, lo, hi) && n.Branch?
    ensures Chosen(n, c, q) && h > 0
  {
    hide Inside, Full, Branchy;
    c := FindChild(n, q, h, lo, hi);
  }

  method FindLeft(n: Node, parent: State, b: RangeBound, ghost t: Node, ghost x: nat, ghost h: nat, ghost lo: Bound,
                  ghost hi: Bound)
    returns (inclusive: bool, s: State, ghost k: nat)
    requires !b.Unbounded? && Searching(t, n, x, b.key, h, lo, hi)
    requires Forward(t, parent, x + Size(n)) && !parent.LeafAt?
    ensures s.LeafAt? && Forward(t, s, x + Landing(n, b.key))
    ensures SplitsStart(Entries(n), b, k) && k == Landing(n, b.key) + (if inclusive then 0 else 1)
    decreases n
  {
    hide Searching, Inside, Forward, Backward, SplitsStart, SplitsEnd, WF, Landing, AllSize, Size, InRange, Full,
         Branchy, ChildLow, ChildHigh;
    if n.Leaf? {
      inclusive, s, k := LeftInLeaf(n, parent, b, t, x, h, lo, hi);
    } else {
      var c := SearchFor(n, b.key, t, x, h, lo, hi);
      SearchChild(t, n, x, b, h, lo, hi, c);
      var up := parent;
      ghost var y, size := x + AllSize(n.children[..c]), Size(n.children[c]);
      PushedForward(t, n, x, c, parent, h, lo, hi, b.key);
      if c < |n.children| - 1 {
        up := InternalAt(n, c + 1, parent);
      }
      ghost var kc;
      inclusive, s, kc := FindLeft(n.children[c], up, b, t, y, h - 1, ChildLow(n, c, lo, hi), ChildHigh(n, c, hi));
      k := AllSize(n.children[..c]) + kc;
    }
  }

  lemma PushedForward(t: Node, n: Node, x: nat, c: nat, parent: State, h: nat, lo: Bound, hi: Bound, q: Key)
    requires Searching(t, n, x, q, h, lo, hi) && n.Branch? && c < |n.children|
    requires Forward(t, parent, x + Size(n)) && !parent.LeafAt?
    ensures var y := x + AllSize(n.children[..c]) + Size(n.children[c]);
      Forward(t, if c < |n.children| - 1 then InternalAt(n, c + 1, parent) else parent, y)
  {
    ChildSizes(n, c);
    if c < |n.children| - 1 {
      ForwardPush(t, n, x, c, parent);
    } else {
      assert n.children[c + 1..] == [];
    }
  }

  method RightInLeaf(n: Node, parent: State, b: RangeBound, ghost t: Node, ghost x: nat, ghost h: nat,
                     ghost lo: Bound, ghost hi: Bound)
    returns (inclusive: bool, s: State, ghost k: nat)
    requires !b.Unbounded? && Searching(t, n, x, b.key, h, lo, hi) && n.Leaf?
    requires Backward(t, parent, x) && !parent.LeafAt?
    ensures s.LeafAt? && Backward(t, s, x + Landing(n, b.key) + 1)
    ensures SplitsEnd(Entries(n), b, k) && k == Landing(n, b.key) + (if inclusive then 1 else 0)
  {
    var p, found := Position(n.entries, b.key);
    LandsInLeaf(n.entries, b, p, found);
    hide SplitsStart, SplitsEnd, Sorted, Below;
    var e := p;
    if p < |n.entries| {
      inclusive := b.Included? && found;
    } else {
      // back up to the last entry, and include it
      e := p - 1;
      inclusive := true;
    }
    s := LeafAt(n, e, parent);
    BackwardAtLeaf(t, n, x, e, parent);
    k := if found && b.Included? then p + 1 else p;
  }

  method FindRight(n: Node, parent: State, b: RangeBound, ghost t: Node, ghost x: nat, ghost h: nat, ghost lo: Bound,
                   ghost hi: Bound)
    returns (inclusive: bool, s: State, ghost k: nat)
    requires !b.Unbounded? && Searching(t, n, x, b.key, h, lo, hi)
    requires Backward(t, parent, x) && !parent.LeafAt?
    ensures s.LeafAt? && Backward(t, s, x + Landing(n, b.key) + 1)
    ensures SplitsEnd(Entries(n), b, k) && k == Landing(n, b.key) + (if inclusive then 1 else 0)
    decreases n
  {
    hide Searching, Inside, Forward, Backward, SplitsStart, SplitsEnd, WF, Landing, AllSize, Size, InRange, Full,
         Branchy, ChildLow, ChildHigh;
    if n.Leaf? {
      inclusive, s, k := RightInLeaf(n, parent, b, t, x, h, lo, hi);
    } else {
      var c := SearchFor(n, b.key, t, x, h, lo, hi);
      SearchChild(t, n, x, b, h, lo, hi, c);
      var up := parent;
      ghost var y := x + AllSize(n.children[..c]);
      PushedBackward(t, n, x, c, parent, h, lo, hi, b.key);
      if c > 0 {
        up := InternalAt(n, c - 1, parent);
      }
      ghost var kc;
      inclusive, s, kc := FindRight(n.children[c], up, b, t, y, h - 1, ChildLow(n, c, lo, hi), ChildHigh(n, c, hi));
      k := AllSize(n.children[..c]) + kc;
    }
  }

  lemma PushedBackward(t: Node, n: Node, x: nat, c: nat, parent: State, h: nat, lo: Bound, hi: Bound, q: Key)
    requires Searching(t, n, x, q, h, lo, hi) && n.Branch? && c < |n.children|
    requires Backward(t, parent, x) && !parent.LeafAt?
    ensures Backward(t, if c > 0 then InternalAt(n, c - 1, parent) else parent, x + AllSize(n.children[..c]))
  {
    if c > 0 {
      BackwardPush(t, n, x, c, parent);
    } else {
      assert n.children[..c] == [];
    }
  }

  /** The first entry of the tree for a forward cursor, the last for a backward one. */
  method FindFirst(n: Node, parent: State, ghost t: Node, ghost x: nat, ghost h: nat, ghost lo: Bound,
                   ghost hi: Bound) returns (s: State)
    requires WF(n, h, lo, hi) && Inside(t, n, x) && Full(n) && Forward(t, parent, x + Size(n)) && !parent.LeafAt?
    ensures s.LeafAt? && Forward(t, s, x)
    decreases n
  {
    if n.Leaf? {
      s := LeafAt(n, 0, parent);
      ForwardAtLeaf(t, n, x, 0, parent);
    } else {
      RowAt(n.children, Ups(n.keys, hi), 0, h - 1, lo);
      FullAt(n.children, 0);
      InsideChild(t, n, x, 0);
      ForwardPush(t, n, x, 0, parent);
      ChildSizes(n, 0);
      assert n.children[..0] == [];
      hide WF, Inside, Forward, AllFull;
      s := FindFirst(n.children[0], InternalAt(n, 1, parent), t, x, h - 1, Last(Ups(n.keys, hi)[..0], lo),
                     Ups(n.keys, hi)[0]);
    }
  }

  method FindLast(n: Node, parent: State, ghost t: Node, ghost x: nat, ghost h: nat, ghost lo: Bound, ghost hi: Bound)
    returns (s: State)
    requires WF(n, h, lo, hi) && Inside(t, n, x) && Full(n) && Backward(t, parent, x) && !parent.LeafAt?
    ensures s.LeafAt? && Backward(t, s, x + Size(n))
    decreases n
  {
    if n.Leaf? {
      s := LeafAt(n, |n.entries| - 1, parent);
      BackwardAtLeaf(t, n, x, |n.entries| - 1, parent);
    } else {
      var c := |n.children| - 1;
      RowAt(n.children, Ups(n.keys, hi), c, h - 1, lo);
      FullAt(n.children, c);
      InsideChild(t, n, x, c);
      BackwardPush(t, n, x, c, parent);
      ChildSizes(n, c);
      assert n.children[c + 1..] == [];
      hide WF, Inside, Backward, AllFull;
      s := FindLast(n.children[c], InternalAt(n, c - 1, parent), t, x + AllSize(n.children[..c]), h - 1,
                    Last(Ups(n.keys, hi)[..c], lo), Ups(n.keys, hi)[c]);
    }
  }
}
