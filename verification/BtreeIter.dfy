/**
 The double-ended range iterator: two cursors, each a leaf position and the chain of branches still
 to visit in its own direction.
 */
module BtreeIter {
  import opened BtreeSpec
  import opened BtreeLocate

  datatype State =
    | Done
    | LeafAt(node: Node, entry: nat, parent: State)
    | InternalAt(node: Node, child: nat, parent: State)

  ghost predicate Sound(s: State)
  {
    match s
    case Done => true
    case LeafAt(n, e, p) => n.Leaf? && e < |n.entries| && !p.LeafAt? && Sound(p)
    case InternalAt(n, c, p) => n.Branch? && c < |n.children| && AllFull(n.children) && !p.LeafAt? && Sound(p)
  }

  /** One step of a cursor. */
  function Next(s: State, reverse: bool): State
    requires Sound(s) && !s.Done?
  {
    match s
    case LeafAt(n, e, p) =>
      if reverse then (if e > 0 then LeafAt(n, e - 1, p) else p)
      else (if e + 1 < |n.entries| then LeafAt(n, e + 1, p) else p)
    case InternalAt(n, c, p) =>
      var child := n.children[c];
      var parent :=
        if reverse then (if c > 0 then InternalAt(n, c - 1, p) else p)
        else (if c + 1 < |n.children| then InternalAt(n, c + 1, p) else p);
      FullAt(n.children, c);
      if child.Leaf? then LeafAt(child, if reverse then |child.entries| - 1 else 0, parent)
      else InternalAt(child, if reverse then |child.children| - 1 else 0, parent)
  }

  // ----- what a cursor still has ahead of it -----

  /** The number of entries from a forward cursor on. */
  ghost function Ahead(s: State): nat
    requires Sound(s)
  {
    match s
    case Done => 0
    case LeafAt(n, e, p) => |n.entries| - e + Ahead(p)
    case InternalAt(n, c, p) => AllSize(n.children[c..]) + Ahead(p)
  }

  ghost function AheadAt(s: State, z: nat): (Node, nat)
    requires Sound(s) && z < Ahead(s)
  {
    match s
    case LeafAt(n, e, p) => if z < |n.entries| - e then (n, e + z) else AheadAt(p, z - (|n.entries| - e))
    case InternalAt(n, c, p) =>
      var k := AllSize(n.children[c..]);
      if z < k then LocateRow(n.children[c..], z) else AheadAt(p, z - k)
  }

  /** A forward cursor stands at index `x` and will visit exactly the entries from there on. */
  ghost predicate Forward(t: Node, s: State, x: nat)
  {
    Sound(s) && x + Ahead(s) == Size(t) && forall z: nat :: z < Ahead(s) ==> AheadAt(s, z) == Locate(t, x + z)
  }

  lemma ForwardNext(t: Node, s: State, x: nat)
    requires Forward(t, s, x) && !s.Done?
    ensures Forward(t, Next(s, false), if s.LeafAt? then x + 1 else x)
  {
    if s.LeafAt? {
      ForwardLeaf(t, s, x);
    } else {
      ForwardInternal(t, s, x);
    }
  }

  lemma ForwardLeaf(t: Node, s: State, x: nat)
    requires Forward(t, s, x) && s.LeafAt?
    ensures Forward(t, Next(s, false), x + 1)
  {
    var r := Next(s, false);
    forall z: nat | z < Ahead(r)
      ensures AheadAt(r, z) == Locate(t, x + 1 + z)
    {
      assert AheadAt(s, z + 1) == Locate(t, x + (z + 1));
    }
  }

  lemma {:induction false} SplitChildren(cs: seq<Node>, c: nat, z: nat)
    requires c < |cs| && z < AllSize(cs[c..])
    ensures AllSize(cs[c..]) == Size(cs[c]) + AllSize(cs[c + 1..])
    ensures LocateRow(cs[c..], z) == if z < Size(cs[c]) then Locate(cs[c], z)
      else LocateRow(cs[c + 1..], z - Size(cs[c]))
  {
    assert cs[c..][1..] == cs[c + 1..];
  }

  lemma ForwardInternal(t: Node, s: State, x: nat)
    requires Forward(t, s, x) && s.InternalAt?
    ensures Forward(t, Next(s, false), x)
  {
    var r, n, c := Next(s, false), s.node, s.child;
    FullAt(n.children, c);
    FullSize(n.children[c]);
    assert n.children[c..][1..] == n.children[c + 1..];
    assert c + 1 == |n.children| ==> n.children[c + 1..] == [];
    if n.children[c].Branch? {
      assert n.children[c].children[0..] == n.children[c].children;
    }
    forall z: nat | z < Ahead(r)
      ensures AheadAt(r, z) == Locate(t, x + z)
    {
      assert AheadAt(s, z) == Locate(t, x + z);
      if z < AllSize(n.children[c..]) {
        SplitChildren(n.children, c, z);
      }
    }
  }

  // ----- what a backward cursor still has behind it -----

  ghost function Behind(s: State): nat
    requires Sound(s)
  {
    match s
    case Done => 0
    case LeafAt(n, e, p) => Behind(p) + e + 1
    case InternalAt(n, c, p) => Behind(p) + AllSize(n.children[..c + 1])
  }

  ghost function BehindAt(s: State, y: nat): (Node, nat)
    requires Sound(s) && y < Behind(s)
  {
    match s
    case LeafAt(n, e, p) => if y < Behind(p) then BehindAt(p, y) else (n, y - Behind(p))
    case InternalAt(n, c, p) =>
      if y < Behind(p) then BehindAt(p, y) else LocateRow(n.children[..c + 1], y - Behind(p))
  }

  /** A backward cursor will visit exactly the first `x` entries, from the last of them down. */
  ghost predicate Backward(t: Node, s: State, x: nat)
  {
    Sound(s) && Behind(s) == x <= Size(t) && forall y: nat :: y < x ==> BehindAt(s, y) == Locate(t, y)
  }

  lemma BackwardNext(t: Node, s: State, x: nat)
    requires Backward(t, s, x) && !s.Done?
    ensures x > 0 && Backward(t, Next(s, true), if s.LeafAt? then x - 1 else x)
  {
    if s.LeafAt? {
      BackwardLeaf(t, s, x);
    } else {
      BackwardInternal(t, s, x);
    }
  }

  lemma BackwardLeaf(t: Node, s: State, x: nat)
    requires Backward(t, s, x) && s.LeafAt?
    ensures x > 0 && Backward(t, Next(s, true), x - 1)
  {
    var r := Next(s, true);
    forall y: nat | y < x - 1
      ensures BehindAt(r, y) == Locate(t, y)
    {
      assert BehindAt(s, y) == Locate(t, y);
    }
  }

  lemma LastChild(cs: seq<Node>, c: nat)
    requires c < |cs|
    ensures AllSize(cs[..c + 1]) == AllSize(cs[..c]) + Size(cs[c])
  {
    assert cs[..c + 1] == cs[..c] + [cs[c]];
    Concat(cs[..c], [cs[c]]);
    Single(cs[c]);
  }

  lemma {:induction false} LastChildAt(cs: seq<Node>, c: nat, z: nat)
    requires c < |cs| && z < AllSize(cs[..c + 1])
    ensures AllSize(cs[..c + 1]) == AllSize(cs[..c]) + Size(cs[c])
    ensures LocateRow(cs[..c + 1], z) == if z < AllSize(cs[..c]) then LocateRow(cs[..c], z)
      else Locate(cs[c], z - AllSize(cs[..c]))
  {
    LastChild(cs, c);
    assert cs[..c + 1] == cs[..c] + [cs[c]];
    Single(cs[c]);
    LocateConcat(cs[..c], [cs[c]], z);
  }

  lemma WholeChild(n: Node)
    requires n.Branch? && n.children != []
    ensures n.children[..|n.children| - 1 + 1] == n.children && AllSize(n.children) == Size(n)
  {
  }

  lemma BackwardInternal(t: Node, s: State, x: nat)
    requires Backward(t, s, x) && s.InternalAt?
    ensures x > 0 && Backward(t, Next(s, true), x)
  {
    var r, n, c := Next(s, true), s.node, s.child;
    var k := n.children[c];
    FullAt(n.children, c);
    FullSize(k);
    LastChild(n.children, c);
    if k.Branch? {
      WholeChild(k);
    }
    assert c == 0 ==> n.children[..c] == [] && AllSize(n.children[..c]) == 0;
    assert k.Leaf? ==> Size(k) == |k.entries|;
    assert Behind(r) == Behind(s) by { hide Size, AllSize; }
    forall y: nat | y < x
      ensures BehindAt(r, y) == Locate(t, y)
    {
      assert BehindAt(s, y) == Locate(t, y);
      BehindSame(s, y);
    }
  }

  /** Opening a branch at its last child leaves the entries behind the cursor where they are. */
  lemma {:induction false} BehindSame(s: State, y: nat)
    requires Sound(s) && s.InternalAt? && y < Behind(s) && Sound(Next(s, true)) && Behind(Next(s, true)) == Behind(s)
    ensures BehindAt(Next(s, true), y) == BehindAt(s, y)
  {
    var n, c, p := s.node, s.child, s.parent;
    var k, b := n.children[c], Behind(p);
    var q := if c > 0 then InternalAt(n, c - 1, p) else p;
    FullAt(n.children, c);
    var o := b + AllSize(n.children[..c]);
    assert Sound(q) && Behind(q) == o by {
      assert c == 0 ==> n.children[..c] == [];
    }
    if y < b {
      assert BehindAt(s, y) == BehindAt(p, y) == BehindAt(q, y);
    } else {
      LastChildAt(n.children, c, y - b);
      assert BehindAt(s, y) == LocateRow(n.children[..c + 1], y - b);
      assert y < o ==> BehindAt(q, y) == LocateRow(n.children[..c], y - b);
    }
    hide AllSize, LocateRow;
    OpenedAt(k, q, y);
  }

  lemma OpenedAt(k: Node, q: State, y: nat)
    requires Sound(q) && !q.LeafAt?
    requires if k.Leaf? then k.entries != [] else k.children != [] && AllFull(k.children)
    requires y < Behind(q) + Size(k)
    ensures var r := if k.Leaf? then LeafAt(k, |k.entries| - 1, q) else InternalAt(k, |k.children| - 1, q);
      && Behind(r) == Behind(q) + Size(k)
      && BehindAt(r, y) == if y < Behind(q) then BehindAt(q, y) else Locate(k, y - Behind(q))
  {
    if k.Branch? {
      WholeChild(k);
    }
  }
}
