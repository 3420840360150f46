/**
 Where the entries of a tree are: the leaf and the place in it for every index.
 */
module BtreeLocate {
  import opened BtreeSpec

  /** Every leaf holds something and every branch has children. */
  ghost predicate Full(t: Node)
    decreases t, 0
  {
    match t
    case Leaf(_, _, es) => es != []
    case Branch(_, _, cs) => cs != [] && AllFull(cs)
  }

  ghost predicate AllFull(ts: seq<Node>)
    decreases ts, 1
  {
    ts == [] || (Full(ts[0]) && AllFull(ts[1..]))
  }

  function Size(t: Node): nat
  {
    |Entries(t)|
  }

  function AllSize(ts: seq<Node>): nat
  {
    |AllEntries(ts)|
  }

  /** The leaf that holds the entry with index `x`, and its place there. */
  ghost function Locate(t: Node, x: nat): (r: (Node, nat))
    requires x < Size(t)
    ensures r.0.Leaf? && r.1 < |r.0.entries| && r.0.entries[r.1] == Entries(t)[x]
    decreases t, 0
  {
    match t
    case Leaf(_, _, es) => (t, x)
    case Branch(_, _, cs) => LocateRow(cs, x)
  }

  ghost function LocateRow(ts: seq<Node>, x: nat): (r: (Node, nat))
    requires x < AllSize(ts)
    ensures r.0.Leaf? && r.1 < |r.0.entries| && r.0.entries[r.1] == AllEntries(ts)[x]
    decreases ts, 1
  {
    if x < Size(ts[0]) then Locate(ts[0], x) else LocateRow(ts[1..], x - Size(ts[0]))
  }

  lemma {:induction false} LocateConcat(a: seq<Node>, b: seq<Node>, x: nat)
    requires x < AllSize(a + b)
    ensures AllSize(a + b) == AllSize(a) + AllSize(b)
    ensures LocateRow(a + b, x) == if x < AllSize(a) then LocateRow(a, x) else LocateRow(b, x - AllSize(a))
    decreases |a|
  {
    Concat(a, b);
    if a == [] {
      assert a + b == b;
    } else {
      assert (a + b)[1..] == a[1..] + b;
      if x >= Size(a[0]) {
        LocateConcat(a[1..], b, x - Size(a[0]));
      }
    }
  }

  lemma {:induction false} FullSize(t: Node)
    requires Full(t)
    ensures Size(t) > 0
    decreases t, 0
  {
    if t.Branch? {
      FullSize(t.children[0]);
      assert Entries(t) == Entries(t.children[0]) + AllEntries(t.children[1..]);
    }
  }

  lemma {:induction false} FullAt(ts: seq<Node>, i: nat)
    requires AllFull(ts) && i < |ts|
    ensures Full(ts[i])
    decreases |ts|
  {
    if i > 0 {
      FullAt(ts[1..], i - 1);
    }
  }

  lemma {:induction false} WellFormedFull(t: Node, h: nat, lo: Bound, hi: Bound)
    requires WF(t, h, lo, hi)
    ensures Full(t)
    decreases h, 0
  {
    if t.Branch? {
      RowFull(t.children, Ups(t.keys, hi), h - 1, lo);
    }
  }

  lemma {:induction false} RowFull(ts: seq<Node>, ups: seq<Bound>, h: nat, lo: Bound)
    requires Row(ts, ups, h, lo)
    ensures AllFull(ts)
    decreases h, |ts| + 1
  {
    if ts != [] {
      WellFormedFull(ts[0], h, lo, ups[0]);
      RowFull(ts[1..], ups[1..], h, ups[0]);
    }
  }

  // ----- pages identify leaves -----

  ghost predicate Distinct(m: multiset<Page>)
  {
    forall p :: m[p] <= 1
  }

  lemma {:induction false} LeafPage(t: Node, x: nat)
    requires x < Size(t)
    ensures Locate(t, x).0.page in Pages(t)
    decreases t, 0
  {
    if t.Branch? {
      RowPage(t.children, x);
    }
  }

  lemma {:induction false} RowPage(ts: seq<Node>, x: nat)
    requires x < AllSize(ts)
    ensures LocateRow(ts, x).0.page in AllPages(ts)
    decreases ts, 1
  {
    if x < Size(ts[0]) {
      LeafPage(ts[0], x);
    } else {
      RowPage(ts[1..], x - Size(ts[0]));
    }
  }

  lemma {:induction false} OtherPage(ts: seq<Node>, x: nat, y: nat)
    requires ts != [] && x < Size(ts[0]) <= y < AllSize(ts) && Distinct(AllPages(ts))
    ensures LocateRow(ts, x).0.page != LocateRow(ts, y).0.page
  {
    LeafPage(ts[0], x);
    RowPage(ts[1..], y - Size(ts[0]));
    assert AllPages(ts)[LocateRow(ts, x).0.page] <= 1;
  }

  /** Two entries on the same page are in the same leaf, as far apart there as in the tree. */
  lemma {:induction false} SamePage(t: Node, x: nat, y: nat)
    requires x < Size(t) && y < Size(t) && Distinct(Pages(t)) && Locate(t, x).0.page == Locate(t, y).0.page
    ensures Locate(t, x).0 == Locate(t, y).0 && x - y == Locate(t, x).1 - Locate(t, y).1
    decreases t, 0
  {
    if t.Branch? {
      assert Distinct(AllPages(t.children)) by {
        forall p
          ensures AllPages(t.children)[p] <= 1
        {
          assert Pages(t)[p] <= 1;
        }
      }
      SamePageRow(t.children, x, y);
    }
  }

  lemma {:induction false} SamePageRow(ts: seq<Node>, x: nat, y: nat)
    requires x < AllSize(ts) && y < AllSize(ts) && Distinct(AllPages(ts))
      && LocateRow(ts, x).0.page == LocateRow(ts, y).0.page
    ensures LocateRow(ts, x).0 == LocateRow(ts, y).0 && x - y == LocateRow(ts, x).1 - LocateRow(ts, y).1
    decreases ts, 1
  {
    var s := Size(ts[0]);
    assert Distinct(Pages(ts[0])) && Distinct(AllPages(ts[1..])) by {
      forall p
        ensures Pages(ts[0])[p] <= 1 && AllPages(ts[1..])[p] <= 1
      {
        assert AllPages(ts)[p] <= 1;
      }
    }
    if x < s && y < s {
      SamePage(ts[0], x, y);
    } else if x >= s && y >= s {
      SamePageRow(ts[1..], x - s, y - s);
    } else {
      OtherPage(ts, if x < s then x else y, if x < s then y else x);
      assert false;
    }
  }
}
