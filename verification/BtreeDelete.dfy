/**
 Deletion: a leaf or branch that gets too small asks its parent to merge it with a sibling.
 */
module BtreeDelete {
  import opened Bits
  import opened BtreeSpec
  import opened BtreeNodes
  import opened BtreeRows
  import opened BtreePages
  import opened BtreeInsert

  datatype DeletionResult =
    | Subtree(node: Node)
    | DeletedLeaf
    | PartialLeaf(entries: seq<Entry>, deleted: nat)
    | PartialBranch(branch: Node)
    | DeletedBranch(child: Node)

  ghost function Without(es: seq<Entry>, p: nat): seq<Entry>
  {
    if p < |es| then es[..p] + es[p + 1..] else es
  }

  ghost function LeftEntries(r: DeletionResult): seq<Entry>
  {
    match r
    case Subtree(n) => Entries(n)
    case DeletedLeaf => []
    case PartialLeaf(es, d) => Without(es, d)
    case PartialBranch(n) => Entries(n)
    case DeletedBranch(n) => Entries(n)
  }

  /** A partial leaf has given up its page already. */
  ghost function LeftPages(r: DeletionResult): multiset<Page>
  {
    match r
    case Subtree(n) => Pages(n)
    case DeletedLeaf => multiset{}
    case PartialLeaf(_, _) => multiset{}
    case PartialBranch(n) => Pages(n)
    case DeletedBranch(n) => Pages(n)
  }

  ghost function LeftNodes(r: DeletionResult): set<Node>
  {
    match r
    case Subtree(n) => Nodes(n)
    case DeletedLeaf => {}
    case PartialLeaf(_, _) => {}
    case PartialBranch(n) => Nodes(n)
    case DeletedBranch(n) => Nodes(n)
  }

  /** Each kind of result fits its place; a deleted branch leaves a tree one level lower. */
  ghost predicate Shaped(r: DeletionResult, h: nat, lo: Bound, hi: Bound)
  {
    match r
    case Subtree(n) => WF(n, h, lo, hi)
    case DeletedLeaf => h == 0
    case PartialLeaf(es, d) => h == 0 && d < |es| && |es| > 1 && Sorted(es) && Within(es, lo, hi)
    case PartialBranch(n) => h > 0 && n.Branch? && WF(n, h, lo, hi)
    case DeletedBranch(n) => h > 0 && WF(n, h - 1, lo, hi)
  }

  ghost predicate Deleted(t: Node, key: Key, h: nat, lo: Bound, hi: Bound, r: DeletionResult, found: Option<Value>)
  {
    && found == Lookup(Entries(t), key)
    && (found.None? ==> r == Subtree(t))
    && (found.Some? ==> Shaped(r, h, lo, hi) && LeftEntries(r) == Remove(Entries(t), key))
  }

  // ----- leaves -----

  lemma {:induction false} LeafShrink(es: seq<Entry>, p: nat, key: Key, lo: Bound, hi: Bound)
    requires Sorted(es) && Within(es, lo, hi) && p < |es| && es[p].key == key && AllBelow(es[..p], key)
      && AllOver(es[p + 1..], key)
    ensures Sorted(Without(es, p)) && Within(Without(es, p), lo, hi) && Without(es, p) == Remove(es, key)
    ensures Lookup(es, key) == Some(es[p].value)
  {
    CutAt(es, p, true, key, es[p].value);
  }

  method DeleteLeaf(mem: PageManager, t: Node, key: Key, ghost lo: Bound, ghost hi: Bound, ghost rest: multiset<Page>)
    returns (r: DeletionResult, found: Option<Value>)
    requires t.Leaf? && WF(t, 0, lo, hi) && Owned(mem.State(), Pages(t), rest)
    modifies mem
    ensures Deleted(t, key, 0, lo, hi, r, found)
    ensures found.None? ==> mem.State() == old(mem.State())
    ensures Owned(mem.State(), LeftPages(r), rest)
      && Evolves(old(mem.State()), mem.State(), mem.modifyUncommitted, rest)
    ensures Written(old(mem.State()), mem.modifyUncommitted, Nodes(t), LeftNodes(r))
  {
    var es := t.entries;
    var p, here := Position(es, key);
    ghost var m0, own := mem.State(), multiset{t.page};
    hide Evolves, Owned, LeafBytes, Written, Remove, Upsert, Lookup;
    EvolvesRefl(m0, mem.modifyUncommitted, own, rest);
    EvolvesLess(m0, m0, mem.modifyUncommitted, rest, rest + own);
    if !here {
      NotThere(t, p, key, lo, hi);
      WrittenLeaf(m0, mem.modifyUncommitted, t, t);
      return Subtree(t), None;
    }
    LeafShrink(es, p, key, lo, hi);
    var left := LeafExcept(es, p);
    assert left == Without(es, p);
    found := Some(es[p].value);
    if t.page in mem.uncommitted && mem.modifyUncommitted
      && LeafBytes(mem.format, left) >= EFFECTIVE_LEAF_PAGE_SIZE / 2 && |es| > 1 {
      r := Subtree(Leaf(t.page, t.room, left));
      WrittenLeaf(m0, mem.modifyUncommitted, t, r.node);
      return;
    }
    r := ShrinkLeaf(mem, t, p, left, lo, hi, rest);
  }

  lemma {:induction false} NotThere(t: Node, p: nat, key: Key, lo: Bound, hi: Bound)
    requires t.Leaf? && Sorted(t.entries) && p <= |t.entries| && AllBelow(t.entries[..p], key)
      && AllOver(t.entries[p..], key)
    ensures Deleted(t, key, 0, lo, hi, Subtree(t), None)
  {
    hide Remove, Lookup;
    CutAt(t.entries, p, false, key, []);
  }

  lemma {:induction false} WrittenLeaf(m: Mem, inPlace: bool, t: Node, n: Node)
    requires t.Leaf? && n.Leaf? && (n == t || Writable(m, inPlace, n.page))
    ensures Written(m, inPlace, Nodes(t), Nodes(n))
  {
  }

  /** Gone, too small, or rebuilt; in every case the old page is released. */
  method ShrinkLeaf(mem: PageManager, t: Node, p: nat, left: seq<Entry>, ghost lo: Bound, ghost hi: Bound,
                    ghost rest: multiset<Page>) returns (r: DeletionResult)
    requires WF(t, 0, lo, hi) && t.Leaf? && Owned(mem.State(), multiset{t.page}, rest) && p < |t.entries|
      && left == Without(t.entries, p)
    requires Sorted(left) && Within(left, lo, hi)
    modifies mem
    ensures Shaped(r, 0, lo, hi) && LeftEntries(r) == left
    ensures Owned(mem.State(), LeftPages(r), rest)
      && Evolves(old(mem.State()), mem.State(), mem.modifyUncommitted, rest)
    ensures Written(old(mem.State()), mem.modifyUncommitted, Nodes(t), LeftNodes(r))
  {
    hide Evolves, Owned, LeafBytes;
    ghost var m0, own := mem.State(), multiset{t.page};
    if |t.entries| > 1 && LeafBytes(mem.format, left) >= EFFECTIVE_LEAF_PAGE_SIZE / 3 {
      var n := mem.BuildLeaf(left, own, rest);
      r := Subtree(n);
      ghost var m1 := mem.State();
      assert own + multiset{n.page} == multiset{n.page} + multiset{t.page};
      mem.Release(t.page, multiset{n.page}, rest);
      EvolvesTrans(m0, m1, mem.State(), mem.modifyUncommitted, rest, rest + own, rest + multiset{n.page});
    } else {
      r := if |t.entries| == 1 then DeletedLeaf else PartialLeaf(t.entries, p);
      assert own == multiset{} + multiset{t.page};
      mem.Release(t.page, multiset{}, rest);
      assert rest + multiset{} == rest;
    }
  }

  // ----- finishing a branch -----

  /** One child left: the branch is gone. Otherwise a new branch, which may be too small. */
  method FinalizeBranch(mem: PageManager, cs: seq<Node>, ks: seq<Key>, ghost h: nat, ghost lo: Bound, ghost hi: Bound,
                        ghost own: multiset<Page>, ghost rest: multiset<Page>)
    returns (r: DeletionResult, ghost top: multiset<Page>, ghost roots: set<Node>)
    requires Owned(mem.State(), own, rest) && Row(cs, Ups(ks, hi), h, lo) && |cs| == |ks| + 1
    modifies mem
    ensures Shaped(r, h + 1, lo, hi) && LeftEntries(r) == AllEntries(cs)
    ensures LeftPages(r) == top + AllPages(cs) && LeftNodes(r) == roots + AllNodes(cs)
    ensures Owned(mem.State(), own + top, rest) && Evolves(old(mem.State()), mem.State(), mem.modifyUncommitted,
                                                           rest + own)
    ensures forall n :: n in roots ==> Writable(old(mem.State()), mem.modifyUncommitted, n.page)
    ensures r.DeletedBranch? <==> |cs| == 1
    ensures |cs| > 1 ==> if BranchBytes(mem.format, ks) < PAGE_SIZE / 3 then r.PartialBranch? else r.Subtree?
  {
    if |cs| == 1 {
      r, top, roots := DeletedBranch(cs[0]), multiset{}, {};
      assert cs == [cs[0]] && Ups(ks, hi) == [hi];
      RowSingle(cs[0], h, lo, hi);
      Single(cs[0]);
      EvolvesRefl(mem.State(), mem.modifyUncommitted, own, rest);
      assert own + multiset{} == own;
    } else {
      var n := mem.BuildBranch(cs, ks, own, rest);
      top, roots := multiset{n.page}, {n};
      hide Row, Evolves, Owned, BranchBytes, AllEntries, AllPages, AllNodes;
      RowWhole(cs, ks, n.page, h, lo, hi);
      if BranchBytes(mem.format, ks) < PAGE_SIZE / 3 {
        r := PartialBranch(n);
      } else {
        r := Subtree(n);
      }
    }
  }

  ghost function Bag(ps: seq<Page>): multiset<Page>
  {
    multiset(ps)
  }

  /** Finalizes the branch, then releases the pages it no longer uses and the old page last. */
  method FinishDelete(mem: PageManager, page: Page, cs: seq<Node>, ks: seq<Key>, extra: seq<Page>, ghost h: nat,
                      ghost lo: Bound, ghost hi: Bound,
      ghost m0: Mem, ghost before: set<Node>, ghost rest: multiset<Page>) returns (r: DeletionResult)
    requires Owned(mem.State(), AllPages(cs) + Bag(extra + [page]), rest) && Row(cs, Ups(ks, hi), h, lo)
      && |cs| == |ks| + 1
    requires Evolves(m0, mem.State(), mem.modifyUncommitted, rest)
      && Written(m0, mem.modifyUncommitted, before, AllNodes(cs))
    modifies mem
    ensures Shaped(r, h + 1, lo, hi) && LeftEntries(r) == AllEntries(cs)
    ensures Owned(mem.State(), LeftPages(r), rest) && Evolves(m0, mem.State(), mem.modifyUncommitted, rest)
    ensures Written(m0, mem.modifyUncommitted, before, LeftNodes(r))
  {
    hide Row, Shaped, LeftEntries, LeftPages, LeftNodes, Evolves, Owned, Written, AllPages, AllNodes, AllEntries, Ups;
    ghost var m1 := mem.State();
    ghost var top, roots;
    r, top, roots := FinalizeBranch(mem, cs, ks, h, lo, hi, AllPages(cs) + Bag(extra + [page]), rest);
    FinishWritten(m0, m1, mem.modifyUncommitted, rest, before, AllNodes(cs), roots);
    ghost var m2 := mem.State();
    EvolvesTrans(m0, m1, m2, mem.modifyUncommitted, rest, rest, rest + (AllPages(cs) + Bag(extra + [page])));
    assert AllPages(cs) + Bag(extra + [page]) + top == LeftPages(r) + Bag(extra + [page]);
    ReleaseAll(mem, extra + [page], LeftPages(r), rest);
    EvolvesTrans(m0, m2, mem.State(), mem.modifyUncommitted, rest, rest, rest + LeftPages(r));
  }

  lemma FinishWritten(m0: Mem, m1: Mem, inPlace: bool, rest: multiset<Page>, before: set<Node>, nodes: set<Node>,
                      roots: set<Node>)
    requires Evolves(m0, m1, inPlace, rest) && Written(m0, inPlace, before, nodes)
    requires forall n :: n in roots ==> Writable(m1, inPlace, n.page)
    ensures Written(m0, inPlace, before, roots + nodes)
  {
    forall n | n in roots
      ensures Writable(m0, inPlace, n.page)
    {
      WritableBack(m0, m1, inPlace, rest, n.page);
    }
  }

  method ReleaseAll(mem: PageManager, ps: seq<Page>, ghost pages: multiset<Page>, ghost rest: multiset<Page>)
    requires Owned(mem.State(), pages + Bag(ps), rest)
    modifies mem
    ensures Owned(mem.State(), pages, rest) && Evolves(old(mem.State()), mem.State(), mem.modifyUncommitted,
                                                       rest + pages)
  {
    ghost var m0 := mem.State();
    EvolvesRefl(m0, mem.modifyUncommitted, pages + Bag(ps), rest);
    EvolvesLess(m0, m0, mem.modifyUncommitted, rest + pages, rest + (pages + Bag(ps)));
    hide Evolves, Owned;
    assert ps[0..] == ps;
    for i := 0 to |ps|
      invariant Owned(mem.State(), pages + Bag(ps[i..]), rest)
        && Evolves(m0, mem.State(), mem.modifyUncommitted, rest + pages)
    {
      ghost var m1 := mem.State();
      assert ps[i..] == [ps[i]] + ps[i + 1..];
      assert pages + Bag(ps[i..]) == pages + Bag(ps[i + 1..]) + multiset{ps[i]};
      mem.Release(ps[i], pages + Bag(ps[i + 1..]), rest);
      EvolvesTrans(m0, m1, mem.State(), mem.modifyUncommitted, rest + pages, rest + pages,
                   rest + (pages + Bag(ps[i + 1..])));
    }
    assert pages + Bag(ps[|ps|..]) == pages;
  }

  // ----- merging with a sibling -----

  lemma UpsMerge(ks: seq<Key>, l: nat, tk: seq<Key>, hi: Bound)
    requires l < |ks|
    ensures Ups(ks[..l] + tk + ks[l + 1..], hi) == Ups(ks, hi)[..l] + Ups(tk, Ups(ks, hi)[l + 1]) + Ups(ks, hi)[l + 2..]
  {
  }

  /** Two neighbouring children replaced by what they were merged into. */
  lemma PairEdit(t: Node, l: nat, ts: seq<Node>, tk: seq<Key>, h: nat, lo: Bound, hi: Bound)
    requires WF(t, h, lo, hi) && t.Branch? && l < |t.keys| && |ts| == |tk| + 1
    requires Row(ts, Ups(tk, ChildHigh(t, l + 1, hi)), h - 1, ChildLow(t, l, lo, hi))
    ensures var cs, ks := t.children[..l] + ts + t.children[l + 2..], t.keys[..l] + tk + t.keys[l + 1..];
      && |cs| == |ks| + 1 && Row(cs, Ups(ks, hi), h - 1, lo)
      && AllEntries(cs) == AllEntries(t.children[..l]) + AllEntries(ts) + AllEntries(t.children[l + 2..])
      && AllPages(cs) == AllPages(t.children[..l]) + AllPages(ts) + AllPages(t.children[l + 2..])
      && AllNodes(cs) == AllNodes(t.children[..l]) + AllNodes(ts) + AllNodes(t.children[l + 2..])
  {
    var ups := Ups(t.keys, hi);
    hide Row, WF;
    RowReplace(t.children, ups, l, l + 2, ts, Ups(tk, ups[l + 1]), h - 1, lo);
    UpsMerge(t.keys, l, tk, hi);
    Three(t.children[..l], ts, t.children[l + 2..]);
  }

  /** Child `i` and the sibling it merges with are neighbours, in either order. */
  ghost predicate Neighbours(t: Node, i: nat, with: nat)
  {
    t.Branch? && |t.children| == |t.keys| + 1 && i < |t.children| && with < |t.children|
      && (with == i + 1 || i == with + 1)
  }

  function Lower(i: nat, with: nat): nat
  {
    if i < with then i else with
  }

  lemma PairBounds(t: Node, l: nat, h: nat, lo: Bound, hi: Bound)
    requires WF(t, h, lo, hi) && t.Branch? && l < |t.keys|
    ensures WF(t.children[l], h - 1, ChildLow(t, l, lo, hi), At(t.keys[l])) && Lt(ChildLow(t, l, lo, hi), At(t.keys[l]))
    ensures WF(t.children[l + 1], h - 1, At(t.keys[l]), ChildHigh(t, l + 1, hi))
      && Lt(At(t.keys[l]), ChildHigh(t, l + 1, hi))
    ensures ChildHigh(t, l, hi) == At(t.keys[l]) && ChildLow(t, l + 1, lo, hi) == At(t.keys[l])
  {
    var ups := Ups(t.keys, hi);
    RowAt(t.children, ups, l, h - 1, lo);
    RowAt(t.children, ups, l + 1, h - 1, lo);
  }

  /** What surrounds the two neighbours, seen from the child the key was deleted from. */
  lemma PairCut(t: Node, i: nat, with: nat)
    requires Neighbours(t, i, with)
    ensures var l, s, cs := Lower(i, with), t.children[with], t.children;
      && cs[..i] == cs[..l] + (if with < i then [s] else [])
      && cs[i + 1..] == (if with < i then [] else [s]) + cs[l + 2..]
  {
  }

  lemma PairParts(t: Node, i: nat, with: nat)
    requires Neighbours(t, i, with)
    ensures var l, s := Lower(i, with), t.children[with];
      && Others(t, i) == multiset{t.page} + AllPages(t.children[..l]) + Pages(s) + AllPages(t.children[l + 2..])
      && AllEntries(t.children[..i]) == AllEntries(t.children[..l]) + (if with < i then Entries(s) else [])
      && AllEntries(t.children[i + 1..]) == (if with < i then [] else Entries(s)) + AllEntries(t.children[l + 2..])
      && Nodes(s) <= Nodes(t) && AllNodes(t.children[..l]) <= Nodes(t) && AllNodes(t.children[l + 2..]) <= Nodes(t)
  {
    var l, s, cs := Lower(i, with), t.children[with], t.children;
    PairCut(t, i, with);
    DescendParts(t, i);
    Single(s);
    Nothing();
    hide AllEntries, AllPages, AllNodes, Entries, Pages, Nodes;
    var x, y := if with < i then [s] else [], if with < i then [] else [s];
    Concat(cs[..l], x);
    Concat(y, cs[l + 2..]);
  }

  lemma Nothing()
    ensures AllEntries([]) == [] && AllPages([]) == multiset{} && AllNodes([]) == {}
  {
  }

  /** The entries around the merged part are those that a removal in child `i` leaves alone. */
  lemma MergedEntries(t: Node, i: nat, with: nat, left: seq<Entry>, joined: seq<Entry>)
    requires Neighbours(t, i, with)
    requires joined == if i < with then left + Entries(t.children[with]) else Entries(t.children[with]) + left
    ensures var l := Lower(i, with);
      AllEntries(t.children[..l]) + joined + AllEntries(t.children[l + 2..]) == AllEntries(t.children[..i]) + left
        + AllEntries(t.children[i + 1..])
  {
    hide AllEntries, Entries, AllPages, Pages, AllNodes, Nodes, Others;
    PairParts(t, i, with);
  }

  lemma {:induction false} MergedLeaf(t: Node, i: nat, with: nat, left: seq<Entry>, lo: Bound, hi: Bound)
    requires Neighbours(t, i, with) && WF(t, 1, lo, hi) && left != []
    requires Sorted(left) && Within(left, ChildLow(t, i, lo, hi), ChildHigh(t, i, hi))
    ensures t.children[with].Leaf?
    ensures var l, s := Lower(i, with), t.children[with].entries;
      var joined := if i < with then left + s else s + left;
      joined != [] && Sorted(joined) && Within(joined, ChildLow(t, l, lo, hi), ChildHigh(t, l + 1, hi))
  {
    var l := Lower(i, with);
    PairBounds(t, l, 1, lo, hi);
    var s := t.children[with].entries;
    hide Sorted;
    if i < with {
      SortedConcat(left, s, ChildLow(t, l, lo, hi), At(t.keys[l]), ChildHigh(t, l + 1, hi));
    } else {
      SortedConcat(s, left, ChildLow(t, l, lo, hi), At(t.keys[l]), ChildHigh(t, l + 1, hi));
    }
  }

  lemma {:induction false} MergeWritten(m: Mem, inPlace: bool, t: Node, i: nat, with: nat, ts: set<Node>, cs: set<Node>)
    requires Neighbours(t, i, with) && Written(m, inPlace, Nodes(t), ts)
    requires cs == AllNodes(t.children[..Lower(i, with)]) + ts + AllNodes(t.children[Lower(i, with) + 2..])
    ensures Written(m, inPlace, Nodes(t), cs)
  {
    PairParts(t, i, with);
    hide AllNodes, Nodes, Writable;
  }

  /** A leaf too small is merged with its sibling, and split again if that gets too full. */
  method MergeLeaf(mem: PageManager, t: Node, i: nat, left: seq<Entry>, ghost lo: Bound, ghost hi: Bound,
                   ghost m0: Mem, ghost rest: multiset<Page>)
    returns (cs: seq<Node>, ks: seq<Key>, extra: seq<Page>)
    requires WF(t, 1, lo, hi) && t.Branch? && i < |t.children| && |t.children| == |t.keys| + 1 && left != []
    requires Sorted(left) && Within(left, ChildLow(t, i, lo, hi), ChildHigh(t, i, hi))
    requires Owned(mem.State(), multiset{}, rest + Others(t, i))
      && Evolves(m0, mem.State(), mem.modifyUncommitted, rest + Others(t, i))
    modifies mem
    ensures |cs| == |ks| + 1 && Row(cs, Ups(ks, hi), 0, lo)
    ensures AllEntries(cs) == AllEntries(t.children[..i]) + left + AllEntries(t.children[i + 1..])
    ensures Owned(mem.State(), AllPages(cs) + Bag(extra + [t.page]), rest)
      && Evolves(m0, mem.State(), mem.modifyUncommitted, rest)
    ensures Written(m0, mem.modifyUncommitted, Nodes(t), AllNodes(cs))
  {
    var with := if i == 0 then 1 else i - 1;
    var s := t.children[with];
    hide Row, WF, Evolves, Owned, Written, AllEntries, AllPages, AllNodes, LeafBytes, Sorted, Within, Nodes, Others,
         ChildLow, ChildHigh;
    MergedLeaf(t, i, with, left, lo, hi);
    if SingleLargeValue(mem.format, s.entries) {
      cs, ks, extra := RebuildBesideLarge(mem, t, i, left, lo, hi, m0, rest);
      return;
    }
    cs, ks, extra := JoinLeaves(mem, t, i, with, if i < with then left + s.entries
        else s.entries + left, lo, hi, m0, rest);
    MergedEntries(t, i, with, left, if i < with then left + s.entries else s.entries + left);
  }

  method JoinLeaves(mem: PageManager, t: Node, i: nat, with: nat, joined: seq<Entry>, ghost lo: Bound,
                    ghost hi: Bound, ghost m0: Mem, ghost rest: multiset<Page>)
    returns (cs: seq<Node>, ks: seq<Key>, extra: seq<Page>)
    requires WF(t, 1, lo, hi) && Neighbours(t, i, with) && t.children[with].Leaf?
    requires joined != [] && Sorted(joined) && Within(joined, ChildLow(t, Lower(i, with), lo, hi),
                                                      ChildHigh(t, Lower(i, with) + 1, hi))
    requires Owned(mem.State(), multiset{}, rest + Others(t, i))
      && Evolves(m0, mem.State(), mem.modifyUncommitted, rest + Others(t, i))
    modifies mem
    ensures |cs| == |ks| + 1 && Row(cs, Ups(ks, hi), 0, lo)
    ensures AllEntries(cs) == AllEntries(t.children[..Lower(i, with)]) + joined
      + AllEntries(t.children[Lower(i, with) + 2..])
    ensures Owned(mem.State(), AllPages(cs) + Bag(extra + [t.page]), rest)
      && Evolves(m0, mem.State(), mem.modifyUncommitted, rest)
    ensures Written(m0, mem.modifyUncommitted, Nodes(t), AllNodes(cs))
  {
    hide Row, WF, Evolves, Owned, Written, AllEntries, AllPages, AllNodes, LeafBytes, Sorted, Within, Nodes, Ups;
    hide Entries, Pages, Others, Bag, ChildLow, ChildHigh;
    var s := t.children[with];
    LeafPages(s);
    ghost var l, m1 := Lower(i, with), mem.State();
    ghost var a, b := AllPages(t.children[..l]), AllPages(t.children[l + 2..]);
    ghost var own := multiset{t.page} + a + multiset{s.page} + b;
    PairParts(t, i, with);
    assert multiset{} + (rest + own) == own + rest;
    assert Owned(m1, own, rest) by { OwnedMove(m1, multiset{}, rest + Others(t, i), own, rest); }
    EvolvesLess(m0, m1, mem.modifyUncommitted, rest, rest + Others(t, i));
    var ts, tk := BuildLeaves(mem, joined, own, ChildLow(t, l, lo, hi), ChildHigh(t, l + 1, hi), rest);
    EvolvesTrans(m0, m1, mem.State(), mem.modifyUncommitted, rest, rest, rest + own);
    WrittenBack(m0, m1, mem.modifyUncommitted, rest, {}, AllNodes(ts));
    WrittenMore(m0, mem.modifyUncommitted, {}, Nodes(t), AllNodes(ts));
    PairEdit(t, l, ts, tk, 1, lo, hi);
    cs, ks := ReplaceMerged(t.children, t.keys, i, with, ts, tk);
    MergeWritten(m0, mem.modifyUncommitted, t, i, with, AllNodes(ts), AllNodes(cs));
    extra := [s.page];
    JoinedPages(t.page, a, s.page, b, AllPages(ts));
  }

  lemma LeafPages(n: Node)
    requires n.Leaf?
    ensures Pages(n) == multiset{n.page}
  {
  }

  lemma JoinedPages(p: Page, a: multiset<Page>, q: Page, b: multiset<Page>, ts: multiset<Page>)
    ensures multiset{p} + a + multiset{q} + b + ts == a + ts + b + Bag([q] + [p])
  {
    assert [q] + [p] == [q, p];
  }

  lemma OwnedMove(m: Mem, p1: multiset<Page>, r1: multiset<Page>, p2: multiset<Page>, r2: multiset<Page>)
    requires Owned(m, p1, r1) && p1 + r1 == p2 + r2
    ensures Owned(m, p2, r2)
  {
    assert r1 + p1 == p1 + r1 && r2 + p2 == p2 + r2;
  }

  lemma WrittenMore(m: Mem, inPlace: bool, a: set<Node>, b: set<Node>, after: set<Node>)
    requires Written(m, inPlace, a, after) && a <= b
    ensures Written(m, inPlace, b, after)
  {
  }

  /** Next to a single large value nothing is merged: the small leaf is written out on its own. */
  method RebuildBesideLarge(mem: PageManager, t: Node, i: nat, left: seq<Entry>, ghost lo: Bound, ghost hi: Bound,
                            ghost m0: Mem, ghost rest: multiset<Page>)
    returns (cs: seq<Node>, ks: seq<Key>, extra: seq<Page>)
    requires WF(t, 1, lo, hi) && t.Branch? && i < |t.children| && |t.children| == |t.keys| + 1 && left != []
    requires Sorted(left) && Within(left, ChildLow(t, i, lo, hi), ChildHigh(t, i, hi))
    requires Owned(mem.State(), multiset{}, rest + Others(t, i))
      && Evolves(m0, mem.State(), mem.modifyUncommitted, rest + Others(t, i))
    modifies mem
    ensures |cs| == |ks| + 1 && Row(cs, Ups(ks, hi), 0, lo)
    ensures AllEntries(cs) == AllEntries(t.children[..i]) + left + AllEntries(t.children[i + 1..])
    ensures Owned(mem.State(), AllPages(cs) + Bag(extra + [t.page]), rest)
      && Evolves(m0, mem.State(), mem.modifyUncommitted, rest)
    ensures Written(m0, mem.modifyUncommitted, Nodes(t), AllNodes(cs))
  {
    hide Row, WF, Evolves, Owned, Written, AllEntries, AllPages, AllNodes, LeafBytes, Sorted, Within, Nodes, Ups,
         Writable;
    ghost var m1, own := mem.State(), Others(t, i);
    assert Owned(m1, own, rest) by { OwnedMove(m1, multiset{}, rest + own, own, rest); }
    EvolvesLess(m0, m1, mem.modifyUncommitted, rest, rest + own);
    var n := mem.BuildLeaf(left, own, rest);
    EvolvesTrans(m0, m1, mem.State(), mem.modifyUncommitted, rest, rest, rest + own);
    LeafWhole(left, n.page, n.room, ChildLow(t, i, lo, hi), ChildHigh(t, i, hi));
    BranchEdit(t, i, [n], [], 1, lo, hi);
    Single(n);
    cs, ks, extra := t.children[..i] + [n] + t.children[i + 1..], t.keys, [];
    assert t.keys[..i] + [] + t.keys[i..] == t.keys;
    assert Writable(m1, mem.modifyUncommitted, n.page) by { NotInUse(m1, mem.modifyUncommitted, n.page); }
    WritableBack(m0, m1, mem.modifyUncommitted, rest, n.page);
    SiblingsWritten(m0, mem.modifyUncommitted, t, i, n);
    assert Bag([] + [t.page]) == multiset{t.page};
    assert own + multiset{n.page} == AllPages(cs) + Bag(extra + [t.page]);
  }

  lemma NotInUse(m: Mem, inPlace: bool, p: Page)
    requires p !in m.inUse
    ensures Writable(m, inPlace, p)
  {
  }

  lemma {:induction false} SiblingsWritten(m: Mem, inPlace: bool, t: Node, i: nat, n: Node)
    requires t.Branch? && i < |t.children| && n.Leaf? && Writable(m, inPlace, n.page)
    ensures Written(m, inPlace, Nodes(t), AllNodes(t.children[..i]) + AllNodes([n]) + AllNodes(t.children[i + 1..]))
  {
    DescendParts(t, i);
    Single(n);
    hide AllNodes;
  }

  function PartTrees(sub: DeletionResult): seq<Node>
    requires (sub.PartialBranch? && sub.branch.Branch?) || sub.DeletedBranch?
  {
    if sub.PartialBranch? then sub.branch.children else [sub.child]
  }

  function PartKeys(sub: DeletionResult): seq<Key>
    requires (sub.PartialBranch? && sub.branch.Branch?) || sub.DeletedBranch?
  {
    if sub.PartialBranch? then sub.branch.keys else []
  }

  function PartPage(sub: DeletionResult): seq<Page>
    requires (sub.PartialBranch? && sub.branch.Branch?) || sub.DeletedBranch?
  {
    if sub.PartialBranch? then [sub.branch.page] else []
  }

  lemma {:induction false} PartRow(sub: DeletionResult, h: nat, lo: Bound, hi: Bound)
    requires sub.PartialBranch? || sub.DeletedBranch?
    requires Shaped(sub, h, lo, hi) && Lt(lo, hi)
    ensures h > 0 && |PartTrees(sub)| == |PartKeys(sub)| + 1 && Row(PartTrees(sub), Ups(PartKeys(sub), hi), h - 1, lo)
    ensures AllEntries(PartTrees(sub)) == LeftEntries(sub)
      && LeftPages(sub) == AllPages(PartTrees(sub)) + Bag(PartPage(sub))
    ensures AllNodes(PartTrees(sub)) <= LeftNodes(sub)
  {
    if sub.PartialBranch? {
      Unfold(sub.branch);
      hide Row, AllEntries, AllPages, AllNodes, Entries, Pages, Nodes;
      assert Bag([sub.branch.page]) == multiset{sub.branch.page};
    } else {
      RowSingle(sub.child, h - 1, lo, hi);
      Single(sub.child);
      hide Row, AllEntries, AllPages, AllNodes, Entries, Pages, Nodes;
      assert Ups([], hi) == [hi];
      assert Bag([]) == multiset{};
    }
  }

  lemma {:induction false} BranchRow(t: Node, h: nat, lo: Bound, hi: Bound)
    requires WF(t, h, lo, hi) && h > 0
    ensures t.Branch? && |t.children| == |t.keys| + 1 && |t.children| >= 2
      && Row(t.children, Ups(t.keys, hi), h - 1, lo)
  {
  }

  /** The children of both neighbours under the separator between them. */
  lemma JoinedRow(t: Node, i: nat, with: nat, part: seq<Node>, pk: seq<Key>, h: nat, lo: Bound, hi: Bound)
    requires Neighbours(t, i, with) && WF(t, h, lo, hi) && h > 1 && |part| == |pk| + 1
    requires Row(part, Ups(pk, ChildHigh(t, i, hi)), h - 2, ChildLow(t, i, lo, hi))
    ensures t.children[with].Branch?
    ensures var l, s := Lower(i, with), t.children[with];
      var jc := if i < with then part + s.children else s.children + part;
      var jk := if i < with then pk + [t.keys[l]] + s.keys else s.keys + [t.keys[l]] + pk;
      && |jc| == |jk| + 1 && |jc| >= 2 && Row(jc, Ups(jk, ChildHigh(t, l + 1, hi)), h - 2, ChildLow(t, l, lo, hi))
      && AllEntries(jc) == (if i < with then AllEntries(part) + Entries(s) else Entries(s) + AllEntries(part))
      && AllPages(jc) + multiset{s.page} == AllPages(part) + Pages(s) && AllNodes(jc) <= AllNodes(part) + Nodes(s)
  {
    hide Row, WF, AllEntries, AllPages, AllNodes, Entries, Pages, Nodes, Ups, ChildLow, ChildHigh;
    var l, s := Lower(i, with), t.children[with];
    PairBounds(t, l, h, lo, hi);
    BranchRow(s, h - 1, ChildLow(t, with, lo, hi), ChildHigh(t, with, hi));
    Unfold(s);
    if i < with {
      RowJoin(part, pk, t.keys[l], s.children, s.keys, h - 2, ChildLow(t, l, lo, hi), ChildHigh(t, l + 1, hi));
      Concat(part, s.children);
    } else {
      RowJoin(s.children, s.keys, t.keys[l], part, pk, h - 2, ChildLow(t, l, lo, hi), ChildHigh(t, l + 1, hi));
      Concat(s.children, part);
    }
  }

  lemma {:induction false} ChildOrder(t: Node, i: nat, h: nat, lo: Bound, hi: Bound)
    requires WF(t, h, lo, hi) && t.Branch? && i < |t.children| && |t.children| == |t.keys| + 1
    ensures Lt(ChildLow(t, i, lo, hi), ChildHigh(t, i, hi))
  {
    RowAt(t.children, Ups(t.keys, hi), i, h - 1, lo);
  }

  /** A branch too small, or the one child left of it, is merged into its sibling. */
  method MergeBranch(mem: PageManager, t: Node, i: nat, sub: DeletionResult, ghost h: nat, ghost lo: Bound,
                     ghost hi: Bound, ghost m0: Mem, ghost rest: multiset<Page>)
    returns (cs: seq<Node>, ks: seq<Key>, extra: seq<Page>)
    requires WF(t, h, lo, hi) && h > 0 && t.Branch? && i < |t.children| && |t.children| == |t.keys| + 1
      && |t.children| >= 2
    requires (sub.PartialBranch? || sub.DeletedBranch?)
      && Shaped(sub, h - 1, ChildLow(t, i, lo, hi), ChildHigh(t, i, hi))
    requires Owned(mem.State(), LeftPages(sub), rest + Others(t, i))
      && Evolves(m0, mem.State(), mem.modifyUncommitted, rest + Others(t, i))
    requires Written(m0, mem.modifyUncommitted, Nodes(t), LeftNodes(sub))
    modifies mem
    ensures |cs| == |ks| + 1 && Row(cs, Ups(ks, hi), h - 1, lo)
    ensures AllEntries(cs) == AllEntries(t.children[..i]) + LeftEntries(sub) + AllEntries(t.children[i + 1..])
    ensures Owned(mem.State(), AllPages(cs) + Bag(extra + [t.page]), rest)
      && Evolves(m0, mem.State(), mem.modifyUncommitted, rest)
    ensures Written(m0, mem.modifyUncommitted, Nodes(t), AllNodes(cs))
  {
    var with := if i == 0 then 1 else i - 1;
    assert sub.PartialBranch? ==> sub.branch.Branch?;
    hide Row, WF, Evolves, Owned, Written, AllEntries, AllPages, AllNodes, Nodes, Entries, Pages, Ups, Shaped,
         LeftEntries, LeftPages, LeftNodes, Others, ChildLow, ChildHigh;
    ChildOrder(t, i, h, lo, hi);
    PartRow(sub, h - 1, ChildLow(t, i, lo, hi), ChildHigh(t, i, hi));
    JoinedRow(t, i, with, PartTrees(sub), PartKeys(sub), h, lo, hi);
    var l, s := Lower(i, with), t.children[with];
    var jc := if i < with then PartTrees(sub) + s.children else s.children + PartTrees(sub);
    var jk := if i < with then PartKeys(sub) + [t.keys[l]] + s.keys else s.keys + [t.keys[l]] + PartKeys(sub);
    cs, ks, extra := JoinBranches(mem, t, i, with, sub, jc, jk, h, lo, hi, m0, rest);
    MergedEntries(t, i, with, LeftEntries(sub), AllEntries(jc));
  }

  method JoinBranches(mem: PageManager, t: Node, i: nat, with: nat, sub: DeletionResult, jc: seq<Node>, jk: seq<Key>,
      ghost h: nat, ghost lo: Bound, ghost hi: Bound, ghost m0: Mem, ghost rest: multiset<Page>)
    returns (cs: seq<Node>, ks: seq<Key>, extra: seq<Page>)
    requires WF(t, h, lo, hi) && h > 1 && Neighbours(t, i, with) && t.children[with].Branch?
    requires (sub.PartialBranch? && sub.branch.Branch?) || sub.DeletedBranch?
    requires |jc| == |jk| + 1 && |jc| >= 2
    requires Row(jc, Ups(jk, ChildHigh(t, Lower(i, with) + 1, hi)), h - 2, ChildLow(t, Lower(i, with), lo, hi))
    requires AllPages(jc) + multiset{t.children[with].page} == AllPages(PartTrees(sub)) + Pages(t.children[with])
    requires AllNodes(jc) <= AllNodes(PartTrees(sub)) + Nodes(t.children[with])
      && AllNodes(PartTrees(sub)) <= LeftNodes(sub)
    requires LeftPages(sub) == AllPages(PartTrees(sub)) + Bag(PartPage(sub))
    requires Owned(mem.State(), LeftPages(sub), rest + Others(t, i))
      && Evolves(m0, mem.State(), mem.modifyUncommitted, rest + Others(t, i))
    requires Written(m0, mem.modifyUncommitted, Nodes(t), LeftNodes(sub))
    modifies mem
    ensures |cs| == |ks| + 1 && Row(cs, Ups(ks, hi), h - 1, lo)
    ensures AllEntries(cs) == AllEntries(t.children[..Lower(i, with)]) + AllEntries(jc)
      + AllEntries(t.children[Lower(i, with) + 2..])
    ensures Owned(mem.State(), AllPages(cs) + Bag(extra + [t.page]), rest)
      && Evolves(m0, mem.State(), mem.modifyUncommitted, rest)
    ensures Written(m0, mem.modifyUncommitted, Nodes(t), AllNodes(cs))
  {
    hide Row, WF, Evolves, Owned, Written, AllEntries, AllPages, AllNodes, Nodes, Entries, Pages, Ups, LeftEntries,
         LeftPages, LeftNodes, Writable, ChildLow, ChildHigh, Others, Bag, Tops;
    var s := t.children[with];
    ghost var l, m1 := Lower(i, with), mem.State();
    ghost var a, b := AllPages(t.children[..l]), AllPages(t.children[l + 2..]);
    ghost var own := multiset{t.page} + a + b + (AllPages(jc) + multiset{s.page}) + Bag(PartPage(sub));
    PairParts(t, i, with);
    JoinBefore(t.page, a, b, AllPages(jc), s.page, AllPages(PartTrees(sub)), Pages(s), Bag(PartPage(sub)), rest);
    assert Owned(m1, own, rest) by { OwnedMove(m1, LeftPages(sub), rest + Others(t, i), own, rest); }
    EvolvesLess(m0, m1, mem.modifyUncommitted, rest, rest + Others(t, i));
    var ts, tk := BuildBranches(mem, jc, jk, h - 2, ChildLow(t, l, lo, hi), ChildHigh(t, l + 1, hi), own, rest);
    EvolvesTrans(m0, m1, mem.State(), mem.modifyUncommitted, rest, rest, rest + own);
    JoinedWritten(m0, m1, mem.modifyUncommitted, rest, t, s, LeftNodes(sub), AllNodes(jc), Roots(ts));
    PairEdit(t, l, ts, tk, h, lo, hi);
    cs, ks := ReplaceMerged(t.children, t.keys, i, with, ts, tk);
    MergeWritten(m0, mem.modifyUncommitted, t, i, with, AllNodes(ts), AllNodes(cs));
    extra := [s.page] + PartPage(sub);
    BagOf(s.page, PartPage(sub), t.page);
    JoinAfter(t.page, a, b, AllPages(jc), s.page, Bag(PartPage(sub)), Tops(ts));
  }

  lemma JoinBefore(p: Page, a: multiset<Page>, b: multiset<Page>, j: multiset<Page>, q: Page, part: multiset<Page>,
                   sib: multiset<Page>, pp: multiset<Page>, rest: multiset<Page>)
    requires j + multiset{q} == part + sib
    ensures part + pp + (rest + (multiset{p} + a + sib + b)) == multiset{p} + a + b + (j + multiset{q}) + pp + rest
  {
  }

  lemma JoinAfter(p: Page, a: multiset<Page>, b: multiset<Page>, j: multiset<Page>, q: Page, pp: multiset<Page>,
                  tops: multiset<Page>)
    ensures multiset{p} + a + b + (j + multiset{q}) + pp + tops == a + (tops + j) + b + (multiset{q} + pp + multiset{p})
  {
  }

  lemma BagOf(p: Page, qs: seq<Page>, r: Page)
    ensures Bag([p] + qs + [r]) == multiset{p} + Bag(qs) + multiset{r}
  {
  }

  lemma {:induction false} JoinedWritten(m0: Mem, m1: Mem, inPlace: bool, rest: multiset<Page>, t: Node, s: Node,
                                         left: set<Node>,
                      joined: set<Node>, roots: set<Node>)
    requires Evolves(m0, m1, inPlace, rest) && Written(m0, inPlace, Nodes(t), left) && Nodes(s) <= Nodes(t)
      && joined <= left + Nodes(s)
    requires forall n :: n in roots ==> Writable(m1, inPlace, n.page)
    ensures Written(m0, inPlace, Nodes(t), roots + joined)
  {
    hide Nodes;
    forall n | n in roots
      ensures Writable(m0, inPlace, n.page)
    {
      WritableBack(m0, m1, inPlace, rest, n.page);
    }
  }

  // ----- branches -----

  /** The child was replaced by a proper tree: write the branch in place, or rebuild it. */
  method ReplaceSubtree(mem: PageManager, t: Node, i: nat, n: Node, ghost h: nat, ghost lo: Bound, ghost hi: Bound,
                        ghost m0: Mem, ghost rest: multiset<Page>) returns (r: DeletionResult)
    requires WF(t, h, lo, hi) && h > 0 && t.Branch? && i < |t.children| && |t.children| == |t.keys| + 1
    requires WF(n, h - 1, ChildLow(t, i, lo, hi), ChildHigh(t, i, hi))
    requires Owned(mem.State(), Pages(n), rest + Others(t, i))
      && Evolves(m0, mem.State(), mem.modifyUncommitted, rest + Others(t, i))
    requires Written(m0, mem.modifyUncommitted, Nodes(t.children[i]), Nodes(n))
    modifies mem
    ensures r.Subtree? && WF(r.node, h, lo, hi) && Entries(r.node) == AllEntries(t.children[..i]) + Entries(n)
      + AllEntries(t.children[i + 1..])
    ensures Owned(mem.State(), Pages(r.node), rest) && Evolves(m0, mem.State(), mem.modifyUncommitted, rest)
    ensures Written(m0, mem.modifyUncommitted, Nodes(t), Nodes(r.node))
  {
    hide Row, WF, Evolves, Owned, Written, AllEntries, AllPages, AllNodes, Nodes, Entries, Pages, Others, ChildLow,
         ChildHigh, Ups;
    assert Row([n], Ups([], ChildHigh(t, i, hi)), h - 1, ChildLow(t, i, lo, hi)) by { AloneRow(t, i, n, h, lo, hi); }
    BranchEdit(t, i, [n], [], h, lo, hi);
    DescendParts(t, i);
    Single(n);
    var cs := t.children[..i] + [n] + t.children[i + 1..];
    assert t.keys[..i] + [] + t.keys[i..] == t.keys;
    ghost var m1 := mem.State();
    assert Owned(m1, multiset{t.page} + AllPages(cs), rest) by { RegroupOwned(m1, t, i, [n], cs, rest); }
    EvolvesLess(m0, m1, mem.modifyUncommitted, rest, rest + Others(t, i));
    if t.page in mem.uncommitted && mem.modifyUncommitted {
      var b := Branch(t.page, t.keys, cs);
      Unfold(b);
      RowWhole(cs, t.keys, b.page, h - 1, lo, hi);
      WritableBack(m0, m1, mem.modifyUncommitted, rest, t.page);
      BranchWritten(m0, mem.modifyUncommitted, t, i, [n], Nodes(b), {b});
      r := Subtree(b);
    } else {
      var b := CopyBranch(mem, t.page, cs, t.keys, rest);
      Unfold(b);
      RowWhole(cs, t.keys, b.page, h - 1, lo, hi);
      EvolvesTrans(m0, m1, mem.State(), mem.modifyUncommitted, rest, rest, rest);
      WritableBack(m0, m1, mem.modifyUncommitted, rest, b.page);
      BranchWritten(m0, mem.modifyUncommitted, t, i, [n], Nodes(b), {b});
      r := Subtree(b);
    }
  }

  /** A new page for the branch; the old one is released. */
  method CopyBranch(mem: PageManager, page: Page, cs: seq<Node>, ks: seq<Key>, ghost rest: multiset<Page>)
    returns (b: Node)
    requires Owned(mem.State(), multiset{page} + AllPages(cs), rest)
    modifies mem
    ensures b == Branch(b.page, ks, cs) && Owned(mem.State(), Pages(b), rest)
    ensures Evolves(old(mem.State()), mem.State(), mem.modifyUncommitted, rest)
      && Writable(old(mem.State()), mem.modifyUncommitted, b.page)
  {
    hide Evolves, Owned, BranchBytes, AllPages;
    ghost var m1, own := mem.State(), multiset{page} + AllPages(cs);
    b := mem.BuildBranch(cs, ks, own, rest);
    Unfold(b);
    ghost var m2 := mem.State();
    assert own + multiset{b.page} == Pages(b) + multiset{page};
    mem.Release(page, Pages(b), rest);
    EvolvesTrans(m1, m2, mem.State(), mem.modifyUncommitted, rest, rest + own, rest + Pages(b));
  }

  lemma AloneRow(t: Node, i: nat, n: Node, h: nat, lo: Bound, hi: Bound)
    requires WF(t, h, lo, hi) && h > 0 && t.Branch? && i < |t.children| && |t.children| == |t.keys| + 1
    requires WF(n, h - 1, ChildLow(t, i, lo, hi), ChildHigh(t, i, hi))
    ensures Row([n], Ups([], ChildHigh(t, i, hi)), h - 1, ChildLow(t, i, lo, hi))
  {
    ChildOrder(t, i, h, lo, hi);
    hide WF, ChildLow, ChildHigh;
    RowSingle(n, h - 1, ChildLow(t, i, lo, hi), ChildHigh(t, i, hi));
    assert Ups([], ChildHigh(t, i, hi)) == [ChildHigh(t, i, hi)];
  }

  /** A child that has become empty is taken out. */
  lemma {:induction false} TakenOut(m0: Mem, m: Mem, inPlace: bool, t: Node, i: nat, h: nat, lo: Bound, hi: Bound,
                                    rest: multiset<Page>)
    requires WF(t, h, lo, hi) && h > 0 && t.Branch? && i < |t.children| && |t.children| == |t.keys| + 1
      && |t.children| >= 2
    requires Owned(m, multiset{}, rest + Others(t, i)) && Evolves(m0, m, inPlace, rest + Others(t, i))
    ensures var cs, ks := t.children[..i] + t.children[i + 1..], if i == |t.keys| then t.keys[..i - 1]
      else t.keys[..i] + t.keys[i + 1..];
      && |cs| == |ks| + 1 && Row(cs, Ups(ks, hi), h - 1, lo)
        && AllEntries(cs) == AllEntries(t.children[..i]) + AllEntries(t.children[i + 1..])
      && Owned(m, AllPages(cs) + Bag([] + [t.page]), rest) && Evolves(m0, m, inPlace, rest)
      && Written(m0, inPlace, Nodes(t), AllNodes(cs))
  {
    BranchRow(t, h, lo, hi);
    RowRemove(t.children, t.keys, i, h - 1, lo, hi);
    Concat(t.children[..i], t.children[i + 1..]);
    DescendParts(t, i);
    hide Row, WF, AllEntries, AllPages, AllNodes, Nodes, Entries, Pages, Ups;
    assert Bag([] + [t.page]) == multiset{t.page};
    OwnedMove(m, multiset{}, rest + Others(t, i),
              AllPages(t.children[..i] + t.children[i + 1..]) + Bag([] + [t.page]), rest);
    EvolvesLess(m0, m, inPlace, rest, rest + Others(t, i));
    hide Evolves, Owned;
  }

  method DeleteBranch(mem: PageManager, t: Node, key: Key, ghost h: nat, ghost lo: Bound, ghost hi: Bound,
                      ghost rest: multiset<Page>) returns (r: DeletionResult, found: Option<Value>)
    requires t.Branch? && WF(t, h, lo, hi) && InRange(key, lo, hi) && Owned(mem.State(), Pages(t), rest)
    modifies mem
    ensures Deleted(t, key, h, lo, hi, r, found)
    ensures found.None? ==> mem.State() == old(mem.State())
    ensures Owned(mem.State(), LeftPages(r), rest)
      && Evolves(old(mem.State()), mem.State(), mem.modifyUncommitted, rest)
    ensures Written(old(mem.State()), mem.modifyUncommitted, Nodes(t), LeftNodes(r))
    decreases t, 0
  {
    hide Row, WF, Evolves, Owned, Written, Upsert, Remove, Lookup, Pages, AllPages, AllNodes, Nodes, AllEntries,
         Entries, Others, ChildLow, ChildHigh, Ups, InRange;
    var i := FindChild(t, key, h, lo, hi);
    Descend(t, i, key, [], h, lo, hi);
    BranchRow(t, h, lo, hi);
    ghost var m0 := mem.State();
    ChildRest(m0, t, i, rest);
    var sub;
    sub, found := DeleteHelper(mem, t.children[i], key, h - 1, ChildLow(t, i, lo, hi), ChildHigh(t, i, hi),
                               rest + Others(t, i));
    if found.None? {
      r := Subtree(t);
      OwnedMove(m0, Pages(t.children[i]), rest + Others(t, i), Pages(t), rest);
      EvolvesLess(m0, m0, mem.modifyUncommitted, rest, rest + Others(t, i));
      assert Written(m0, mem.modifyUncommitted, Nodes(t), Nodes(t))
        by { Untouched(m0, mem.modifyUncommitted, Nodes(t)); }
      return;
    }
    r := RebuildBranch(mem, t, i, sub, h, lo, hi, m0, rest);
  }

  lemma Untouched(m: Mem, inPlace: bool, ns: set<Node>)
    ensures Written(m, inPlace, ns, ns)
  {
  }

  /** What the branch becomes for each kind of result of its child. */
  method RebuildBranch(mem: PageManager, t: Node, i: nat, sub: DeletionResult, ghost h: nat, ghost lo: Bound,
                       ghost hi: Bound, ghost m0: Mem, ghost rest: multiset<Page>) returns (r: DeletionResult)
    requires WF(t, h, lo, hi) && h > 0 && t.Branch? && i < |t.children| && |t.children| == |t.keys| + 1
      && |t.children| >= 2
    requires Shaped(sub, h - 1, ChildLow(t, i, lo, hi), ChildHigh(t, i, hi))
    requires Nodes(t) == {t} + AllNodes(t.children[..i]) + Nodes(t.children[i]) + AllNodes(t.children[i + 1..])
    requires Owned(mem.State(), LeftPages(sub), rest + Others(t, i))
      && Evolves(m0, mem.State(), mem.modifyUncommitted, rest + Others(t, i))
    requires Written(m0, mem.modifyUncommitted, Nodes(t.children[i]), LeftNodes(sub))
    modifies mem
    ensures Shaped(r, h, lo, hi) && LeftEntries(r) == AllEntries(t.children[..i]) + LeftEntries(sub)
      + AllEntries(t.children[i + 1..])
    ensures Owned(mem.State(), LeftPages(r), rest) && Evolves(m0, mem.State(), mem.modifyUncommitted, rest)
    ensures Written(m0, mem.modifyUncommitted, Nodes(t), LeftNodes(r))
  {
    hide Row, WF, Evolves, Owned, Written, Pages, AllPages, AllNodes, Nodes, AllEntries, Entries, Others, ChildLow,
         ChildHigh, Ups, Without, Sorted, Within;
    if sub.Subtree? {
      r := ReplaceSubtree(mem, t, i, sub.node, h, lo, hi, m0, rest);
      return;
    }
    var cs, ks, extra;
    if sub.DeletedLeaf? {
      TakenOut(m0, mem.State(), mem.modifyUncommitted, t, i, h, lo, hi, rest);
      cs, ks := RemoveChild(t.children, t.keys, i);
      extra := [];
    } else if sub.PartialLeaf? {
      var left := LeafExcept(sub.entries, sub.deleted);
      assert left == Without(sub.entries, sub.deleted) && left != [] && Sorted(left)
        && Within(left, ChildLow(t, i, lo, hi), ChildHigh(t, i, hi)) by {
        WithoutKeeps(sub.entries, sub.deleted, ChildLow(t, i, lo, hi), ChildHigh(t, i, hi));
      }
      cs, ks, extra := MergeLeaf(mem, t, i, left, lo, hi, m0, rest);
    } else {
      WrittenMore(m0, mem.modifyUncommitted, Nodes(t.children[i]), Nodes(t), LeftNodes(sub));
      cs, ks, extra := MergeBranch(mem, t, i, sub, h, lo, hi, m0, rest);
    }
    r := FinishDelete(mem, t.page, cs, ks, extra, h - 1, lo, hi, m0, Nodes(t), rest);
  }

  lemma WithoutKeeps(es: seq<Entry>, d: nat, lo: Bound, hi: Bound)
    requires d < |es| && |es| > 1 && Sorted(es) && Within(es, lo, hi)
    ensures Without(es, d) == es[..d] + es[d + 1..] && Without(es, d) != [] && Sorted(Without(es, d))
      && Within(Without(es, d), lo, hi)
  {
  }

  method DeleteHelper(mem: PageManager, t: Node, key: Key, ghost h: nat, ghost lo: Bound, ghost hi: Bound,
                      ghost rest: multiset<Page>) returns (r: DeletionResult, found: Option<Value>)
    requires WF(t, h, lo, hi) && InRange(key, lo, hi) && Owned(mem.State(), Pages(t), rest)
    modifies mem
    ensures Deleted(t, key, h, lo, hi, r, found)
    ensures found.None? ==> mem.State() == old(mem.State())
    ensures Owned(mem.State(), LeftPages(r), rest)
      && Evolves(old(mem.State()), mem.State(), mem.modifyUncommitted, rest)
    ensures Written(old(mem.State()), mem.modifyUncommitted, Nodes(t), LeftNodes(r))
    decreases t, 1
  {
    if t.Leaf? {
      r, found := DeleteLeaf(mem, t, key, lo, hi, rest);
    } else {
      r, found := DeleteBranch(mem, t, key, h, lo, hi, rest);
    }
  }
}
