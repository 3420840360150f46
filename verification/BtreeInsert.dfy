/**
 Insertion: the recursive helper over leaves and branches, with in-place updates of uncommitted
 pages, splits, and the fast path beside a single large value.
 */
module BtreeInsert {
  import opened Bits
  import opened BtreeSpec
  import opened BtreeNodes
  import opened BtreeRows
  import opened BtreePages

  datatype InsertionResult = InsertionResult(root: Node, sibling: Option<(Key, Node)>, old_value: Option<Value>)
  {
    function Trees(): seq<Node> {
      if sibling.None? then [root] else [root, sibling.value.1]
    }

    function Keys(): seq<Key> {
      if sibling.None? then [] else [sibling.value.0]
    }
  }

  /** The result holds the old entries with the key bound, in one or two trees that fit where the old one was. */
  ghost predicate Inserted(t: Node, key: Key, value: Value, h: nat, lo: Bound, hi: Bound, r: InsertionResult)
  {
    && Row(r.Trees(), Ups(r.Keys(), hi), h, lo)
    && AllEntries(r.Trees()) == Upsert(Entries(t), key, value)
    && r.old_value == Lookup(Entries(t), key)
  }

  // ----- leaves -----

  /** The edited pairs stay sorted and within bounds, and are what binding the key means. */
  lemma LeafEdit(es: seq<Entry>, p: nat, found: bool, key: Key, value: Value, lo: Bound, hi: Bound)
    requires Sorted(es) && Within(es, lo, hi) && InRange(key, lo, hi) && p <= |es| && AllBelow(es[..p], key)
    requires if found then p < |es| && es[p].key == key && AllOver(es[p + 1..], key) else AllOver(es[p..], key)
    ensures var s := es[..p] + [Entry(key, value)] + es[if found then p + 1 else p..];
      Sorted(s) && Within(s, lo, hi) && s == Upsert(es, key, value)
    ensures Lookup(es, key) == if found then Some(es[p].value) else None
  {
    CutAt(es, p, found, key, value);
    CutKeys(es, key, p, found);
    hide Upsert, Lookup, Sorted, Within, AllBelow, AllOver, InRange;
    SpliceSorted(es, p, if found then p + 1 else p, Entry(key, value), lo, hi);
  }

  lemma SpliceSorted(es: seq<Entry>, p: nat, q: nat, e: Entry, lo: Bound, hi: Bound)
    requires Sorted(es) && Within(es, lo, hi) && InRange(e.key, lo, hi) && p <= q <= |es|
    requires (forall z :: 0 <= z < p ==> es[z].key < e.key) && forall z :: q <= z < |es| ==> es[z].key > e.key
    ensures Sorted(es[..p] + [e] + es[q..]) && Within(es[..p] + [e] + es[q..], lo, hi)
  {
    hide InRange;
    var s := es[..p] + [e] + es[q..];
    forall i | 0 <= i < |s|
      ensures InRange(s[i].key, lo, hi) && s[i] == if i < p then es[i] else if i == p then e else es[i - p - 1 + q]
    {
    }
    forall i, j | 0 <= i < j < |s|
      ensures s[i].key < s[j].key
    {
    }
  }

  lemma TwoLeaves(a: Node, b: Node)
    requires a.Leaf? && b.Leaf?
    ensures AllEntries([a, b]) == a.entries + b.entries
    ensures AllPages([a, b]) == multiset{a.page} + multiset{b.page} && AllNodes([a, b]) == {a, b}
  {
    assert [a, b][1..] == [b];
    Single(b);
  }

  /** Beside a single large value the new pair gets a leaf of its own. */
  lemma BesideLarge(t: Node, n: Node, p: nat, key: Key, value: Value, lo: Bound, hi: Bound)
    requires t.Leaf? && |t.entries| == 1 && WF(t, 0, lo, hi) && InRange(key, lo, hi) && p <= 1
    requires n.Leaf? && n.entries == [Entry(key, value)]
    requires AllBelow(t.entries[..p], key) && AllOver(t.entries[p..], key)
    ensures Inserted(t, key, value, 0, lo, hi,
      if p == 0 then InsertionResult(n, Some((key, t)), None)
        else InsertionResult(t, Some((t.entries[0].key, n)), None))
  {
    var es := t.entries;
    var s := es[..p] + [Entry(key, value)] + es[p..];
    LeafEdit(es, p, false, key, value, lo, hi);
    hide Sorted, Within, Upsert, Lookup, Row, AllEntries;
    if p == 0 {
      assert s[..1] == n.entries && s[1..] == es;
      LeafCut(s, 1, n.page, n.room, t.page, t.room, lo, hi);
      TwoLeaves(n, t);
    } else {
      assert s[..1] == es && s[1..] == n.entries;
      LeafCut(s, 1, t.page, t.room, n.page, n.room, lo, hi);
      TwoLeaves(t, n);
    }
  }

  method InsertLeaf(mem: PageManager, t: Node, key: Key, value: Value, ghost lo: Bound, ghost hi: Bound,
                    ghost rest: multiset<Page>) returns (r: InsertionResult)
    requires t.Leaf? && WF(t, 0, lo, hi) && InRange(key, lo, hi) && Owned(mem.State(), Pages(t), rest)
    modifies mem
    ensures Inserted(t, key, value, 0, lo, hi, r)
    ensures Owned(mem.State(), AllPages(r.Trees()), rest)
      && Evolves(old(mem.State()), mem.State(), mem.modifyUncommitted, rest)
    ensures Written(old(mem.State()), mem.modifyUncommitted, Nodes(t), AllNodes(r.Trees()))
  {
    var es := t.entries;
    var p, found := Position(es, key);
    LeafEdit(es, p, found, key, value, lo, hi);
    hide Sorted, Within, Upsert, Lookup, LeafBytes, Evolves, Row, PairBytes, Inserted, Written, AllPages, AllNodes;
    ghost var m0, own := mem.State(), multiset{t.page};
    var old_value := if found then Some(es[p].value) else None;
    if !found && SingleLargeValue(mem.format, es) {
      r := InsertBeside(mem, t, p, key, value, lo, hi, rest);
      return;
    }
    if t.page in mem.uncommitted && mem.modifyUncommitted
      && SufficientSpace(mem.format, t.room, es, p, found, key, value) {
      var n := Leaf(t.page, t.room, es[..p] + [Entry(key, value)] + es[if found then p + 1 else p..]);
      r := InsertionResult(n, None, old_value);
      OneLeaf(m0, mem.modifyUncommitted, t, n, key, value, old_value, lo, hi);
      EvolvesRefl(m0, mem.modifyUncommitted, own, rest);
      EvolvesLess(m0, m0, mem.modifyUncommitted, rest, rest + own);
      return;
    }
    var s := LeafWith(es, p, found, Entry(key, value));
    r := RebuildLeaf(mem, t, s, key, value, old_value, lo, hi, rest);
  }

  /** A new leaf before or after the single large value, which stays where it is. */
  method InsertBeside(mem: PageManager, t: Node, p: nat, key: Key, value: Value, ghost lo: Bound, ghost hi: Bound,
                      ghost rest: multiset<Page>) returns (r: InsertionResult)
    requires t.Leaf? && WF(t, 0, lo, hi) && InRange(key, lo, hi) && Owned(mem.State(), multiset{t.page}, rest)
    requires |t.entries| == 1 && p <= 1 && AllBelow(t.entries[..p], key) && AllOver(t.entries[p..], key)
    modifies mem
    ensures Inserted(t, key, value, 0, lo, hi, r)
    ensures Owned(mem.State(), AllPages(r.Trees()), rest)
      && Evolves(old(mem.State()), mem.State(), mem.modifyUncommitted, rest)
    ensures Written(old(mem.State()), mem.modifyUncommitted, Nodes(t), AllNodes(r.Trees()))
  {
    hide Owned, Evolves, Inserted, Written, LeafBytes, AllPages, AllNodes, WF, AllBelow, AllOver, InRange;
    ghost var m0, own := mem.State(), multiset{t.page};
    var n := mem.BuildLeaf([Entry(key, value)], own, rest);
    EvolvesLess(m0, mem.State(), mem.modifyUncommitted, rest, rest + own);
    BesideLarge(t, n, p, key, value, lo, hi);
    assert own + multiset{n.page} == multiset{n.page} + own;
    if p == 0 {
      r := InsertionResult(n, Some((key, t)), None);
      TwoLeaves(n, t);
      WrittenPair(m0, mem.modifyUncommitted, t, n, t, n);
    } else {
      r := InsertionResult(t, Some((t.entries[|t.entries| - 1].key, n)), None);
      TwoLeaves(t, n);
      WrittenPair(m0, mem.modifyUncommitted, t, t, n, n);
    }
  }

  lemma {:induction false} OneLeaf(m: Mem, inPlace: bool, t: Node, n: Node, key: Key, value: Value,
                                   old_value: Option<Value>, lo: Bound,
                hi: Bound)
    requires t.Leaf? && n.Leaf? && n.page == t.page && Writable(m, inPlace, n.page)
    requires n.entries == Upsert(t.entries, key, value) && old_value == Lookup(t.entries, key) && Sorted(n.entries)
      && Within(n.entries, lo, hi) && n.entries != []
    ensures Inserted(t, key, value, 0, lo, hi, InsertionResult(n, None, old_value))
    ensures AllPages([n]) == multiset{t.page} && Written(m, inPlace, Nodes(t), AllNodes([n]))
  {
    LeafWhole(n.entries, n.page, n.room, lo, hi);
    Single(n);
  }

  lemma {:induction false} WrittenPair(m: Mem, inPlace: bool, t: Node, a: Node, b: Node, n: Node)
    requires t.Leaf? && n.Leaf? && Writable(m, inPlace, n.page) && (a == t || a == n) && (b == t || b == n)
    ensures Written(m, inPlace, Nodes(t), AllNodes([a, b]))
  {
    TwoLeaves(a, b);
  }

  /** One new leaf, or two when it would be too full; then the old page is released. */
  method RebuildLeaf(mem: PageManager, t: Node, s: seq<Entry>, ghost key: Key, ghost value: Value,
                     old_value: Option<Value>, ghost lo: Bound, ghost hi: Bound, ghost rest: multiset<Page>)
                       returns (r: InsertionResult)
    requires t.Leaf? && Owned(mem.State(), Pages(t), rest) && Sorted(s) && Within(s, lo, hi) && s != []
    requires s == Upsert(t.entries, key, value) && old_value == Lookup(t.entries, key)
    modifies mem
    ensures Inserted(t, key, value, 0, lo, hi, r)
    ensures Owned(mem.State(), AllPages(r.Trees()), rest)
      && Evolves(old(mem.State()), mem.State(), mem.modifyUncommitted, rest)
    ensures Written(old(mem.State()), mem.modifyUncommitted, Nodes(t), AllNodes(r.Trees()))
  {
    hide Evolves, Owned, Row, Sorted, Within, Upsert, Lookup, AllEntries, AllPages, AllNodes;
    ghost var m0, own := mem.State(), multiset{t.page};
    var ts, ks := BuildLeaves(mem, s, own, lo, hi, rest);
    ghost var m1, added := mem.State(), AllPages(ts);
    r := InsertionResult(ts[0], if |ks| == 0 then None else Some((ks[0], ts[1])), old_value);
    assert r.Trees() == ts && r.Keys() == ks;
    assert own + added == added + multiset{t.page};
    mem.Release(t.page, added, rest);
    EvolvesTrans(m0, m1, mem.State(), mem.modifyUncommitted, rest, rest + own, rest + added);
  }

  /** The builder's pairs in one leaf, or split in two. */
  method BuildLeaves(mem: PageManager, s: seq<Entry>, ghost own: multiset<Page>, ghost lo: Bound, ghost hi: Bound,
                     ghost rest: multiset<Page>) returns (ts: seq<Node>, ks: seq<Key>)
    requires Owned(mem.State(), own, rest) && Sorted(s) && Within(s, lo, hi) && s != []
    modifies mem
    ensures |ts| == |ks| + 1 && |ks| <= 1 && Row(ts, Ups(ks, hi), 0, lo) && AllEntries(ts) == s
    ensures Owned(mem.State(), own + AllPages(ts), rest)
      && Evolves(old(mem.State()), mem.State(), mem.modifyUncommitted, rest + own)
    ensures Written(old(mem.State()), mem.modifyUncommitted, {}, AllNodes(ts))
    ensures |ks| == 1 <==> LeafShouldSplit(mem.format, s)
  {
    ghost var m0 := mem.State();
    hide Row, WF, Evolves, Owned, LeafBytes, Sorted, Within, AllEntries, AllPages, AllNodes, Ups;
    if !LeafShouldSplit(mem.format, s) {
      var n := mem.BuildLeaf(s, own, rest);
      LeafWhole(s, n.page, n.room, lo, hi);
      Single(n);
      ts, ks := [n], [];
    } else {
      var d := SplitPoint(mem.format, s);
      var a, b := BuildPair(mem, s, d, own, rest);
      LeafCut(s, d, a.page, a.room, b.page, b.room, lo, hi);
      TwoLeaves(a, b);
      ts, ks := [a, b], [s[d - 1].key];
      assert s[..d] + s[d..] == s;
    }
  }

  method BuildPair(mem: PageManager, s: seq<Entry>, d: nat, ghost own: multiset<Page>, ghost rest: multiset<Page>)
    returns (a: Node, b: Node)
    requires Owned(mem.State(), own, rest) && d <= |s|
    modifies mem
    ensures a.Leaf? && b.Leaf? && a.entries == s[..d] && b.entries == s[d..]
    ensures Owned(mem.State(), own + (multiset{a.page} + multiset{b.page}), rest)
      && Evolves(old(mem.State()), mem.State(), mem.modifyUncommitted, rest + own)
    ensures Writable(old(mem.State()), mem.modifyUncommitted, a.page)
      && Writable(old(mem.State()), mem.modifyUncommitted, b.page)
  {
    hide LeafBytes, Evolves, Owned;
    ghost var m0 := mem.State();
    a := mem.BuildLeaf(s[..d], own, rest);
    ghost var m1 := mem.State();
    b := mem.BuildLeaf(s[d..], own + multiset{a.page}, rest);
    EvolvesTrans(m0, m1, mem.State(), mem.modifyUncommitted, rest + own, rest + own, rest + (own + multiset{a.page}));
    WritableBack(m0, m1, mem.modifyUncommitted, rest + own, b.page);
    assert own + multiset{a.page} + multiset{b.page} == own + (multiset{a.page} + multiset{b.page});
  }

  // ----- branches -----

  ghost function Tops(ts: seq<Node>): multiset<Page>
  {
    if ts == [] then multiset{} else multiset{ts[0].page} + Tops(ts[1..])
  }

  ghost function Roots(ts: seq<Node>): set<Node>
  {
    set t | t in ts
  }

  lemma {:induction false} Unfold(a: Node)
    requires a.Branch?
    ensures Entries(a) == AllEntries(a.children) && Pages(a) == multiset{a.page} + AllPages(a.children)
      && Nodes(a) == {a} + AllNodes(a.children)
  {
    hide AllEntries, AllPages, AllNodes;
  }

  lemma TwoTops(a: Node, b: Node)
    ensures Tops([a, b]) == multiset{a.page} + multiset{b.page} && Roots([a, b]) == {a, b}
  {
    assert [a, b][1..] == [b] && [b][1..] == [];
    assert Tops([b]) == multiset{b.page};
  }

  lemma {:induction false} TwoBranches(a: Node, b: Node, cs: seq<Node>, d: nat)
    requires a.Branch? && b.Branch? && d <= |cs| && a.children == cs[..d] && b.children == cs[d..]
    ensures AllEntries([a, b]) == AllEntries(cs) && AllPages([a, b]) == Tops([a, b]) + AllPages(cs)
      && AllNodes([a, b]) == Roots([a, b]) + AllNodes(cs)
    ensures Tops([a, b]) == multiset{a.page} + multiset{b.page}
  {
    hide AllEntries, AllPages, AllNodes, Tops, Entries, Pages, Nodes, Roots;
    TwoTops(a, b);
    assert cs[..d] + cs[d..] == cs;
    Concat(cs[..d], cs[d..]);
    assert [a] + [b] == [a, b];
    Concat([a], [b]);
    Single(a);
    Single(b);
    Unfold(a);
    Unfold(b);
  }

  lemma OneBranch(a: Node)
    requires a.Branch?
    ensures AllEntries([a]) == AllEntries(a.children) && AllPages([a]) == Tops([a]) + AllPages(a.children)
      && AllNodes([a]) == Roots([a]) + AllNodes(a.children)
    ensures Tops([a]) == multiset{a.page}
  {
    assert [a][1..] == [];
  }

  /** A branch over the children, or two when it would be too full. */
  method BuildBranches(mem: PageManager, cs: seq<Node>, ks: seq<Key>, ghost h: nat, ghost lo: Bound, ghost hi: Bound,
                       ghost own: multiset<Page>, ghost rest: multiset<Page>)
    returns (ts: seq<Node>, tk: seq<Key>)
    requires Owned(mem.State(), own, rest) && Row(cs, Ups(ks, hi), h, lo) && |cs| == |ks| + 1 && |cs| >= 2
    modifies mem
    ensures |ts| == |tk| + 1 && |tk| <= 1 && Row(ts, Ups(tk, hi), h + 1, lo)
    ensures AllEntries(ts) == AllEntries(cs) && AllPages(ts) == Tops(ts) + AllPages(cs)
      && AllNodes(ts) == Roots(ts) + AllNodes(cs)
    ensures Owned(mem.State(), own + Tops(ts), rest)
      && Evolves(old(mem.State()), mem.State(), mem.modifyUncommitted, rest + own)
    ensures forall n :: n in ts ==> Writable(old(mem.State()), mem.modifyUncommitted, n.page)
  {
    if !BranchShouldSplit(mem.format, ks) {
      var n := mem.BuildBranch(cs, ks, own, rest);
      hide Row, WF, Evolves, Owned, BranchBytes, Ups;
      RowWhole(cs, ks, n.page, h, lo, hi);
      OneBranch(n);
      ts, tk := [n], [];
    } else {
      hide Row, WF, Evolves, Owned, BranchBytes, Ups;
      var d := |ks| / 2;
      var a, b := BuildBranchPair(mem, cs, ks, d, own, rest);
      RowCut(cs, ks, d, a.page, b.page, h, lo, hi);
      TwoBranches(a, b, cs, d + 1);
      ts, tk := [a, b], [ks[d]];
    }
  }

  method BuildBranchPair(mem: PageManager, cs: seq<Node>, ks: seq<Key>, d: nat, ghost own: multiset<Page>,
                         ghost rest: multiset<Page>) returns (a: Node, b: Node)
    requires Owned(mem.State(), own, rest) && d < |ks| && |cs| == |ks| + 1
    modifies mem
    ensures a == Branch(a.page, ks[..d], cs[..d + 1]) && b == Branch(b.page, ks[d + 1..], cs[d + 1..])
    ensures Owned(mem.State(), own + (multiset{a.page} + multiset{b.page}), rest)
      && Evolves(old(mem.State()), mem.State(), mem.modifyUncommitted, rest + own)
    ensures Writable(old(mem.State()), mem.modifyUncommitted, a.page)
      && Writable(old(mem.State()), mem.modifyUncommitted, b.page)
  {
    hide BranchBytes, Evolves, Owned;
    ghost var m0 := mem.State();
    a := mem.BuildBranch(cs[..d + 1], ks[..d], own, rest);
    ghost var m1 := mem.State();
    b := mem.BuildBranch(cs[d + 1..], ks[d + 1..], own + multiset{a.page}, rest);
    EvolvesTrans(m0, m1, mem.State(), mem.modifyUncommitted, rest + own, rest + own, rest + (own + multiset{a.page}));
    WritableBack(m0, m1, mem.modifyUncommitted, rest + own, b.page);
    assert own + multiset{a.page} + multiset{b.page} == own + (multiset{a.page} + multiset{b.page});
  }

  /** The child a key belongs to, and the bounds it lives in. */
  ghost predicate Chosen(t: Node, i: nat, key: Key)
  {
    t.Branch? && |t.children| == |t.keys| + 1 && i < |t.children| &&
    (forall j :: 0 <= j < i ==> t.keys[j] < key) && forall j :: i <= j < |t.keys| ==> key <= t.keys[j]
  }

  method FindChild(t: Node, key: Key, ghost h: nat, ghost lo: Bound, ghost hi: Bound) returns (i: nat)
    requires t.Branch? && WF(t, h, lo, hi)
    ensures Chosen(t, i, key) && h > 0
  {
    KeysIncreasing(t.children, t.keys, h - 1, lo, hi);
    i := ChildForKey(t.keys, key);
  }

  ghost function ChildLow(t: Node, i: nat, lo: Bound, hi: Bound): Bound
    requires t.Branch? && i <= |t.keys|
  {
    Last(Ups(t.keys, hi)[..i], lo)
  }

  ghost function ChildHigh(t: Node, i: nat, hi: Bound): Bound
    requires t.Branch? && i <= |t.keys|
  {
    Ups(t.keys, hi)[i]
  }

  /** Pages of a branch other than those below child `i`. */
  ghost function Others(t: Node, i: nat): multiset<Page>
    requires t.Branch? && i < |t.children|
  {
    multiset{t.page} + AllPages(t.children[..i]) + AllPages(t.children[i + 1..])
  }

  lemma Descend(t: Node, i: nat, key: Key, value: Value, h: nat, lo: Bound, hi: Bound)
    requires WF(t, h, lo, hi) && Chosen(t, i, key) && InRange(key, lo, hi)
    ensures h > 0 && WF(t.children[i], h - 1, ChildLow(t, i, lo, hi), ChildHigh(t, i, hi))
    ensures InRange(key, ChildLow(t, i, lo, hi), ChildHigh(t, i, hi))
    ensures Pages(t) == Others(t, i) + Pages(t.children[i])
    ensures var a, m, b := AllEntries(t.children[..i]), Entries(t.children[i]), AllEntries(t.children[i + 1..]);
      && Entries(t) == a + m + b
      && Upsert(Entries(t), key, value) == a + Upsert(m, key, value) + b
      && Remove(Entries(t), key) == a + Remove(m, key) + b
      && Lookup(Entries(t), key) == Lookup(m, key)
    ensures Nodes(t) == {t} + AllNodes(t.children[..i]) + Nodes(t.children[i]) + AllNodes(t.children[i + 1..])
  {
    DescendBounds(t, i, key, h, lo, hi);
    DescendParts(t, i);
    hide WF, Upsert, Remove, Lookup, AllEntries, AllPages, AllNodes, Entries, Pages, Nodes;
    Middle(AllEntries(t.children[..i]), Entries(t.children[i]), AllEntries(t.children[i + 1..]), key, value);
  }

  lemma DescendBounds(t: Node, i: nat, key: Key, h: nat, lo: Bound, hi: Bound)
    requires WF(t, h, lo, hi) && Chosen(t, i, key) && InRange(key, lo, hi)
    ensures h > 0 && WF(t.children[i], h - 1, ChildLow(t, i, lo, hi), ChildHigh(t, i, hi))
    ensures InRange(key, ChildLow(t, i, lo, hi), ChildHigh(t, i, hi))
    ensures AllBelow(AllEntries(t.children[..i]), key) && AllOver(AllEntries(t.children[i + 1..]), key)
  {
    RowAt(t.children, Ups(t.keys, hi), i, h - 1, lo);
    Around(t.children, t.keys, i, key, h - 1, lo, hi);
  }

  lemma {:induction false} DescendParts(t: Node, i: nat)
    requires t.Branch? && i < |t.children|
    ensures Pages(t) == Others(t, i) + Pages(t.children[i])
    ensures Entries(t) == AllEntries(t.children[..i]) + Entries(t.children[i]) + AllEntries(t.children[i + 1..])
    ensures Nodes(t) == {t} + AllNodes(t.children[..i]) + Nodes(t.children[i]) + AllNodes(t.children[i + 1..])
  {
    hide AllEntries, AllPages, AllNodes;
    var cs := t.children;
    Parts(cs, i, i + 1);
    assert cs[i..i + 1] == [cs[i]];
    Single(cs[i]);
    assert Entries(t) == AllEntries(cs) && Nodes(t) == {t} + AllNodes(cs)
      && Pages(t) == multiset{t.page} + AllPages(cs);
    hide Entries, Pages, Nodes;
  }

  /** Replacing the child by what the insertion below it gave. */
  lemma BranchEdit(t: Node, i: nat, ts: seq<Node>, tk: seq<Key>, h: nat, lo: Bound, hi: Bound)
    requires WF(t, h, lo, hi) && t.Branch? && i < |t.children| && |ts| == |tk| + 1
    requires Row(ts, Ups(tk, ChildHigh(t, i, hi)), h - 1, ChildLow(t, i, lo, hi))
    ensures var cs, ks := t.children[..i] + ts + t.children[i + 1..], t.keys[..i] + tk + t.keys[i..];
      && |cs| == |ks| + 1 && |cs| >= 2 && Row(cs, Ups(ks, hi), h - 1, lo)
      && AllEntries(cs) == AllEntries(t.children[..i]) + AllEntries(ts) + AllEntries(t.children[i + 1..])
      && AllPages(cs) == AllPages(t.children[..i]) + AllPages(ts) + AllPages(t.children[i + 1..])
      && AllNodes(cs) == AllNodes(t.children[..i]) + AllNodes(ts) + AllNodes(t.children[i + 1..])
  {
    var ups := Ups(t.keys, hi);
    hide Row, WF;
    RowReplace(t.children, ups, i, i + 1, ts, Ups(tk, ups[i]), h - 1, lo);
    UpsSplice(t.keys, i, tk, hi);
    Three(t.children[..i], ts, t.children[i + 1..]);
  }

  lemma {:induction false} ChildRest(m: Mem, t: Node, i: nat, rest: multiset<Page>)
    requires t.Branch? && i < |t.children| && Owned(m, Pages(t), rest)
      && Pages(t) == Others(t, i) + Pages(t.children[i])
    ensures Owned(m, Pages(t.children[i]), rest + Others(t, i))
  {
  }

  /** The nodes of a rebuilt branch: untouched siblings, the child's result, and new roots. */
  lemma {:induction false} BranchWritten(m: Mem, inPlace: bool, t: Node, i: nat, ts: seq<Node>, after: set<Node>,
                                         roots: set<Node>)
    requires t.Branch? && i < |t.children| && Written(m, inPlace, Nodes(t.children[i]), AllNodes(ts))
    requires Nodes(t) == {t} + AllNodes(t.children[..i]) + Nodes(t.children[i]) + AllNodes(t.children[i + 1..])
    requires after == roots + (AllNodes(t.children[..i]) + AllNodes(ts) + AllNodes(t.children[i + 1..]))
    requires forall n :: n in roots ==> Writable(m, inPlace, n.page)
    ensures Written(m, inPlace, Nodes(t), after)
  {
    hide Nodes, AllNodes, Writable;
  }

  method InsertBranch(mem: PageManager, t: Node, key: Key, value: Value, ghost h: nat, ghost lo: Bound,
                      ghost hi: Bound, ghost rest: multiset<Page>) returns (r: InsertionResult)
    requires t.Branch? && WF(t, h, lo, hi) && InRange(key, lo, hi) && Owned(mem.State(), Pages(t), rest)
    modifies mem
    ensures Inserted(t, key, value, h, lo, hi, r)
    ensures Owned(mem.State(), AllPages(r.Trees()), rest)
      && Evolves(old(mem.State()), mem.State(), mem.modifyUncommitted, rest)
    ensures Written(old(mem.State()), mem.modifyUncommitted, Nodes(t), AllNodes(r.Trees()))
    decreases t, 0
  {
    hide Row, WF, Evolves, Owned, Written, Upsert, Remove, Lookup, Pages, AllPages, AllNodes, Nodes, AllEntries,
         Entries, InRange, ChildLow, ChildHigh, Others, Ups;
    var i := FindChild(t, key, h, lo, hi);
    Descend(t, i, key, value, h, lo, hi);
    ghost var m0 := mem.State();
    ChildRest(m0, t, i, rest);
    var sub := InsertHelper(mem, t.children[i], key, value, h - 1, ChildLow(t, i, lo, hi), ChildHigh(t, i, hi),
                            rest + Others(t, i));
    BranchEdit(t, i, sub.Trees(), sub.Keys(), h, lo, hi);
    var cs, ks := ReplaceChild(t.children, t.keys, i, sub.Trees(), sub.Keys());
    r := FinishInsert(mem, t, i, sub, cs, ks, h, lo, hi, m0, rest);
  }

  /** Writes the branch in place when it is uncommitted and only one child changed, otherwise rebuilds it. */
  method FinishInsert(mem: PageManager, t: Node, i: nat, sub: InsertionResult, cs: seq<Node>, ks: seq<Key>,
      ghost h: nat, ghost lo: Bound, ghost hi: Bound, ghost m0: Mem, ghost rest: multiset<Page>)
        returns (r: InsertionResult)
    requires h > 0 && t.Branch? && i < |t.children|
    requires cs == t.children[..i] + sub.Trees() + t.children[i + 1..]
    requires |cs| == |ks| + 1 && |cs| >= 2 && Row(cs, Ups(ks, hi), h - 1, lo)
    requires AllPages(cs) == AllPages(t.children[..i]) + AllPages(sub.Trees()) + AllPages(t.children[i + 1..])
    requires AllNodes(cs) == AllNodes(t.children[..i]) + AllNodes(sub.Trees()) + AllNodes(t.children[i + 1..])
    requires Nodes(t) == {t} + AllNodes(t.children[..i]) + Nodes(t.children[i]) + AllNodes(t.children[i + 1..])
    requires Owned(mem.State(), AllPages(sub.Trees()), rest + Others(t, i))
    requires Evolves(m0, mem.State(), mem.modifyUncommitted, rest + Others(t, i))
    requires Written(m0, mem.modifyUncommitted, Nodes(t.children[i]), AllNodes(sub.Trees()))
    modifies mem
    ensures Row(r.Trees(), Ups(r.Keys(), hi), h, lo) && AllEntries(r.Trees()) == AllEntries(cs)
      && r.old_value == sub.old_value
    ensures Owned(mem.State(), AllPages(r.Trees()), rest) && Evolves(m0, mem.State(), mem.modifyUncommitted, rest)
    ensures Written(m0, mem.modifyUncommitted, Nodes(t), AllNodes(r.Trees()))
  {
    hide Row, WF, Evolves, Owned, Written, Pages, AllPages, AllNodes, Nodes, AllEntries, Entries, Ups;
    ghost var m1, o := mem.State(), Others(t, i);
    assert Owned(m1, multiset{t.page} + AllPages(cs), rest) by { RegroupOwned(m1, t, i, sub.Trees(), cs, rest); }
    EvolvesLess(m0, m1, mem.modifyUncommitted, rest, rest + o);
    if sub.sibling.None? && mem.modifyUncommitted && t.page in mem.uncommitted {
      var n := Branch(t.page, ks, cs);
      r := InsertionResult(n, None, sub.old_value);
      RowWhole(cs, ks, n.page, h - 1, lo, hi);
      OneBranch(n);
      assert Writable(m1, mem.modifyUncommitted, t.page);
      WritableBack(m0, m1, mem.modifyUncommitted, rest, t.page);
      BranchWritten(m0, mem.modifyUncommitted, t, i, sub.Trees(), AllNodes([n]), Roots([n]));
      return;
    }
    var ts, tk := RebuildBranches(mem, t.page, cs, ks, h - 1, lo, hi, rest);
    r := InsertionResult(ts[0], if |tk| == 0 then None else Some((tk[0], ts[1])), sub.old_value);
    assert r.Trees() == ts && r.Keys() == tk;
    EvolvesTrans(m0, m1, mem.State(), mem.modifyUncommitted, rest, rest, rest);
    forall n | n in Roots(ts)
      ensures Writable(m0, mem.modifyUncommitted, n.page)
    {
      WritableBack(m0, m1, mem.modifyUncommitted, rest, n.page);
    }
    BranchWritten(m0, mem.modifyUncommitted, t, i, sub.Trees(), AllNodes(ts), Roots(ts));
  }

  /** New branches over the children; the old page is released. */
  method RebuildBranches(mem: PageManager, page: Page, cs: seq<Node>, ks: seq<Key>, ghost h: nat, ghost lo: Bound,
                         ghost hi: Bound, ghost rest: multiset<Page>)
    returns (ts: seq<Node>, tk: seq<Key>)
    requires Owned(mem.State(), multiset{page} + AllPages(cs), rest) && Row(cs, Ups(ks, hi), h, lo)
      && |cs| == |ks| + 1 && |cs| >= 2
    modifies mem
    ensures |ts| == |tk| + 1 && |tk| <= 1 && Row(ts, Ups(tk, hi), h + 1, lo)
    ensures AllEntries(ts) == AllEntries(cs) && AllNodes(ts) == Roots(ts) + AllNodes(cs)
    ensures Owned(mem.State(), AllPages(ts), rest)
      && Evolves(old(mem.State()), mem.State(), mem.modifyUncommitted, rest)
    ensures forall n :: n in ts ==> Writable(old(mem.State()), mem.modifyUncommitted, n.page)
  {
    hide Row, WF, Evolves, Owned, AllPages, AllNodes, AllEntries, Ups, Tops, Roots, Writable;
    ghost var m1, own := mem.State(), multiset{page} + AllPages(cs);
    ts, tk := BuildBranches(mem, cs, ks, h, lo, hi, own, rest);
    ghost var m2 := mem.State();
    assert own + Tops(ts) == AllPages(ts) + multiset{page};
    mem.Release(page, AllPages(ts), rest);
    EvolvesTrans(m1, m2, mem.State(), mem.modifyUncommitted, rest, rest + own, rest + AllPages(ts));
  }

  lemma {:induction false} RegroupOwned(m: Mem, t: Node, i: nat, ts: seq<Node>, cs: seq<Node>, rest: multiset<Page>)
    requires t.Branch? && i < |t.children| && Owned(m, AllPages(ts), rest + Others(t, i))
    requires AllPages(cs) == AllPages(t.children[..i]) + AllPages(ts) + AllPages(t.children[i + 1..])
    ensures Owned(m, multiset{t.page} + AllPages(cs), rest)
  {
  }

  method InsertHelper(mem: PageManager, t: Node, key: Key, value: Value, ghost h: nat, ghost lo: Bound,
                      ghost hi: Bound, ghost rest: multiset<Page>) returns (r: InsertionResult)
    requires WF(t, h, lo, hi) && InRange(key, lo, hi) && Owned(mem.State(), Pages(t), rest)
    modifies mem
    ensures Inserted(t, key, value, h, lo, hi, r)
    ensures Owned(mem.State(), AllPages(r.Trees()), rest)
      && Evolves(old(mem.State()), mem.State(), mem.modifyUncommitted, rest)
    ensures Written(old(mem.State()), mem.modifyUncommitted, Nodes(t), AllNodes(r.Trees()))
    decreases t, 1
  {
    if t.Leaf? {
      r := InsertLeaf(mem, t, key, value, lo, hi, rest);
    } else {
      r := InsertBranch(mem, t, key, value, h, lo, hi, rest);
    }
  }
}
