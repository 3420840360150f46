/**
 The multimap: the values of a key are an inline leaf while they are few and a B-tree of their own
 when they are many. The table itself is a map from keys to such collections, which is what the
 B-tree refines.
 */
module Multimap {
  import opened Bits
  import opened BtreeSpec
  import opened BtreeNodes
  import opened BtreeRows
  import opened BtreePages
  import opened Btree

  datatype Collection =
    | Inline(entries: seq<Entry>)
    | Subtree(root: Node, length: nat)

  ghost function Members(c: Collection): seq<Entry>
  {
    match c
    case Inline(es) => es
    case Subtree(root, _) => Entries(root)
  }

  ghost function Leaves(c: Collection): multiset<Page>
  {
    match c
    case Inline(_) => multiset{}
    case Subtree(root, _) => Pages(root)
  }

  /** Never empty, in order, and a subtree knows its length. */
  ghost predicate Good(c: Collection, h: nat)
  {
    match c
    case Inline(es) => es != [] && Sorted(es)
    case Subtree(root, n) => Proper(Some(root), n, h)
  }

  lemma GoodSorted(c: Collection, h: nat)
    requires Good(c, h)
    ensures Members(c) != [] && Sorted(Members(c))
    ensures c.Subtree? ==> c.length == |Members(c)|
  {
    if c.Subtree? {
      TreeSorted(c.root, h, Min, Max);
    }
  }

  // ----- totals over the table -----

  lemma HasKey(m: map<Key, Collection>)
    requires m != map[]
    ensures exists k :: k in m
  {
    assert (forall k :: k !in m) ==> m == map[];
  }

  ghost function Count(m: map<Key, Collection>): nat
    decreases |m|
  {
    if m == map[] then 0
    else
      HasKey(m);
      var k :| k in m;
      |Members(m[k])| + Count(m - {k})
  }

  ghost function SubPages(m: map<Key, Collection>): multiset<Page>
    decreases |m|
  {
    if m == map[] then multiset{}
    else
      HasKey(m);
      var k :| k in m;
      Leaves(m[k]) + SubPages(m - {k})
  }

  lemma {:induction false} TotalsWithout(m: map<Key, Collection>, k: Key)
    requires k in m
    ensures Count(m) == |Members(m[k])| + Count(m - {k}) && SubPages(m) == Leaves(m[k]) + SubPages(m - {k})
    decreases |m|
  {
    hide Members, Leaves;
    CountWithout(m, k);
    PagesWithout(m, k);
  }

  lemma {:induction false} CountWithout(m: map<Key, Collection>, k: Key)
    requires k in m
    ensures Count(m) == |Members(m[k])| + Count(m - {k})
    decreases |m|
  {
    hide Members;
    var j :| j in m && Count(m) == |Members(m[j])| + Count(m - {j});
    if j != k {
      CountWithout(m - {j}, k);
      CountWithout(m - {k}, j);
      assert m - {j} - {k} == m - {k} - {j};
    }
  }

  lemma {:induction false} PagesWithout(m: map<Key, Collection>, k: Key)
    requires k in m
    ensures SubPages(m) == Leaves(m[k]) + SubPages(m - {k})
    decreases |m|
  {
    hide Leaves;
    var j :| j in m && SubPages(m) == Leaves(m[j]) + SubPages(m - {j});
    if j != k {
      PagesWithout(m - {j}, k);
      PagesWithout(m - {k}, j);
      assert m - {j} - {k} == m - {k} - {j};
    }
  }

  lemma TotalsWith(m: map<Key, Collection>, k: Key, c: Collection)
    ensures Count(m[k := c]) == Count(m - {k}) + |Members(c)| && SubPages(m[k := c]) == SubPages(m - {k}) + Leaves(c)
  {
    TotalsWithout(m[k := c], k);
    assert m[k := c] - {k} == m - {k};
  }

  lemma Absent(m: map<Key, Collection>, k: Key)
    requires k !in m
    ensures m - {k} == m
  {
  }

  // ----- editing one collection -----

  ghost predicate In(c: Collection, v: Key)
  {
    Lookup(Members(c), v).Some?
  }

  /** One value more, or the same set if it was there. */
  ghost predicate Added(before: seq<Entry>, after: seq<Entry>, v: Key)
  {
    && (forall u :: Lookup(after, u).Some? <==> Lookup(before, u).Some? || u == v)
    && |after| == |before| + (if Lookup(before, v).Some? then 0 else 1)
  }

  ghost predicate Dropped(before: seq<Entry>, after: seq<Entry>, v: Key)
  {
    && (forall u :: Lookup(after, u).Some? <==> Lookup(before, u).Some? && u != v)
    && |after| == |before| - (if Lookup(before, v).Some? then 1 else 0)
  }

  lemma UpsertAdds(s: seq<Entry>, v: Key)
    requires Sorted(s)
    ensures Added(s, Upsert(s, v, []), v)
  {
    hide Lookup, Upsert, Sorted;
    EditLength(s, v, []);
    forall u
      ensures Lookup(Upsert(s, v, []), u).Some? <==> Lookup(s, u).Some? || u == v
    {
      LookupUpsert(s, v, [], u);
    }
  }

  lemma RemoveDrops(s: seq<Entry>, v: Key)
    requires Sorted(s)
    ensures Dropped(s, BtreeSpec.Remove(s, v), v)
  {
    hide Lookup, BtreeSpec.Remove, Sorted;
    EditLength(s, v, []);
    forall u
      ensures Lookup(BtreeSpec.Remove(s, v), u).Some? <==> Lookup(s, u).Some? && u != v
    {
      LookupUpsert(s, v, [], u);
    }
  }

  /** The bytes of a set of values laid out as a leaf must stay under half a page to be inlined. */
  predicate Small(f: Format, es: seq<Entry>)
  {
    LeafBytes(f, es) < PAGE_SIZE / 2
  }

  /** What an edit of one collection leaves in the page manager. */
  ghost predicate Accounted(before: Mem, after: Mem, inPlace: bool, pages: multiset<Page>, rest: multiset<Page>)
  {
    Owned(after, pages, rest) && Evolves(before, after, inPlace, rest)
  }

  lemma Untouched(m: Mem, inPlace: bool, pages: multiset<Page>, rest: multiset<Page>)
    requires Owned(m, pages, rest)
    ensures Accounted(m, m, inPlace, pages, rest)
  {
    EvolvesRefl(m, inPlace, pages, rest);
    EvolvesLess(m, m, inPlace, rest, rest + pages);
  }

  /** The first value of a key. */
  method First(mem: PageManager, v: Key, ghost rest: multiset<Page>) returns (c: Collection, ghost h: nat)
    requires Owned(mem.State(), multiset{}, rest)
    modifies mem
    ensures Good(c, h) && (forall u :: In(c, u) <==> u == v) && |Members(c)| == 1
    ensures Accounted(old(mem.State()), mem.State(), mem.modifyUncommitted, Leaves(c), rest)
    ensures c.Inline? <==> Small(mem.format, [Entry(v, [])])
  {
    hide Owned, Evolves, LeafBytes, Upsert;
    UpsertAdds([], v);
    FilterOne(Entry(v, []), []);
    if Small(mem.format, [Entry(v, [])]) {
      Untouched(mem.State(), mem.modifyUncommitted, multiset{}, rest);
      EmptyUpsert(v);
      return Inline([Entry(v, [])]), 0;
    }
    var subtree := new BtreeMut(mem, None, 0, 0, rest);
    var existed := subtree.Insert(v, []);
    EmptyUpsert(v);
    c, h := Subtree(subtree.root.value, subtree.length), subtree.height;
  }

  lemma EmptyUpsert(v: Key)
    ensures Upsert([], v, []) == [Entry(v, [])] && Sorted([Entry(v, [])])
  {
  }

  /** Adds a value to a collection; an inline one that would grow to half a page becomes a subtree. */
  method AddTo(mem: PageManager, c: Collection, ghost h: nat, v: Key, ghost rest: multiset<Page>)
    returns (r: Collection, ghost h2: nat, existed: bool)
    requires Good(c, h) && Owned(mem.State(), Leaves(c), rest)
    modifies mem
    ensures Good(r, h2) && Added(Members(c), Members(r), v) && existed == In(c, v)
    ensures Accounted(old(mem.State()), mem.State(), mem.modifyUncommitted, Leaves(r), rest)
    ensures c.Inline? && existed ==> r == c
    ensures c.Inline? && !existed ==> (r.Inline? <==> Small(mem.format, Members(r)))
    ensures c.Subtree? ==> r.Subtree?
  {
    hide Owned, Evolves, LeafBytes, Upsert, Sorted, Lookup;
    GoodSorted(c, h);
    UpsertAdds(Members(c), v);
    match c {
      case Subtree(root, n) =>
        r, h2, existed := AddToTree(mem, Some(root), n, h, v, rest);
      case Inline(es) =>
        var p, found := Position(es, v);
        CutAt(es, p, found, v, []);
        if found {
          Untouched(mem.State(), mem.modifyUncommitted, multiset{}, rest);
          AddedAgain(es, v);
          return c, 0, true;
        }
        var more := LeafWith(es, p, false, Entry(v, []));
        if Small(mem.format, more) {
          Untouched(mem.State(), mem.modifyUncommitted, multiset{}, rest);
          InsertSorted(es, p, v);
          return Inline(more), 0, false;
        }
        r, h2, existed := Convert(mem, es, v, rest);
    }
  }

  lemma {:induction false} AddedAgain(s: seq<Entry>, v: Key)
    requires Lookup(s, v).Some?
    ensures Added(s, s, v)
  {
  }

  lemma InsertSorted(es: seq<Entry>, p: nat, v: Key)
    requires Sorted(es) && p <= |es| && AllBelow(es[..p], v) && AllOver(es[p..], v)
    ensures Sorted(es[..p] + [Entry(v, [])] + es[p..])
  {
    var r := es[..p] + [Entry(v, [])] + es[p..];
    assert forall i :: 0 <= i < p ==> r[i] == es[i] && es[..p][i] == es[i];
    assert forall i :: p <= i < |es| ==> r[i + 1] == es[i] && es[p..][i - p] == es[i];
  }

  /** Adds a value to a subtree. */
  method AddToTree(mem: PageManager, root: Option<Node>, n: nat, ghost h: nat, v: Key, ghost rest: multiset<Page>)
    returns (r: Collection, ghost h2: nat, existed: bool)
    requires Proper(root, n, h) && Owned(mem.State(), RootPages(root), rest)
    modifies mem
    ensures Good(r, h2) && Members(r) == Upsert(RootEntries(root), v, [])
      && existed == Lookup(RootEntries(root), v).Some? && r.Subtree?
    ensures Accounted(old(mem.State()), mem.State(), mem.modifyUncommitted, Leaves(r), rest)
  {
    hide Owned, Evolves, Lookup, Written, WF;
    var subtree := new BtreeMut(mem, root, n, h, rest);
    var before := subtree.Insert(v, []);
    assert subtree.Contents() != [];
    existed := before.Some?;
    r, h2 := Subtree(subtree.root.value, subtree.length), subtree.height;
  }

  /** The inline leaf is copied to a page of its own, as the root of a tree, before the value is added. */
  method Convert(mem: PageManager, es: seq<Entry>, v: Key, ghost rest: multiset<Page>)
    returns (r: Collection, ghost h2: nat, existed: bool)
    requires es != [] && Sorted(es) && Owned(mem.State(), multiset{}, rest)
    modifies mem
    ensures Good(r, h2) && Members(r) == Upsert(es, v, []) && existed == Lookup(es, v).Some? && r.Subtree?
    ensures Accounted(old(mem.State()), mem.State(), mem.modifyUncommitted, Leaves(r), rest)
  {
    hide Owned, Evolves, Lookup, LeafBytes, Sorted, Upsert;
    var leaf := mem.BuildLeaf(es, multiset{}, rest);
    ghost var m1 := mem.State();
    assert multiset{} + multiset{leaf.page} == multiset{leaf.page} && rest + multiset{} == rest;
    AnyWithin(es);
    LeafWhole(es, leaf.page, leaf.room, Min, Max);
    hide WF;
    r, h2, existed := AddToTree(mem, Some(leaf), |es|, 0, v, rest);
    EvolvesTrans(old(mem.State()), m1, mem.State(), mem.modifyUncommitted, rest, rest, rest);
  }

  lemma AnyWithin(es: seq<Entry>)
    ensures Within(es, Min, Max)
  {
  }

  /** What is stored inline is small, and no small single leaf is stored as a subtree. */
  predicate WellPlaced(f: Format, c: Collection)
  {
    match c
    case Inline(es) => Small(f, es)
    case Subtree(root, n) => root.Leaf? ==> !Small(f, root.entries)
  }

  /**
   Removes a value; what is left of a subtree is inlined again if it is one small leaf, and nothing
   is left of the last value.
   */
  method RemoveFrom(mem: PageManager, c: Collection, ghost h: nat, v: Key, ghost rest: multiset<Page>)
    returns (r: Option<Collection>, ghost h2: nat, existed: bool)
    requires Good(c, h) && Owned(mem.State(), Leaves(c), rest)
    modifies mem
    ensures existed == In(c, v)
    ensures r.None? ==>
      Dropped(Members(c), [], v) && Accounted(old(mem.State()), mem.State(), mem.modifyUncommitted, multiset{}, rest)
    ensures r.Some? ==>
      Good(r.value, h2) && Dropped(Members(c), Members(r.value), v)
        && Accounted(old(mem.State()), mem.State(), mem.modifyUncommitted, Leaves(r.value), rest)
    ensures c.Inline? && !existed ==> r == Some(c)
    ensures r.Some? ==> if c.Inline? then r.value.Inline? else WellPlaced(mem.format, r.value)
  {
    hide Owned, Evolves, LeafBytes, Sorted, Lookup, BtreeSpec.Remove;
    GoodSorted(c, h);
    RemoveDrops(Members(c), v);
    match c {
      case Subtree(root, n) =>
        r, h2, existed := RemoveFromTree(mem, root, n, h, v, rest);
      case Inline(es) =>
        Untouched(mem.State(), mem.modifyUncommitted, multiset{}, rest);
        var p, found := Position(es, v);
        CutAt(es, p, found, v, []);
        h2 := 0;
        if !found {
          assert es[..p] + es[p..] == es;
          return Some(c), 0, false;
        }
        if |es| == 1 {
          assert es[..p] + es[p + 1..] == [];
          return None, 0, true;
        }
        var less := LeafExcept(es, p);
        ExceptSorted(es, p);
        return Some(Inline(less)), 0, true;
    }
  }

  lemma ExceptSorted(es: seq<Entry>, p: nat)
    requires Sorted(es) && p < |es| && |es| > 1
    ensures Sorted(es[..p] + es[p + 1..]) && es[..p] + es[p + 1..] != []
  {
  }

  method RemoveFromTree(mem: PageManager, root: Node, n: nat, ghost h: nat, v: Key, ghost rest: multiset<Page>)
    returns (r: Option<Collection>, ghost h2: nat, existed: bool)
    requires Proper(Some(root), n, h) && Owned(mem.State(), Pages(root), rest)
    modifies mem
    ensures existed == Lookup(Entries(root), v).Some?
    ensures r.None? ==>
      BtreeSpec.Remove(Entries(root), v) == [] && Accounted(old(mem.State()), mem.State(), mem.modifyUncommitted,
                                                            multiset{}, rest)
    ensures r.Some? ==>
      Good(r.value, h2) && Members(r.value) == BtreeSpec.Remove(Entries(root), v)
        && Accounted(old(mem.State()), mem.State(), mem.modifyUncommitted, Leaves(r.value), rest)
    ensures r.Some? ==> WellPlaced(mem.format, r.value)
  {
    hide Owned, Evolves, Lookup, Written, LeafBytes, BtreeSpec.Remove;
    var subtree := new BtreeMut(mem, Some(root), n, h, rest);
    var found := subtree.Delete(v);
    existed := found.Some?;
    h2 := subtree.height;
    match subtree.root {
      case None =>
        r := None;
      case Some(Leaf(page, room, es)) =>
        if Small(mem.format, es) {
          ghost var m1 := mem.State();
          assert multiset{} + multiset{page} == multiset{page} && rest + multiset{} == rest;
          mem.Release(page, multiset{}, rest);
          EvolvesTrans(old(mem.State()), m1, mem.State(), mem.modifyUncommitted, rest, rest, rest);
          r := Some(Inline(es));
        } else {
          r := Some(Subtree(subtree.root.value, |es|));
        }
      case Some(Branch(_, _, _)) =>
        r := Some(Subtree(subtree.root.value, subtree.length));
    }
  }

  /** Releases every page of a tree. */
  method FreeTree(mem: PageManager, t: Node, ghost rest: multiset<Page>)
    requires Owned(mem.State(), Pages(t), rest)
    modifies mem
    ensures Accounted(old(mem.State()), mem.State(), mem.modifyUncommitted, multiset{}, rest)
    decreases t
  {
    hide Owned, Evolves;
    if t.Branch? {
      ghost var kids := AllPages(t.children);
      OwnedPart(mem.State(), kids, rest, multiset{t.page});
      FreeTrees(mem, t.children, 0, rest + multiset{t.page});
      ghost var m1 := mem.State();
      OwnedBack(m1, multiset{}, rest, multiset{t.page});
      mem.Release(t.page, multiset{}, rest);
      EvolvesTrans(old(mem.State()), m1, mem.State(), mem.modifyUncommitted, rest, rest + multiset{t.page},
                   rest + multiset{});
    } else {
      assert multiset{} + multiset{t.page} == Pages(t) && rest + multiset{} == rest;
      mem.Release(t.page, multiset{}, rest);
    }
  }

  method FreeTrees(mem: PageManager, ts: seq<Node>, from: nat, ghost rest: multiset<Page>)
    requires from <= |ts| && Owned(mem.State(), AllPages(ts[from..]), rest)
    modifies mem
    ensures Accounted(old(mem.State()), mem.State(), mem.modifyUncommitted, multiset{}, rest)
    decreases ts, |ts| - from
  {
    hide Owned, Evolves;
    if from == |ts| {
      Untouched(mem.State(), mem.modifyUncommitted, multiset{}, rest);
      return;
    }
    ghost var more := AllPages(ts[from + 1..]);
    assert ts[from..][0] == ts[from] && ts[from..][1..] == ts[from + 1..];
    assert AllPages(ts[from..]) == Pages(ts[from]) + more;
    OwnedPart(mem.State(), Pages(ts[from]), rest, more);
    FreeTree(mem, ts[from], rest + more);
    ghost var m1 := mem.State();
    OwnedBack(m1, multiset{}, rest, more);
    assert multiset{} + more == more;
    FreeTrees(mem, ts, from + 1, rest);
    EvolvesTrans(old(mem.State()), m1, mem.State(), mem.modifyUncommitted, rest, rest + more, rest);
  }

  /** Pages set aside count as somebody else's. */
  lemma OwnedPart(m: Mem, pages: multiset<Page>, rest: multiset<Page>, aside: multiset<Page>)
    requires Owned(m, pages + aside, rest) || Owned(m, aside + pages, rest)
    ensures Owned(m, pages, rest + aside)
  {
    assert aside + pages == pages + aside && rest + (pages + aside) == rest + aside + pages;
  }

  lemma OwnedBack(m: Mem, pages: multiset<Page>, rest: multiset<Page>, aside: multiset<Page>)
    requires Owned(m, pages, rest + aside)
    ensures Owned(m, pages + aside, rest)
  {
    assert rest + (pages + aside) == rest + aside + pages;
  }

  class MultimapTable {
    const mem: PageManager
    var tree: map<Key, Collection>
    var numValues: nat
    ghost var heights: map<Key, nat>
    ghost const rest: multiset<Page>

    constructor (mem: PageManager, ghost rest: multiset<Page>)
      requires Owned(mem.State(), multiset{}, rest)
      ensures Valid() && tree == map[] && numValues == 0 && this.mem == mem
    {
      this.mem, this.rest := mem, rest;
      tree, numValues, heights := map[], 0, map[];
    }

    ghost predicate Valid()
      reads this, mem
    {
      AllGood(tree, heights) && numValues == Count(tree) && Owned(mem.State(), SubPages(tree), rest)
    }

    ghost predicate Has(k: Key, v: Key)
      reads this
    {
      k in tree && In(tree[k], v)
    }

    /** Adds the pair and says whether it was there. */
    method Insert(key: Key, value: Key) returns (existed: bool)
      requires Valid()
      modifies this, mem
      ensures Valid() && existed == old(Has(key, value))
      ensures forall k, v :: Has(k, v) <==> old(Has(k, v)) || (k == key && v == value)
      ensures numValues == old(numValues) + (if existed then 0 else 1)
      ensures Evolves(old(mem.State()), mem.State(), mem.modifyUncommitted, rest)
    {
      hide Good, Members, Leaves, Owned, Evolves, Count, SubPages, Lookup;
      ghost var others := SubPages(tree - {key});
      ghost var h: nat;
      var c;
      if key in tree {
        TotalsWithout(tree, key);
        OwnedPart(mem.State(), Leaves(tree[key]), rest, others);
        c, h, existed := AddTo(mem, tree[key], heights[key], value, rest + others);
      } else {
        Absent(tree, key);
        assert multiset{} + others == others;
        OwnedPart(mem.State(), multiset{}, rest, others);
        c, h := First(mem, value, rest + others);
        existed := false;
      }
      Replace(key, c, h, others, old(mem.State()));
      if !existed {
        numValues := numValues + 1;
      }
    }

    /** Stores what an edit made of a key's collection. */
    method Replace(key: Key, c: Collection, ghost h: nat, ghost others: multiset<Page>, ghost m0: Mem)
      requires AllGood(tree, heights) && Good(c, h) && others == SubPages(tree - {key})
      requires Accounted(m0, mem.State(), mem.modifyUncommitted, Leaves(c), rest + others)
      modifies this`tree, this`heights
      ensures AllGood(tree, heights) && tree == old(tree)[key := c] && Owned(mem.State(), SubPages(tree), rest)
      ensures Count(tree) == Count(old(tree) - {key}) + |Members(c)|
        && Evolves(m0, mem.State(), mem.modifyUncommitted, rest)
    {
      hide Good, Members, Leaves, Owned, Evolves, Count, SubPages;
      TotalsWith(tree, key, c);
      OwnedBack(mem.State(), Leaves(c), rest, others);
      assert Leaves(c) + others == others + Leaves(c);
      EvolvesLess(m0, mem.State(), mem.modifyUncommitted, rest, rest + others);
      tree, heights := tree[key := c], heights[key := h];
    }

    /** Removes the pair and says whether it was there; the key goes with its last value. */
    method Remove(key: Key, value: Key) returns (existed: bool)
      requires Valid()
      modifies this, mem
      ensures Valid() && existed == old(Has(key, value))
      ensures forall k, v :: Has(k, v) <==> old(Has(k, v)) && !(k == key && v == value)
      ensures numValues == old(numValues) - (if existed then 1 else 0)
      ensures Evolves(old(mem.State()), mem.State(), mem.modifyUncommitted, rest)
    {
      hide Good, Members, Leaves, Owned, Evolves, Count, SubPages, Lookup;
      if key !in tree {
        Still(mem.State(), mem.modifyUncommitted, SubPages(tree), rest);
        return false;
      }
      ghost var others := SubPages(tree - {key});
      TotalsWithout(tree, key);
      OwnedPart(mem.State(), Leaves(tree[key]), rest, others);
      var c;
      ghost var h: nat;
      c, h, existed := RemoveFrom(mem, tree[key], heights[key], value, rest + others);
      if c.Some? {
        Replace(key, c.value, h, others, old(mem.State()));
      } else {
        LastOne(tree[key], heights[key], value);
        Discard(key, others, old(mem.State()));
      }
      if existed {
        numValues := numValues - 1;
      }
    }

    /** Forgets a key whose pages are released. */
    method Discard(key: Key, ghost others: multiset<Page>, ghost m0: Mem)
      requires AllGood(tree, heights) && others == SubPages(tree - {key})
      requires Accounted(m0, mem.State(), mem.modifyUncommitted, multiset{}, rest + others)
      modifies this`tree
      ensures AllGood(tree, heights) && tree == old(tree) - {key} && Owned(mem.State(), SubPages(tree), rest)
      ensures Evolves(m0, mem.State(), mem.modifyUncommitted, rest)
    {
      hide Good, Owned, Evolves, SubPages;
      OwnedBack(mem.State(), multiset{}, rest, others);
      assert multiset{} + others == others;
      EvolvesLess(m0, mem.State(), mem.modifyUncommitted, rest, rest + others);
      tree := tree - {key};
    }

    /** Removes a key with all its values, and releases the pages of a subtree. */
    method RemoveAll(key: Key) returns (removed: Option<Collection>)
      requires Valid()
      modifies this, mem
      ensures Valid() && removed == if key in old(tree) then Some(old(tree)[key]) else None
      ensures forall k, v :: Has(k, v) <==> old(Has(k, v)) && k != key
      ensures numValues == old(numValues) - (if removed.Some? then |Members(removed.value)| else 0)
      ensures Evolves(old(mem.State()), mem.State(), mem.modifyUncommitted, rest)
    {
      hide Good, Members, Owned, Evolves, Count, SubPages, Lookup;
      if key !in tree {
        Still(mem.State(), mem.modifyUncommitted, SubPages(tree), rest);
        return None;
      }
      removed := Some(tree[key]);
      ghost var others := SubPages(tree - {key});
      TotalsWithout(tree, key);
      OwnedPart(mem.State(), Leaves(tree[key]), rest, others);
      LengthKnown(tree[key], heights[key]);
      numValues := numValues - (if tree[key].Inline? then |tree[key].entries| else tree[key].length);
      match tree[key] {
        case Inline(_) => Untouched(mem.State(), mem.modifyUncommitted, multiset{}, rest + others);
        case Subtree(root, _) => FreeTree(mem, root, rest + others);
      }
      Discard(key, others, old(mem.State()));
    }
  }

  lemma Still(m: Mem, inPlace: bool, pages: multiset<Page>, rest: multiset<Page>)
    requires Owned(m, pages, rest)
    ensures Evolves(m, m, inPlace, rest)
  {
    EvolvesRefl(m, inPlace, pages, rest);
    EvolvesLess(m, m, inPlace, rest, rest + pages);
  }

  lemma LengthKnown(c: Collection, h: nat)
    requires Good(c, h)
    ensures |Members(c)| == if c.Inline? then |c.entries| else c.length
  {
  }

  /** What is emptied by removing a value held just that value. */
  lemma LastOne(c: Collection, h: nat, v: Key)
    requires Good(c, h) && Dropped(Members(c), [], v)
    ensures In(c, v) && |Members(c)| == 1 && forall u :: In(c, u) ==> u == v
  {
    GoodSorted(c, h);
    hide Good, Members;
    assert forall u :: Lookup([], u).None?;
  }

  ghost predicate AllGood(tree: map<Key, Collection>, heights: map<Key, nat>)
  {
    forall k :: k in tree ==> k in heights && Good(tree[k], heights[k])
  }

  // ----- what the table denotes -----

  ghost function PairsOf(k: Key, es: seq<Entry>): set<(Key, Key)>
  {
    if es == [] then {} else {(k, es[0].key)} + PairsOf(k, es[1..])
  }

  lemma {:induction false} PairsOfMeaning(k: Key, es: seq<Entry>)
    requires Sorted(es)
    ensures forall p :: p in PairsOf(k, es) <==> p.0 == k && Lookup(es, p.1).Some?
    ensures |PairsOf(k, es)| == |es|
    decreases |es|
  {
    if es != [] {
      PairsOfMeaning(k, es[1..]);
      FilterOver(es[1..], es[0].key) by {
        assert AllOver(es[1..], es[0].key);
      }
      assert (k, es[0].key) !in PairsOf(k, es[1..]) by {
        LookupHolds(es[1..], es[0].key);
      }
    }
  }

  /** The set of pairs of a table. */
  ghost function Pairs(m: map<Key, Collection>): set<(Key, Key)>
    decreases |m|
  {
    if m == map[] then {}
    else
      HasKey(m);
      var k :| k in m;
      PairsOf(k, Members(m[k])) + Pairs(m - {k})
  }

  /** The count kept by the table is the number of its pairs, and no key is without one. */
  lemma {:induction false} CountsPairs(m: map<Key, Collection>, heights: map<Key, nat>)
    requires AllGood(m, heights)
    ensures forall p :: p in Pairs(m) <==> p.0 in m && In(m[p.0], p.1)
    ensures |Pairs(m)| == Count(m)
    ensures forall k :: k in m ==> exists v :: In(m[k], v)
    decreases |m|
  {
    hide Good, Members, Lookup, Sorted;
    forall k | k in m
      ensures exists v :: In(m[k], v)
    {
      SomeMember(m[k], heights[k]);
    }
    if m != map[] {
      HasKey(m);
      var k :| k in m && Pairs(m) == PairsOf(k, Members(m[k])) + Pairs(m - {k});
      CountsPairs(m - {k}, heights);
      CountWithout(m, k);
      GoodSorted(m[k], heights[k]);
      PairsOfMeaning(k, Members(m[k]));
      Disjoint(PairsOf(k, Members(m[k])), Pairs(m - {k}));
    }
  }

  lemma SomeMember(c: Collection, h: nat)
    requires Good(c, h)
    ensures exists v :: In(c, v)
  {
    GoodSorted(c, h);
    var e := Members(c)[0];
    assert Lookup(Members(c), e.key) == Some(e.value);
    assert In(c, e.key);
  }

  lemma Disjoint(a: set<(Key, Key)>, b: set<(Key, Key)>)
    requires a !! b
    ensures |a + b| == |a| + |b|
  {
  }
}
