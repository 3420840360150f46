/**
 The mutable B-tree: insertion, removal and lookup refine a finite map, and every page is accounted for.
 */
module Btree {
  import opened Bits
  import opened BtreeSpec
  import opened BtreeNodes
  import opened BtreeRows
  import opened BtreePages
  import opened BtreeInsert
  import opened BtreeDelete
  import opened BtreeLocate

  ghost function RootPages(root: Option<Node>): multiset<Page>
  {
    if root.None? then multiset{} else Pages(root.value)
  }

  ghost function RootNodes(root: Option<Node>): set<Node>
  {
    if root.None? then {} else Nodes(root.value)
  }

  ghost function RootEntries(root: Option<Node>): seq<Entry>
  {
    if root.None? then [] else Entries(root.value)
  }

  /** A tree of uniform depth with sorted leaves and bounding separators, and a length that counts its entries. */
  ghost predicate Proper(root: Option<Node>, length: nat, h: nat)
  {
    length == |RootEntries(root)| && (root.Some? ==> WF(root.value, h, Min, Max))
  }

  lemma ProperSorted(root: Option<Node>, length: nat, h: nat)
    requires Proper(root, length, h)
    ensures Sorted(RootEntries(root))
  {
    if root.Some? {
      TreeSorted(root.value, h, Min, Max);
    }
  }

  lemma OwnedDistinct(m: Mem, pages: multiset<Page>, rest: multiset<Page>)
    requires Owned(m, pages, rest)
    ensures Distinct(pages)
  {
    forall p
      ensures pages[p] <= 1
    {
      assert (rest + pages + multiset(m.freed))[p] == multiset(m.inUse)[p];
    }
  }

  class BtreeMut {
    const mem: PageManager
    var root: Option<Node>
    var length: nat
    ghost var height: nat
    ghost const rest: multiset<Page>

    constructor (mem: PageManager, root: Option<Node>, length: nat, ghost height: nat, ghost rest: multiset<Page>)
      requires Proper(root, length, height) && Owned(mem.State(), RootPages(root), rest)
      ensures Valid() && this.mem == mem && this.root == root && this.length == length && this.rest == rest
        && this.height == height
    {
      this.mem, this.root, this.length, this.height, this.rest := mem, root, length, height, rest;
    }

    ghost predicate Valid()
      reads this, mem
    {
      Proper(root, length, height) && Owned(mem.State(), RootPages(root), rest)
    }

    ghost function Contents(): seq<Entry>
      reads this
    {
      RootEntries(root)
    }

    /** Binds the key, returns what it was bound to, and writes no page that was committed. */
    method Insert(key: Key, value: Value) returns (old_value: Option<Value>)
      requires Valid()
      modifies this, mem
      ensures Valid() && Contents() == Upsert(old(Contents()), key, value) && old_value == Lookup(old(Contents()), key)
      ensures Evolves(old(mem.State()), mem.State(), mem.modifyUncommitted, rest)
      ensures Written(old(mem.State()), mem.modifyUncommitted, RootNodes(old(root)), RootNodes(root))
    {
      ProperSorted(root, length, height);
      EditLength(RootEntries(root), key, value);
      hide Evolves, Owned, Written, WF, Row, Upsert, Lookup, Sorted, Entries, Pages, Nodes;
      if root.None? {
        FirstEntry(key, value);
        FilterOne(Entry(key, value), value);
        return None;
      }
      var r := InsertHelper(mem, root.value, key, value, height, Min, Max, rest);
      old_value := r.old_value;
      length := if r.old_value.Some? then length else length + 1;
      GrowRoot(r);
    }

    method FirstEntry(key: Key, value: Value)
      requires root.None? && Owned(mem.State(), multiset{}, rest)
      modifies this`root, this`length, this`height, mem
      ensures Valid() && Contents() == [Entry(key, value)]
      ensures Evolves(old(mem.State()), mem.State(), mem.modifyUncommitted, rest)
      ensures Written(old(mem.State()), mem.modifyUncommitted, {}, RootNodes(root))
    {
      hide Evolves, Owned, LeafBytes;
      var n := mem.BuildLeaf([Entry(key, value)], multiset{}, rest);
      LeafWhole([Entry(key, value)], n.page, n.room, Min, Max);
      assert multiset{} + multiset{n.page} == multiset{n.page} && rest + multiset{} == rest;
      root, length, height := Some(n), 1, 0;
    }

    /** A split root gets a new branch above its two halves. */
    method GrowRoot(r: InsertionResult)
      requires Row(r.Trees(), Ups(r.Keys(), Max), height, Min) && Owned(mem.State(), AllPages(r.Trees()), rest)
      requires length == |AllEntries(r.Trees())|
      modifies this`root, this`height, mem
      ensures Valid() && length == old(length) && Contents() == AllEntries(r.Trees())
      ensures Evolves(old(mem.State()), mem.State(), mem.modifyUncommitted, rest)
      ensures Written(old(mem.State()), mem.modifyUncommitted, AllNodes(r.Trees()), RootNodes(root))
    {
      ghost var m0 := mem.State();
      if r.sibling.Some? {
        assert r.Trees() == [r.root, r.sibling.value.1] && r.Keys() == [r.sibling.value.0];
        hide Evolves, Owned, Row, BranchBytes, AllEntries, AllPages, AllNodes;
        var n := mem.BuildBranch([r.root, r.sibling.value.1], [r.sibling.value.0], AllPages(r.Trees()), rest);
        EvolvesLess(m0, mem.State(), mem.modifyUncommitted, rest, rest + AllPages(r.Trees()));
        RowWhole(n.children, n.keys, n.page, height, Min, Max);
        Unfold(n);
        assert AllPages(r.Trees()) + multiset{n.page} == Pages(n);
        root, height := Some(n), height + 1;
      } else {
        assert r.Trees() == [r.root] && Ups(r.Keys(), Max) == [Max];
        Single(r.root);
        RowSingle(r.root, height, Min, Max);
        EvolvesRefl(m0, mem.modifyUncommitted, AllPages(r.Trees()), rest);
        EvolvesLess(m0, m0, mem.modifyUncommitted, rest, rest + AllPages(r.Trees()));
        root := Some(r.root);
      }
    }

    /** Removes the key and returns what it was bound to; an absent key changes nothing at all. */
    method Delete(key: Key) returns (found: Option<Value>)
      requires Valid()
      modifies this, mem
      ensures Valid() && Contents() == Remove(old(Contents()), key) && found == Lookup(old(Contents()), key)
      ensures found.None? ==> root == old(root) && length == old(length) && mem.State() == old(mem.State())
      ensures Evolves(old(mem.State()), mem.State(), mem.modifyUncommitted, rest)
      ensures Written(old(mem.State()), mem.modifyUncommitted, RootNodes(old(root)), RootNodes(root))
    {
      ProperSorted(root, length, height);
      EditLength(RootEntries(root), key, []);
      if root.None? {
        EvolvesRefl(mem.State(), mem.modifyUncommitted, RootPages(root), rest);
        EvolvesLess(mem.State(), mem.State(), mem.modifyUncommitted, rest, rest + RootPages(root));
        return None;
      }
      if Lookup(RootEntries(root), key).None? {
        RemoveAbsent(RootEntries(root), key);
      }
      hide Evolves, Owned, Written, WF, Remove, Lookup, Sorted, Entries, Pages, Nodes;
      var r;
      r, found := DeleteHelper(mem, root.value, key, height, Min, Max, rest);
      if found.None? {
        return;
      }
      length := length - 1;
      ShrinkRoot(r);
    }

    /** What remains of the tree becomes the root. */
    method ShrinkRoot(r: DeletionResult)
      requires Shaped(r, height, Min, Max) && Owned(mem.State(), LeftPages(r), rest) && length == |LeftEntries(r)|
      modifies this`root, this`height, mem
      ensures Valid() && length == old(length) && Contents() == LeftEntries(r)
      ensures Evolves(old(mem.State()), mem.State(), mem.modifyUncommitted, rest)
      ensures Written(old(mem.State()), mem.modifyUncommitted, LeftNodes(r), RootNodes(root))
    {
      hide Evolves, Owned, Written, WF, Sorted, Within, Entries, Pages, Nodes, Without;
      if r.PartialLeaf? {
        RebuildRoot(r.entries, r.deleted);
        return;
      }
      ghost var m0 := mem.State();
      EvolvesRefl(m0, mem.modifyUncommitted, LeftPages(r), rest);
      EvolvesLess(m0, m0, mem.modifyUncommitted, rest, rest + LeftPages(r));
      Untouched(m0, mem.modifyUncommitted, LeftNodes(r));
      match r
      case Subtree(n) => root := Some(n);
      case DeletedLeaf => root := None;
      case PartialBranch(n) => root := Some(n);
      case DeletedBranch(n) => root, height := Some(n), height - 1;
    }

    method RebuildRoot(es: seq<Entry>, d: nat)
      requires d < |es| && |es| > 1 && Sorted(es) && Within(es, Min, Max) && height == 0
      requires Owned(mem.State(), multiset{}, rest) && length == |Without(es, d)|
      modifies this`root, mem
      ensures Valid() && Contents() == Without(es, d)
      ensures Evolves(old(mem.State()), mem.State(), mem.modifyUncommitted, rest)
      ensures Written(old(mem.State()), mem.modifyUncommitted, {}, RootNodes(root))
    {
      var left := LeafExcept(es, d);
      WithoutKeeps(es, d, Min, Max);
      hide Evolves, Owned, LeafBytes, Sorted;
      var n := mem.BuildLeaf(left, multiset{}, rest);
      LeafWhole(left, n.page, n.room, Min, Max);
      assert multiset{} + multiset{n.page} == multiset{n.page} && rest + multiset{} == rest;
      root := Some(n);
    }

    method Get(key: Key) returns (v: Option<Value>)
      requires Valid()
      ensures v == Lookup(Contents(), key)
    {
      if root.None? {
        return None;
      }
      v := GetHelper(root.value, key, height, Min, Max);
    }
  }

  /** Descends to the one leaf that can hold the key. */
  method GetHelper(t: Node, key: Key, ghost h: nat, ghost lo: Bound, ghost hi: Bound) returns (v: Option<Value>)
    requires WF(t, h, lo, hi) && InRange(key, lo, hi)
    ensures v == Lookup(Entries(t), key)
    decreases t
  {
    if t.Leaf? {
      var p, found := Position(t.entries, key);
      CutAt(t.entries, p, found, key, []);
      v := if found then Some(t.entries[p].value) else None;
    } else {
      var i := FindChild(t, key, h, lo, hi);
      Descend(t, i, key, [], h, lo, hi);
      hide WF, Lookup, Entries;
      v := GetHelper(t.children[i], key, h - 1, ChildLow(t, i, lo, hi), ChildHigh(t, i, hi));
    }
  }

  lemma {:induction false} RemoveAbsent(s: seq<Entry>, k: Key)
    requires Sorted(s) && Lookup(s, k).None?
    ensures BtreeSpec.Remove(s, k) == s
    decreases |s|
  {
    if s != [] {
      var rest := s[1..];
      assert s == [s[0]] + rest;
      if s[0].key > k {
        assert AllOver(rest, k);
        hide Sorted, Lookup;
        FilterOver(rest, k);
      } else {
        RemoveAbsent(rest, k);
        hide Sorted, Lookup;
        assert [s[0]] + Below(rest, k) + Over(rest, k) == [s[0]] + (Below(rest, k) + Over(rest, k));
      }
    }
  }
}
