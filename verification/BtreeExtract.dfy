/**
 Removing entries while iterating: deletions go through a mutator that modifies no existing page,
 so the tree being iterated stays as it is until the end.
 */
module BtreeExtract {
  import opened Bits
  import opened BtreeSpec
  import opened BtreePages
  import opened BtreeDelete
  import opened BtreeLocate
  import opened BtreeIter
  import opened BtreeRange
  import opened BtreeRangeIter
  import opened Btree

  // ----- entries within bounds -----

  predicate InBounds(lo: RangeBound, hi: RangeBound, k: Key)
  {
    PastStart(lo, k) && BeforeEnd(hi, k)
  }

  lemma {:induction false} SelectedMember(es: seq<Entry>, lo: RangeBound, hi: RangeBound, e: Entry)
    ensures e in Selected(es, lo, hi) <==> e in es && InBounds(lo, hi, e.key)
    decreases |es|
  {
    if es != [] {
      SelectedMember(es[1..], lo, hi, e);
      assert es == [es[0]] + es[1..];
    }
  }

  lemma {:induction false} SelectedSorted(es: seq<Entry>, lo: RangeBound, hi: RangeBound)
    requires Sorted(es)
    ensures Sorted(Selected(es, lo, hi))
    decreases |es|
  {
    if es != [] {
      var r := es[1..];
      SelectedSorted(r, lo, hi);
      var s := Selected(r, lo, hi);
      assert Selected(es, lo, hi) == (if InBounds(lo, hi, es[0].key) then [es[0]] + s else s);
      hide Selected, PastStart, BeforeEnd;
      forall i | 0 <= i < |s|
        ensures es[0].key < s[i].key
      {
        SelectedMember(r, lo, hi, s[i]);
        assert s[i] in r;
      }
    }
  }

  lemma {:induction false} SelectedMembers(es: seq<Entry>, lo: RangeBound, hi: RangeBound)
    requires Sorted(es)
    ensures Sorted(Selected(es, lo, hi))
    ensures forall e :: e in Selected(es, lo, hi) <==> e in es && InBounds(lo, hi, e.key)
  {
    SelectedSorted(es, lo, hi);
    forall e
      ensures e in Selected(es, lo, hi) <==> e in es && InBounds(lo, hi, e.key)
    {
      SelectedMember(es, lo, hi, e);
    }
  }

  lemma {:induction false} LookupMember(es: seq<Entry>, e: Entry)
    requires Sorted(es)
    ensures e in es <==> Lookup(es, e.key) == Some(e.value)
  {
    LookupHolds(es, e.key);
    if e in es {
      var i :| 0 <= i < |es| && es[i] == e;
      assert es[i] == Entry(e.key, e.value);
      assert Holds(es, e.key, e.value);
    }
  }

  /** Everything still to be visited is still in the tree. */
  ghost predicate Present(remaining: seq<Entry>, contents: seq<Entry>)
  {
    Sorted(remaining) && forall i :: 0 <= i < |remaining| ==>
      Lookup(contents, remaining[i].key) == Some(remaining[i].value)
  }

  lemma NothingLeft(contents: seq<Entry>)
    ensures Present([], contents)
  {
  }

  lemma {:induction false} PresentAfter(remaining: seq<Entry>, contents: seq<Entry>, k: nat)
    requires Present(remaining, contents) && k < |remaining|
    ensures Present(remaining[k + 1..], contents) && Present(remaining[k + 1..], Remove(contents, remaining[k].key))
    ensures Present(remaining[..k], Remove(contents, remaining[k].key)) && Lookup(contents, remaining[k].key).Some?
  {
    var key := remaining[k].key;
    forall i | 0 <= i < |remaining| && i != k
      ensures Lookup(Remove(contents, key), remaining[i].key) == Some(remaining[i].value)
    {
      LookupUpsert(contents, key, [], remaining[i].key);
    }
  }

  lemma WrittenTrans(a: Mem, b: Mem, inPlace: bool, rest: multiset<Page>, x: set<Node>, y: set<Node>, z: set<Node>)
    requires Evolves(a, b, inPlace, rest) && Written(a, inPlace, x, y) && Written(b, inPlace, y, z)
    ensures Written(a, inPlace, x, z)
  {
    forall n | n in z && n !in x
      ensures Writable(a, inPlace, n.page)
    {
      if n !in y {
        WritableBack(a, b, inPlace, rest, n.page);
      }
    }
  }

  /** Advances past the entries that are not wanted. */
  method SkipFront(inner: BtreeRangeIter, wanted: Entry -> bool) returns (r: Option<Entry>, ghost k: nat)
    requires inner.Valid()
    modifies inner
    ensures inner.Valid() && inner.tree == old(inner.tree)
    ensures var s := old(inner.Remaining());
      k <= |s| && (forall m :: 0 <= m < k ==> !wanted(s[m])) &&
      if r.None? then k == |s| && inner.Remaining() == []
        else k < |s| && r.value == s[k] && wanted(s[k]) && inner.Remaining() == s[k + 1..]
  {
    hide Forward, Backward, Distinct, Entries, Window;
    ghost var s := inner.Remaining();
    r := inner.Next();
    k := 0;
    while r.Some? && !wanted(r.value)
      invariant inner.Valid() && inner.tree == old(inner.tree) && k <= |s| && forall m :: 0 <= m < k ==> !wanted(s[m])
      invariant if r.None? then k == |s| && inner.Remaining() == []
        else k < |s| && r.value == s[k] && inner.Remaining() == s[k + 1..]
      decreases |s| - k
    {
      assert k + 1 < |s| ==> s[k + 1..][1..] == s[k + 2..];
      r := inner.Next();
      k := k + 1;
    }
  }

  method SkipBack(inner: BtreeRangeIter, wanted: Entry -> bool) returns (r: Option<Entry>, ghost k: int)
    requires inner.Valid()
    modifies inner
    ensures inner.Valid() && inner.tree == old(inner.tree)
    ensures var s := old(inner.Remaining());
      -1 <= k < |s| && (forall m :: k < m < |s| ==> !wanted(s[m])) &&
      if r.None? then k == -1 && inner.Remaining() == []
        else k >= 0 && r.value == s[k] && wanted(s[k]) && inner.Remaining() == s[..k]
  {
    hide Forward, Backward, Distinct, Entries, Window;
    ghost var s := inner.Remaining();
    r := inner.NextBack();
    k := |s| - 1;
    while r.Some? && !wanted(r.value)
      invariant inner.Valid() && inner.tree == old(inner.tree) && -1 <= k < |s| && forall m :: k < m < |s| ==>
        !wanted(s[m])
      invariant if r.None? then k == -1 && inner.Remaining() == []
        else k >= 0 && r.value == s[k] && inner.Remaining() == s[..k]
      decreases k
    {
      assert k > 0 ==> s[..k][..k - 1] == s[..k - 1];
      r := inner.NextBack();
      k := k - 1;
    }
  }

  class BtreeExtractIf {
    const tree: BtreeMut
    const inner: BtreeRangeIter
    const wanted: Entry -> bool
    ghost const start: Mem
    ghost const snapshot: set<Node>

    constructor (tree: BtreeMut, inner: BtreeRangeIter, wanted: Entry -> bool)
      requires tree.Valid() && inner.Valid() && !tree.mem.modifyUncommitted
        && Present(inner.Remaining(), tree.Contents())
      ensures this.tree == tree && this.inner == inner && this.wanted == wanted
      ensures Valid() && start == tree.mem.State() && snapshot == RootNodes(tree.root)
    {
      this.tree, this.inner, this.wanted := tree, inner, wanted;
      this.start, this.snapshot := tree.mem.State(), RootNodes(tree.root);
      new;
      EvolvesRefl(tree.mem.State(), false, RootPages(tree.root), tree.rest);
      EvolvesLess(tree.mem.State(), tree.mem.State(), false, tree.rest, tree.rest + RootPages(tree.root));
    }

    /** No page in use at the start has been written or released since. */
    ghost predicate Valid()
      reads this, tree, tree.mem, inner
    {
      && tree.Valid() && inner.Valid() && !tree.mem.modifyUncommitted
      && Present(inner.Remaining(), tree.Contents())
      && Evolves(start, tree.mem.State(), false, tree.rest)
      && Written(start, false, snapshot, RootNodes(tree.root))
    }

    /** The next wanted entry from the front, removed from the tree; entries not wanted are passed over. */
    method Next() returns (r: Option<Entry>, ghost k: nat)
      requires Valid()
      modifies tree, tree.mem, inner
      ensures Valid() && inner.tree == old(inner.tree)
      ensures var s := old(inner.Remaining());
        k <= |s| && (forall m :: 0 <= m < k ==> !wanted(s[m])) &&
        if r.None? then k == |s| && inner.Remaining() == [] && tree.Contents() == old(tree.Contents())
        else
          k < |s| && r.value == s[k] && wanted(s[k]) && inner.Remaining() == s[k + 1..]
          && tree.Contents() == Remove(old(tree.Contents()), s[k].key)
    {
      hide Evolves, Written, Remove, Lookup, Proper, Owned, Present, Forward, Backward, Distinct, Entries, Window;
      ghost var s := inner.Remaining();
      r, k := SkipFront(inner, wanted);
      if r.Some? {
        PresentAfter(s, tree.Contents(), k);
        Erase(r.value.key);
      } else {
        NothingLeft(tree.Contents());
      }
    }

    /** The next wanted entry from the back. */
    method NextBack() returns (r: Option<Entry>, ghost k: int)
      requires Valid()
      modifies tree, tree.mem, inner
      ensures Valid() && inner.tree == old(inner.tree)
      ensures var s := old(inner.Remaining());
        -1 <= k < |s| && (forall m :: k < m < |s| ==> !wanted(s[m])) &&
        if r.None? then k == -1 && inner.Remaining() == [] && tree.Contents() == old(tree.Contents())
        else
          k >= 0 && r.value == s[k] && wanted(s[k]) && inner.Remaining() == s[..k]
          && tree.Contents() == Remove(old(tree.Contents()), s[k].key)
    {
      hide Evolves, Written, Remove, Lookup, Proper, Owned, Present, Forward, Backward, Distinct, Entries, Window;
      ghost var s := inner.Remaining();
      r, k := SkipBack(inner, wanted);
      if r.Some? {
        PresentAfter(s, tree.Contents(), k);
        Erase(r.value.key);
      } else {
        NothingLeft(tree.Contents());
      }
    }

    /** Deletes an entry known to be present, without touching the pages of the snapshot. */
    method Erase(key: Key)
      requires tree.Valid() && !tree.mem.modifyUncommitted && Lookup(tree.Contents(), key).Some?
      requires Evolves(start, tree.mem.State(), false, tree.rest)
        && Written(start, false, snapshot, RootNodes(tree.root))
      modifies tree, tree.mem
      ensures tree.Valid() && tree.Contents() == Remove(old(tree.Contents()), key)
      ensures Evolves(start, tree.mem.State(), false, tree.rest)
        && Written(start, false, snapshot, RootNodes(tree.root))
    {
      hide Evolves, Written, Remove, Lookup, Owned, Proper;
      ghost var m, ns := tree.mem.State(), RootNodes(tree.root);
      var found := tree.Delete(key);
      assert found.Some?;
      WrittenTrans(start, m, false, tree.rest, snapshot, ns, RootNodes(tree.root));
      EvolvesTrans(start, m, tree.mem.State(), false, tree.rest, tree.rest, tree.rest);
    }
  }

  // ----- retaining by predicate -----

  ghost predicate Gone(s: seq<Entry>, keep: Entry -> bool, q: Key)
  {
    exists m :: 0 <= m < |s| && s[m].key == q && !keep(s[m])
  }

  /** What a key is bound to afterwards: nothing if its entry was in the range and not to be kept. */
  ghost function Retained(v: Option<Value>, q: Key, keep: Entry -> bool, lo: RangeBound, hi: RangeBound): Option<Value>
  {
    if v.Some? && InBounds(lo, hi, q) && !keep(Entry(q, v.value)) then None else v
  }

  ghost predicate Purged(es: seq<Entry>, s: seq<Entry>, keep: Entry -> bool, contents: seq<Entry>)
  {
    forall q :: Lookup(contents, q) == if Gone(s, keep, q) then None else Lookup(es, q)
  }

  lemma PurgedMore(es: seq<Entry>, s: seq<Entry>, n: nat, k: nat, keep: Entry -> bool, contents: seq<Entry>)
    requires n <= k < |s| && Purged(es, s[..n], keep, contents) && (forall m :: n <= m < k ==> keep(s[m]))
      && !keep(s[k])
    ensures Purged(es, s[..k + 1], keep, Remove(contents, s[k].key))
  {
    forall q
      ensures Lookup(Remove(contents, s[k].key), q) == if Gone(s[..k + 1], keep, q) then None else Lookup(es, q)
    {
      LookupUpsert(contents, s[k].key, [], q);
      GoneMore(s, n, k, keep, q);
    }
  }

  lemma GoneMore(s: seq<Entry>, n: nat, k: nat, keep: Entry -> bool, q: Key)
    requires n <= k < |s| && (forall m :: n <= m < k ==> keep(s[m])) && !keep(s[k])
    ensures Gone(s[..k + 1], keep, q) <==> Gone(s[..n], keep, q) || q == s[k].key
  {
    if Gone(s[..n], keep, q) {
      var m :| 0 <= m < n && s[..n][m].key == q && !keep(s[..n][m]);
      assert s[..k + 1][m] == s[..n][m];
    }
    if q == s[k].key {
      assert s[..k + 1][k] == s[k];
    }
    if Gone(s[..k + 1], keep, q) {
      var m :| 0 <= m < k + 1 && s[..k + 1][m].key == q && !keep(s[..k + 1][m]);
      if m < n {
        assert s[..n][m] == s[m];
      }
    }
  }

  lemma PurgedRest(es: seq<Entry>, s: seq<Entry>, n: nat, keep: Entry -> bool, contents: seq<Entry>)
    requires n <= |s| && Purged(es, s[..n], keep, contents) && forall m :: n <= m < |s| ==> keep(s[m])
    ensures Purged(es, s, keep, contents)
  {
    forall q
      ensures Gone(s, keep, q) <==> Gone(s[..n], keep, q)
    {
      if Gone(s[..n], keep, q) {
        var m :| 0 <= m < n && s[..n][m].key == q && !keep(s[..n][m]);
        assert s[m] == s[..n][m];
      }
      if Gone(s, keep, q) {
        var m :| 0 <= m < |s| && s[m].key == q && !keep(s[m]);
        assert s[..n][m] == s[m];
      }
    }
  }

  lemma {:induction false} PurgedMeans(es: seq<Entry>, keep: Entry -> bool, lo: RangeBound, hi: RangeBound,
                                       contents: seq<Entry>, q: Key)
    requires Sorted(es) && Purged(es, Selected(es, lo, hi), keep, contents)
    ensures Lookup(contents, q) == Retained(Lookup(es, q), q, keep, lo, hi)
  {
    var s := Selected(es, lo, hi);
    SelectedMembers(es, lo, hi);
    hide Selected, Sorted;
    if Gone(s, keep, q) {
      var m :| 0 <= m < |s| && s[m].key == q && !keep(s[m]);
      assert s[m] in s;
      LookupMember(es, s[m]);
      assert s[m] == Entry(q, s[m].value);
    } else if Lookup(es, q).Some? && InBounds(lo, hi, q) {
      var e := Entry(q, Lookup(es, q).value);
      LookupMember(es, e);
      assert e in s;
      var m :| 0 <= m < |s| && s[m] == e;
    }
  }

  lemma {:induction false} SelectedPresent(es: seq<Entry>, lo: RangeBound, hi: RangeBound)
    requires Sorted(es)
    ensures Present(Selected(es, lo, hi), es)
  {
    var s := Selected(es, lo, hi);
    SelectedMembers(es, lo, hi);
    forall i | 0 <= i < |s|
      ensures Lookup(es, s[i].key) == Some(s[i].value)
    {
      assert s[i] in s;
      LookupMember(es, s[i]);
    }
  }

  /** What the do-not-modify mutator did to pages is no more than a mutation in place may do. */
  lemma EvolvesAdopted(m: Mem, t: Mem, inPlace: bool, pages: multiset<Page>, rest: multiset<Page>)
    requires Owned(m, pages, rest) && Evolves(m.(freed := []), t, false, rest + multiset(m.freed))
    ensures Evolves(m, t.(freed := m.freed), inPlace, rest)
  {
    forall p | p in rest
      ensures p in rest + multiset(m.freed)
    {
    }
    forall p | p in m.freed
      ensures p in m.inUse
    {
      assert p in multiset(m.freed) && p in multiset(m.inUse);
    }
  }

  /** Moves the pages of the do-not-modify mutator back, releasing each superseded page once. */
  method Adopt(tree: BtreeMut, t: BtreeMut)
    requires tree.Valid() && t.Valid() && t != tree && t.mem != tree.mem
      && t.rest == tree.rest + multiset(tree.mem.freed)
    requires Evolves(tree.mem.State().(freed := []), t.mem.State(), false, t.rest)
    modifies tree, tree.mem
    ensures tree.Valid() && tree.root == t.root && tree.length == t.length
    ensures Evolves(old(tree.mem.State()), tree.mem.State(), tree.mem.modifyUncommitted, tree.rest)
  {
    ghost var pages, m := RootPages(t.root), tree.mem.State();
    hide Evolves;
    EvolvesAdopted(m, t.mem.State(), tree.mem.modifyUncommitted, RootPages(tree.root), tree.rest);
    tree.mem.inUse, tree.mem.uncommitted := t.mem.inUse, t.mem.uncommitted;
    tree.root, tree.length, tree.height := t.root, t.length, t.height;
    assert Bag(t.mem.freed) == multiset(t.mem.freed);
    assert multiset(tree.mem.inUse) == tree.rest + (pages + Bag(t.mem.freed)) + multiset(tree.mem.freed);
    ghost var n := tree.mem.State();
    ReleaseAll(tree.mem, t.mem.freed, pages, tree.rest);
    EvolvesTrans(m, n, tree.mem.State(), tree.mem.modifyUncommitted, tree.rest, tree.rest, tree.rest + pages);
  }

  /** The extraction works on the tree as it is now, through a mutator that modifies no existing page. */
  ghost predicate From(x: BtreeExtractIf, tree: BtreeMut)
    reads x.tree, x.tree.mem, tree, tree.mem
  {
    && x.tree != tree && x.tree.mem != tree.mem && x.tree.rest == tree.rest + multiset(tree.mem.freed)
    && x.start == tree.mem.State().(freed := []) && x.snapshot == RootNodes(tree.root)
  }

  /** Begins an extraction from a range of the tree. */
  method Extract(tree: BtreeMut, wanted: Entry -> bool, lo: RangeBound, hi: RangeBound) returns (x: BtreeExtractIf)
    requires tree.Valid()
    ensures fresh(x.tree) && fresh(x.tree.mem) && fresh(x.inner) && x.wanted == wanted
    ensures x.Valid() && From(x, tree) && x.tree.Contents() == tree.Contents()
    ensures x.inner.Remaining() == Selected(tree.Contents(), lo, hi)
  {
    var op := new PageManager(tree.mem.format, false, Mem(tree.mem.inUse, tree.mem.uncommitted, []));
    ghost var others, es := tree.rest + multiset(tree.mem.freed), tree.Contents();
    assert Owned(op.State(), RootPages(tree.root), others) by {
      assert others + RootPages(tree.root) + multiset{} == tree.rest + RootPages(tree.root) + multiset(tree.mem.freed);
    }
    ProperSorted(tree.root, tree.length, tree.height);
    OwnedDistinct(op.State(), RootPages(tree.root), others);
    hide Evolves, Written, Lookup, Owned, Present, Selected, Sorted;
    var t := new BtreeMut(op, tree.root, tree.length, tree.height, others);
    var iter := new BtreeRangeIter(t.root, lo, hi, t.height);
    SelectedPresent(es, lo, hi);
    assert t.root.None? ==> Selected(es, lo, hi) == [] by { NoneSelected(lo, hi); }
    x := new BtreeExtractIf(t, iter, wanted);
  }

  /** Ends an extraction: the tree is what is left of it, and each superseded page is freed or queued once. */
  method Close(x: BtreeExtractIf, tree: BtreeMut)
    requires x.Valid() && tree.Valid() && From(x, tree)
    modifies tree, tree.mem
    ensures tree.Valid() && tree.Contents() == x.tree.Contents()
    ensures Evolves(old(tree.mem.State()), tree.mem.State(), tree.mem.modifyUncommitted, tree.rest)
    ensures Written(old(tree.mem.State()), false, RootNodes(old(tree.root)), RootNodes(tree.root))
  {
    ghost var m, ns := tree.mem.State(), RootNodes(tree.root);
    hide Evolves, Written, Owned, Proper;
    WrittenSame(m.(freed := []), m, ns, RootNodes(x.tree.root));
    Adopt(tree, x.tree);
  }

  /** Deletes what the predicate does not keep; every surviving node is unchanged or on a page that was free. */
  method RetainIn(tree: BtreeMut, keep: Entry -> bool, lo: RangeBound, hi: RangeBound)
    requires tree.Valid() && tree.mem.modifyUncommitted
    modifies tree, tree.mem
    ensures tree.Valid()
    ensures forall q :: Lookup(tree.Contents(), q) == Retained(Lookup(old(tree.Contents()), q), q, keep, lo, hi)
    ensures Written(old(tree.mem.State()), false, RootNodes(old(tree.root)), RootNodes(tree.root))
    ensures Evolves(old(tree.mem.State()), tree.mem.State(), true, tree.rest)
  {
    ghost var es := tree.Contents();
    assert Sorted(es) by { ProperSorted(tree.root, tree.length, tree.height); }
    hide Proper, Evolves, Written, Lookup, Retained, Owned, Purged, Present, Selected, Sorted;
    var x := Extract(tree, e => !keep(e), lo, hi);
    Sweep(x, es, Selected(es, lo, hi), keep);
    Close(x, tree);
    forall q
      ensures Lookup(tree.Contents(), q) == Retained(Lookup(es, q), q, keep, lo, hi)
    {
      PurgedMeans(es, keep, lo, hi, tree.Contents(), q);
    }
  }

  lemma WrittenSame(a: Mem, b: Mem, before: set<Node>, after: set<Node>)
    requires a.inUse == b.inUse && Written(a, false, before, after)
    ensures Written(b, false, before, after)
  {
  }

  lemma {:induction false} NoneSelected(lo: RangeBound, hi: RangeBound)
    ensures Selected([], lo, hi) == []
  {
  }

  method Sweep(x: BtreeExtractIf, ghost es: seq<Entry>, ghost s: seq<Entry>, ghost keep: Entry -> bool)
    requires x.Valid() && x.inner.Remaining() == s && x.tree.Contents() == es && forall e :: x.wanted(e) == !keep(e)
    modifies x.tree, x.tree.mem, x.inner
    ensures x.Valid() && Purged(es, s, keep, x.tree.Contents())
  {
    ghost var n := 0;
    assert s[..0] == [] && s[0..] == s;
    assert Purged(es, s[..0], keep, es);
    hide BtreeExtractIf.Valid, Purged, Lookup, Remove, BtreeRangeIter.Remaining, BtreeMut.Contents;
    var more := true;
    while more
      invariant x.Valid() && n <= |s| && x.inner.Remaining() == s[n..]
      invariant if more then Purged(es, s[..n], keep, x.tree.Contents()) else Purged(es, s, keep, x.tree.Contents())
      decreases |s| - n, more
    {
      more, n := SweepOnce(x, es, s, n, keep);
    }
  }

  method SweepOnce(x: BtreeExtractIf, ghost es: seq<Entry>, ghost s: seq<Entry>, ghost n: nat,
                   ghost keep: Entry -> bool) returns (more: bool, ghost p: nat)
    requires n <= |s| && x.Valid() && x.inner.Remaining() == s[n..] && Purged(es, s[..n], keep, x.tree.Contents())
      && forall e :: x.wanted(e) == !keep(e)
    modifies x.tree, x.tree.mem, x.inner
    ensures x.Valid() && n <= p <= |s| && x.inner.Remaining() == s[p..]
    ensures if more then p > n && Purged(es, s[..p], keep, x.tree.Contents())
      else Purged(es, s, keep, x.tree.Contents())
  {
    hide BtreeExtractIf.Valid, Purged, Lookup, Remove, BtreeRangeIter.Remaining, BtreeMut.Contents;
    ghost var before := x.tree.Contents();
    var r;
    ghost var k;
    r, k := x.Next();
    Passed(s, n, k, keep, x.wanted);
    if r.None? {
      PurgedRest(es, s, n, keep, before);
      more, p := false, |s|;
    } else {
      assert s[n..][k] == s[n + k] && s[n..][k + 1..] == s[n + k + 1..];
      PurgedMore(es, s, n, n + k, keep, before);
      more, p := true, n + k + 1;
    }
  }

  lemma Passed(s: seq<Entry>, n: nat, k: nat, keep: Entry -> bool, wanted: Entry -> bool)
    requires n + k <= |s| && (forall e :: wanted(e) == !keep(e)) && forall m :: 0 <= m < k ==> !wanted(s[n..][m])
    ensures forall m :: n <= m < n + k ==> keep(s[m])
  {
    forall m | n <= m < n + k
      ensures keep(s[m])
    {
      assert !wanted(s[n..][m - n]);
    }
  }
}
