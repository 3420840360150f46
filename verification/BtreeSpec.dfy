/**
 The B-tree as a value: leaves hold sorted pairs, child `i` of a branch holds the keys above
 separator `i - 1` up to and including separator `i`, and every leaf is at the same depth.
 */
module BtreeSpec {
  import opened Bits

  type Page = nat

  /** A key stands for its rank in the total order of the table's keys. */
  type Key = int
  type Value = seq<int>

  datatype Entry = Entry(key: Key, value: Value)

  datatype Node =
    | Leaf(page: Page, room: nat, entries: seq<Entry>)
    | Branch(page: Page, keys: seq<Key>, children: seq<Node>)

  // ----- what a tree holds -----

  function Entries(t: Node): seq<Entry>
    decreases t, 0
  {
    match t
    case Leaf(_, _, es) => es
    case Branch(_, _, cs) => AllEntries(cs)
  }

  function AllEntries(ts: seq<Node>): seq<Entry>
    decreases ts, 1
  {
    if ts == [] then [] else Entries(ts[0]) + AllEntries(ts[1..])
  }

  /** The pages of a tree, with repetitions if there were any. */
  ghost function Pages(t: Node): multiset<Page>
    decreases t, 0
  {
    match t
    case Leaf(p, _, _) => multiset{p}
    case Branch(p, _, cs) => multiset{p} + AllPages(cs)
  }

  ghost function AllPages(ts: seq<Node>): multiset<Page>
    decreases ts, 1
  {
    if ts == [] then multiset{} else Pages(ts[0]) + AllPages(ts[1..])
  }

  /** All nodes of a tree, each with its whole content. */
  ghost function Nodes(t: Node): set<Node>
    decreases t, 0
  {
    match t
    case Leaf(_, _, _) => {t}
    case Branch(_, _, cs) => {t} + AllNodes(cs)
  }

  ghost function AllNodes(ts: seq<Node>): set<Node>
    decreases ts, 1
  {
    if ts == [] then {} else Nodes(ts[0]) + AllNodes(ts[1..])
  }

  lemma {:induction false} ConcatEntries(a: seq<Node>, b: seq<Node>)
    ensures AllEntries(a + b) == AllEntries(a) + AllEntries(b)
    decreases |a|
  {
    hide Entries;
    if a == [] {
      assert a + b == b;
    } else {
      ConcatEntries(a[1..], b);
      assert (a + b)[1..] == a[1..] + b;
      assert (a + b)[0] == a[0];
    }
  }

  lemma {:induction false} ConcatPages(a: seq<Node>, b: seq<Node>)
    ensures AllPages(a + b) == AllPages(a) + AllPages(b)
    decreases |a|
  {
    hide Pages;
    if a == [] {
      assert a + b == b;
    } else {
      ConcatPages(a[1..], b);
      assert (a + b)[1..] == a[1..] + b;
      assert (a + b)[0] == a[0];
    }
  }

  lemma {:induction false} ConcatNodes(a: seq<Node>, b: seq<Node>)
    ensures AllNodes(a + b) == AllNodes(a) + AllNodes(b)
    decreases |a|
  {
    hide Nodes;
    if a == [] {
      assert a + b == b;
    } else {
      ConcatNodes(a[1..], b);
      assert (a + b)[1..] == a[1..] + b;
      assert (a + b)[0] == a[0];
    }
  }

  lemma {:induction false} Concat(a: seq<Node>, b: seq<Node>)
    ensures AllEntries(a + b) == AllEntries(a) + AllEntries(b)
    ensures AllPages(a + b) == AllPages(a) + AllPages(b)
    ensures AllNodes(a + b) == AllNodes(a) + AllNodes(b)
  {
    hide AllEntries, AllPages, AllNodes;
    ConcatEntries(a, b);
    ConcatPages(a, b);
    ConcatNodes(a, b);
  }

  lemma {:induction false} Single(t: Node)
    ensures AllEntries([t]) == Entries(t) && AllPages([t]) == Pages(t) && AllNodes([t]) == Nodes(t)
  {
  }

  /** The three parts of a list of children around positions `i` to `j`. */
  lemma {:induction false} Parts(ts: seq<Node>, i: nat, j: nat)
    requires i <= j <= |ts|
    ensures AllEntries(ts) == AllEntries(ts[..i]) + AllEntries(ts[i..j]) + AllEntries(ts[j..])
    ensures AllPages(ts) == AllPages(ts[..i]) + AllPages(ts[i..j]) + AllPages(ts[j..])
    ensures AllNodes(ts) == AllNodes(ts[..i]) + AllNodes(ts[i..j]) + AllNodes(ts[j..])
  {
    hide AllEntries, AllPages, AllNodes;
    assert ts == ts[..i] + ts[i..j] + ts[j..];
    Concat(ts[..i] + ts[i..j], ts[j..]);
    Concat(ts[..i], ts[i..j]);
  }

  lemma {:induction false} Three(a: seq<Node>, b: seq<Node>, c: seq<Node>)
    ensures AllEntries(a + b + c) == AllEntries(a) + AllEntries(b) + AllEntries(c)
    ensures AllPages(a + b + c) == AllPages(a) + AllPages(b) + AllPages(c)
    ensures AllNodes(a + b + c) == AllNodes(a) + AllNodes(b) + AllNodes(c)
  {
    hide AllEntries, AllPages, AllNodes;
    Concat(a + b, c);
    Concat(a, b);
  }

  // ----- lists of entries as maps -----

  function Below(s: seq<Entry>, k: Key): seq<Entry>
  {
    if s == [] then [] else (if s[0].key < k then [s[0]] else []) + Below(s[1..], k)
  }

  function Over(s: seq<Entry>, k: Key): seq<Entry>
  {
    if s == [] then [] else (if s[0].key > k then [s[0]] else []) + Over(s[1..], k)
  }

  /** The list with the key removed. */
  function Remove(s: seq<Entry>, k: Key): seq<Entry>
  {
    Below(s, k) + Over(s, k)
  }

  /** The list with the key bound to the value. */
  function Upsert(s: seq<Entry>, k: Key, v: Value): seq<Entry>
  {
    Below(s, k) + [Entry(k, v)] + Over(s, k)
  }

  function Lookup(s: seq<Entry>, k: Key): Option<Value>
  {
    if s == [] then None else if s[0].key == k then Some(s[0].value) else Lookup(s[1..], k)
  }

  ghost predicate Sorted(s: seq<Entry>)
  {
    forall i, j :: 0 <= i < j < |s| ==> s[i].key < s[j].key
  }

  ghost predicate AllBelow(s: seq<Entry>, k: Key)
  {
    forall i :: 0 <= i < |s| ==> s[i].key < k
  }

  ghost predicate AllOver(s: seq<Entry>, k: Key)
  {
    forall i :: 0 <= i < |s| ==> s[i].key > k
  }

  lemma {:induction false} BelowConcat(a: seq<Entry>, b: seq<Entry>, k: Key)
    ensures Below(a + b, k) == Below(a, k) + Below(b, k)
    decreases |a|
  {
    if a == [] {
      assert a + b == b;
    } else {
      assert (a + b)[1..] == a[1..] + b;
      BelowConcat(a[1..], b, k);
    }
  }

  lemma {:induction false} OverConcat(a: seq<Entry>, b: seq<Entry>, k: Key)
    ensures Over(a + b, k) == Over(a, k) + Over(b, k)
    decreases |a|
  {
    if a == [] {
      assert a + b == b;
    } else {
      assert (a + b)[1..] == a[1..] + b;
      OverConcat(a[1..], b, k);
    }
  }

  lemma {:induction false} LookupConcat(a: seq<Entry>, b: seq<Entry>, k: Key)
    ensures Lookup(a + b, k) == if Lookup(a, k).Some? then Lookup(a, k) else Lookup(b, k)
    decreases |a|
  {
    if a == [] {
      assert a + b == b;
    } else {
      assert (a + b)[1..] == a[1..] + b;
      LookupConcat(a[1..], b, k);
    }
  }

  lemma {:induction false} FilterConcat(a: seq<Entry>, b: seq<Entry>, k: Key)
    ensures Below(a + b, k) == Below(a, k) + Below(b, k) && Over(a + b, k) == Over(a, k) + Over(b, k)
    ensures Lookup(a + b, k) == if Lookup(a, k).Some? then Lookup(a, k) else Lookup(b, k)
  {
    hide Below, Over, Lookup;
    BelowConcat(a, b, k);
    OverConcat(a, b, k);
    LookupConcat(a, b, k);
  }

  lemma {:induction false} FilterBelow(a: seq<Entry>, k: Key)
    requires AllBelow(a, k)
    ensures Below(a, k) == a && Over(a, k) == [] && Lookup(a, k) == None
    decreases |a|
  {
    if a != [] {
      FilterBelow(a[1..], k);
      assert a == [a[0]] + a[1..];
    }
  }

  lemma {:induction false} FilterOver(a: seq<Entry>, k: Key)
    requires AllOver(a, k)
    ensures Over(a, k) == a && Below(a, k) == [] && Lookup(a, k) == None
    decreases |a|
  {
    if a != [] {
      FilterOver(a[1..], k);
      assert a == [a[0]] + a[1..];
    }
  }

  /** An edit of the middle part is an edit of the whole. */
  lemma {:induction false} Middle(a: seq<Entry>, m: seq<Entry>, b: seq<Entry>, k: Key, v: Value)
    requires AllBelow(a, k) && AllOver(b, k)
    ensures Upsert(a + m + b, k, v) == a + Upsert(m, k, v) + b
    ensures Remove(a + m + b, k) == a + Remove(m, k) + b
    ensures Lookup(a + m + b, k) == Lookup(m, k)
  {
    hide Below, Over, Lookup;
    FilterConcat(a + m, b, k);
    FilterConcat(a, m, k);
    FilterBelow(a, k);
    FilterOver(b, k);
  }

  lemma FilterOne(e: Entry, v: Value)
    ensures Upsert([e], e.key, v) == [Entry(e.key, v)] && Remove([e], e.key) == []
      && Lookup([e], e.key) == Some(e.value)
    ensures forall k :: Upsert([], k, v) == [Entry(k, v)] && Remove([], k) == [] && Lookup([], k) == None
  {
    assert [e][1..] == [];
    assert Below([e], e.key) == [] && Over([e], e.key) == [];
  }

  /** Where a sorted list is cut by a key. */
  lemma {:induction false} CutAt(s: seq<Entry>, p: nat, found: bool, k: Key, v: Value)
    requires p <= |s| && AllBelow(s[..p], k)
    requires if found then p < |s| && s[p].key == k && AllOver(s[p + 1..], k) else AllOver(s[p..], k)
    ensures var q := if found then p + 1 else p;
      && Upsert(s, k, v) == s[..p] + [Entry(k, v)] + s[q..]
      && Remove(s, k) == s[..p] + s[q..]
    ensures Lookup(s, k) == if found then Some(s[p].value) else None
  {
    hide Upsert, Remove, Lookup;
    var q := if found then p + 1 else p;
    assert s == s[..p] + s[p..q] + s[q..];
    Middle(s[..p], s[p..q], s[q..], k, v);
    if found {
      assert s[p..q] == [s[p]];
      FilterOne(s[p], v);
    } else {
      FilterOne(Entry(k, v), v);
      assert s[p..q] == [];
    }
  }

  lemma CutKeys(es: seq<Entry>, q: Key, p: nat, found: bool)
    requires p <= |es| && AllBelow(es[..p], q)
    requires if found then p < |es| && es[p].key == q && AllOver(es[p + 1..], q) else AllOver(es[p..], q)
    ensures forall z :: 0 <= z < |es| ==> if z < p then es[z].key < q else if found && z == p then es[z].key == q
      else es[z].key > q
  {
    forall z | 0 <= z < |es|
      ensures if z < p then es[z].key < q else if found && z == p then es[z].key == q else es[z].key > q
    {
      if z < p {
        assert es[..p][z].key < q;
      } else if found && z > p {
        assert es[p + 1..][z - (p + 1)].key > q;
      } else if !found {
        assert es[p..][z - p].key > q;
      }
    }
  }

  // ----- the map a list denotes -----

  ghost predicate Holds(s: seq<Entry>, k: Key, v: Value)
  {
    exists i :: 0 <= i < |s| && s[i] == Entry(k, v)
  }

  lemma {:induction false} LookupHolds(s: seq<Entry>, k: Key)
    requires Sorted(s)
    ensures Lookup(s, k).Some? ==> Holds(s, k, Lookup(s, k).value)
    ensures forall v :: Holds(s, k, v) ==> Lookup(s, k) == Some(v)
    decreases |s|
  {
    if s != [] {
      var r := s[1..];
      LookupHolds(r, k);
      if s[0].key == k {
        assert s[0] == Entry(k, s[0].value);
        forall v | Holds(s, k, v)
          ensures s[0].value == v
        {
          var i :| 0 <= i < |s| && s[i] == Entry(k, v);
        }
      } else {
        forall v | Holds(s, k, v)
          ensures Holds(r, k, v)
        {
          var i :| 0 <= i < |s| && s[i] == Entry(k, v);
          assert r[i - 1] == Entry(k, v);
        }
        if Lookup(r, k).Some? {
          var i :| 0 <= i < |r| && r[i] == Entry(k, Lookup(r, k).value);
          assert s[i + 1] == Entry(k, Lookup(r, k).value);
        }
      }
    }
  }

  /** Binding a key changes what is found under that key and nothing else. */
  lemma {:induction false} LookupUpsert(s: seq<Entry>, k: Key, v: Value, q: Key)
    ensures Lookup(Upsert(s, k, v), q) == if q == k then Some(v) else Lookup(s, q)
    ensures Lookup(Remove(s, k), q) == if q == k then None else Lookup(s, q)
  {
    LookupFiltered(s, k, q);
    FilterConcat(Below(s, k) + [Entry(k, v)], Over(s, k), q);
    FilterConcat(Below(s, k), [Entry(k, v)], q);
    FilterConcat(Below(s, k), Over(s, k), q);
    assert Lookup([Entry(k, v)], q) == if q == k then Some(v) else None;
  }

  lemma {:induction false} LookupFiltered(s: seq<Entry>, k: Key, q: Key)
    ensures Lookup(Below(s, k), q) == if q < k then Lookup(s, q) else None
    ensures Lookup(Over(s, k), q) == if q > k then Lookup(s, q) else None
    decreases |s|
  {
    if s != [] {
      LookupFiltered(s[1..], k, q);
      FilterConcat(if s[0].key < k then [s[0]] else [], Below(s[1..], k), q);
      FilterConcat(if s[0].key > k then [s[0]] else [], Over(s[1..], k), q);
    }
  }

  /** The number of entries grows or shrinks by one exactly when the key was absent or present. */
  lemma {:induction false} EditLength(s: seq<Entry>, k: Key, v: Value)
    requires Sorted(s)
    ensures |Upsert(s, k, v)| == |s| + (if Lookup(s, k).Some? then 0 else 1)
    ensures |Remove(s, k)| == |s| - (if Lookup(s, k).Some? then 1 else 0)
    decreases |s|
  {
    if s != [] {
      EditLength(s[1..], k, v);
      if s[0].key == k {
        assert AllOver(s[1..], k);
        FilterOver(s[1..], k);
      }
    }
  }

  // ----- well-formed trees -----

  datatype Bound = Min | At(k: Key) | Max

  predicate Lt(a: Bound, b: Bound)
  {
    match a
    case Min => b != Min
    case Max => false
    case At(x) => b == Max || (b.At? && x < b.k)
  }

  /** `k` is above `lo` and at most `hi`. */
  predicate InRange(k: Key, lo: Bound, hi: Bound)
  {
    Lt(lo, At(k)) && !Lt(hi, At(k))
  }

  /** The upper bounds of the children: the separators and then the branch's own bound. */
  function Ups(keys: seq<Key>, hi: Bound): (r: seq<Bound>)
    ensures |r| == |keys| + 1
  {
    seq(|keys|, i requires 0 <= i < |keys| => At(keys[i])) + [hi]
  }

  ghost predicate WF(t: Node, h: nat, lo: Bound, hi: Bound)
    decreases h, 0
  {
    match t
    case Leaf(_, _, es) => h == 0 && es != [] && Sorted(es) && forall i :: 0 <= i < |es| ==> InRange(es[i].key, lo, hi)
    case Branch(_, keys, cs) => h > 0 && |cs| == |keys| + 1 && |cs| >= 2 && Row(cs, Ups(keys, hi), h - 1, lo)
  }

  /** Neighbouring trees of one height, each within its bounds. */
  ghost predicate Row(ts: seq<Node>, ups: seq<Bound>, h: nat, lo: Bound)
    decreases h, |ts| + 1
  {
    |ts| == |ups| && (ts != [] ==> Lt(lo, ups[0]) && WF(ts[0], h, lo, ups[0]) && Row(ts[1..], ups[1..], h, ups[0]))
  }

  ghost function Last(ups: seq<Bound>, lo: Bound): Bound
  {
    if ups == [] then lo else ups[|ups| - 1]
  }

  /** Rows are put together and cut apart at any place. */
  lemma {:induction false} RowConcat(a: seq<Node>, ua: seq<Bound>, b: seq<Node>, ub: seq<Bound>, h: nat, lo: Bound)
    requires |a| == |ua|
    ensures Row(a + b, ua + ub, h, lo) <==> Row(a, ua, h, lo) && Row(b, ub, h, Last(ua, lo))
    decreases |a|
  {
    if a == [] {
      assert a + b == b && ua + ub == ub;
    } else {
      assert (a + b)[1..] == a[1..] + b && (ua + ub)[1..] == ua[1..] + ub;
      RowConcat(a[1..], ua[1..], b, ub, h, ua[0]);
      assert Last(ua[1..], ua[0]) == Last(ua, lo);
    }
  }

  lemma {:induction false} RowSingle(t: Node, h: nat, lo: Bound, hi: Bound)
    ensures Row([t], [hi], h, lo) <==> Lt(lo, hi) && WF(t, h, lo, hi)
  {
  }

  lemma LtTrans(a: Bound, b: Bound, c: Bound)
    requires Lt(a, b) && Lt(b, c)
    ensures Lt(a, c)
  {
  }

  lemma {:induction false} RowOrder(ts: seq<Node>, ups: seq<Bound>, h: nat, lo: Bound)
    requires Row(ts, ups, h, lo) && ts != []
    ensures Lt(lo, Last(ups, lo))
    decreases |ts|
  {
    if |ts| > 1 {
      RowOrder(ts[1..], ups[1..], h, ups[0]);
      LtTrans(lo, ups[0], Last(ups, lo));
    }
  }

  ghost predicate Within(s: seq<Entry>, lo: Bound, hi: Bound)
  {
    forall i :: 0 <= i < |s| ==> InRange(s[i].key, lo, hi)
  }

  /** A well-formed tree lists its entries in strict key order and within its bounds. */
  lemma {:induction false} TreeSorted(t: Node, h: nat, lo: Bound, hi: Bound)
    requires WF(t, h, lo, hi)
    ensures Sorted(Entries(t)) && Within(Entries(t), lo, hi) && Entries(t) != []
    decreases h, 0
  {
    if t.Branch? {
      RowSorted(t.children, Ups(t.keys, hi), h - 1, lo);
    }
  }

  lemma {:induction false} RowSorted(ts: seq<Node>, ups: seq<Bound>, h: nat, lo: Bound)
    requires Row(ts, ups, h, lo)
    ensures Sorted(AllEntries(ts)) && Within(AllEntries(ts), lo, Last(ups, lo))
    ensures ts != [] ==> AllEntries(ts) != []
    decreases h, |ts| + 1
  {
    if ts != [] {
      TreeSorted(ts[0], h, lo, ups[0]);
      RowSorted(ts[1..], ups[1..], h, ups[0]);
      if |ts| > 1 {
        RowOrder(ts[1..], ups[1..], h, ups[0]);
      }
      assert Last(ups[1..], ups[0]) == Last(ups, lo);
      SortedConcat(Entries(ts[0]), AllEntries(ts[1..]), lo, ups[0], Last(ups, lo));
    }
  }

  lemma SortedConcat(a: seq<Entry>, b: seq<Entry>, lo: Bound, mid: Bound, hi: Bound)
    requires Sorted(a) && Sorted(b) && Within(a, lo, mid) && Within(b, mid, hi)
    requires Lt(lo, mid) && (mid == hi || Lt(mid, hi))
    ensures Sorted(a + b) && Within(a + b, lo, hi)
  {
    var s := a + b;
    forall i, j | 0 <= i < j < |s|
      ensures s[i].key < s[j].key
    {
      if i < |a| <= j {
        assert InRange(a[i].key, lo, mid) && InRange(b[j - |a|].key, mid, hi);
      }
    }
  }

  /** Entries of a row that ends below the key, and of one that starts at or above it. */
  lemma {:induction false} RowBelow(ts: seq<Node>, ups: seq<Bound>, h: nat, lo: Bound, k: Key)
    requires Row(ts, ups, h, lo) && (ts != [] ==> Lt(Last(ups, lo), At(k)))
    ensures AllBelow(AllEntries(ts), k)
  {
    RowSorted(ts, ups, h, lo);
  }

  lemma {:induction false} RowOver(ts: seq<Node>, ups: seq<Bound>, h: nat, lo: Bound, k: Key)
    requires Row(ts, ups, h, lo) && (ts != [] ==> !Lt(lo, At(k)))
    ensures AllOver(AllEntries(ts), k)
  {
    RowSorted(ts, ups, h, lo);
  }
}
