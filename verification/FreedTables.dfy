/**
 The loops over the freed and allocated tables: pages are stored in chunks keyed by transaction and
 pagination id, and read back chunk by chunk.
 */
module FreedTables {
  import opened Tracker
  import opened Store
  import opened StoreProof

  const CHUNK: nat := 400
  const SYSTEM_CHUNK: nat := 200

  /** Transaction id and pagination id. */
  type Key = (Txn, nat)
  type PageTable = map<Key, seq<Page>>

  ghost predicate Lists(t: PageTable, k: Key, i: int)
  {
    k in t && 0 <= i < |t[k]|
  }

  /** The (transaction, page) entries of a chunked table. */
  ghost function Flat(t: PageTable): Table
  {
    set k, i | k in t && 0 <= i < |t[k]| :: (k.0, t[k][i])
  }

  ghost predicate ListedOnce(t: PageTable)
  {
    forall k, i, l, j :: Lists(t, k, i) && Lists(t, l, j) && t[k][i] == t[l][j] ==> k == l && i == j
  }

  ghost predicate NoRepeat(s: seq<Page>)
  {
    forall i, j :: 0 <= i < j < |s| ==> s[i] != s[j]
  }

  ghost function Members(s: seq<Page>): set<Page>
  {
    set p | p in s
  }

  /** The chunks of a transaction are numbered without a gap. */
  ghost predicate Contiguous(t: PageTable, x: Txn)
  {
    forall n: nat, m: nat :: (x, n) in t && m < n ==> (x, m) in t
  }

  lemma Chunk(t: PageTable, k: Key, ps: seq<Page>)
    requires ListedOnce(t) && NoRepeat(ps) && Pages(Flat(t)) !! Members(ps) && k !in t
    ensures ListedOnce(t[k := ps]) && Flat(t[k := ps]) == Flat(t) + Entries(k.0, Members(ps))
  {
    var r := t[k := ps];
    forall e | e in Flat(t) + Entries(k.0, Members(ps))
      ensures e in Flat(r)
    {
      if e in Flat(t) {
        var l, i :| Lists(t, l, i) && e == (l.0, t[l][i]);
        assert Lists(r, l, i) && r[l] == t[l];
      } else {
        var i :| 0 <= i < |ps| && ps[i] == e.1;
        assert Lists(r, k, i);
      }
    }
    forall l, i | Lists(r, l, i) && l != k
      ensures Lists(t, l, i) && r[l] == t[l] && r[l][i] !in ps
    {
      assert (l.0, t[l][i]) in Flat(t);
      assert t[l][i] in Pages(Flat(t));
    }
  }

  lemma Drop(t: PageTable, k: Key)
    requires ListedOnce(t) && k in t
    ensures ListedOnce(t - {k}) && Flat(t - {k}) == Flat(t) - Entries(k.0, Members(t[k]))
    ensures Pages(Flat(t - {k})) !! Members(t[k]) && Entries(k.0, Members(t[k])) <= Flat(t) && NoRepeat(t[k])
  {
    var r := t - {k};
    forall l, i | Lists(r, l, i)
      ensures Lists(t, l, i) && r[l] == t[l]
    {
    }
    forall l, i, j | Lists(r, l, i) && 0 <= j < |t[k]|
      ensures r[l][i] != t[k][j]
    {
      assert Lists(t, l, i) && Lists(t, k, j);
    }
    forall e | e in Flat(t) && e !in Entries(k.0, Members(t[k]))
      ensures e in Flat(r)
    {
      var l, i :| Lists(t, l, i) && e == (l.0, t[l][i]);
      assert l != k;
      assert Lists(r, l, i);
    }
    forall i, j | 0 <= i < j < |t[k]|
      ensures t[k][i] != t[k][j]
    {
      assert Lists(t, k, i) && Lists(t, k, j);
    }
  }

  /** Stores a list of pages under the transaction, the last pages first, a chunk at a time. */
  method StorePages(t: PageTable, x: Txn, pages: seq<Page>) returns (r: PageTable)
    requires ListedOnce(t) && NoRepeat(pages) && Pages(Flat(t)) !! Members(pages)
    requires forall k :: k in t ==> k.0 != x
    ensures Flat(r) == Flat(t) + Entries(x, Members(pages)) && ListedOnce(r)
    ensures Contiguous(r, x) && forall k: Key :: k.0 != x ==> (k in r <==> k in t) && (k in t ==> r[k] == t[k])
    ensures forall k :: k in r && k.0 == x ==> 0 < |r[k]| <= CHUNK
  {
    r := t;
    var rest, n := pages, 0;
    while rest != []
      invariant NoRepeat(rest) && ListedOnce(r) && Pages(Flat(r)) !! Members(rest) && Members(rest) <= Members(pages)
      invariant Flat(r) == Flat(t) + Entries(x, Members(pages) - Members(rest))
      invariant forall m: nat :: (x, m) in r <==> m < n
      invariant forall k: Key :: k.0 != x ==> (k in r <==> k in t) && (k in t ==> r[k] == t[k])
      invariant forall k :: k in r && k.0 == x ==> 0 < |r[k]| <= CHUNK
      decreases |rest|
    {
      var keep := |rest| - (if |rest| < CHUNK then |rest| else CHUNK);
      ghost var before := r;
      Chunk(r, (x, n), rest[keep..]);
      SplitMembers(rest, keep);
      r := r[(x, n) := rest[keep..]];
      StoredMore(before, r, x, rest[keep..]);
      EntriesAdd(x, Members(pages) - Members(rest), Members(rest[keep..]));
      assert Members(pages) - Members(rest) + Members(rest[keep..]) == Members(pages) - Members(rest[..keep]);
      rest, n := rest[..keep], n + 1;
    }
  }

  lemma SplitMembers(s: seq<Page>, k: nat)
    requires k <= |s| && NoRepeat(s)
    ensures Members(s) == Members(s[..k]) + Members(s[k..]) && Members(s[..k]) !! Members(s[k..])
    ensures NoRepeat(s[..k]) && NoRepeat(s[k..])
  {
    forall p | p in s
      ensures p in s[..k] || p in s[k..]
    {
      var i :| 0 <= i < |s| && s[i] == p;
      assert if i < k then s[..k][i] == p else s[k..][i - k] == p;
    }
  }

  lemma EntriesAdd(x: Txn, a: set<Page>, b: set<Page>)
    ensures Entries(x, a) + Entries(x, b) == Entries(x, a + b)
  {
  }

  lemma StoredMore(t: PageTable, r: PageTable, x: Txn, ps: seq<Page>)
    requires Flat(r) == Flat(t) + Entries(x, Members(ps))
    ensures Pages(Flat(r)) == Pages(Flat(t)) + Members(ps)
  {
    forall p | p in Members(ps)
      ensures p in Pages(Flat(r))
    {
      assert (x, p) in Flat(r);
    }
    forall p | p in Pages(Flat(t))
      ensures p in Pages(Flat(r))
    {
      var e :| e in Flat(t) && e.1 == p;
      assert e in Flat(r);
    }
  }

  // ----- freeing -----

  /** The pages not in the set, in their order. */
  function Without(ps: seq<Page>, u: set<Page>): seq<Page>
  {
    if ps == [] then []
    else Without(ps[..|ps| - 1], u) + (if ps[|ps| - 1] in u then [] else [ps[|ps| - 1]])
  }

  class Memory {
    var inUse: set<Page>
    var uncommitted: set<Page>
    var unpersisted: set<Page>

    /** Only a page in use is ever handed to the allocator. */
    method Free(p: Page)
      requires p in inUse
      modifies this
      ensures inUse == old(inUse) - {p} && uncommitted == old(uncommitted) - {p} && unpersisted == old(unpersisted)
    {
      uncommitted := uncommitted - {p};
      inUse := inUse - {p};
    }

    method FreeIfUnpersisted(p: Page) returns (freed: bool)
      requires p in unpersisted ==> p in inUse
      modifies this
      ensures freed <==> p in old(unpersisted)
      ensures freed ==> inUse == old(inUse) - {p} && unpersisted == old(unpersisted) - {p}
      ensures !freed ==> inUse == old(inUse) && unpersisted == old(unpersisted)
      ensures uncommitted == old(uncommitted)
    {
      freed := p in unpersisted;
      if freed {
        unpersisted := unpersisted - {p};
        inUse := inUse - {p};
      }
    }

    /** Every page of a chunk is freed, each once. */
    method FreeAll(ps: seq<Page>)
      requires NoRepeat(ps) && Members(ps) <= inUse
      modifies this
      ensures inUse == old(inUse) - Members(ps) && unpersisted == old(unpersisted)
    {
      for i := 0 to |ps|
        invariant inUse == old(inUse) - Members(ps[..i]) && unpersisted == old(unpersisted)
      {
        assert ps[i] in Members(ps);
        Free(ps[i]);
        assert Members(ps[..i + 1]) == Members(ps[..i]) + {ps[i]};
      }
      assert ps[..|ps|] == ps;
    }

    /** Frees the pages no durable commit has reached and returns the others in their order. */
    method FreeUnpersisted(ps: seq<Page>) returns (kept: seq<Page>)
      requires NoRepeat(ps) && Members(ps) <= inUse
      modifies this
      ensures kept == Without(ps, old(unpersisted))
      ensures NoRepeat(kept) && Members(kept) == Members(ps) - old(unpersisted)
      ensures |kept| <= |ps| && (|kept| == |ps| ==> kept == ps)
      ensures inUse == old(inUse) - (Members(ps) * old(unpersisted)) && unpersisted == old(unpersisted) - Members(ps)
    {
      kept := [];
      hide NoRepeat;
      for i := 0 to |ps|
        invariant kept == Without(ps[..i], old(unpersisted))
        invariant inUse == old(inUse) - (Members(ps[..i]) * old(unpersisted))
          && unpersisted == old(unpersisted) - Members(ps[..i])
      {
        assert ps[i] in Members(ps);
        OneMore(ps, i);
        var freed := FreeIfUnpersisted(ps[i]);
        if !freed {
          kept := kept + [ps[i]];
        }
      }
      assert ps[..|ps|] == ps;
      WithoutMembers(ps, old(unpersisted));
    }
  }

  lemma OneMore(ps: seq<Page>, i: nat)
    requires NoRepeat(ps) && i < |ps|
    ensures ps[i] !in Members(ps[..i]) && Members(ps[..i + 1]) == Members(ps[..i]) + {ps[i]}
    ensures ps[..i + 1][..i] == ps[..i]
  {
  }

  lemma {:induction false} WithoutMembers(ps: seq<Page>, u: set<Page>)
    requires NoRepeat(ps)
    ensures var r := Without(ps, u);
      NoRepeat(r) && Members(r) == Members(ps) - u && |r| <= |ps| && (|r| == |ps| ==> r == ps)
  {
    if ps != [] {
      var n := |ps| - 1;
      WithoutMembers(ps[..n], u);
      OneMore(ps, n);
      assert ps == ps[..n] + [ps[n]];
      AppendMembers(Without(ps[..n], u), if ps[n] in u then [] else [ps[n]]);
    }
  }

  lemma ListedMembers(t: PageTable, k: Key)
    requires k in t
    ensures Members(t[k]) <= Pages(Flat(t)) && Entries(k.0, Members(t[k])) <= Flat(t)
  {
    forall p | p in Members(t[k])
      ensures p in Pages(Flat(t)) && (k.0, p) in Flat(t)
    {
      var i :| 0 <= i < |t[k]| && t[k][i] == p;
      assert Lists(t, k, i);
      assert (k.0, p) in Flat(t);
    }
  }

  /** Extracts every chunk of a transaction before `until` and frees its pages. */
  method ProcessFreed(mem: Memory, t: PageTable, until: Txn) returns (r: PageTable)
    requires ListedOnce(t) && Pages(Flat(t)) <= mem.inUse
    modifies mem
    ensures Flat(r) == Above(Flat(t), until - 1) && ListedOnce(r)
    ensures mem.inUse == old(mem.inUse) - Pages(UpTo(Flat(t), until - 1)) && mem.unpersisted == old(mem.unpersisted)
    ensures forall x :: Contiguous(t, x) ==> Contiguous(r, x)
  {
    r := t;
    var todo := set k | k in t && k.0 < until;
    while todo != {}
      invariant forall k :: k in todo ==> k in r && k.0 < until
      invariant forall k :: k in r <==> k in t && (k.0 >= until || k in todo)
      invariant forall k :: k in r ==> r[k] == t[k]
      invariant ListedOnce(r) && Flat(r) <= Flat(t) && Pages(Flat(r)) <= mem.inUse
      invariant mem.inUse == old(mem.inUse) - (Pages(Flat(t)) - Pages(Flat(r)))
        && mem.unpersisted == old(mem.unpersisted)
      decreases |todo|
    {
      var k :| k in todo;
      Drop(r, k);
      ListedMembers(r, k);
      mem.FreeAll(r[k]);
      DropPages(r, k);
      SubTable(r - {k}, r);
      r := r - {k};
      todo := todo - {k};
    }
    FlatAbove(t, r, until);
  }

  lemma SubTable(a: PageTable, b: PageTable)
    requires Flat(a) <= Flat(b)
    ensures Pages(Flat(a)) <= Pages(Flat(b))
  {
  }

  lemma DropPages(t: PageTable, k: Key)
    requires ListedOnce(t) && k in t
    ensures Pages(Flat(t - {k})) == Pages(Flat(t)) - Members(t[k])
  {
    Drop(t, k);
    forall p | p in Pages(Flat(t)) && p !in Members(t[k])
      ensures p in Pages(Flat(t - {k}))
    {
      var e :| e in Flat(t) && e.1 == p;
      assert e in Flat(t - {k});
    }
  }

  lemma FlatAbove(t: PageTable, r: PageTable, until: Txn)
    requires ListedOnce(t) && (forall k :: k in r ==> k in t && k.0 >= until && r[k] == t[k])
    requires forall k :: k in t && k.0 >= until ==> k in r
    ensures Flat(r) == Above(Flat(t), until - 1)
    ensures Pages(Flat(t)) - Pages(Flat(r)) == Pages(UpTo(Flat(t), until - 1))
  {
    forall e | e in Above(Flat(t), until - 1)
      ensures e in Flat(r)
    {
      var k, i :| Lists(t, k, i) && e == (k.0, t[k][i]);
      assert Lists(r, k, i);
    }
    forall e | e in Flat(r)
      ensures e in Above(Flat(t), until - 1)
    {
      var k, i :| k in r && 0 <= i < |r[k]| && e == (k.0, r[k][i]);
      assert Lists(t, k, i);
    }
    FlatOnce(t);
    SplitTable(Flat(t), until - 1);
  }

  lemma FlatOnce(t: PageTable)
    requires ListedOnce(t)
    ensures Once(Flat(t))
  {
    forall a, b | a in Flat(t) && b in Flat(t) && a.1 == b.1
      ensures a == b
    {
      var k, i :| Lists(t, k, i) && a == (k.0, t[k][i]);
      var l, j :| Lists(t, l, j) && b == (l.0, t[l][j]);
    }
  }

  /** Filtering one chunk removes its freed pages from the table and nothing else. */
  lemma Refill(t: PageTable, r: PageTable, k: Key, kept: seq<Page>)
    requires ListedOnce(t) && k in t && NoRepeat(kept) && Members(kept) <= Members(t[k])
    requires r == t[k := kept] || (kept == [] && r == t - {k})
    ensures ListedOnce(r) && Flat(r) == Flat(t) - Entries(k.0, Members(t[k]) - Members(kept))
  {
    Drop(t, k);
    ListedMembers(t, k);
    var d := t - {k};
    if r == t[k := kept] {
      Chunk(d, k, kept);
      assert d[k := kept] == r;
      assert Flat(r) == Flat(t) - Entries(k.0, Members(t[k])) + Entries(k.0, Members(kept));
    }
  }

  ghost function Freeable(f: Table, x: Txn, seen: set<Page>, unpersisted: set<Page>): Table
  {
    set e | e in f && e.0 == x && e.1 in seen && e.1 in unpersisted
  }

  lemma FreeableMore(f: Table, x: Txn, seen: set<Page>, more: set<Page>, unpersisted: set<Page>)
    requires Entries(x, more) <= f && Entries(x, seen) <= f
    ensures Entries(x, seen + more) <= f
    ensures Freeable(f, x, seen + more, unpersisted) == Freeable(f, x, seen, unpersisted)
      + Entries(x, more * unpersisted)
  {
    forall p | p in more
      ensures (x, p) in f
    {
      assert (x, p) in Entries(x, more);
    }
  }

  /** The pages of the chunks before chunk `n`. */
  ghost function EarlierPages(t: PageTable, x: Txn, n: nat): set<Page>
  {
    set k, i | k in t && k.0 == x && k.1 < n && 0 <= i < |t[k]| :: t[k][i]
  }

  lemma Unseen(t: PageTable, key: Key, seen: set<Page>)
    requires ListedOnce(t) && key in t && seen <= EarlierPages(t, key.0, key.1)
    ensures Members(t[key]) !! seen && seen + Members(t[key]) <= EarlierPages(t, key.0, key.1 + 1)
  {
    forall p | p in seen
      ensures p !in t[key] && p in EarlierPages(t, key.0, key.1 + 1)
    {
      assert p in EarlierPages(t, key.0, key.1);
      var k, i :| k in t && k.0 == key.0 && k.1 < key.1 && 0 <= i < |t[k]| && t[k][i] == p;
      assert Lists(t, k, i);
      assert forall j :: 0 <= j < |t[key]| ==> Lists(t, key, j);
    }
  }

  /** Frees the reclaimable pages of one chunk and takes them out of the table. */
  method ReclaimChunk(mem: Memory, t: PageTable, key: Key) returns (r: PageTable)
    requires ListedOnce(t) && key in t && Pages(Flat(t)) <= mem.inUse
    modifies mem
    ensures ListedOnce(r) && Flat(r) == Flat(t) - Entries(key.0, Members(t[key]) * old(mem.unpersisted))
    ensures mem.inUse == old(mem.inUse) - Members(t[key]) * old(mem.unpersisted)
      && mem.unpersisted == old(mem.unpersisted) - Members(t[key])
    ensures Pages(Flat(r)) <= mem.inUse
    ensures r.Keys <= t.Keys && forall k :: k in t && k != key ==> k in r && r[k] == t[k]
  {
    Drop(t, key);
    ListedMembers(t, key);
    hide Flat, ListedOnce, NoRepeat, Pages, Entries;
    var pages := t[key];
    var kept := mem.FreeUnpersisted(pages);
    ghost var gone := Members(pages) * old(mem.unpersisted);
    r := t;
    if |kept| != |pages| {
      if kept == [] {
        r := t - {key};
      } else {
        r := t[key := kept];
      }
      Refill(t, r, key, kept);
      assert Members(pages) - Members(kept) == gone;
    } else {
      assert gone == {};
      NoEntries(key.0, Flat(t));
    }
    StillInUse(t, r, key, gone);
  }

  lemma NoEntries(x: Txn, f: Table)
    ensures f - Entries(x, {}) == f && Entries(x, {}) == {}
  {
  }

  lemma StillInUse(t: PageTable, r: PageTable, key: Key, gone: set<Page>)
    requires ListedOnce(t) && key in t && gone <= Members(t[key]) && Flat(r) == Flat(t) - Entries(key.0, gone)
    ensures Pages(Flat(r)) <= Pages(Flat(t)) - gone
  {
    FlatOnce(t);
    ListedMembers(t, key);
    hide Flat, ListedOnce;
    forall p | p in gone
      ensures (key.0, p) in Flat(t) && (key.0, p) in Entries(key.0, gone)
    {
      assert (key.0, p) in Entries(key.0, Members(t[key]));
    }
  }

  lemma SeenAll(t: PageTable, x: Txn, n: nat, seen: set<Page>)
    requires Contiguous(t, x) && (x, n) !in t && forall m: nat :: m < n && (x, m) in t ==> Members(t[(x, m)]) <= seen
    ensures forall e :: e in Flat(t) && e.0 == x ==> e.1 in seen
  {
    forall e | e in Flat(t) && e.0 == x
      ensures e.1 in seen
    {
      var k, i :| k in t && 0 <= i < |t[k]| && e == (k.0, t[k][i]);
      assert k == (x, k.1);
      assert e.1 in Members(t[k]);
    }
  }

  ghost function LaterChunks(t: PageTable, x: Txn, n: nat): set<Key>
  {
    set k | k in t && k.0 == x && k.1 >= n
  }

  /** All chunks of one transaction, in the order of their pagination ids, up to the first missing one. */
  method ReclaimTransaction(mem: Memory, t: PageTable, x: Txn) returns (r: PageTable, ghost seen: set<Page>)
    requires ListedOnce(t) && Pages(Flat(t)) <= mem.inUse
    modifies mem
    ensures ListedOnce(r) && Flat(r) == Flat(t) - Freeable(Flat(t), x, seen, old(mem.unpersisted))
    ensures mem.inUse == old(mem.inUse) - (seen * old(mem.unpersisted))
      && mem.unpersisted == old(mem.unpersisted) - seen
    ensures forall k :: k in t && k.0 != x ==> k in r && r[k] == t[k]
    ensures r.Keys <= t.Keys
    ensures Entries(x, seen) <= Flat(t)
    ensures Contiguous(t, x) ==> forall e :: e in Flat(t) && e.0 == x ==> e.1 in seen
  {
    r := t;
    seen := {};
    var n := 0;
    assert Freeable(Flat(t), x, {}, mem.unpersisted) == {};
    NoEntries(x, Flat(t));
    assert Swept(t, r, x, n, seen, mem.unpersisted) by { hide Flat, ListedOnce, Entries, Freeable; }
    hide Swept, Flat, ListedOnce, Members, Pages, Entries, Freeable, Contiguous;
    while (x, n) in r
      invariant Swept(t, r, x, n, seen, old(mem.unpersisted)) && ListedOnce(r) && Pages(Flat(r)) <= mem.inUse
      invariant mem.inUse == old(mem.inUse) - (seen * old(mem.unpersisted))
        && mem.unpersisted == old(mem.unpersisted) - seen
      invariant r.Keys <= t.Keys
      decreases LaterChunks(t, x, n)
    {
      ghost var before, pages := r, Members(t[(x, n)]);
      SweptChunk(t, r, x, n, seen, old(mem.unpersisted));
      r := ReclaimChunk(mem, r, (x, n));
      SweptMore(t, before, r, x, n, seen, old(mem.unpersisted));
      seen := seen + pages;
      assert (x, n) in LaterChunks(t, x, n) && (x, n) !in LaterChunks(t, x, n + 1);
      n := n + 1;
    }
    SweptAll(t, r, x, n, seen, old(mem.unpersisted));
  }

  /**
   After the first `n` chunks of a transaction: what they held is seen, and what of it no durable
   commit has reached is gone.
   */
  ghost predicate Swept(t: PageTable, r: PageTable, x: Txn, n: nat, seen: set<Page>, u: set<Page>)
  {
    && ListedOnce(r) && Entries(x, seen) <= Flat(t) && Flat(r) == Flat(t) - Freeable(Flat(t), x, seen, u)
    && (forall k :: k in t && (k.0 != x || k.1 >= n) ==> k in r && r[k] == t[k])
    && r.Keys <= t.Keys && seen <= EarlierPages(t, x, n)
    && (forall m: nat :: m < n && (x, m) in t ==> Members(t[(x, m)]) <= seen)
  }

  lemma SweptChunk(t: PageTable, r: PageTable, x: Txn, n: nat, seen: set<Page>, u: set<Page>)
    requires Swept(t, r, x, n, seen, u) && (x, n) in r && ListedOnce(t)
    ensures (x, n) in t && r[(x, n)] == t[(x, n)] && Members(t[(x, n)]) !! seen
  {
    hide Flat, ListedOnce, Members, Entries, Freeable, EarlierPages;
    Unseen(t, (x, n), seen);
  }

  lemma SweptMore(t: PageTable, r: PageTable, q: PageTable, x: Txn, n: nat, seen: set<Page>, u: set<Page>)
    requires Swept(t, r, x, n, seen, u) && (x, n) in r && (x, n) in t && r[(x, n)] == t[(x, n)] && ListedOnce(t)
    requires ListedOnce(q) && Flat(q) == Flat(r) - Entries(x, Members(r[(x, n)]) * (u - seen))
    requires q.Keys <= r.Keys && forall k :: k in r && k != (x, n) ==> k in q && q[k] == r[k]
    ensures Swept(t, q, x, n + 1, seen + Members(t[(x, n)]), u)
  {
    var pages := Members(t[(x, n)]);
    hide Flat, ListedOnce, Members, Entries, Freeable, EarlierPages;
    ListedMembers(t, (x, n));
    Unseen(t, (x, n), seen);
    FreeableMore(Flat(t), x, seen, pages, u);
    assert pages * (u - seen) == pages * u;
  }

  lemma SweptAll(t: PageTable, r: PageTable, x: Txn, n: nat, seen: set<Page>, u: set<Page>)
    requires Swept(t, r, x, n, seen, u) && (x, n) !in r
    ensures ListedOnce(r) && Flat(r) == Flat(t) - Freeable(Flat(t), x, seen, u) && Entries(x, seen) <= Flat(t)
    ensures forall k :: k in t && k.0 != x ==> k in r && r[k] == t[k]
    ensures Contiguous(t, x) ==> forall e :: e in Flat(t) && e.0 == x ==> e.1 in seen
  {
    hide Flat, ListedOnce, Members, Entries, Freeable, EarlierPages, Contiguous;
    if Contiguous(t, x) {
      SeenAll(t, x, n, seen);
    }
  }

  ghost function Handled(cs: seq<Txn>): set<Txn>
  {
    set x | x in cs
  }

  /**
   The non-durable sweep: transactions named once per chunk are swept once per chunk, but only the
   first sweep finds anything left to free.
   */
  method ProcessFreedNonDurable(mem: Memory, t: PageTable, until: Txn, unprocessed: set<Txn>)
    returns (r: PageTable, processed: seq<Txn>)
    requires ListedOnce(t) && Pages(Flat(t)) <= mem.inUse
    requires forall x :: x in unprocessed ==> Contiguous(t, x)
    modifies mem
    ensures Flat(r) == Flat(t) - Reclaimable(Flat(t), until, unprocessed, old(mem.unpersisted)) && ListedOnce(r)
    ensures mem.inUse == old(mem.inUse) - Pages(Reclaimable(Flat(t), until, unprocessed, old(mem.unpersisted)))
    ensures mem.unpersisted == old(mem.unpersisted) - Pages(Reclaimable(Flat(t), until, unprocessed,
            old(mem.unpersisted)))
    ensures forall x :: x in processed <==> x < until && x in unprocessed && exists n: nat :: (x, n) in t
    ensures forall x :: x in unprocessed && x !in processed ==> Contiguous(r, x)
  {
    processed := Candidates(t, until, unprocessed);
    hide Flat, ListedOnce, Pages, Reclaimable, Contiguous;
    r := SweepAll(mem, t, processed, until);
    CandidatesAll(t, until, unprocessed, processed, old(mem.unpersisted));
    forall x | x in unprocessed && x !in processed
      ensures Contiguous(r, x)
    {
      StillContiguous(t, r, x);
    }
  }

  /** Sweeps the transactions of a list one after the other, however often each is named. */
  method SweepAll(mem: Memory, t: PageTable, cs: seq<Txn>, until: Txn) returns (r: PageTable)
    requires ListedOnce(t) && Pages(Flat(t)) <= mem.inUse
    requires forall x :: x in cs ==> x < until && Contiguous(t, x)
    modifies mem
    ensures ListedOnce(r) && Flat(r) == Flat(t) - Reclaimable(Flat(t), until, Handled(cs), old(mem.unpersisted))
    ensures mem.inUse == old(mem.inUse) - Pages(Reclaimable(Flat(t), until, Handled(cs), old(mem.unpersisted)))
    ensures mem.unpersisted ==
            old(mem.unpersisted) - Pages(Reclaimable(Flat(t), until, Handled(cs), old(mem.unpersisted)))
    ensures r.Keys <= t.Keys && forall k :: k in t && k.0 !in cs ==> k in r && r[k] == t[k]
  {
    r := t;
    ghost var f, u := Flat(t), mem.unpersisted;
    assert Reclaimable(f, until, {}, u) == {};
    for i := 0 to |cs|
      invariant ListedOnce(r) && Pages(Flat(r)) <= mem.inUse && r.Keys <= t.Keys
      invariant Flat(r) == f - Reclaimable(f, until, Handled(cs[..i]), u)
      invariant mem.inUse == old(mem.inUse) - Pages(Reclaimable(f, until, Handled(cs[..i]), u))
      invariant mem.unpersisted == u - Pages(Reclaimable(f, until, Handled(cs[..i]), u))
      invariant forall k :: k in t && k.0 !in cs[..i] ==> k in r && r[k] == t[k]
    {
      var x := cs[i];
      assert x in cs;
      ghost var before := r;
      ghost var seen;
      r, seen := ReclaimTransaction(mem, r, x);
      assert Handled(cs[..i + 1]) == Handled(cs[..i]) + {x};
      SweepOnce(t, before, x, Handled(cs[..i]), seen, until, u);
    }
    assert cs[..|cs|] == cs;
  }

  lemma StillContiguous(t: PageTable, r: PageTable, x: Txn)
    requires Contiguous(t, x) && r.Keys <= t.Keys && forall k :: k in t && k.0 == x ==> k in r
    ensures Contiguous(r, x)
  {
  }

  /** The transactions of the keys in range, once for each key. */
  method Candidates(t: PageTable, until: Txn, unprocessed: set<Txn>) returns (cs: seq<Txn>)
    ensures forall k :: k in t && k.0 < until && k.0 in unprocessed ==> k.0 in cs
    ensures forall x :: x in cs ==> x < until && x in unprocessed && exists n: nat :: (x, n) in t
  {
    cs := [];
    var todo := set k | k in t && k.0 < until;
    while todo != {}
      invariant forall k :: k in todo ==> k in t && k.0 < until
      invariant forall k :: k in t && k.0 < until && k.0 in unprocessed ==> k in todo || k.0 in cs
      invariant forall x :: x in cs ==> x < until && x in unprocessed && exists n: nat :: (x, n) in t
      decreases |todo|
    {
      var k :| k in todo;
      if k.0 in unprocessed {
        assert k == (k.0, k.1);
        cs := cs + [k.0];
      }
      todo := todo - {k};
    }
  }

  lemma CandidatesAll(t: PageTable, until: Txn, unprocessed: set<Txn>, cs: seq<Txn>, u: set<Page>)
    requires forall k :: k in t && k.0 < until && k.0 in unprocessed ==> k.0 in cs
    requires forall x :: x in cs ==> x in unprocessed
    ensures Reclaimable(Flat(t), until, Handled(cs), u) == Reclaimable(Flat(t), until, unprocessed, u)
  {
    forall e | e in Flat(t) && e.0 < until && e.0 in unprocessed
      ensures e.0 in Handled(cs)
    {
      var k, i :| k in t && 0 <= i < |t[k]| && e == (k.0, t[k][i]);
    }
  }

  /** What one sweep removes, whether the transaction was swept before or not. */
  lemma SweepOnce(t: PageTable, b: PageTable, x: Txn, done: set<Txn>, seen: set<Page>, until: Txn, u: set<Page>)
    requires ListedOnce(t) && ListedOnce(b) && x < until
    requires Flat(b) == Flat(t) - Reclaimable(Flat(t), until, done, u)
    requires Entries(x, seen) <= Flat(b)
    requires x !in done ==> forall e :: e in Flat(b) && e.0 == x ==> e.1 in seen
    ensures var u1 := u - Pages(Reclaimable(Flat(t), until, done, u));
      && Flat(b) - Freeable(Flat(b), x, seen, u1) == Flat(t) - Reclaimable(Flat(t), until, done + {x}, u)
      && Pages(Reclaimable(Flat(t), until, done + {x}, u)) == Pages(Reclaimable(Flat(t), until, done, u)) + seen * u1
  {
    var f := Flat(t);
    var d := Reclaimable(f, until, done, u);
    var u1 := u - Pages(d);
    FlatOnce(t);
    forall e | e in Flat(b)
      ensures e.1 !in Pages(d)
    {
    }
    forall p | p in seen
      ensures (x, p) in Flat(b)
    {
      assert (x, p) in Entries(x, seen);
    }
    if x in done {
      forall p | p in seen
        ensures p !in u
      {
        assert (x, p) in f;
      }
      assert done + {x} == done;
    } else {
      assert Reclaimable(f, until, done + {x}, u) == d + Freeable(Flat(b), x, seen, u1) by {
        forall e | e in f && e.0 == x && e.1 in u
          ensures e in Freeable(Flat(b), x, seen, u1)
        {
          assert e !in d;
          assert e in Flat(b);
        }
      }
      PagesUnion(d, Freeable(Flat(b), x, seen, u1));
      assert Pages(Freeable(Flat(b), x, seen, u1)) == seen * u1 by {
        forall p | p in seen * u1
          ensures p in Pages(Freeable(Flat(b), x, seen, u1))
        {
          assert (x, p) in Freeable(Flat(b), x, seen, u1);
        }
      }
    }
  }

  // ----- restoring and system pages -----

  /** The chunks of later transactions. */
  ghost function Later(t: PageTable, x: Txn): PageTable
  {
    map k | k in t && k.0 > x :: t[k]
  }

  lemma LaterFlat(t: PageTable, x: Txn)
    ensures Flat(Later(t, x)) == Above(Flat(t), x)
  {
    forall e | e in Above(Flat(t), x)
      ensures e in Flat(Later(t, x))
    {
      var k, i :| k in t && 0 <= i < |t[k]| && e == (k.0, t[k][i]);
      assert k in Later(t, x);
    }
  }

  /**
   Queues the pages of every allocation entry after transaction `x`, behind what is queued already.
   The queue is without repeats exactly when it was, and held none of those pages.
   */
  method QueueAllocatedSince(t: PageTable, x: Txn, queue: seq<Page>) returns (q: seq<Page>)
    requires ListedOnce(Later(t, x))
    ensures queue <= q && NoRepeat(q[|queue|..]) && Members(q[|queue|..]) == Pages(Above(Flat(t), x))
    ensures Members(q) == Members(queue) + Pages(Above(Flat(t), x))
    ensures NoRepeat(q) <==> NoRepeat(queue) && Members(queue) !! Pages(Above(Flat(t), x))
  {
    q := queue;
    var todo := set k: Key | k in t && k.0 > x;
    ghost var left, added := Later(t, x), [];
    hide Pages, Above, Flat, ListedOnce, NoRepeat, Members, Queued;
    QueuedNone(t, x);
    while todo != {}
      invariant left.Keys == todo && todo <= t.Keys && forall k :: k in todo ==> left[k] == t[k]
      invariant Queued(left, added, Pages(Above(Flat(t), x))) && q == queue + added
      decreases |todo|
    {
      var k: Key :| k in todo;
      QueuedMore(left, added, Pages(Above(Flat(t), x)), k);
      q, added := q + t[k], added + t[k];
      left := left - {k};
      todo := todo - {k};
    }
    assert left == map[];
    QueuedAll(added, Pages(Above(Flat(t), x)));
    assert q[|queue|..] == added;
    AppendRepeats(queue, added);
  }

  /** Of all these pages some are queued, each once, and the others still listed. */
  ghost predicate Queued(left: PageTable, added: seq<Page>, all: set<Page>)
  {
    && ListedOnce(left) && NoRepeat(added) && Members(added) !! Pages(Flat(left))
    && Members(added) + Pages(Flat(left)) == all
  }

  lemma QueuedNone(t: PageTable, x: Txn)
    requires ListedOnce(Later(t, x))
    ensures Queued(Later(t, x), [], Pages(Above(Flat(t), x)))
  {
    hide Pages, Above, Flat, ListedOnce, Later;
    LaterFlat(t, x);
  }

  lemma QueuedMore(left: PageTable, added: seq<Page>, all: set<Page>, k: Key)
    requires Queued(left, added, all) && k in left
    ensures Queued(left - {k}, added + left[k], all)
  {
    hide Pages, Flat, ListedOnce, NoRepeat, Members, Entries;
    Drop(left, k);
    DropPages(left, k);
    ListedMembers(left, k);
    AppendMembers(added, left[k]);
  }

  lemma QueuedAll(added: seq<Page>, all: set<Page>)
    requires Queued(map[], added, all)
    ensures NoRepeat(added) && Members(added) == all
  {
    assert Flat(map[]) == {};
    hide NoRepeat, ListedOnce, Flat, Members;
  }

  lemma NothingQueued()
    ensures NoRepeat([]) && Members([]) == {}
  {
  }

  lemma AppendRepeats(q: seq<Page>, ps: seq<Page>)
    requires NoRepeat(ps)
    ensures NoRepeat(q + ps) <==> NoRepeat(q) && Members(q) !! Members(ps)
    ensures Members(q + ps) == Members(q) + Members(ps)
  {
    if NoRepeat(q) && Members(q) !! Members(ps) {
      AppendMembers(q, ps);
    } else if NoRepeat(q + ps) {
      forall i, j | 0 <= i < j < |q|
        ensures q[i] != q[j]
      {
        assert (q + ps)[i] == q[i] && (q + ps)[j] == q[j];
      }
      forall p | p in Members(q)
        ensures p !in Members(ps)
      {
        var i :| 0 <= i < |q| && q[i] == p;
        forall j | 0 <= j < |ps|
          ensures ps[j] != p
        {
          assert (q + ps)[i] == p && (q + ps)[|q| + j] == ps[j];
        }
      }
    }
  }

  /**
   Two restores in one transaction, the second to the same or an older savepoint: a page allocated
   after the first is queued twice.
   */
  method QueueTwice(t: PageTable, x: Txn, y: Txn) returns (q: seq<Page>)
    requires ListedOnce(Later(t, y)) && y <= x
    ensures NoRepeat(q) <==> Pages(Above(Flat(t), x)) == {}
  {
    LaterOnce(t, x, y);
    AboveMore(Flat(t), x, y);
    hide Pages, Above, Flat, ListedOnce, NoRepeat, Members, Later;
    q := QueueAllocatedSince(t, x, []);
    assert q[0..] == q;
    assert NoRepeat([]) && Members([]) == {} by { NothingQueued(); }
    q := QueueAllocatedSince(t, y, q);
  }

  lemma LaterOnce(t: PageTable, x: Txn, y: Txn)
    requires ListedOnce(Later(t, y)) && y <= x
    ensures ListedOnce(Later(t, x))
  {
    var a, b := Later(t, x), Later(t, y);
    forall k, i, l, j | Lists(a, k, i) && Lists(a, l, j) && a[k][i] == a[l][j]
      ensures k == l && i == j
    {
      assert Lists(b, k, i) && Lists(b, l, j);
    }
  }

  lemma AboveMore(f: Table, x: Txn, y: Txn)
    requires y <= x
    ensures Pages(Above(f, x)) <= Pages(Above(f, y))
  {
    assert Above(f, x) <= Above(f, y);
  }

  /** One page allocated after savepoints of transaction 1: restoring twice queues it twice. */
  method QueuedTwice() returns (q: seq<Page>)
    ensures q == [7, 7] && !NoRepeat(q)
  {
    var t: PageTable := map[(2, 0) := [7]];
    assert (2, 7) in Flat(t) by { assert t[(2, 0)][0] == 7; }
    assert Above(Flat(t), 1) == {(2, 7)};
    assert Pages(Above(Flat(t), 1)) == {7};
    assert ListedOnce(Later(t, 1));
    hide Pages, Above, Flat, ListedOnce, Later;
    q := QueueAllocatedSince(t, 1, []);
    OnlyOne(q[0..], 7);
    assert q == [7];
    q := QueueAllocatedSince(t, 1, q);
    OnlyOne(q[1..], 7);
    assert q == q[..1] + q[1..];
    assert q[0] == q[1];
  }

  lemma OnlyOne(s: seq<Page>, p: Page)
    requires NoRepeat(s) && Members(s) == {p}
    ensures s == [p]
  {
    assert p in s;
    assert forall i :: 0 <= i < |s| ==> s[i] in Members(s);
    AllTheSame(s, p);
  }

  lemma AllTheSame(s: seq<Page>, p: Page)
    requires forall i :: 0 <= i < |s| ==> s[i] == p
    ensures NoRepeat(s) ==> |s| <= 1
  {
    if |s| > 1 {
      assert s[0] == s[1];
    }
  }

  lemma AppendMembers(q: seq<Page>, ps: seq<Page>)
    requires NoRepeat(q) && NoRepeat(ps) && Members(q) !! Members(ps)
    ensures NoRepeat(q + ps) && Members(q + ps) == Members(q) + Members(ps)
  {
    forall i, j | 0 <= i < j < |q + ps|
      ensures (q + ps)[i] != (q + ps)[j]
    {
      if i < |q| <= j {
        assert q[i] in Members(q) && ps[j - |q|] in Members(ps);
      }
    }
  }

  /** Stores superseded system pages; those no durable commit has reached are set aside for freeing after the commit. */
  method StoreSystemFreed(t: PageTable, x: Txn, pages: seq<Page>, unpersisted: set<Page>, start: nat)
    returns (r: PageTable, post: seq<Page>)
    requires ListedOnce(t) && NoRepeat(pages) && Pages(Flat(t)) !! Members(pages)
    requires forall n: nat :: (x, n) in t <==> n < start
    ensures ListedOnce(r) && Flat(r) == Flat(t) + Entries(x, Members(pages) - unpersisted)
    ensures NoRepeat(post) && Members(post) == Members(pages) * unpersisted
    ensures Contiguous(r, x)
  {
    r, post := t, [];
    var rest, n := pages, start;
    while rest != []
      invariant NoRepeat(rest) && NoRepeat(post) && ListedOnce(r) && Members(rest) <= Members(pages)
      invariant Pages(Flat(r)) !! Members(rest) && Members(post) == (Members(pages) - Members(rest)) * unpersisted
      invariant Flat(r) == Flat(t) + Entries(x, Members(pages) - Members(rest) - unpersisted)
      invariant forall m: nat :: (x, m) in r <==> m < n
      decreases |rest|
    {
      var keep := |rest| - (if |rest| < SYSTEM_CHUNK then |rest| else SYSTEM_CHUNK);
      SplitMembers(rest, keep);
      var stored, aside := Divide(rest[keep..], unpersisted);
      AppendMembers(post, aside);
      Chunk(r, (x, n), stored);
      StoredMore(r, r[(x, n) := stored], x, stored);
      EntriesAdd(x, Members(pages) - Members(rest) - unpersisted, Members(stored));
      assert Members(pages) - Members(rest) - unpersisted + Members(stored) ==
        Members(pages) - Members(rest[..keep]) - unpersisted;
      r := r[(x, n) := stored];
      post := post + aside;
      rest, n := rest[..keep], n + 1;
    }
  }

  method Divide(ps: seq<Page>, unpersisted: set<Page>) returns (stored: seq<Page>, aside: seq<Page>)
    requires NoRepeat(ps)
    ensures NoRepeat(stored) && NoRepeat(aside)
    ensures Members(stored) == Members(ps) - unpersisted && Members(aside) == Members(ps) * unpersisted
  {
    stored, aside := [], [];
    for i := 0 to |ps|
      invariant NoRepeat(stored) && NoRepeat(aside)
      invariant Members(stored) == Members(ps[..i]) - unpersisted && Members(aside) == Members(ps[..i]) * unpersisted
    {
      assert ps[i] !in Members(ps[..i]);
      assert Members(ps[..i + 1]) == Members(ps[..i]) + {ps[i]};
      if ps[i] in unpersisted {
        AppendMembers(aside, [ps[i]]);
        aside := aside + [ps[i]];
      } else {
        AppendMembers(stored, [ps[i]]);
        stored := stored + [ps[i]];
      }
    }
    assert ps[..|ps|] == ps;
  }
}
