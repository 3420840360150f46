/**
 Where the layers meet: what an edit of one B-tree does to pages is the data-tree step of the
 page-lifetime protocol, and the sizes the B-tree decides by are those of the leaf's bytes.
 */
module Layers {
  import B = BtreePages
  import S = Store
  import I = StoreInv
  import C = StoreProof
  import P = StoreExact
  import Y = StoreSafety
  import opened BtreeSpec
  import N = BtreeNodes
  import L = LeafLayout
  import E = LeafEditor
  import O = LeafOverwrite
  import F = LeafBuilder

  ghost function Listed(s: seq<nat>): set<nat>
  {
    set p | p in s
  }

  ghost function Bag(m: multiset<nat>): set<nat>
  {
    set p | p in m
  }

  lemma InOnePlace(m: B.Mem, pages: multiset<nat>, rest: multiset<nat>, p: nat)
    requires B.Owned(m, pages, rest)
    ensures p in m.inUse <==> p in rest || p in pages || p in m.freed
    ensures !(p in rest && p in pages) && !(p in rest && p in m.freed) && !(p in pages && p in m.freed)
  {
    assert multiset(m.inUse)[p] == rest[p] + pages[p] + multiset(m.freed)[p];
  }

  /** The pages an edit takes and the pages of the old tree it no longer has. */
  ghost function Taken(a: B.Mem, b: B.Mem): set<nat>
  {
    b.inUse - a.inUse
  }

  ghost function Left(before: multiset<nat>, after: multiset<nat>): set<nat>
  {
    Bag(before) - Bag(after)
  }

  ghost predicate Edited(a: B.Mem, b: B.Mem, before: multiset<nat>, after: multiset<nat>, rest: multiset<nat>)
  {
    B.Owned(a, before, rest) && B.Owned(b, after, rest) && B.Evolves(a, b, true, rest) && B.Settled(a)
  }

  lemma EditOne(a: B.Mem, b: B.Mem, before: multiset<nat>, after: multiset<nat>, rest: multiset<nat>, p: nat)
    requires Edited(a, b, before, after, rest)
    ensures var alloc, drop := Taken(a, b), Left(before, after); var gone := drop * a.uncommitted;
      && (p in b.inUse <==> p in a.inUse - gone + alloc)
      && (p in b.uncommitted <==> p in a.uncommitted - gone + alloc)
      && (p in after <==> p in Bag(before) - drop + alloc)
      && (p in b.freed <==> p in Listed(a.freed) + (drop - gone))
  {
    InOnePlace(a, before, rest, p);
    InOnePlace(b, after, rest, p);
    hide B.Owned;
    assert p in a.freed ==> p in b.freed;
  }

  /** The writer of the protocol works on the page manager of the tree; other tables have their pages in `others`. */
  ghost predicate WorksOn(s: S.State, m: B.Mem, pages: multiset<nat>, others: set<nat>)
  {
    && s.inUse == m.inUse && s.uncommitted == m.uncommitted && s.w.queued == Listed(m.freed)
    && s.w.world.data == others + Bag(pages)
  }

  /**
   An edit that accounts for its pages, frees in place and leaves the pages of others alone is a
   data-tree step of the protocol: the pages it takes were not in use, those it drops were the
   tree's, and the step leads to the very sets the edit leaves.
   */
  lemma EditIsMutate(s: S.State, a: B.Mem, b: B.Mem, before: multiset<nat>, after: multiset<nat>, rest: multiset<nat>,
                     others: set<nat>)
    requires Edited(a, b, before, after, rest) && WorksOn(s, a, before, others) && others <= Bag(rest)
    ensures var alloc, drop := Taken(a, b), Left(before, after);
      && alloc !! s.inUse && drop <= s.w.world.data
      && WorksOn(S.DoMutate(s, alloc, drop), b, after, others)
      && B.Settled(b)
  {
    hide B.Owned, B.Evolves;
    var alloc, drop := Taken(a, b), Left(before, after);
    var r := S.DoMutate(s, alloc, drop);
    forall p
      ensures p in r.inUse <==> p in b.inUse
      ensures p in r.uncommitted <==> p in b.uncommitted
      ensures p in r.w.queued <==> p in Listed(b.freed)
      ensures p in r.w.world.data <==> p in others + Bag(after)
    {
      EditOne(a, b, before, after, rest, p);
      InOnePlace(a, before, rest, p);
    }
    StaysSettled(a, b, rest);
  }

  lemma StaysSettled(a: B.Mem, b: B.Mem, rest: multiset<nat>)
    requires B.Evolves(a, b, true, rest) && B.Settled(a)
    ensures B.Settled(b)
  {
    hide B.Settled;
  }

  /** So every edit of a B-tree keeps everything the protocol relies on. */
  lemma EditKeepsProtocol(s: S.State, a: B.Mem, b: B.Mem, before: multiset<nat>, after: multiset<nat>,
                          rest: multiset<nat>, others: set<nat>)
    requires I.Core(s) && s.phase.Active? && s.w.tablesOpen
    requires Edited(a, b, before, after, rest) && WorksOn(s, a, before, others) && others <= Bag(rest)
    ensures var r := S.DoMutate(s, Taken(a, b), Left(before, after));
      && I.Core(r) && (I.Inv(s) ==> I.Inv(r))
      && (forall x, y :: Y.Sound(s, x, y) ==> Y.Sound(r, Y.Borne(x, Taken(a, b), s.w.id), y))
  {
    hide I.Core, I.Inv, Y.Sound, Y.Borne, Edited, WorksOn, Taken, Left;
    EditIsMutate(s, a, b, before, after, rest, others);
    hide S.DoMutate;
    C.CoreMutate(s, Taken(a, b), Left(before, after));
    if I.Inv(s) {
      P.KeepMutate(s, Taken(a, b), Left(before, after));
    }
    forall x, y | Y.Sound(s, x, y)
      ensures Y.Sound(S.DoMutate(s, Taken(a, b), Left(before, after)), Y.Borne(x, Taken(a, b), s.w.id), y)
    {
      Y.SoundMutate(s, Taken(a, b), Left(before, after), x, y);
    }
  }

  // ----- entries and bytes -----

  ghost function WidthsOf(f: N.Format): L.Widths
  {
    L.Widths(f.fixedKey, f.fixedValue)
  }

  ghost predicate SameLengths(f: N.Format, e: Entry, p: L.Pair)
  {
    f.keyLen(e.key) == |p.key| && |e.value| == |p.value|
  }

  ghost predicate Encodes(f: N.Format, es: seq<Entry>, ps: seq<L.Pair>)
  {
    |es| == |ps| && forall i :: 0 <= i < |es| ==> SameLengths(f, es[i], ps[i])
  }

  /** The size the tree computes for a leaf is the length of its layout. */
  lemma {:induction false} SameSize(f: N.Format, es: seq<Entry>, ps: seq<L.Pair>)
    requires Encodes(f, es, ps)
    ensures N.PairBytes(f, es) == |L.Keys(ps)| + |L.Values(ps)| && N.LeafBytes(f, es) == L.Total(WidthsOf(f), ps)
    decreases |es|
  {
    if es != [] {
      var n := |es| - 1;
      SameSize(f, es[..n], ps[..n]);
      assert ps == ps[..n] + [ps[n]];
      F.Snoc(ps[..n], ps[n], 0, 0);
      assert SameLengths(f, es[n], ps[n]);
    }
  }

  /** The tree edits a leaf in place exactly when the layout of the edited leaf fits its page. */
  lemma SameSpaceTest(f: N.Format, es: seq<Entry>, ps: seq<L.Pair>, page: seq<L.Byte>, order: nat, i: nat,
                      found: bool, e: Entry, x: L.Pair)
    requires L.Holds(page, WidthsOf(f), ps) && ps != [] && Encodes(f, es, ps) && SameLengths(f, e, x)
    requires i <= |ps| && (found ==> i < |ps|) && (order > 0 <==> |page| > N.PAGE_SIZE)
    ensures L.NumPairs(page) == |ps| && L.KeyStart(WidthsOf(f), |ps|) <= |page|
    ensures N.SufficientSpace(f, |page|, es, i, found, e.key, e.value) <==>
      O.SufficientSpace(page, WidthsOf(f), order, i, found, x.key, x.value)
  {
    assert |es| == |ps|;
    hide L.Holds, L.Total, L.NumPairs, O.SufficientSpace, N.LeafBytes, N.PairBytes, Encodes;
    O.SpaceExact(page, WidthsOf(f), ps, order, i, x.key, x.value);
    assert x == L.Pair(x.key, x.value);
    if found {
      OverwriteSize(f, es, ps, i, x);
    } else {
      InsertSize(f, es, ps, i, x);
    }
  }

  lemma {:induction false} OverwriteSize(f: N.Format, es: seq<Entry>, ps: seq<L.Pair>, i: nat, x: L.Pair)
    requires Encodes(f, es, ps) && i < |ps|
    ensures L.Total(WidthsOf(f), ps[i := x]) == N.LeafBytes(f, es) - N.PairBytes(f, [es[i]]) + |x.key| + |x.value|
  {
    var w, a, y, b := WidthsOf(f), ps[..i], ps[i], ps[i + 1..];
    assert SameLengths(f, es[i], y);
    hide L.Total, N.LeafBytes, N.PairBytes, L.Keys, L.Values, L.KeyTable, L.ValueTable;
    SameSize(f, es, ps);
    SameSize(f, [es[i]], [y]);
    hide Encodes;
    assert ps == a + [y] + b && ps[i := x] == a + [x] + b;
    E.InsertedTotal(w, a, y, b);
    E.InsertedTotal(w, a, x, b);
    E.OnePair(w, y, 0);
  }

  lemma InsertSize(f: N.Format, es: seq<Entry>, ps: seq<L.Pair>, i: nat, x: L.Pair)
    requires Encodes(f, es, ps) && i <= |ps|
    ensures L.Total(WidthsOf(f), ps[..i] + [x] + ps[i..])
      == N.LeafBytes(f, es) + |x.key| + |x.value| + (if f.fixedKey.None? then 4 else 0)
        + (if f.fixedValue.None? then 4 else 0)
  {
    hide L.Total, N.LeafBytes, N.PairBytes, Encodes, L.Keys, L.Values;
    SameSize(f, es, ps);
    assert ps == ps[..i] + ps[i..];
    E.InsertedTotal(WidthsOf(f), ps[..i], x, ps[i..]);
  }
}
