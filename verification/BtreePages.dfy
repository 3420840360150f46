/**
 Page bookkeeping of a B-tree mutation: what is in use, what was allocated since the last commit,
 and what is queued for freeing.
 */
module BtreePages {
  import opened BtreeSpec
  import opened BtreeNodes

  datatype Mem = Mem(inUse: set<Page>, uncommitted: set<Page>, freed: seq<Page>)

  /** Every page in use is in the tree at hand, queued for freeing, or somebody else's; exactly once. */
  ghost predicate Owned(m: Mem, pages: multiset<Page>, rest: multiset<Page>)
  {
    multiset(m.inUse) == rest + pages + multiset(m.freed) && m.uncommitted <= m.inUse
  }

  function AfterAlloc(m: Mem, p: Page): Mem
  {
    Mem(m.inUse + {p}, m.uncommitted + {p}, m.freed)
  }

  /** Freed at once if it never was committed and may be modified, otherwise queued. */
  function AfterFree(m: Mem, p: Page, inPlace: bool): Mem
  {
    if inPlace && p in m.uncommitted then Mem(m.inUse - {p}, m.uncommitted - {p}, m.freed)
    else m.(freed := m.freed + [p])
  }

  /** A page whose content a mutation may set: it was not in use, or is uncommitted and may be modified. */
  ghost predicate Writable(m: Mem, inPlace: bool, p: Page)
  {
    p !in m.inUse || (inPlace && p in m.uncommitted)
  }

  /** Committed pages are neither released nor taken back, and what belongs to others is left alone. */
  ghost predicate Evolves(a: Mem, b: Mem, inPlace: bool, rest: multiset<Page>)
  {
    && a.freed <= b.freed
    && (forall p :: p in a.inUse && p !in b.inUse ==> inPlace && p in a.uncommitted)
    && (forall p :: p in a.inUse && p in b.uncommitted ==> p in a.uncommitted)
    && (forall p :: p in rest ==> p in b.inUse)
    && (forall p :: p in a.uncommitted && p in b.inUse ==> p in b.uncommitted)
    && (forall p :: p in b.inUse && p !in a.inUse ==> p in b.uncommitted)
    && (inPlace && Settled(a) ==> Settled(b))
  }

  /** Only committed pages are queued. */
  ghost predicate Settled(m: Mem)
  {
    forall p :: p in m.freed ==> p !in m.uncommitted
  }

  /** Every node of the new tree is a node of the old one, unchanged, or sits on a page that could be written. */
  ghost predicate Written(m: Mem, inPlace: bool, before: set<Node>, after: set<Node>)
  {
    forall n :: n in after ==> n in before || Writable(m, inPlace, n.page)
  }

  lemma EvolvesRefl(m: Mem, inPlace: bool, pages: multiset<Page>, rest: multiset<Page>)
    requires Owned(m, pages, rest)
    ensures Evolves(m, m, inPlace, rest + pages)
  {
    assert forall p :: p in rest + pages ==> p in multiset(m.inUse);
  }

  lemma EvolvesTrans(a: Mem, b: Mem, c: Mem, inPlace: bool, rest: multiset<Page>, r1: multiset<Page>,
                     r2: multiset<Page>)
    requires Evolves(a, b, inPlace, r1) && Evolves(b, c, inPlace, r2) && rest <= r1 && rest <= r2
    ensures Evolves(a, c, inPlace, rest)
  {
    forall p | p in rest
      ensures p in r1 && p in r2
    {
    }
  }

  lemma EvolvesLess(a: Mem, b: Mem, inPlace: bool, rest: multiset<Page>, r1: multiset<Page>)
    requires Evolves(a, b, inPlace, r1) && rest <= r1
    ensures Evolves(a, b, inPlace, rest)
  {
    forall p | p in rest
      ensures p in r1
    {
    }
  }

  lemma AllocOwned(m: Mem, p: Page, inPlace: bool, pages: multiset<Page>, rest: multiset<Page>)
    requires Owned(m, pages, rest) && p !in m.inUse
    ensures Owned(AfterAlloc(m, p), pages + multiset{p}, rest) && Evolves(m, AfterAlloc(m, p), inPlace, rest + pages)
  {
    assert multiset(m.inUse + {p}) == multiset(m.inUse) + multiset{p};
    assert forall q :: q in rest + pages ==> q in multiset(m.inUse);
    assert forall q :: q in m.freed ==> q in multiset(m.freed) && q in multiset(m.inUse);
  }

  lemma FreeOwned(m: Mem, p: Page, inPlace: bool, pages: multiset<Page>, rest: multiset<Page>)
    requires Owned(m, pages + multiset{p}, rest)
    ensures p in m.inUse
    ensures Owned(AfterFree(m, p, inPlace), pages, rest) && Evolves(m, AfterFree(m, p, inPlace), inPlace, rest + pages)
  {
    assert p in pages + multiset{p};
    assert p in multiset(m.inUse);
    assert multiset(m.inUse - {p}) == multiset(m.inUse) - multiset{p};
    assert multiset(m.freed + [p]) == multiset(m.freed) + multiset{p};
    assert multiset(m.inUse)[p] == 1 by { assert p in multiset(m.inUse); }
    assert forall q :: q in rest + pages ==> q in multiset(m.inUse) && q != p by {
      assert (rest + pages)[p] == 0;
    }
  }

  /** What could be written later in a mutation could be written at its start. */
  lemma WritableBack(a: Mem, b: Mem, inPlace: bool, rest: multiset<Page>, p: Page)
    requires Evolves(a, b, inPlace, rest) && Writable(b, inPlace, p)
    ensures Writable(a, inPlace, p)
  {
  }

  lemma WrittenBack(a: Mem, b: Mem, inPlace: bool, rest: multiset<Page>, before: set<Node>, after: set<Node>)
    requires Evolves(a, b, inPlace, rest) && Written(b, inPlace, before, after)
    ensures Written(a, inPlace, before, after)
  {
    forall n | n in after && n !in before
      ensures Writable(a, inPlace, n.page)
    {
      WritableBack(a, b, inPlace, rest, n.page);
    }
  }

  class PageManager {
    const format: Format
    const modifyUncommitted: bool
    var inUse: set<Page>
    var uncommitted: set<Page>
    var freed: seq<Page>

    constructor (format: Format, modifyUncommitted: bool, m: Mem)
      ensures this.format == format && this.modifyUncommitted == modifyUncommitted && State() == m
    {
      this.format, this.modifyUncommitted := format, modifyUncommitted;
      inUse, uncommitted, freed := m.inUse, m.uncommitted, m.freed;
    }

    function State(): Mem
      reads this
    {
      Mem(inUse, uncommitted, freed)
    }

    /** Some page not in use, with room for the bytes asked for. */
    method Allocate(size: nat) returns (p: Page, room: nat)
      modifies this
      ensures p !in old(inUse) && room >= size && State() == AfterAlloc(old(State()), p)
    {
      p := 0;
      ghost var tried: set<Page> := {};
      while p in inUse
        invariant State() == old(State()) && tried <= inUse && forall q :: q in tried <==> 0 <= q < p
        decreases |inUse| - |tried|
      {
        assert tried + {p} <= inUse;
        Subset(tried + {p}, inUse);
        tried := tried + {p};
        p := p + 1;
      }
      room := PAGE_SIZE;
      while room < size
        invariant room > 0 && State() == old(State())
      {
        room := room * 2;
      }
      inUse := inUse + {p};
      uncommitted := uncommitted + {p};
    }

    method ConditionalFree(p: Page)
      requires p in inUse
      modifies this
      ensures State() == AfterFree(old(State()), p, modifyUncommitted)
    {
      if modifyUncommitted {
        if p in uncommitted {
          uncommitted := uncommitted - {p};
          inUse := inUse - {p};
        } else {
          freed := freed + [p];
        }
      } else {
        freed := freed + [p];
      }
    }

    method BuildLeaf(es: seq<Entry>, ghost pages: multiset<Page>, ghost rest: multiset<Page>) returns (n: Node)
      requires Owned(State(), pages, rest)
      modifies this
      ensures n.Leaf? && n.entries == es && n.page !in old(inUse) && n.room >= LeafBytes(format, es)
      ensures Owned(State(), pages + multiset{n.page}, rest)
        && Evolves(old(State()), State(), modifyUncommitted, rest + pages)
    {
      var p, room := Allocate(LeafBytes(format, es));
      AllocOwned(old(State()), p, modifyUncommitted, pages, rest);
      n := Leaf(p, room, es);
    }

    method BuildBranch(cs: seq<Node>, ks: seq<Key>, ghost pages: multiset<Page>, ghost rest: multiset<Page>)
      returns (n: Node)
      requires Owned(State(), pages, rest)
      modifies this
      ensures n == Branch(n.page, ks, cs) && n.page !in old(inUse)
      ensures Owned(State(), pages + multiset{n.page}, rest)
        && Evolves(old(State()), State(), modifyUncommitted, rest + pages)
    {
      var p, room := Allocate(BranchBytes(format, ks));
      AllocOwned(old(State()), p, modifyUncommitted, pages, rest);
      n := Branch(p, ks, cs);
    }

    /** Releases a page that the new tree no longer uses. */
    method Release(p: Page, ghost pages: multiset<Page>, ghost rest: multiset<Page>)
      requires Owned(State(), pages + multiset{p}, rest)
      modifies this
      ensures Owned(State(), pages, rest) && Evolves(old(State()), State(), modifyUncommitted, rest + pages)
      ensures State() == AfterFree(old(State()), p, modifyUncommitted)
    {
      FreeOwned(State(), p, modifyUncommitted, pages, rest);
      ConditionalFree(p);
    }
  }

  lemma {:induction false} Subset(a: set<Page>, b: set<Page>)
    requires a <= b
    ensures |a| <= |b|
    decreases a
  {
    if a != {} {
      var x :| x in a;
      Subset(a - {x}, b - {x});
    }
  }
}
