/**
 How rows of children are cut, replaced, widened and merged.
 */
module BtreeRows {
  import opened BtreeSpec
  import opened BtreeNodes

  lemma UpsSplice(ks: seq<Key>, i: nat, tk: seq<Key>, hi: Bound)
    requires i <= |ks|
    ensures Ups(ks[..i] + tk + ks[i..], hi) == Ups(ks, hi)[..i] + Ups(tk, Ups(ks, hi)[i]) + Ups(ks, hi)[i + 1..]
  {
  }

  lemma UpsCut(ks: seq<Key>, d: nat, hi: Bound)
    requires d < |ks|
    ensures Ups(ks, hi)[..d + 1] == Ups(ks[..d], At(ks[d])) && Ups(ks, hi)[d + 1..] == Ups(ks[d + 1..], hi)
  {
  }

  lemma UpsJoin(ka: seq<Key>, sep: Key, kb: seq<Key>, hi: Bound)
    ensures Ups(ka + [sep] + kb, hi) == Ups(ka, At(sep)) + Ups(kb, hi)
  {
  }

  /** Every part of a row around one of its trees. */
  lemma {:induction false} RowAt(ts: seq<Node>, ups: seq<Bound>, i: nat, h: nat, lo: Bound)
    requires Row(ts, ups, h, lo) && i < |ts|
    ensures |ups| == |ts| && Row(ts[..i], ups[..i], h, lo)
    ensures Lt(Last(ups[..i], lo), ups[i]) && WF(ts[i], h, Last(ups[..i], lo), ups[i])
    ensures Row(ts[i + 1..], ups[i + 1..], h, ups[i])
  {
    hide WF;
    RowConcat(ts[..i], ups[..i], ts[i..], ups[i..], h, lo);
    assert ts[..i] + ts[i..] == ts && ups[..i] + ups[i..] == ups;
    assert ts[i..][1..] == ts[i + 1..] && ups[i..][1..] == ups[i + 1..];
  }

  /** Trees `i` to `j` may be replaced by any row between the same bounds. */
  lemma {:induction false} RowReplace(ts: seq<Node>, ups: seq<Bound>, i: nat, j: nat, mid: seq<Node>, um: seq<Bound>,
                                      h: nat, lo: Bound)
    requires Row(ts, ups, h, lo) && i < j <= |ts|
    requires Row(mid, um, h, Last(ups[..i], lo)) && mid != [] && Last(um, lo) == ups[j - 1]
    ensures Row(ts[..i] + mid + ts[j..], ups[..i] + um + ups[j..], h, lo)
  {
    hide WF, Row;
    assert |ts| == |ups| by { RowLength(ts, ups, h, lo); }
    assert |mid| == |um| by { RowLength(mid, um, h, Last(ups[..i], lo)); }
    RowConcat(ts[..j], ups[..j], ts[j..], ups[j..], h, lo);
    assert ts[..j] + ts[j..] == ts && ups[..j] + ups[j..] == ups;
    RowConcat(ts[..i], ups[..i], ts[i..j], ups[i..j], h, lo);
    assert ts[..i] + ts[i..j] == ts[..j] && ups[..i] + ups[i..j] == ups[..j];
    RowConcat(ts[..i], ups[..i], mid, um, h, lo);
    RowConcat(ts[..i] + mid, ups[..i] + um, ts[j..], ups[j..], h, lo);
  }

  lemma {:induction false} RowLength(ts: seq<Node>, ups: seq<Bound>, h: nat, lo: Bound)
    requires Row(ts, ups, h, lo)
    ensures |ts| == |ups|
  {
  }

  predicate Le(a: Bound, b: Bound)
  {
    a == b || Lt(a, b)
  }

  /** A tree within its bounds is within any wider ones. */
  lemma {:induction false} Widen(t: Node, h: nat, lo: Bound, hi: Bound, lo2: Bound, hi2: Bound)
    requires WF(t, h, lo, hi) && Le(lo2, lo) && Le(hi, hi2)
    ensures WF(t, h, lo2, hi2)
    decreases h, 0
  {
    if t.Leaf? {
      forall i | 0 <= i < |t.entries|
        ensures InRange(t.entries[i].key, lo2, hi2)
      {
        assert InRange(t.entries[i].key, lo, hi);
      }
    } else {
      WidenRow(t.children, Ups(t.keys, hi), h - 1, lo, lo2, hi2);
      assert Ups(t.keys, hi)[..|t.keys|] + [hi2] == Ups(t.keys, hi2);
    }
  }

  /** A row may start lower and end higher. */
  lemma {:induction false} WidenRow(ts: seq<Node>, ups: seq<Bound>, h: nat, lo: Bound, lo2: Bound, hi2: Bound)
    requires Row(ts, ups, h, lo) && ts != [] && Le(lo2, lo) && Le(Last(ups, lo), hi2)
    ensures Row(ts, ups[..|ups| - 1] + [hi2], h, lo2)
    decreases h, |ts| + 1
  {
    var us := ups[..|ups| - 1] + [hi2];
    if |ts| == 1 {
      Widen(ts[0], h, lo, ups[0], lo2, hi2);
      assert us == [hi2];
    } else {
      Widen(ts[0], h, lo, ups[0], lo2, ups[0]);
      WidenRow(ts[1..], ups[1..], h, ups[0], ups[0], hi2);
      assert us[1..] == ups[1..][..|ups| - 2] + [hi2];
    }
  }

  lemma {:induction false} WidenLow(ts: seq<Node>, ups: seq<Bound>, h: nat, lo: Bound, lo2: Bound)
    requires Row(ts, ups, h, lo) && Le(lo2, lo)
    ensures Row(ts, ups, h, lo2)
  {
    if ts != [] {
      WidenRow(ts, ups, h, lo, lo2, Last(ups, lo));
      assert ups[..|ups| - 1] + [Last(ups, lo)] == ups;
    }
  }

  lemma {:induction false} KeysIncreasing(cs: seq<Node>, ks: seq<Key>, h: nat, lo: Bound, hi: Bound)
    requires Row(cs, Ups(ks, hi), h, lo)
    ensures Increasing(ks)
    decreases |ks|
  {
    if |ks| > 1 {
      assert Ups(ks, hi)[1..] == Ups(ks[1..], hi);
      KeysIncreasing(cs[1..], ks[1..], h, At(ks[0]), hi);
      assert Lt(At(ks[0]), Ups(ks[1..], hi)[0]);
      assert ks[0] < ks[1];
      forall i, j | 0 <= i < j < |ks|
        ensures ks[i] < ks[j]
      {
        if i == 0 && j > 1 {
          assert ks[1..][0] < ks[1..][j - 1];
        } else if i > 0 {
          assert ks[1..][i - 1] < ks[1..][j - 1];
        }
      }
    }
  }

  /** The child searched for: everything before it is below the key, everything after it above. */
  lemma {:induction false} Around(cs: seq<Node>, ks: seq<Key>, i: nat, key: Key, h: nat, lo: Bound, hi: Bound)
    requires Row(cs, Ups(ks, hi), h, lo) && |cs| == |ks| + 1 && i <= |ks| && InRange(key, lo, hi)
    requires (forall j :: 0 <= j < i ==> ks[j] < key) && forall j :: i <= j < |ks| ==> key <= ks[j]
    ensures AllBelow(AllEntries(cs[..i]), key) && AllOver(AllEntries(cs[i + 1..]), key)
    ensures InRange(key, Last(Ups(ks, hi)[..i], lo), Ups(ks, hi)[i])
  {
    var ups := Ups(ks, hi);
    RowAt(cs, ups, i, h, lo);
    hide Row, WF;
    RowBelow(cs[..i], ups[..i], h, lo, key);
    RowOver(cs[i + 1..], ups[i + 1..], h, ups[i], key);
  }

  /** Taking out a tree leaves a row; a neighbour takes over its range. */
  lemma RowRemove(cs: seq<Node>, ks: seq<Key>, i: nat, h: nat, lo: Bound, hi: Bound)
    requires Row(cs, Ups(ks, hi), h, lo) && |cs| == |ks| + 1 && |cs| >= 2 && i < |cs|
    ensures Row(cs[..i] + cs[i + 1..], Ups(if i == |ks| then ks[..i - 1] else ks[..i] + ks[i + 1..], hi), h, lo)
  {
    var ups := Ups(ks, hi);
    RowAt(cs, ups, i, h, lo);
    hide Row, WF;
    if i == |ks| {
      assert ups[i] == hi && cs[i + 1..] == [];
      WidenRow(cs[..i], ups[..i], h, lo, lo, hi);
      assert ups[..i][..i - 1] + [hi] == Ups(ks[..i - 1], hi);
      assert cs[..i] + cs[i + 1..] == cs[..i];
    } else {
      WidenLow(cs[i + 1..], ups[i + 1..], h, ups[i], Last(ups[..i], lo));
      RowConcat(cs[..i], ups[..i], cs[i + 1..], ups[i + 1..], h, lo);
      assert ups[..i] + ups[i + 1..] == Ups(ks[..i] + ks[i + 1..], hi);
    }
  }

  /** Two neighbouring rows under their separator are one row. */
  lemma {:induction false} RowJoin(a: seq<Node>, ka: seq<Key>, sep: Key, b: seq<Node>, kb: seq<Key>, h: nat,
                                   lo: Bound, hi: Bound)
    requires Row(a, Ups(ka, At(sep)), h, lo) && Row(b, Ups(kb, hi), h, At(sep)) && |a| == |ka| + 1
    ensures Row(a + b, Ups(ka + [sep] + kb, hi), h, lo)
  {
    UpsJoin(ka, sep, kb, hi);
    RowConcat(a, Ups(ka, At(sep)), b, Ups(kb, hi), h, lo);
  }

  /** Cutting a long row at a separator gives two branches side by side. */
  lemma {:induction false} RowCut(cs: seq<Node>, ks: seq<Key>, d: nat, p: Page, q: Page, h: nat, lo: Bound, hi: Bound)
    requires Row(cs, Ups(ks, hi), h, lo) && |cs| == |ks| + 1 && 0 < d < |ks| - 1
    ensures Row([Branch(p, ks[..d], cs[..d + 1]), Branch(q, ks[d + 1..], cs[d + 1..])], Ups([ks[d]], hi), h + 1, lo)
  {
    var l, r := Branch(p, ks[..d], cs[..d + 1]), Branch(q, ks[d + 1..], cs[d + 1..]);
    UpsCut(ks, d, hi);
    var ups := Ups(ks, hi);
    assert cs[..d + 1] + cs[d + 1..] == cs && ups[..d + 1] + ups[d + 1..] == ups;
    RowConcat(cs[..d + 1], ups[..d + 1], cs[d + 1..], ups[d + 1..], h, lo);
    RowOrder(cs[..d + 1], ups[..d + 1], h, lo);
    RowOrder(cs[d + 1..], ups[d + 1..], h, At(ks[d]));
    assert WF(l, h + 1, lo, At(ks[d])) && WF(r, h + 1, At(ks[d]), hi);
    RowSingle(l, h + 1, lo, At(ks[d]));
    RowSingle(r, h + 1, At(ks[d]), hi);
    RowConcat([l], [At(ks[d])], [r], [hi], h + 1, lo);
    assert [l] + [r] == [l, r] && [At(ks[d])] + [hi] == Ups([ks[d]], hi);
  }

  lemma {:induction false} RowWhole(cs: seq<Node>, ks: seq<Key>, p: Page, h: nat, lo: Bound, hi: Bound)
    requires Row(cs, Ups(ks, hi), h, lo) && |cs| == |ks| + 1 && |cs| >= 2
    ensures Row([Branch(p, ks, cs)], Ups([], hi), h + 1, lo) && WF(Branch(p, ks, cs), h + 1, lo, hi)
  {
    RowOrder(cs, Ups(ks, hi), h, lo);
    assert WF(Branch(p, ks, cs), h + 1, lo, hi);
    RowSingle(Branch(p, ks, cs), h + 1, lo, hi);
    assert Ups([], hi) == [hi];
  }

  /** Sorted pairs within bounds, cut anywhere inside, give two leaves side by side. */
  lemma {:induction false} LeafCut(es: seq<Entry>, d: nat, p: Page, pr: nat, q: Page, qr: nat, lo: Bound, hi: Bound)
    requires Sorted(es) && Within(es, lo, hi) && 0 < d < |es|
    ensures Row([Leaf(p, pr, es[..d]), Leaf(q, qr, es[d..])], Ups([es[d - 1].key], hi), 0, lo)
  {
    var l, r, k := Leaf(p, pr, es[..d]), Leaf(q, qr, es[d..]), es[d - 1].key;
    assert InRange(es[d].key, lo, hi) && InRange(k, lo, hi);
    assert WF(l, 0, lo, At(k)) && WF(r, 0, At(k), hi);
    RowSingle(l, 0, lo, At(k));
    RowSingle(r, 0, At(k), hi);
    RowConcat([l], [At(k)], [r], [hi], 0, lo);
    assert [l] + [r] == [l, r] && [At(k)] + [hi] == Ups([k], hi);
  }

  lemma {:induction false} LeafWhole(es: seq<Entry>, p: Page, pr: nat, lo: Bound, hi: Bound)
    requires Sorted(es) && Within(es, lo, hi) && es != []
    ensures Row([Leaf(p, pr, es)], Ups([], hi), 0, lo) && WF(Leaf(p, pr, es), 0, lo, hi)
  {
    assert InRange(es[0].key, lo, hi);
    assert WF(Leaf(p, pr, es), 0, lo, hi);
    RowSingle(Leaf(p, pr, es), 0, lo, hi);
    assert Ups([], hi) == [hi];
  }
}
