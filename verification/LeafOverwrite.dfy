/**
 Overwriting a value in place, reading a pair, and the test for the space an edit needs.
 */
module LeafOverwrite {
  import opened LeafLayout
  import opened LeafEditor
  import opened LeafRemove

  // ----- overwriting -----

  method ShiftValueEnds(page: array<Byte>, w: Widths, n: nat, from: nat, to: nat, delta: int, ghost vs: seq<nat>)
    requires |vs| == n && KeyStart(w, n) <= page.Length && Table(page[..], 4 + w.KeyTableLen(n), w.value, vs)
      && Shiftable(vs, from, to, delta)
    modifies page
    ensures Table(page[..], 4 + w.KeyTableLen(n), w.value, Shifted(vs, from, to, delta))
    ensures page[..4 + w.KeyTableLen(n)] == old(page[..4 + w.KeyTableLen(n)])
      && page[KeyStart(w, n)..] == old(page[KeyStart(w, n)..])
  {
    hide Table;
    assert Shifted(vs, from, from, delta) == vs;
    for j := from to to
      invariant Table(page[..], 4 + w.KeyTableLen(n), w.value, Shifted(vs, from, j, delta))
      invariant page[..4 + w.KeyTableLen(n)] == old(page[..4 + w.KeyTableLen(n)])
        && page[KeyStart(w, n)..] == old(page[KeyStart(w, n)..])
    {
      UpdateValueEnd(page, w, n, j, delta, Shifted(vs, from, j, delta));
      assert Shifted(vs, from, j + 1, delta) == Shifted(vs, from, j, delta)[j := vs[j] + delta];
    }
  }

  /** From the changed value on, every end moves by the change in length. */
  lemma {:induction false} ResizedEnds(a: seq<Pair>, x: Pair, y: Pair, b: seq<Pair>, at: nat)
    requires at + |Values(a)| + |y.value| + |Values(b)| < MAX_U32
    ensures var vs, i, n, delta := ValueEnds(a + [x] + b, at), |a|, |a| + 1 + |b|, |y.value| - |x.value|;
      Shiftable(vs, i, n, delta) && Shifted(vs, i, n, delta) == ValueEnds(a + [y] + b, at)
  {
    var va, delta := at + |Values(a)|, |y.value| - |x.value|;
    assert a + [x] + b == a + ([x] + b) && a + [y] + b == a + ([y] + b);
    ValueEndsConcat(a, [x] + b, at);
    ValueEndsConcat(a, [y] + b, at);
    EndsCons(x, b, 0, va);
    EndsCons(y, b, 0, va);
    hide Values, ValueEnds, Shiftable, Shifted;
    ResizedSegment(ValueEnds(a, at), va + |x.value|, b, delta);
  }

  lemma ResizedSegment(ends: seq<nat>, e: nat, b: seq<Pair>, delta: int)
    requires 0 <= e + delta && e + delta + |Values(b)| < MAX_U32
    ensures var vs, i, n := ends + ([e] + ValueEnds(b, e)), |ends|, |ends| + 1 + |b|;
      Shiftable(vs, i, n, delta) && Shifted(vs, i, n, delta) == ends + ([e + delta] + ValueEnds(b, e + delta))
  {
    hide Values, Shiftable, Shifted;
    ValueSegment(ends + [e], b, e, [], delta);
    var vs, i, n := ends + ([e] + ValueEnds(b, e)), |ends|, |ends| + 1 + |b|;
    assert ends + [e] + ValueEnds(b, e) + [] == vs;
    hide ValueEnds;
    OneMore(vs, i, n, delta);
    assert Shifted(vs, i, n, delta) == (ends + [e] + ValueEnds(b, e + delta) + [])[i := e + delta];
    assert (ends + [e] + ValueEnds(b, e + delta) + [])[i := e + delta] == ends
      + ([e + delta] + ValueEnds(b, e + delta));
  }

  lemma OneMore(vs: seq<nat>, i: nat, n: nat, delta: int)
    requires i < n <= |vs| && Shiftable(vs, i + 1, n, delta) && 0 <= vs[i] + delta < MAX_U32
    ensures Shiftable(vs, i, n, delta) && Shifted(vs, i, n, delta) == Shifted(vs, i + 1, n, delta)[i := vs[i] + delta]
  {
  }

  /** Moves [s, end) so that `value` fits between `vs` and it, whichever way that is. */
  method Refit(page: array<Byte>, vs: nat, s: nat, end: nat, value: seq<Byte>, ghost p: seq<Byte>)
    requires vs <= s <= end <= page.Length && vs + |value| + (end - s) <= page.Length && page[..] == p
    modifies page
    ensures page[..vs] == p[..vs] && page[vs..vs + |value| + (end - s)] == value + p[s..end]
  {
    var dest := vs + |value|;
    CopyWithin(page, s, end, dest);
    ghost var q := page[..];
    Write(page, vs, value);
    ghost var r, top := page[..], dest + (end - s);
    Before(p, q, dest, 0, vs);
    After(q, r, dest, dest, dest + end - s);
    Glue(r, vs, dest, top);
  }

  lemma {:induction false} ResizedValues(w: Widths, a: seq<Pair>, x: Pair, y: Pair, b: seq<Pair>)
    requires x.key == y.key
    ensures Keys(a + [y] + b) == Keys(a + [x] + b) && Values(a + [y] + b) == Values(a) + y.value + Values(b)
    ensures forall at: nat :: KeyTable(w, a + [y] + b, at) == KeyTable(w, a + [x] + b, at)
  {
    hide KeyTable, ValueTable, Keys, Values, KeyPointer, ValuePointer;
    InsertedKeys(w, a, x, b, 0);
    InsertedKeys(w, a, y, b, 0);
    InsertedValues(w, a, y, b, 0);
    forall at: nat
      ensures KeyTable(w, a + [y] + b, at) == KeyTable(w, a + [x] + b, at)
    {
      InsertedKeys(w, a, x, b, at);
      InsertedKeys(w, a, y, b, at);
    }
  }

  /** The value ends of a page that holds pairs. */
  lemma {:induction false} ValueEndsHeld(page: seq<Byte>, w: Widths, ps: seq<Pair>)
    requires Holds(page, w, ps)
    ensures Table(page, 4 + w.KeyTableLen(|ps|), w.value, ValueEnds(ps, KeyStart(w, |ps|) + |Keys(ps)|))
  {
    hide Keys, Values, ValueEnds, KeyEnds, Offsets, Small, Body, Le16, AllFit;
    PageParts(page, w, ps);
    EndsBounded(ps, KeyStart(w, |ps|));
  }

  lemma {:induction false} ResizedTotal(w: Widths, a: seq<Pair>, x: Pair, y: Pair, b: seq<Pair>)
    requires x.key == y.key
    ensures Total(w, a + [y] + b) == Total(w, a + [x] + b) - |x.value| + |y.value|
    ensures Total(w, a + [y] + b) == KeyStart(w, |a| + 1 + |b|) + |Keys(a + [x] + b)| + |Values(a)| + |y.value|
      + |Values(b)|
  {
    hide Keys, Values, KeyTable, ValueTable;
    ResizedValues(w, a, x, y, b);
    InsertedValues(w, a, x, b, 0);
  }

  /** Pointers updated for the value to come; the old one is still there. */
  ghost predicate Resizing(p: seq<Byte>, w: Widths, a: seq<Pair>, x: Pair, y: Pair, b: seq<Pair>)
  {
    var n, ps := |a| + 1 + |b|, a + [y] + b;
    var base, at := 4 + w.KeyTableLen(n), KeyStart(w, n);
    var vat := at + |Keys(ps)|;
    var vs := vat + |Values(a)|;
    var s := vs + |x.value|;
    var end := s + |Values(b)|;
    && end <= |p| && p[4..base] == KeyTable(w, ps, at) && p[base..at] == ValueTable(w, ps, vat)
    && p[at..vat] == Keys(ps) && p[vat..vs] == Values(a) && p[s..end] == Values(b)
  }

  /** The moves of an overwrite. */
  method RefitValue(page: array<Byte>, w: Widths, vs: nat, s: nat, end: nat, value: seq<Byte>, ghost a: seq<Pair>,
                    ghost x: Pair, ghost b: seq<Pair>)
    requires Resizing(page[..], w, a, x, Pair(x.key, value), b) && Total(w, a + [Pair(x.key, value)] + b) <= page.Length
    requires vs == KeyStart(w, |a| + 1 + |b|) + |Keys(a + [Pair(x.key, value)] + b)| + |Values(a)|
      && s == vs + |x.value| && end == s + |Values(b)| && end <= page.Length
    modifies page
    ensures page[..4] == old(page[..4]) && page[4..Total(w, a + [Pair(x.key, value)] + b)] ==
      Body(w, a + [Pair(x.key, value)] + b)
  {
    hide Resizing, Body, Keys, Values, Total;
    ghost var p, y := page[..], Pair(x.key, value);
    ResizedTotal(w, a, x, y, b);
    ResizedValues(w, a, x, y, b);
    Refit(page, vs, s, end, value, p);
    ResizedBody(p, page[..], w, a, x, y, b);
    Before(p, page[..], vs, 0, 4);
  }

  lemma {:induction false} ResizedBody(p: seq<Byte>, q: seq<Byte>, w: Widths, a: seq<Pair>, x: Pair, y: Pair,
                                       b: seq<Pair>)
    requires Resizing(p, w, a, x, y, b) && x.key == y.key && |p| == |q|
    requires var vs := KeyStart(w, |a| + 1 + |b|) + |Keys(a + [y] + b)| + |Values(a)|; var s := vs + |x.value|;
      var end := s + |Values(b)|;
      && end <= |p| && vs + |y.value| + |Values(b)| <= |q| && q[..vs] == p[..vs]
        && q[vs..vs + |y.value| + |Values(b)|] == y.value + p[s..end]
    ensures Total(w, a + [y] + b) <= |q| && q[4..Total(w, a + [y] + b)] == Body(w, a + [y] + b)
  {
    hide Resizing, Keys, Values, Total, KeyTable, ValueTable, Body;
    ResizedParts(p, q, w, a, x, y, b);
    LaidOut(w, a, x, y, b);
  }

  lemma {:induction false} ResizedParts(p: seq<Byte>, q: seq<Byte>, w: Widths, a: seq<Pair>, x: Pair, y: Pair,
                                        b: seq<Pair>)
    requires Resizing(p, w, a, x, y, b) && |p| == |q|
    requires var vs := KeyStart(w, |a| + 1 + |b|) + |Keys(a + [y] + b)| + |Values(a)|; var s := vs + |x.value|;
      var end := s + |Values(b)|;
      && end <= |p| && vs + |y.value| + |Values(b)| <= |q| && q[..vs] == p[..vs]
        && q[vs..vs + |y.value| + |Values(b)|] == y.value + p[s..end]
    ensures var ps, at := a + [y] + b, KeyStart(w, |a| + 1 + |b|); var vat := at + |Keys(ps)|;
      q[4..vat + |Values(a)| + |y.value| + |Values(b)|] == KeyTable(w, ps, at) + ValueTable(w, ps, vat) + Keys(ps)
        + (Values(a) + (y.value + Values(b)))
  {
    hide Keys, Values, KeyTable, ValueTable;
    var ps, at := a + [y] + b, KeyStart(w, |a| + 1 + |b|);
    var vat := at + |Keys(ps)|;
    ResizedPage(p, q, vat + |Values(a)| + |x.value|, KeyTable(w, ps, at), ValueTable(w, ps, vat), Keys(ps), Values(a),
                y.value, Values(b));
  }

  lemma ResizedPage(p: seq<Byte>, q: seq<Byte>, s: nat, kt: seq<Byte>, vt: seq<Byte>, k: seq<Byte>, va: seq<Byte>,
                    v: seq<Byte>, vb: seq<Byte>)
    requires var base := 4 + |kt|; var at := base + |vt|; var vat := at + |k|; var vs := vat + |va|;
      var end := s + |vb|;
      && vs <= s && end <= |p| && |q| == |p| && vs + |v| + |vb| <= |q|
      && p[4..base] == kt && p[base..at] == vt && p[at..vat] == k && p[vat..vs] == va && p[s..end] == vb
      && q[..vs] == p[..vs] && q[vs..vs + |v| + |vb|] == v + p[s..end]
    ensures q[4..4 + |kt| + |vt| + |k| + |va| + |v| + |vb|] == kt + vt + k + (va + (v + vb))
  {
    var base := 4 + |kt|;
    var at := base + |vt|;
    var vat := at + |k|;
    var vs := vat + |va|;
    FiveParts(p, q, base, at, vat, vs, vs + |v| + |vb|);
  }

  lemma {:induction false} LaidOut(w: Widths, a: seq<Pair>, x: Pair, y: Pair, b: seq<Pair>)
    requires x.key == y.key
    ensures var n, ps := |a| + 1 + |b|, a + [y] + b; var at := KeyStart(w, n); var vat := at + |Keys(ps)|;
      && Total(w, ps) == vat + |Values(a)| + |y.value| + |Values(b)|
      && Body(w, ps) == KeyTable(w, ps, at) + ValueTable(w, ps, vat) + Keys(ps) + (Values(a) + (y.value + Values(b)))
  {
    hide Keys, Values, Total, KeyTable, ValueTable;
    ResizedTotal(w, a, x, y, b);
    ResizedValues(w, a, x, y, b);
    assert Values(a) + y.value + Values(b) == Values(a) + (y.value + Values(b));
  }

  lemma ThreeParts(page: seq<Byte>, base: nat, a: seq<Byte>, b: seq<Byte>, c: seq<Byte>)
    requires base + |a| + |b| + |c| <= |page| && page[base..base + |a| + |b| + |c|] == a + b + c
    ensures page[base..base + |a|] == a && page[base + |a|..base + |a| + |b|] == b
      && page[base + |a| + |b|..base + |a| + |b| + |c|] == c
  {
    TwoParts(page, base, a + b, c);
    TwoParts(page, base, a, b);
  }

  lemma FiveParts(p: seq<Byte>, q: seq<Byte>, base: nat, at: nat, vat: nat, vs: nat, top: nat)
    requires |p| == |q| && 4 <= base <= at <= vat <= vs <= top <= |p| && q[..vs] == p[..vs]
    ensures q[4..top] == p[4..base] + p[base..at] + p[at..vat] + (p[vat..vs] + q[vs..top])
  {
    Before(p, q, vs, 4, vs);
    Glue(q, 4, vs, top);
    Glue(p, 4, base, at);
    Glue(p, 4, at, vat);
    Glue(p, 4, vat, vs);
  }

  /** Updates the pointers and writes the count back. */
  method MakeResizing(page: array<Byte>, w: Widths, n: nat, i: nat, oldLen: nat, value: seq<Byte>, ghost a: seq<Pair>,
                      ghost x: Pair, ghost b: seq<Pair>)
    requires Holds(page[..], w, a + [x] + b) && |a| == i && n == |a| + 1 + |b| && oldLen == |x.value|
      && Total(w, a + [Pair(x.key, value)] + b) < MAX_U32
    modifies page
    ensures Resizing(page[..], w, a, x, Pair(x.key, value), b) && page[0] == LEAF && page[2..4] == Le16(n)
  {
    hide Holds, Keys, Values, Total, Le16, Table, Shiftable, Shifted, ValueEnds, Resizing;
    ghost var p0, y, ps := page[..], Pair(x.key, value), a + [x] + b;
    PairsRead(p0, w, ps);
    ValueEndsHeld(p0, w, ps);
    ghost var vat := KeyStart(w, n) + |Keys(ps)|;
    ResizedTotal(w, a, x, y, b);
    ResizedEnds(a, x, y, b, vat);
    ShiftValueEnds(page, w, n, i, n, |value| - oldLen, ValueEnds(ps, vat));
    ghost var p1 := page[..];
    Write(page, 2, Le16(n));
    MadeResizing(p0, p1, page[..], w, a, x, y, b);
    var base := 4 + w.KeyTableLen(n);
    Before(p0, p1, base, 0, 4);
    HeaderKept(p0, p1, page[..], w, ps);
  }

  lemma {:induction false} MadeResizing(p0: seq<Byte>, p1: seq<Byte>, p2: seq<Byte>, w: Widths, a: seq<Pair>, x: Pair,
                                        y: Pair,
                     b: seq<Pair>)
    requires Holds(p0, w, a + [x] + b) && x.key == y.key && |p0| == |p1| == |p2| && KeyStart(w, |a| + 1 + |b|) <= |p0|
    requires var n := |a| + 1 + |b|; var base := 4 + w.KeyTableLen(n); var at := KeyStart(w, n);
      && p1[..base] == p0[..base] && p1[at..] == p0[at..]
        && Table(p1, base, w.value, ValueEnds(a + [y] + b, at + |Keys(a + [x] + b)|))
    requires p2[4..] == p1[4..]
    ensures Resizing(p2, w, a, x, y, b)
  {
    hide Holds, Keys, Values, ValueEnds, KeyTable, Table, ValueTable;
    var n := |a| + 1 + |b|;
    var base, at := 4 + w.KeyTableLen(n), KeyStart(w, n);
    TablesStay(p1, p2, w, n);
    KeyTableStays(p0, p1, w, a + [x] + b);
    ResizedValues(w, a, x, y, b);
    assert KeyTable(w, a + [y] + b, at) == KeyTable(w, a + [x] + b, at);
    ValueTableHeld(p1, base, w, a + [y] + b, at + |Keys(a + [x] + b)|);
    Recounted(p0, p1, p2, w, a, [x] + b);
    assert a + [x] + b == a + ([x] + b);
    ValuesAround(p0, p2, w, a, x, b);
  }

  lemma KeyTableStays(p: seq<Byte>, q: seq<Byte>, w: Widths, ps: seq<Pair>)
    requires Holds(p, w, ps) && |p| == |q| && KeyStart(w, |ps|) <= |p|
      && q[..4 + w.KeyTableLen(|ps|)] == p[..4 + w.KeyTableLen(|ps|)]
    ensures q[4..4 + w.KeyTableLen(|ps|)] == KeyTable(w, ps, KeyStart(w, |ps|))
  {
    hide Holds, Keys, Values, KeyTable, ValueTable;
    var base := 4 + w.KeyTableLen(|ps|);
    PageParts(p, w, ps);
    Before(p, q, base, 4, base);
  }

  lemma {:induction false} ValueTableHeld(p: seq<Byte>, base: nat, w: Widths, ps: seq<Pair>, vat: nat)
    requires Table(p, base, w.value, ValueEnds(ps, vat)) && base + w.ValueTableLen(|ps|) <= |p|
    ensures p[base..base + w.ValueTableLen(|ps|)] == ValueTable(w, ps, vat)
  {
    hide ValueEnds, Offsets;
  }

  lemma {:induction false} ValuesAround(p0: seq<Byte>, p2: seq<Byte>, w: Widths, a: seq<Pair>, x: Pair, b: seq<Pair>)
    requires Holds(p0, w, a + [x] + b) && |p0| == |p2| && KeyStart(w, |a| + 1 + |b|) <= |p0|
      && p2[KeyStart(w, |a| + 1 + |b|)..] == p0[KeyStart(w, |a| + 1 + |b|)..]
    ensures var at := KeyStart(w, |a| + 1 + |b|); var vat := at + |Keys(a + [x] + b)|; var vs := vat + |Values(a)|;
      var s := vs + |x.value|; var end := s + |Values(b)|;
      end <= |p2| && p2[at..vat] == Keys(a + [x] + b) && p2[vat..vs] == Values(a) && p2[s..end] == Values(b)
  {
    hide Keys, Values, Holds, KeyStart;
    var at := KeyStart(w, |a| + 1 + |b|);
    var vat, end := at + |Keys(a + [x] + b)|, at + |Keys(a + [x] + b)| + |Values(a)| + |x.value| + |Values(b)|;
    HeldData(p0, w, a, x, b);
    After(p0, p2, at, at, vat);
    After(p0, p2, at, vat, end);
    ThreeParts(p2, vat, Values(a), x.value, Values(b));
  }

  /** The two data sections around one pair. */
  lemma {:induction false} HeldData(page: seq<Byte>, w: Widths, a: seq<Pair>, x: Pair, b: seq<Pair>)
    requires Holds(page, w, a + [x] + b)
    ensures |Keys(a + [x] + b)| == |Keys(a)| + |x.key| + |Keys(b)|
    ensures var at := KeyStart(w, |a| + 1 + |b|); var vat := at + |Keys(a + [x] + b)|;
      var end := vat + |Values(a)| + |x.value| + |Values(b)|;
      && end <= |page| && page[at..vat] == Keys(a + [x] + b) == Keys(a) + x.key + Keys(b)
      && page[vat..end] == Values(a) + x.value + Values(b)
  {
    hide Keys, Values, KeyTable, ValueTable, Holds;
    PageParts(page, w, a + [x] + b);
    Bounds(page, w, a + [x] + b);
    InsertedKeys(w, a, x, b, 0);
    InsertedValues(w, a, x, b, 0);
  }

  /** Replaces the value at index `i`; the key stays. */
  method Overwrite(page: array<Byte>, w: Widths, i: nat, value: seq<Byte>, ghost ps: seq<Pair>)
    requires Holds(page[..], w, ps) && i < |ps| && FitWidths(w, Pair(ps[i].key, value))
    requires Total(w, ps[i := Pair(ps[i].key, value)]) <= page.Length
      && Total(w, ps[i := Pair(ps[i].key, value)]) < MAX_U32
    modifies page
    ensures Holds(page[..], w, ps[i := Pair(ps[i].key, value)])
  {
    hide Holds, Body, Keys, Values, KeyStartOf, ValueStartOf, ValueEnd, NumPairs, Total, Le16, AllFit, FitWidths,
         Resizing;
    ghost var a, x, y, b := ps[..i], ps[i], Pair(ps[i].key, value), ps[i + 1..];
    assert ps == a + ([x] + b) && ps == a + [x] + b && ps[i := y] == a + [y] + b;
    PairPlaces(page[..], w, a, x, b);
    var n := NumPairs(page[..]);
    var vs, s, end := ValueStartOf(page[..], w, n, i), ValueStartOf(page[..], w, n, i + 1),
      ValueEnd(page[..], w, n, n - 1);
    ResizedFit(page[..], w, a, x, y, b);
    KeysOfThree(w, a, y, b);
    MakeResizing(page, w, n, i, s - vs, value, a, x, b);
    RefitValue(page, w, vs, s, end, value, a, x, b);
    HoldsFrom(page[..], w, a + [y] + b);
  }

  lemma {:induction false} KeysOfThree(w: Widths, a: seq<Pair>, x: Pair, b: seq<Pair>)
    ensures |Keys(a + [x] + b)| == |Keys(a)| + |x.key| + |Keys(b)|
  {
    hide Keys, Values, KeyTable, ValueTable;
    InsertedKeys(w, a, x, b, 0);
  }

  lemma ResizedFit(page: seq<Byte>, w: Widths, a: seq<Pair>, x: Pair, y: Pair, b: seq<Pair>)
    requires Holds(page, w, a + [x] + b) && FitWidths(w, y)
    ensures AllFit(w, a + [y] + b) && |a + [y] + b| < 0x1_0000
  {
    hide Body, Keys, Values, Le16, FitWidths;
    var ps := a + [x] + b;
    forall j | 0 <= j < |ps|
      ensures FitWidths(w, (a + [y] + b)[j])
    {
      assert j != |a| ==> (a + [y] + b)[j] == ps[j];
    }
  }

  // ----- reading a pair, and space for an edit -----

  /** The ranges the accessor computes hold the key and the value of the pair. */
  lemma EntryRead(page: seq<Byte>, w: Widths, ps: seq<Pair>, i: nat)
    requires Holds(page, w, ps) && i < |ps|
    ensures var n := |ps|;
      var ks, ke, vs, ve := KeyStartOf(page, w, n, i), KeyStartOf(page, w, n, i + 1), ValueStartOf(page, w, n, i),
        ValueStartOf(page, w, n, i + 1);
      ks <= ke <= |page| && vs <= ve <= |page| && page[ks..ke] == ps[i].key && page[vs..ve] == ps[i].value
  {
    hide Holds, Keys, Values, KeyStartOf, ValueStartOf, ValueEnd, NumPairs;
    var a, x, b := ps[..i], ps[i], ps[i + 1..];
    assert ps == a + ([x] + b) && ps == a + [x] + b;
    PairsRead(page, w, ps);
    PairPlaces(page, w, a, x, b);
    PageKeys(page, w, a, x, b);
  }

  lemma {:induction false} PageKeys(page: seq<Byte>, w: Widths, a: seq<Pair>, x: Pair, b: seq<Pair>)
    requires Holds(page, w, a + [x] + b)
    ensures var at := KeyStart(w, |a| + 1 + |b|); var ks := at + |Keys(a)|;
      var vs := ks + |x.key| + |Keys(b)| + |Values(a)|;
      vs + |x.value| <= |page| && page[ks..ks + |x.key|] == x.key && page[vs..vs + |x.value|] == x.value
  {
    hide Keys, Values, Holds, KeyStart;
    var at := KeyStart(w, |a| + 1 + |b|);
    HeldData(page, w, a, x, b);
    ThreeParts(page, at, Keys(a), x.key, Keys(b));
    ThreeParts(page, at + |Keys(a)| + |x.key| + |Keys(b)|, Values(a), x.value, Values(b));
  }

  /** The length of the pair at an index, from the accessor's ranges. */
  function LengthOfPair(page: seq<Byte>, w: Widths, n: nat, i: nat): int
    requires i < n && KeyStart(w, n) <= |page|
  {
    ValueStartOf(page, w, n, i + 1) - ValueStartOf(page, w, n, i)
      + (KeyStartOf(page, w, n, i + 1) - KeyStartOf(page, w, n, i))
  }

  /** Whether an edit can be made in place; a large page only takes additions at its end. */
  predicate SufficientSpace(page: seq<Byte>, w: Widths, order: nat, position: nat, overwrite: bool, key: seq<Byte>,
                            value: seq<Byte>)
    requires 4 <= |page| && 0 < NumPairs(page) && KeyStart(w, NumPairs(page)) <= |page|
      && (if overwrite then position < NumPairs(page) else position <= NumPairs(page))
  {
    var n := NumPairs(page);
    var remaining := |page| - ValueEnd(page, w, n, n - 1);
    if overwrite then |key| + |value| - LengthOfPair(page, w, n, position) <= remaining
    else if order > 0 && position < n then false
    else |key| + |value| + w.KeyTableLen(1) + w.ValueTableLen(1) <= remaining
  }

  /** The test is exact: it asks whether the layout of the edited list fits the page. */
  lemma SpaceExact(page: seq<Byte>, w: Widths, ps: seq<Pair>, order: nat, i: nat, key: seq<Byte>, value: seq<Byte>)
    requires Holds(page, w, ps) && ps != [] && i <= |ps|
    ensures NumPairs(page) == |ps| && KeyStart(w, |ps|) <= |page|
    ensures i < |ps| ==>
      (SufficientSpace(page, w, order, i, true, key, value) <==> Total(w, ps[i := Pair(key, value)]) <= |page|)
    ensures SufficientSpace(page, w, order, i, false, key, value) <==>
      (order == 0 || i == |ps|) && Total(w, ps[..i] + [Pair(key, value)] + ps[i..]) <= |page|
  {
    hide Holds, Keys, Values, KeyStartOf, ValueStartOf, ValueEnd, NumPairs, Total;
    PairsRead(page, w, ps);
    StartsRead(page, w, ps, i);
    assert ps == ps[..i] + ps[i..];
    InsertedTotal(w, ps[..i], Pair(key, value), ps[i..]);
    if i < |ps| {
      var a, x, y, b := ps[..i], ps[i], Pair(key, value), ps[i + 1..];
      assert ps == a + ([x] + b) && ps == a + [x] + b && ps[i := y] == a + [y] + b;
      PairPlaces(page, w, a, x, b);
      InsertedTotal(w, a, x, b);
      InsertedTotal(w, a, y, b);
    }
  }
}
