/**
 Removing a pair from a leaf in place.
 */
module LeafRemove {
  import opened LeafLayout
  import opened LeafEditor

  // ----- closing gaps -----

  /** Moves [s, e) left to `dest`, after what is already in place from `lo` on; from `e0` on the page is still `p`. */
  method ShiftLeft(page: array<Byte>, lo: nat, dest: nat, s: nat, e: nat, ghost e0: nat, ghost t: seq<Byte>,
                   ghost g: seq<Byte>, ghost p: seq<Byte>)
    returns (end: nat)
    requires |p| == page.Length && lo <= dest <= e0 <= s <= e <= |p| && page[lo..dest] == t && page[e0..] == p[e0..]
      && p[s..e] == g
    modifies page
    ensures end == dest + (e - s) == dest + |g| && page[lo..end] == t + g && page[e..] == p[e..]
      && page[..lo] == old(page[..lo])
  {
    ghost var q := page[..];
    After(p, q, e0, s, e);
    After(p, q, e0, e, |p|);
    CopyWithin(page, s, e, dest);
    end := dest + (e - s);
    ghost var r := page[..];
    Before(q, r, dest, 0, lo);
    Before(q, r, dest, lo, dest);
    After(q, r, end, e, |p|);
    Glue(r, lo, dest, end);
  }

  /** What is kept between the gaps. */
  ghost predicate Kept(p: seq<Byte>, h1: nat, s2: nat, h2: nat, s3: nat, h3: nat, s4: nat, h4: nat, end: nat,
    g1: seq<Byte>, g2: seq<Byte>, g3: seq<Byte>, g4: seq<Byte>)
  {
    && h1 <= s2 <= h2 <= s3 <= h3 <= s4 <= h4 <= end <= |p|
    && p[h1..s2] == g1 && p[h2..s3] == g2 && p[h3..s4] == g3 && p[h4..end] == g4
  }

  /** Closes four gaps, from the left to the right. */
  method CloseGaps(page: array<Byte>, s1: nat, h1: nat, s2: nat, h2: nat, s3: nat, h3: nat, s4: nat, h4: nat, end: nat,
    ghost g1: seq<Byte>, ghost g2: seq<Byte>, ghost g3: seq<Byte>, ghost g4: seq<Byte>)
    requires s1 <= h1 && Kept(page[..], h1, s2, h2, s3, h3, s4, h4, end, g1, g2, g3, g4)
    modifies page
    ensures s1 + |g1| + |g2| + |g3| + |g4| <= page.Length
    ensures page[..s1] == old(page[..s1]) && page[s1..s1 + |g1| + |g2| + |g3| + |g4|] == g1 + g2 + g3 + g4
  {
    ghost var p := page[..];
    var dest := ShiftLeft(page, s1, s1, h1, s2, s1, [], g1, p);
    assert [] + g1 == g1;
    dest := ShiftLeft(page, s1, dest, h2, s3, s2, g1, g2, p);
    dest := ShiftLeft(page, s1, dest, h3, s4, s3, g1 + g2, g3, p);
    dest := ShiftLeft(page, s1, dest, h4, end, s4, g1 + g2 + g3, g4, p);
  }

  lemma Rejoin(a1: seq<Byte>, a2: seq<Byte>, b1: seq<Byte>, b2: seq<Byte>, c1: seq<Byte>, c2: seq<Byte>,
               d1: seq<Byte>, d2: seq<Byte>)
    ensures a1 + ((a2 + b1) + (b2 + c1) + (c2 + d1) + d2) == (a1 + a2) + (b1 + b2) + (c1 + c2) + (d1 + d2)
  {
  }

  lemma Rejoined(p: seq<Byte>, q: seq<Byte>, s1: nat, top: nat,
    a1: seq<Byte>, a2: seq<Byte>, b1: seq<Byte>, b2: seq<Byte>, c1: seq<Byte>, c2: seq<Byte>, d1: seq<Byte>,
      d2: seq<Byte>)
    requires |p| == |q| && 4 <= s1 <= top <= |p| && q[..s1] == p[..s1] && p[4..s1] == a1
    requires q[s1..top] == (a2 + b1) + (b2 + c1) + (c2 + d1) + d2
    ensures q[4..top] == (a1 + a2) + (b1 + b2) + (c1 + c2) + (d1 + d2) && q[..4] == p[..4]
  {
    Around(p, q, s1, top, a1, (a2 + b1) + (b2 + c1) + (c2 + d1) + d2);
    Rejoin(a1, a2, b1, b2, c1, c2, d1, d2);
  }

  /** Sections with a gap between the halves, cut around the gaps. */
  lemma GapsCut(p: seq<Byte>, a: (seq<Byte>, seq<Byte>), b: (seq<Byte>, seq<Byte>), c: (seq<Byte>, seq<Byte>),
                d: (seq<Byte>, seq<Byte>),
    x1: seq<Byte>, x2: seq<Byte>, x3: seq<Byte>, x4: seq<Byte>)
    requires Sections(p, (a.0, x1 + a.1), (b.0, x2 + b.1), (c.0, x3 + c.1), (d.0, x4 + d.1))
    ensures var h1 := 4 + |a.0| + |x1|; var s2 := h1 + |a.1| + |b.0|; var h2 := s2 + |x2|;
      var s3 := h2 + |b.1| + |c.0|; var h3 := s3 + |x3|;
      var s4 := h3 + |c.1| + |d.0|; var h4 := s4 + |x4|; var end := h4 + |d.1|;
      Kept(p, h1, s2, h2, s3, h3, s4, h4, end, a.1 + b.0, b.1 + c.0, c.1 + d.0, d.1) && 4 + |a.0| <= |p|
        && p[4..4 + |a.0|] == a.0
  {
    SectionsCut(p, (a.0, x1 + a.1), (b.0, x2 + b.1), (c.0, x3 + c.1), (d.0, x4 + d.1));
    hide Sections;
    var s1 := 4 + |a.0|;
    var s2 := s1 + |x1| + |a.1| + |b.0|;
    var s3 := s2 + |x2| + |b.1| + |c.0|;
    var s4 := s3 + |x3| + |c.1| + |d.0|;
    Second(p, s1, s2, x1, a.1, b.0);
    Second(p, s2, s3, x2, b.1, c.0);
    Second(p, s3, s4, x3, c.1, d.0);
    TwoParts(p, s4, x4, d.1);
  }

  lemma Second(p: seq<Byte>, s: nat, e: nat, x: seq<Byte>, a: seq<Byte>, b: seq<Byte>)
    requires s <= e <= |p| && p[s..e] == x + a + b
    ensures p[s + |x|..e] == a + b
  {
    assert x + a + b == x + (a + b);
    TwoParts(p, s, x, a + b);
  }

  /** Closing the gap between the halves of every section. */
  method CloseSections(page: array<Byte>, s1: nat, h1: nat, s2: nat, h2: nat, s3: nat, h3: nat, s4: nat, h4: nat,
                       end: nat,
    ghost a1: seq<Byte>, ghost x1: seq<Byte>, ghost a2: seq<Byte>, ghost b1: seq<Byte>, ghost x2: seq<Byte>,
      ghost b2: seq<Byte>,
    ghost c1: seq<Byte>, ghost x3: seq<Byte>, ghost c2: seq<Byte>, ghost d1: seq<Byte>, ghost x4: seq<Byte>,
      ghost d2: seq<Byte>)
    requires Sections(page[..], (a1, x1 + a2), (b1, x2 + b2), (c1, x3 + c2), (d1, x4 + d2))
    requires s1 == 4 + |a1| && h1 == s1 + |x1| && s2 == h1 + |a2| + |b1| && h2 == s2 + |x2| && s3 == h2 + |b2| + |c1|
    requires h3 == s3 + |x3| && s4 == h3 + |c2| + |d1| && h4 == s4 + |x4| && end == h4 + |d2| && end <= page.Length
    modifies page
    ensures page[..4] == old(page[..4])
    ensures page[4..end - |x1| - |x2| - |x3| - |x4|] == (a1 + a2) + (b1 + b2) + (c1 + c2) + (d1 + d2)
  {
    hide Sections, Kept;
    ghost var p := page[..];
    GapsCut(p, (a1, a2), (b1, b2), (c1, c2), (d1, d2), x1, x2, x3, x4);
    CloseGaps(page, s1, h1, s2, h2, s3, h3, s4, h4, end, a2 + b1, b2 + c1, c2 + d1, d2);
    ghost var top := end - |x1| - |x2| - |x3| - |x4|;
    assert top == s1 + |a2 + b1| + |b2 + c1| + |c2 + d1| + |d2|;
    Rejoined(p, page[..], s1, top, a1, a2, b1, b2, c1, c2, d1, d2);
  }

  // ----- removal -----

  lemma {:induction false} EndsCons(x: Pair, b: seq<Pair>, at: nat, vat: nat)
    ensures KeyEnds([x] + b, at) == [at + |x.key|] + KeyEnds(b, at + |x.key|)
    ensures ValueEnds([x] + b, vat) == [vat + |x.value|] + ValueEnds(b, vat + |x.value|)
  {
    assert ([x] + b)[1..] == b;
  }

  /** The ends left in place by a removal, the removed pair's own still among them. */
  ghost predicate EndsWithout(page: seq<Byte>, w: Widths, a: seq<Pair>, x: Pair, b: seq<Pair>, ke: nat, ve: nat)
  {
    var n := |a| + 1 + |b|;
    var at := KeyStart(w, n - 1);
    var vat := at + |Keys(a)| + |Keys(b)|;
    && Table(page, 4, w.key, KeyEnds(a, at) + [ke] + KeyEnds(b, at + |Keys(a)|))
    && Table(page, 4 + w.KeyTableLen(n), w.value, ValueEnds(a, vat) + [ve] + ValueEnds(b, vat + |Values(a)|))
  }

  /** Shifts the ends of the pairs before the removed one. */
  method ShiftBefore(page: array<Byte>, w: Widths, n: nat, i: nat, dk: int, dv: int, ghost a: seq<Pair>,
                     ghost b: seq<Pair>, ghost at: nat, ghost vat: nat)
    requires |a| == i && n == |a| + |b| && KeyStart(w, n) <= page.Length
    requires 0 <= at + dk && at + dk + |Keys(a)| < MAX_U32 && 0 <= vat + dv && vat + dv + |Values(a)| < MAX_U32
    requires Table(page[..], 4, w.key, KeyEnds(a, at) + KeyEnds(b, at + |Keys(a)|))
    requires Table(page[..], 4 + w.KeyTableLen(n), w.value, ValueEnds(a, vat) + ValueEnds(b, vat + |Values(a)|))
    modifies page
    ensures Table(page[..], 4, w.key, KeyEnds(a, at + dk) + KeyEnds(b, at + |Keys(a)|))
    ensures Table(page[..], 4 + w.KeyTableLen(n), w.value, ValueEnds(a, vat + dv) + ValueEnds(b, vat + |Values(a)|))
    ensures page[..4] == old(page[..4]) && page[KeyStart(w, n)..] == old(page[KeyStart(w, n)..])
  {
    hide Table, Shiftable, Shifted, Keys, Values, KeyEnds, ValueEnds;
    ShiftFirst(a, b, at, vat, dk, dv);
    ShiftEnds(page, w, n, 0, i, dk, dv, KeyEnds(a, at) + KeyEnds(b, at + |Keys(a)|),
              ValueEnds(a, vat) + ValueEnds(b, vat + |Values(a)|));
  }

  /** Shifts the ends of the pairs after it. */
  method ShiftAfter(page: array<Byte>, w: Widths, n: nat, i: nat, dk: int, dv: int, ghost ks: seq<nat>,
                    ghost vs: seq<nat>, ghost b: seq<Pair>, ghost at: nat, ghost vat: nat)
    requires |ks| == |vs| == i && n == i + |b| && KeyStart(w, n) <= page.Length
    requires 0 <= at + dk && at + dk + |Keys(b)| < MAX_U32 && 0 <= vat + dv && vat + dv + |Values(b)| < MAX_U32
    requires Table(page[..], 4, w.key, ks + KeyEnds(b, at))
    requires Table(page[..], 4 + w.KeyTableLen(n), w.value, vs + ValueEnds(b, vat))
    modifies page
    ensures Table(page[..], 4, w.key, ks + KeyEnds(b, at + dk))
    ensures Table(page[..], 4 + w.KeyTableLen(n), w.value, vs + ValueEnds(b, vat + dv))
    ensures page[..4] == old(page[..4]) && page[KeyStart(w, n)..] == old(page[KeyStart(w, n)..])
  {
    hide Table, Shiftable, Shifted, Keys, Values, KeyEnds, ValueEnds;
    ShiftSecond(ks, vs, b, at, vat, dk, dv);
    ShiftEnds(page, w, n, i, n, dk, dv, ks + KeyEnds(b, at), vs + ValueEnds(b, vat));
  }

  method PointersForRemove(page: array<Byte>, w: Widths, n: nat, i: nat, keyLen: nat, valueLen: nat,
                           ghost a: seq<Pair>, ghost x: Pair, ghost b: seq<Pair>)
    returns (ghost ke: nat, ghost ve: nat)
    requires Holds(page[..], w, a + ([x] + b)) && |a| == i && n == |a| + 1 + |b| && keyLen == |x.key|
      && valueLen == |x.value|
    modifies page
    ensures EndsWithout(page[..], w, a, x, b, ke, ve)
    ensures KeyStart(w, n) <= page.Length && page[..4] == old(page[..4])
      && page[KeyStart(w, n)..] == old(page[KeyStart(w, n)..])
  {
    hide Table, Holds, Keys, Values, KeyEnds, ValueEnds;
    PairsRead(page[..], w, a + ([x] + b));
    ghost var at := KeyStart(w, n);
    KeysConcat([x], b);
    ValuesConcat([x], b);
    OnePair(w, x, 0);
    ghost var vat := at + |Keys(a)| + |x.key| + |Keys(b)|;
    Bounds(page[..], w, a + ([x] + b));
    TablesOf(page[..], w, a, [x] + b);
    var ptrs := w.KeyTableLen(1) + w.ValueTableLen(1);
    ghost var ky, vy := at + |Keys(a)|, vat + |Values(a)|;
    ShiftBefore(page, w, n, i, -ptrs, -ptrs - keyLen, a, [x] + b, at, vat);
    ke, ve := ky + |x.key|, vy + |x.value|;
    ghost var ka, va := KeyEnds(a, at - ptrs), ValueEnds(a, vat - ptrs - keyLen);
    EndsCons(x, b, ky, vy);
    assert ka + ([ke] + KeyEnds(b, ke)) == ka + [ke] + KeyEnds(b, ke)
      && va + ([ve] + ValueEnds(b, ve)) == va + [ve] + ValueEnds(b, ve);
    ShiftAfter(page, w, n, i + 1, -ptrs - keyLen, -ptrs - keyLen - valueLen, ka + [ke], va + [ve], b, ke, ve);
  }

  lemma {:induction false} GapTables(p: seq<Byte>, w: Widths, a: seq<Pair>, x: Pair, b: seq<Pair>, ke: nat, ve: nat)
    requires EndsWithout(p, w, a, x, b, ke, ve) && KeyStart(w, |a| + 1 + |b|) <= |p|
    ensures var n := |a| + 1 + |b|; var at := KeyStart(w, n - 1); var kb := at + |Keys(a)|; var vat := kb + |Keys(b)|;
      var vb := vat + |Values(a)|;
      && p[4..4 + w.KeyTableLen(n)] == KeyTable(w, a, at) + (KeyPointer(w, ke) + KeyTable(w, b, kb))
      && p[4 + w.KeyTableLen(n)..KeyStart(w, n)] == ValueTable(w, a, vat) + (ValuePointer(w, ve) + ValueTable(w, b, vb))
  {
    hide Keys, Values, KeyEnds, ValueEnds, Offsets, Small, Le32;
    var n := |a| + 1 + |b|;
    var at := KeyStart(w, n - 1);
    var vat := at + |Keys(a)| + |Keys(b)|;
    GapOffsets(KeyEnds(a, at), ke, KeyEnds(b, at + |Keys(a)|));
    GapOffsets(ValueEnds(a, vat), ve, ValueEnds(b, vat + |Values(a)|));
  }

  lemma {:induction false} GapOffsets(a: seq<nat>, e: nat, b: seq<nat>)
    ensures Offsets(a + [e] + b) == Offsets(a) + (Le32(e) + Offsets(b))
  {
    hide Le32;
    assert Offsets([e]) == Le32(e) + Offsets([]);
    hide Offsets;
    OffsetsConcat(a, [e]);
    OffsetsConcat(a + [e], b);
  }

  /** Pointers updated for a pair that is still there. */
  ghost predicate Leaving(page: seq<Byte>, w: Widths, a: seq<Pair>, x: Pair, b: seq<Pair>, ke: nat, ve: nat)
  {
    var at := KeyStart(w, |a| + |b|);
    var kb := at + |Keys(a)|;
    var vat := kb + |Keys(b)|;
    var vb := vat + |Values(a)|;
    Sections(page, (KeyTable(w, a, at), KeyPointer(w, ke) + KeyTable(w, b, kb)),
             (ValueTable(w, a, vat), ValuePointer(w, ve) + ValueTable(w, b, vb)),
      (Keys(a), x.key + Keys(b)), (Values(a), x.value + Values(b)))
  }

  lemma MadeLeaving(p0: seq<Byte>, p1: seq<Byte>, p2: seq<Byte>, w: Widths, a: seq<Pair>, x: Pair, b: seq<Pair>,
                    ke: nat, ve: nat)
    requires Holds(p0, w, a + ([x] + b)) && |p0| == |p1| == |p2| && KeyStart(w, |a| + 1 + |b|) <= |p0|
    requires p1[KeyStart(w, |a| + 1 + |b|)..] == p0[KeyStart(w, |a| + 1 + |b|)..] && p2[4..] == p1[4..]
      && EndsWithout(p1, w, a, x, b, ke, ve)
    ensures Leaving(p2, w, a, x, b, ke, ve)
  {
    hide Holds, Keys, Values, KeyTable, ValueTable, KeyPointer, ValuePointer, EndsWithout, Sections, KeyStart;
    var n, at := |a| + 1 + |b|, KeyStart(w, |a| + |b|);
    var kb := at + |Keys(a)|;
    var vat := kb + |Keys(b)|;
    var data := KeyStart(w, n) + |Keys(a)| + |x.key| + |Keys(b)|;
    TablesWithout(p1, p2, w, a, x, b, ke, ve);
    DataWithout(p0, p1, p2, w, a, x, b);
    SectionsFrom(p2, 4 + w.KeyTableLen(n), KeyStart(w, n), data, data + |Values(a)| + |x.value| + |Values(b)|,
      (KeyTable(w, a, at), KeyPointer(w, ke) + KeyTable(w, b, kb)),
      (ValueTable(w, a, vat), ValuePointer(w, ve) + ValueTable(w, b, vat + |Values(a)|)), (Keys(a), x.key + Keys(b)),
      (Values(a), x.value + Values(b)));
  }

  lemma TablesWithout(p: seq<Byte>, q: seq<Byte>, w: Widths, a: seq<Pair>, x: Pair, b: seq<Pair>, ke: nat, ve: nat)
    requires EndsWithout(p, w, a, x, b, ke, ve) && |p| == |q| && KeyStart(w, |a| + 1 + |b|) <= |p| && q[4..] == p[4..]
    ensures var n := |a| + 1 + |b|; var at := KeyStart(w, |a| + |b|); var kb := at + |Keys(a)|;
      var vat := kb + |Keys(b)|; var s := 4 + w.KeyTableLen(n);
      && s <= KeyStart(w, n)
      && q[4..s] == KeyTable(w, a, at) + (KeyPointer(w, ke) + KeyTable(w, b, kb))
      && q[s..KeyStart(w, n)] == ValueTable(w, a, vat) + (ValuePointer(w, ve) + ValueTable(w, b, vat + |Values(a)|))
  {
    hide Keys, Values, KeyTable, ValueTable, KeyPointer, ValuePointer, EndsWithout;
    GapTables(p, w, a, x, b, ke, ve);
    TablesStay(p, q, w, |a| + 1 + |b|);
  }

  lemma SectionsFrom(p: seq<Byte>, s2: nat, s3: nat, s4: nat, end: nat, a: (seq<Byte>, seq<Byte>),
                     b: (seq<Byte>, seq<Byte>), c: (seq<Byte>, seq<Byte>), d: (seq<Byte>, seq<Byte>))
    requires 4 <= s2 <= s3 <= s4 <= end <= |p| && p[4..s2] == a.0 + a.1 && p[s2..s3] == b.0 + b.1
    requires p[s3..s4] == c.0 + c.1 && p[s4..end] == d.0 + d.1
    ensures Sections(p, a, b, c, d)
  {
    assert s2 - 4 == |p[4..s2]| && s3 - s2 == |p[s2..s3]| && s4 - s3 == |p[s3..s4]| && end - s4 == |p[s4..end]|;
  }

  lemma TablesStay(p: seq<Byte>, q: seq<Byte>, w: Widths, n: nat)
    requires |p| == |q| && KeyStart(w, n) <= |p| && q[4..] == p[4..]
    ensures q[4..4 + w.KeyTableLen(n)] == p[4..4 + w.KeyTableLen(n)]
    ensures q[4 + w.KeyTableLen(n)..KeyStart(w, n)] == p[4 + w.KeyTableLen(n)..KeyStart(w, n)]
  {
    var k, v := w.KeyTableLen(n), w.KeyTableLen(n) + w.ValueTableLen(n);
    After(p, q, 4, 4, 4 + k);
    After(p, q, 4, 4 + k, 4 + v);
  }

  lemma {:induction false} DataWithout(p0: seq<Byte>, p1: seq<Byte>, p2: seq<Byte>, w: Widths, a: seq<Pair>, x: Pair,
                                       b: seq<Pair>)
    requires Holds(p0, w, a + ([x] + b)) && |p0| == |p1| == |p2| && KeyStart(w, |a| + 1 + |b|) <= |p0|
    requires p1[KeyStart(w, |a| + 1 + |b|)..] == p0[KeyStart(w, |a| + 1 + |b|)..] && p2[4..] == p1[4..]
    ensures var at := KeyStart(w, |a| + 1 + |b|); var vat := at + |Keys(a)| + |x.key| + |Keys(b)|;
      var end := vat + |Values(a)| + |x.value| + |Values(b)|;
      end <= |p2| && p2[at..vat] == Keys(a) + (x.key + Keys(b)) && p2[vat..end] == Values(a) + (x.value + Values(b))
  {
    hide Holds, Keys, Values, Total;
    Recounted(p0, p1, p2, w, a, [x] + b);
    DataStays(p0, p2, w, a, [x] + b);
    DataCons(x, b);
  }

  lemma {:induction false} DataCons(x: Pair, b: seq<Pair>)
    ensures Keys([x] + b) == x.key + Keys(b) && Values([x] + b) == x.value + Values(b)
  {
    assert ([x] + b)[1..] == b;
  }

  /** The moves of a removal. */
  method CloseFor(page: array<Byte>, w: Widths, n: nat, i: nat, ks: nat, ke: nat, vs: nat, ve: nat, end: nat,
    ghost a: seq<Pair>, ghost x: Pair, ghost b: seq<Pair>, ghost kp: nat, ghost vp: nat)
    requires Leaving(page[..], w, a, x, b, kp, vp) && |a| == i && |a| + 1 + |b| == n
    requires ks == KeyStart(w, n) + |Keys(a)| && ke == ks + |x.key| && vs == ke + |Keys(b)| + |Values(a)|
      && ve == vs + |x.value| && end == ve + |Values(b)|
    requires end <= page.Length
    modifies page
    ensures page[..4] == old(page[..4]) && Total(w, a + b) <= page.Length && page[4..Total(w, a + b)] == Body(w, a + b)
  {
    hide Sections, KeyTable, ValueTable, Keys, Values, KeyPointer, ValuePointer;
    ghost var at := KeyStart(w, n - 1);
    ghost var kb := at + |Keys(a)|;
    ghost var vat := kb + |Keys(b)|;
    KeysConcat(a, b);
    ValuesConcat(a, b);
    KeyTableConcat(w, a, b, at);
    ValueTableConcat(w, a, b, vat);
    CloseSections(page, 4 + w.KeyTableLen(i), 4 + w.KeyTableLen(i + 1), 4 + w.KeyTableLen(n) + w.ValueTableLen(i),
                  4 + w.KeyTableLen(n) + w.ValueTableLen(i + 1),
      ks, ke, vs, ve, end,
      KeyTable(w, a, at), KeyPointer(w, kp), KeyTable(w, b, kb), ValueTable(w, a, vat), ValuePointer(w, vp),
        ValueTable(w, b, vat + |Values(a)|),
      Keys(a), x.key, Keys(b), Values(a), x.value, Values(b));
  }

  /** Removes the pair at index `i` and shifts what follows to the left. */
  method Remove(page: array<Byte>, w: Widths, i: nat, ghost ps: seq<Pair>)
    requires Holds(page[..], w, ps) && |ps| > 1 && i < |ps|
    modifies page
    ensures Holds(page[..], w, ps[..i] + ps[i + 1..])
  {
    hide Holds, Body, Keys, Values, KeyStartOf, ValueStartOf, ValueEnd, KeyEnd, NumPairs, Total, Le16, AllFit,
         Leaving, EndsWithout;
    ghost var a, x, b := ps[..i], ps[i], ps[i + 1..];
    assert ps == a + ([x] + b);
    ghost var p0 := page[..];
    PairPlaces(p0, w, a, x, b);
    var n := NumPairs(page[..]);
    var ks, ke := KeyStartOf(page[..], w, n, i), KeyStartOf(page[..], w, n, i + 1);
    var vs, ve := ValueStartOf(page[..], w, n, i), ValueStartOf(page[..], w, n, i + 1);
    var end := ValueEnd(page[..], w, n, n - 1);
    ghost var kp, vp := PointersForRemove(page, w, n, i, ke - ks, ve - vs, a, x, b);
    ghost var p1 := page[..];
    Write(page, 2, Le16(n - 1));
    ghost var p2 := page[..];
    MadeLeaving(p0, p1, p2, w, a, x, b, kp, vp);
    HeaderKept(p0, p1, p2, w, ps);
    CloseFor(page, w, n, i, ks, ke, vs, ve, end, a, x, b, kp, vp);
    Shorter(p0, w, a, x, b);
    HoldsFrom(page[..], w, a + b);
  }

  /** Where one pair lies in the page. */
  lemma {:induction false} PairPlaces(page: seq<Byte>, w: Widths, a: seq<Pair>, x: Pair, b: seq<Pair>)
    requires Holds(page, w, a + ([x] + b))
    ensures var n, i := |a| + 1 + |b|, |a|;
      && KeyStart(w, n) <= |page| && NumPairs(page) == n
      && KeyStartOf(page, w, n, i) == KeyStart(w, n) + |Keys(a)|
      && KeyStartOf(page, w, n, i + 1) == KeyStart(w, n) + |Keys(a)| + |x.key|
      && ValueStartOf(page, w, n, i) == KeyStart(w, n) + |Keys(a)| + |x.key| + |Keys(b)| + |Values(a)|
      && ValueStartOf(page, w, n, i + 1) == KeyStart(w, n) + |Keys(a)| + |x.key| + |Keys(b)| + |Values(a)| + |x.value|
      && ValueEnd(page, w, n, n - 1) == KeyStart(w, n) + |Keys(a)| + |x.key| + |Keys(b)| + |Values(a)| + |x.value|
        + |Values(b)| <= |page|
  {
    hide Holds, Body, Keys, Values, KeyStartOf, ValueStartOf, ValueEnd, NumPairs, KeyTable, ValueTable;
    var ps := a + ([x] + b);
    assert ps[..|a|] == a && ps[..|a| + 1] == a + [x] && ps == a + [x] + b;
    StartsRead(page, w, ps, |a|);
    StartsRead(page, w, ps, |a| + 1);
    InsertedKeys(w, a, x, b, 0);
    InsertedValues(w, a, x, b, 0);
    KeysConcat(a, [x]);
    ValuesConcat(a, [x]);
    OnePair(w, x, 0);
    Bounds(page, w, ps);
  }

  lemma Shorter(page: seq<Byte>, w: Widths, a: seq<Pair>, x: Pair, b: seq<Pair>)
    requires Holds(page, w, a + ([x] + b))
    ensures Total(w, a + b) < MAX_U32 && AllFit(w, a + b) && |a + b| < 0x1_0000
  {
    hide Body, Keys, Values, Le16, FitWidths;
    var ps := a + ([x] + b);
    assert ps == a + [x] + b;
    InsertedTotal(w, a, x, b);
    forall j | 0 <= j < |a + b|
      ensures FitWidths(w, (a + b)[j])
    {
      assert (a + b)[j] == if j < |a| then ps[j] else ps[j + 1];
    }
  }
}
