/**
 The in-place leaf editor: it shifts sections of the page by hand, and the result is byte for byte
 the layout of the edited list of pairs.
 */
module LeafEditor {
  import opened Bits
  import opened LeafLayout

  // ----- moving bytes -----

  /** copy_within: the ranges may overlap. */
  method CopyWithin(page: array<Byte>, start: nat, end: nat, dest: nat)
    requires start <= end <= page.Length && dest + (end - start) <= page.Length
    modifies page
    ensures page[..dest] == old(page[..dest])
    ensures page[dest..dest + (end - start)] == old(page[start..end])
    ensures page[dest + (end - start)..] == old(page[dest + (end - start)..])
  {
    var moved := page[start..end];
    Write(page, dest, moved);
  }

  method Write(page: array<Byte>, at: nat, s: seq<Byte>)
    requires at + |s| <= page.Length
    modifies page
    ensures page[..at] == old(page[..at]) && page[at..at + |s|] == s && page[at + |s|..] == old(page[at + |s|..])
  {
    for i := 0 to |s|
      invariant forall k :: 0 <= k < page.Length ==> page[k] == if at <= k < at + i then s[k - at] else old(page[k])
    {
      page[at + i] := s[i];
    }
  }

  lemma Glue(s: seq<Byte>, a: nat, b: nat, c: nat)
    requires a <= b <= c <= |s|
    ensures s[a..b] + s[b..c] == s[a..c]
  {
  }

  /** Moves [s, e) to end at `q` and puts `x` before it; what is before `s` and from `q` on stays. */
  method ShiftAndInsert(page: array<Byte>, s: nat, e: nat, q: nat, x: seq<Byte>) returns (dest: nat)
    requires s <= e <= q <= page.Length && s + |x| + (e - s) <= q
    modifies page
    ensures dest == q - (e - s) - |x|
    ensures page[..s] == old(page[..s]) && page[dest..q] == x + old(page[s..e]) && page[q..] == old(page[q..])
  {
    ghost var before := page[..];
    CopyWithin(page, s, e, q - (e - s));
    ghost var mid := page[..];
    dest := q - (e - s) - |x|;
    Write(page, dest, x);
    ShiftedAndInserted(before, mid, page[..], s, e, q, dest, x);
  }

  lemma ShiftedAndInserted(p: seq<Byte>, m: seq<Byte>, r: seq<Byte>, s: nat, e: nat, q: nat, dest: nat, x: seq<Byte>)
    requires |p| == |m| == |r| && s <= e <= q <= |p| && s <= dest && dest + |x| + (e - s) == q
    requires m[..dest + |x|] == p[..dest + |x|] && m[dest + |x|..q] == p[s..e] && m[q..] == p[q..]
    requires r[..dest] == m[..dest] && r[dest..dest + |x|] == x && r[dest + |x|..] == m[dest + |x|..]
    ensures r[..s] == p[..s] && r[dest..q] == x + p[s..e] && r[q..] == p[q..]
  {
    Before(p, m, dest + |x|, 0, s);
    Before(m, r, dest, 0, s);
    After(m, r, dest + |x|, dest + |x|, q);
    After(m, r, dest + |x|, q, |p|);
    Glue(r, dest, dest + |x|, q);
  }

  /** Opens four gaps, from the right to the left, and fills them. */
  method OpenGaps(page: array<Byte>, s1: nat, s2: nat, s3: nat, s4: nat, end: nat, x1: seq<Byte>, x2: seq<Byte>,
                  x3: seq<Byte>, x4: seq<Byte>,
    ghost g1: seq<Byte>, ghost g2: seq<Byte>, ghost g3: seq<Byte>, ghost g4: seq<Byte>)
    requires s1 <= s2 <= s3 <= s4 <= end && end + |x1| + |x2| + |x3| + |x4| <= page.Length
    requires page[s1..s2] == g1 && page[s2..s3] == g2 && page[s3..s4] == g3 && page[s4..end] == g4
    modifies page
    ensures page[..s1] == old(page[..s1])
    ensures page[s1..end + |x1| + |x2| + |x3| + |x4|] == x1 + g1 + (x2 + g2 + (x3 + g3 + (x4 + g4)))
  {
    ghost var p := page[..];
    var top := end + |x1| + |x2| + |x3| + |x4|;
    var q := ShiftAndInsert(page, s4, end, top, x4);
    q := ShiftMore(page, s3, s4, q, top, x3, p, x4 + g4);
    q := ShiftMore(page, s2, s3, q, top, x2, p, x3 + g3 + (x4 + g4));
    q := ShiftMore(page, s1, s2, q, top, x1, p, x2 + g2 + (x3 + g3 + (x4 + g4)));
  }

  /** One more section, before a tail already in place. */
  method ShiftMore(page: array<Byte>, s: nat, e: nat, q: nat, top: nat, x: seq<Byte>, ghost p: seq<Byte>,
                   ghost t: seq<Byte>) returns (dest: nat)
    requires s <= e <= q <= top <= page.Length == |p| && s + |x| + (e - s) <= q
    requires page[..e] == p[..e] && page[q..top] == t
    modifies page
    ensures dest == q - (e - s) - |x| && page[..s] == p[..s] && page[dest..top] == x + p[s..e] + t
  {
    assert page[..e][s..] == p[s..e] && page[..e][..s] == p[..s];
    assert page[s..e] == page[..e][s..] && page[..s] == page[..e][..s];
    ghost var before := page[..];
    dest := ShiftAndInsert(page, s, e, q, x);
    assert page[q..top] == before[q..top] by { assert page[q..][..top - q] == page[q..top]
        && before[q..][..top - q] == before[q..top]; }
    Glue(page[..], dest, q, top);
  }

  // ----- the offset tables -----

  ghost predicate Shiftable(ends: seq<nat>, from: nat, to: nat, delta: int)
  {
    from <= to <= |ends| && forall k :: from <= k < to ==> 0 <= ends[k] + delta < MAX_U32
  }

  ghost function Shifted(ends: seq<nat>, from: nat, to: nat, delta: int): (r: seq<nat>)
    requires Shiftable(ends, from, to, delta)
    ensures |r| == |ends|
  {
    seq(|ends|, k requires 0 <= k < |ends| => if from <= k < to then ends[k] + delta else ends[k])
  }

  /** The table at `base` holds the ends; there is none where the width is fixed. */
  ghost predicate Table(page: seq<Byte>, base: nat, width: Option<nat>, ends: seq<nat>)
  {
    width.None? ==> base + 4 * |ends| <= |page| && Small(ends) && page[base..base + 4 * |ends|] == Offsets(ends)
  }

  method UpdateEnd(page: array<Byte>, offset: nat, delta: int)
    requires offset + 4 <= page.Length && 0 <= FromLe32(page[offset..offset + 4]) + delta < MAX_U32
    modifies page
    ensures page[offset..offset + 4] == Le32(old(FromLe32(page[offset..offset + 4])) + delta)
    ensures page[..offset] == old(page[..offset]) && page[offset + 4..] == old(page[offset + 4..])
  {
    hide Le32, FromLe32;
    var end := FromLe32(page[offset..offset + 4]);
    Write(page, offset, Le32(end + delta));
  }

  lemma {:induction false} OffsetsSet(ns: seq<nat>, i: nat, x: nat)
    requires i < |ns|
    ensures Offsets(ns[i := x]) == Offsets(ns)[..4 * i] + Le32(x) + Offsets(ns)[4 * i + 4..]
    decreases |ns|
  {
    hide Le32;
    if i > 0 {
      OffsetsSet(ns[1..], i - 1, x);
      assert ns[i := x][1..] == ns[1..][i - 1 := x];
      var t := Offsets(ns[1..]);
      assert Offsets(ns)[..4 * i] == Le32(ns[0]) + t[..4 * (i - 1)];
      assert Offsets(ns)[4 * i + 4..] == t[4 * (i - 1) + 4..];
    } else {
      assert ns[0 := x][1..] == ns[1..];
      assert Offsets(ns)[4..] == Offsets(ns[1..]);
    }
  }

  /** Adds `delta` to the end at index `j` of the table at `base`. */
  method UpdateTable(page: array<Byte>, base: nat, width: Option<nat>, j: nat, delta: int, ghost ends: seq<nat>)
    requires base <= page.Length && Table(page[..], base, width, ends) && j < |ends| && 0 <= ends[j] + delta < MAX_U32
    modifies page
    ensures Table(page[..], base, width, ends[j := ends[j] + delta])
    ensures page[..base] == old(page[..base])
    ensures width.None? ==> page[base + 4 * |ends|..] == old(page[base + 4 * |ends|..])
    ensures width.Some? ==> page[..] == old(page[..])
  {
    hide Le32, FromLe32, Offsets;
    if width.Some? {
      return;
    }
    ghost var before := page[..];
    OffsetRead(before, base, ends, j);
    var offset := base + 4 * j;
    assert page[offset..offset + 4] == before[offset..offset + 4];
    UpdateEnd(page, offset, delta);
    TablePatched(before, page[..], base, ends, j, ends[j] + delta);
  }

  lemma TablePatched(before: seq<Byte>, after: seq<Byte>, base: nat, ends: seq<nat>, j: nat, x: nat)
    requires |before| == |after| && Table(before, base, None, ends) && j < |ends| && x < MAX_U32
    requires var o := base + 4 * j;
      after[o..o + 4] == Le32(x) && after[..o] == before[..o] && after[o + 4..] == before[o + 4..]
    ensures Table(after, base, None, ends[j := x]) && after[..base] == before[..base]
      && after[base + 4 * |ends|..] == before[base + 4 * |ends|..]
  {
    hide Le32, Offsets;
    OffsetsSet(ends, j, x);
    Patched(before, after, base, 4 * |ends|, 4 * j, Le32(x));
  }

  /** Four bytes written inside a table, seen from the table. */
  lemma Patched(before: seq<Byte>, after: seq<Byte>, base: nat, len: nat, at: nat, x: seq<Byte>)
    requires |before| == |after| && |x| == 4 && at + 4 <= len && base + len <= |before|
    requires after[base + at..base + at + 4] == x && after[..base + at] == before[..base + at]
      && after[base + at + 4..] == before[base + at + 4..]
    ensures after[base..base + len] == before[base..base + len][..at] + x + before[base..base + len][at + 4..]
    ensures after[..base] == before[..base] && after[base + len..] == before[base + len..]
  {
    Before(before, after, base + at, base, base + at);
    After(before, after, base + at + 4, base + at + 4, base + len);
    Before(before, after, base + at, 0, base);
    After(before, after, base + at + 4, base + len, base + len);
    SubSlice(before, base, base + len, 0, at);
    SubSlice(before, base, base + len, at + 4, len);
    Glue(after, base, base + at, base + at + 4);
    Glue(after, base, base + at + 4, base + len);
  }

  /** Both tables at once: update_key_end and update_value_end over a range of indices. */
  method ShiftEnds(page: array<Byte>, w: Widths, n: nat, from: nat, to: nat, keyDelta: int, valueDelta: int,
                   ghost ks: seq<nat>, ghost vs: seq<nat>)
    requires |ks| == |vs| == n && KeyStart(w, n) <= page.Length
    requires Table(page[..], 4, w.key, ks) && Table(page[..], 4 + w.KeyTableLen(n), w.value, vs)
    requires Shiftable(ks, from, to, keyDelta) && Shiftable(vs, from, to, valueDelta)
    modifies page
    ensures Table(page[..], 4, w.key, Shifted(ks, from, to, keyDelta))
    ensures Table(page[..], 4 + w.KeyTableLen(n), w.value, Shifted(vs, from, to, valueDelta))
    ensures page[..4] == old(page[..4]) && page[KeyStart(w, n)..] == old(page[KeyStart(w, n)..])
  {
    hide Table, Offsets;
    var base := 4 + w.KeyTableLen(n);
    assert Shifted(ks, from, from, keyDelta) == ks && Shifted(vs, from, from, valueDelta) == vs;
    for j := from to to
      invariant Table(page[..], 4, w.key, Shifted(ks, from, j, keyDelta))
      invariant Table(page[..], base, w.value, Shifted(vs, from, j, valueDelta))
      invariant page[..4] == old(page[..4]) && page[KeyStart(w, n)..] == old(page[KeyStart(w, n)..])
    {
      ShiftOne(page, w, n, j, keyDelta, valueDelta, Shifted(ks, from, j, keyDelta), Shifted(vs, from, j, valueDelta));
      assert Shifted(ks, from, j + 1, keyDelta) == Shifted(ks, from, j, keyDelta)[j := ks[j] + keyDelta];
      assert Shifted(vs, from, j + 1, valueDelta) == Shifted(vs, from, j, valueDelta)[j := vs[j] + valueDelta];
    }
  }

  method ShiftOne(page: array<Byte>, w: Widths, n: nat, j: nat, keyDelta: int, valueDelta: int, ghost ks: seq<nat>,
                  ghost vs: seq<nat>)
    requires |ks| == |vs| == n && KeyStart(w, n) <= page.Length && j < n
    requires Table(page[..], 4, w.key, ks) && Table(page[..], 4 + w.KeyTableLen(n), w.value, vs)
    requires 0 <= ks[j] + keyDelta < MAX_U32 && 0 <= vs[j] + valueDelta < MAX_U32
    modifies page
    ensures Table(page[..], 4, w.key, ks[j := ks[j] + keyDelta])
    ensures Table(page[..], 4 + w.KeyTableLen(n), w.value, vs[j := vs[j] + valueDelta])
    ensures page[..4] == old(page[..4]) && page[KeyStart(w, n)..] == old(page[KeyStart(w, n)..])
  {
    hide Table, Offsets, Small;
    ghost var base := 4 + w.KeyTableLen(n);
    ghost var p0 := page[..];
    UpdateKeyEnd(page, w, n, j, keyDelta, ks);
    ghost var p1 := page[..];
    SameTable(p0, p1, base, base, |p1|, w.value, vs);
    UpdateValueEnd(page, w, n, j, valueDelta, vs);
    ghost var p2 := page[..];
    SameTable(p1, p2, 4, 0, base, w.key, ks[j := ks[j] + keyDelta]);
    Before(p1, p2, base, 0, 4);
    After(p0, p1, base, base + w.ValueTableLen(n), |p0|);
  }

  method UpdateKeyEnd(page: array<Byte>, w: Widths, n: nat, j: nat, delta: int, ghost ks: seq<nat>)
    requires |ks| == n && KeyStart(w, n) <= page.Length && j < n && Table(page[..], 4, w.key, ks)
      && 0 <= ks[j] + delta < MAX_U32
    modifies page
    ensures Table(page[..], 4, w.key, ks[j := ks[j] + delta])
    ensures page[..4] == old(page[..4]) && page[4 + w.KeyTableLen(n)..] == old(page[4 + w.KeyTableLen(n)..])
  {
    hide Table;
    UpdateTable(page, 4, w.key, j, delta, ks);
  }

  method UpdateValueEnd(page: array<Byte>, w: Widths, n: nat, j: nat, delta: int, ghost vs: seq<nat>)
    requires |vs| == n && KeyStart(w, n) <= page.Length && j < n && Table(page[..], 4 + w.KeyTableLen(n), w.value, vs)
      && 0 <= vs[j] + delta < MAX_U32
    modifies page
    ensures Table(page[..], 4 + w.KeyTableLen(n), w.value, vs[j := vs[j] + delta])
    ensures page[..4 + w.KeyTableLen(n)] == old(page[..4 + w.KeyTableLen(n)])
      && page[KeyStart(w, n)..] == old(page[KeyStart(w, n)..])
  {
    hide Table;
    UpdateTable(page, 4 + w.KeyTableLen(n), w.value, j, delta, vs);
  }

  /** A table inside an unchanged range. */
  lemma SameTable(p: seq<Byte>, q: seq<Byte>, base: nat, lo: nat, hi: nat, width: Option<nat>, ends: seq<nat>)
    requires |p| == |q| && lo <= hi <= |p| && p[lo..hi] == q[lo..hi]
    requires Table(p, base, width, ends) && (width.None? ==> lo <= base && base + 4 * |ends| <= hi)
    ensures Table(q, base, width, ends)
  {
    hide Offsets, Small;
    if width.None? {
      SubSlice(p, lo, hi, base - lo, base - lo + 4 * |ends|);
      SubSlice(q, lo, hi, base - lo, base - lo + 4 * |ends|);
    }
  }

  // ----- what shifted ends mean -----

  lemma KeySegment(a: seq<nat>, ps: seq<Pair>, at: nat, b: seq<nat>, delta: int)
    requires 0 <= at + delta && at + delta + |Keys(ps)| < MAX_U32
    ensures Shiftable(a + KeyEnds(ps, at) + b, |a|, |a| + |ps|, delta)
    ensures Shifted(a + KeyEnds(ps, at) + b, |a|, |a| + |ps|, delta) == a + KeyEnds(ps, at + delta) + b
  {
    hide Keys;
    var s := a + KeyEnds(ps, at) + b;
    forall k | |a| <= k < |a| + |ps|
      ensures 0 <= s[k] + delta < MAX_U32 && s[k] + delta == KeyEnds(ps, at + delta)[k - |a|]
    {
      KeyEndsMove(ps, at, at + delta, k - |a|);
      KeyEndsBounded(ps, at + delta);
      hide KeyEnds;
    }
    hide KeyEnds;
    var r := Shifted(s, |a|, |a| + |ps|, delta);
    var q := a + KeyEnds(ps, at + delta) + b;
    assert |r| == |q| && forall k :: 0 <= k < |r| ==> r[k] == q[k];
  }

  lemma ValueSegment(a: seq<nat>, ps: seq<Pair>, at: nat, b: seq<nat>, delta: int)
    requires 0 <= at + delta && at + delta + |Values(ps)| < MAX_U32
    ensures Shiftable(a + ValueEnds(ps, at) + b, |a|, |a| + |ps|, delta)
    ensures Shifted(a + ValueEnds(ps, at) + b, |a|, |a| + |ps|, delta) == a + ValueEnds(ps, at + delta) + b
  {
    hide Values;
    var s := a + ValueEnds(ps, at) + b;
    forall k | |a| <= k < |a| + |ps|
      ensures 0 <= s[k] + delta < MAX_U32 && s[k] + delta == ValueEnds(ps, at + delta)[k - |a|]
    {
      ValueEndsMove(ps, at, at + delta, k - |a|);
      ValueEndsBounded(ps, at + delta);
      hide ValueEnds;
    }
    hide ValueEnds;
    var r := Shifted(s, |a|, |a| + |ps|, delta);
    var q := a + ValueEnds(ps, at + delta) + b;
    assert |r| == |q| && forall k :: 0 <= k < |r| ==> r[k] == q[k];
  }

  // ----- reading where a pair starts -----

  function KeyStartOf(page: seq<Byte>, w: Widths, n: nat, i: nat): nat
    requires i <= n && KeyStart(w, n) <= |page|
  {
    if i == 0 then KeyStart(w, n) else KeyEnd(page, w, n, i - 1)
  }

  function ValueStartOf(page: seq<Byte>, w: Widths, n: nat, i: nat): nat
    requires 0 < n && i <= n && KeyStart(w, n) <= |page|
  {
    if i == 0 then KeyEnd(page, w, n, n - 1) else ValueEnd(page, w, n, i - 1)
  }

  lemma {:induction false} LastValueEnd(ps: seq<Pair>, at: nat)
    requires ps != []
    ensures ValueEnds(ps, at)[|ps| - 1] == at + |Values(ps)|
    decreases |ps|
  {
    var end := at + |ps[0].value|;
    assert ValueEnds(ps, at) == [end] + ValueEnds(ps[1..], end) && |Values(ps)| == |ps[0].value| + |Values(ps[1..])|;
    if |ps| == 1 {
      assert Values(ps[1..]) == [];
    } else {
      LastValueEnd(ps[1..], end);
      hide ValueEnds, Values;
      assert ValueEnds(ps, at)[|ps| - 1] == ValueEnds(ps[1..], end)[|ps| - 2];
    }
  }

  lemma {:induction false} PrefixEnds(ps: seq<Pair>, at: nat, vat: nat, i: nat)
    requires 0 < i <= |ps|
    ensures KeyEnds(ps, at)[i - 1] == at + |Keys(ps[..i])| && ValueEnds(ps, vat)[i - 1] == vat + |Values(ps[..i])|
  {
    hide KeyEnds, ValueEnds, Keys, Values;
    assert ps == ps[..i] + ps[i..];
    KeyEndsConcat(ps[..i], ps[i..], at);
    ValueEndsConcat(ps[..i], ps[i..], vat);
    LastKeyEnd(ps[..i], at);
    LastValueEnd(ps[..i], vat);
  }

  lemma PairsRead(page: seq<Byte>, w: Widths, ps: seq<Pair>)
    requires Holds(page, w, ps)
    ensures KeyStart(w, |ps|) <= |page| && NumPairs(page) == |ps|
  {
    hide Keys, Values, Body, Le16, FromLe16;
    Le16RoundTrip(|ps|);
  }

  /** Where the pair at index `i - 1` ends is where the one at `i` starts. */
  lemma {:induction false} EndsAt(page: seq<Byte>, w: Widths, ps: seq<Pair>, i: nat)
    requires Holds(page, w, ps) && 0 < i <= |ps|
    ensures var at := KeyStart(w, |ps|);
      && at <= |page| && KeyEnd(page, w, |ps|, i - 1) == at + |Keys(ps[..i])|
      && ValueEnd(page, w, |ps|, i - 1) == at + |Keys(ps)| + |Values(ps[..i])|
  {
    hide KeyEnds, ValueEnds, Keys, Values, KeyEnd, ValueEnd, Holds, KeyStart;
    EndsRead(page, w, ps, i - 1);
    PrefixEnds(ps, KeyStart(w, |ps|), KeyStart(w, |ps|) + |Keys(ps)|, i);
  }

  /** The accessor finds where the pair at an index starts, and where the last one ends. */
  lemma {:induction false} StartsRead(page: seq<Byte>, w: Widths, ps: seq<Pair>, i: nat)
    requires Holds(page, w, ps) && ps != [] && i <= |ps|
    ensures KeyStart(w, |ps|) <= |page| && NumPairs(page) == |ps|
    ensures KeyStartOf(page, w, |ps|, i) == KeyStart(w, |ps|) + |Keys(ps[..i])|
    ensures ValueStartOf(page, w, |ps|, i) == KeyStart(w, |ps|) + |Keys(ps)| + |Values(ps[..i])|
    ensures ValueEnd(page, w, |ps|, |ps| - 1) == Total(w, ps)
  {
    hide KeyEnd, ValueEnd, Holds, KeyStart, NumPairs;
    assert Keys(ps[..0]) == [] && Values(ps[..0]) == [] && ps[..|ps|] == ps;
    hide Keys, Values;
    PairsRead(page, w, ps);
    EndsAt(page, w, ps, |ps|);
    if i > 0 {
      EndsAt(page, w, ps, i);
    }
  }

  // ----- insertion -----

  /** Four sections in two halves each, cut between the halves. */
  lemma Halves(page: seq<Byte>, base: nat, a1: seq<Byte>, a2: seq<Byte>, b1: seq<Byte>, b2: seq<Byte>, c1: seq<Byte>,
               c2: seq<Byte>, d1: seq<Byte>, d2: seq<Byte>)
    requires var b := base + |a1| + |a2|; var c := b + |b1| + |b2|; var d := c + |c1| + |c2|;
      var end := d + |d1| + |d2|;
      end <= |page| && page[base..b] == a1 + a2 && page[b..c] == b1 + b2 && page[c..d] == c1 + c2
        && page[d..end] == d1 + d2
    ensures var b := base + |a1| + |a2|; var c := b + |b1| + |b2|; var d := c + |c1| + |c2|; var end := d + |d1| + |d2|;
      && page[base..base + |a1|] == a1 && page[base + |a1|..b + |b1|] == a2 + b1 && page[b + |b1|..c + |c1|] == b2 + c1
      && page[c + |c1|..d + |d1|] == c2 + d1 && page[d + |d1|..end] == d2
  {
    var b := base + |a1| + |a2|;
    var c := b + |b1| + |b2|;
    var d := c + |c1| + |c2|;
    TwoParts(page, base, a1, a2);
    TwoParts(page, b, b1, b2);
    TwoParts(page, c, c1, c2);
    TwoParts(page, d, d1, d2);
    Glue(page, base + |a1|, b, b + |b1|);
    Glue(page, b + |b1|, c, c + |c1|);
    Glue(page, c + |c1|, d, d + |d1|);
  }

  function KeyPointer(w: Widths, end: nat): (r: seq<Byte>)
    ensures |r| == w.KeyTableLen(1)
  {
    if w.key.None? then Le32(end) else []
  }

  function ValuePointer(w: Widths, end: nat): (r: seq<Byte>)
    ensures |r| == w.ValueTableLen(1)
  {
    if w.value.None? then Le32(end) else []
  }

  lemma KeyTableConcat(w: Widths, a: seq<Pair>, b: seq<Pair>, at: nat)
    ensures KeyTable(w, a + b, at) == KeyTable(w, a, at) + KeyTable(w, b, at + |Keys(a)|)
  {
    KeyEndsConcat(a, b, at);
    OffsetsConcat(KeyEnds(a, at), KeyEnds(b, at + |Keys(a)|));
  }

  lemma ValueTableConcat(w: Widths, a: seq<Pair>, b: seq<Pair>, at: nat)
    ensures ValueTable(w, a + b, at) == ValueTable(w, a, at) + ValueTable(w, b, at + |Values(a)|)
  {
    ValueEndsConcat(a, b, at);
    OffsetsConcat(ValueEnds(a, at), ValueEnds(b, at + |Values(a)|));
  }

  lemma OnePair(w: Widths, x: Pair, at: nat)
    ensures Keys([x]) == x.key && Values([x]) == x.value
    ensures KeyTable(w, [x], at) == KeyPointer(w, at + |x.key|)
      && ValueTable(w, [x], at) == ValuePointer(w, at + |x.value|)
  {
    hide Le32;
    assert [x][1..] == [];
    assert KeyEnds([x], at) == [at + |x.key|] && ValueEnds([x], at) == [at + |x.value|];
    assert Offsets([at + |x.key|]) == Le32(at + |x.key|) + Offsets([]);
    assert Offsets([at + |x.value|]) == Le32(at + |x.value|) + Offsets([]);
  }

  /** The keys with one more pair, and the table that says where they end. */
  lemma {:induction false} InsertedKeys(w: Widths, a: seq<Pair>, x: Pair, b: seq<Pair>, at: nat)
    ensures Keys(a + [x] + b) == Keys(a) + x.key + Keys(b)
    ensures var end := at + |Keys(a)| + |x.key|;
      KeyTable(w, a + [x] + b, at) == KeyTable(w, a, at) + KeyPointer(w, end) + KeyTable(w, b, end)
  {
    hide KeyTable, ValueTable, Keys, Values, KeyPointer, ValuePointer;
    OnePair(w, x, at + |Keys(a)|);
    KeysConcat(a, [x]);
    KeysConcat(a + [x], b);
    KeyTableConcat(w, a, [x], at);
    KeyTableConcat(w, a + [x], b, at);
  }

  lemma {:induction false} InsertedValues(w: Widths, a: seq<Pair>, x: Pair, b: seq<Pair>, at: nat)
    ensures Values(a + [x] + b) == Values(a) + x.value + Values(b)
    ensures var end := at + |Values(a)| + |x.value|;
      ValueTable(w, a + [x] + b, at) == ValueTable(w, a, at) + ValuePointer(w, end) + ValueTable(w, b, end)
  {
    hide KeyTable, ValueTable, Keys, Values, KeyPointer, ValuePointer;
    OnePair(w, x, at + |Values(a)|);
    ValuesConcat(a, [x]);
    ValuesConcat(a + [x], b);
    ValueTableConcat(w, a, [x], at);
    ValueTableConcat(w, a + [x], b, at);
  }

  /** The two tables while the gap for `x` is still closed: already the ends of the edited list. */
  method PointersForInsert(page: array<Byte>, w: Widths, i: nat, keyLen: nat, valueLen: nat, ghost a: seq<Pair>,
                           ghost b: seq<Pair>)
    requires Holds(page[..], w, a + b) && |a| == i
    requires var x := KeyStart(w, |a| + 1 + |b|) + |Keys(a)| + keyLen + |Keys(b)| + |Values(a)| + valueLen
      + |Values(b)|; x < MAX_U32
    modifies page
    ensures var n := |a| + |b|; var at := KeyStart(w, n + 1); var kb := at + |Keys(a)| + keyLen;
      var vat := kb + |Keys(b)|;
      && Table(page[..], 4, w.key, KeyEnds(a, at) + KeyEnds(b, kb))
      && Table(page[..], 4 + w.KeyTableLen(n), w.value, ValueEnds(a, vat) + ValueEnds(b, vat + |Values(a)| + valueLen))
    ensures var at := KeyStart(w, |a| + |b|);
      at <= page.Length && page[..4] == old(page[..4]) && page[at..] == old(page[at..])
  {
    hide Table, Holds, Shiftable, Shifted, Keys, Values, KeyEnds, ValueEnds;
    PairsRead(page[..], w, a + b);
    var n := NumPairs(page[..]);
    var keyPtr, valuePtr := w.KeyTableLen(1), w.ValueTableLen(1);
    ghost var at := KeyStart(w, n);
    ghost var vat := at + |Keys(a)| + |Keys(b)|;
    TablesOf(page[..], w, a, b);
    ghost var ks, vs := KeyEnds(a, at) + KeyEnds(b, at + |Keys(a)|),
      ValueEnds(a, vat) + ValueEnds(b, vat + |Values(a)|);
    ShiftFirst(a, b, at, vat, keyPtr + valuePtr, keyPtr + valuePtr + keyLen);
    ShiftEnds(page, w, n, 0, i, keyPtr + valuePtr, keyPtr + valuePtr + keyLen, ks, vs);
    ghost var at2, vat2 := at + keyPtr + valuePtr, vat + keyPtr + valuePtr + keyLen;
    ghost var ks2, vs2 := KeyEnds(a, at2) + KeyEnds(b, at + |Keys(a)|),
      ValueEnds(a, vat2) + ValueEnds(b, vat + |Values(a)|);
    var keyDelta := keyPtr + valuePtr + keyLen;
    ShiftSecond(KeyEnds(a, at2), ValueEnds(a, vat2), b, at + |Keys(a)|, vat + |Values(a)|, keyDelta,
                keyDelta + valueLen);
    ShiftEnds(page, w, n, i, n, keyDelta, keyDelta + valueLen, ks2, vs2);
  }

  lemma TablesOf(page: seq<Byte>, w: Widths, a: seq<Pair>, b: seq<Pair>)
    requires Holds(page, w, a + b)
    ensures var n := |a| + |b|; var at := KeyStart(w, n); var vat := at + |Keys(a)| + |Keys(b)|;
      && Table(page, 4, w.key, KeyEnds(a, at) + KeyEnds(b, at + |Keys(a)|))
      && Table(page, 4 + w.KeyTableLen(n), w.value, ValueEnds(a, vat) + ValueEnds(b, vat + |Values(a)|))
      && vat + |Values(a)| + |Values(b)| == Total(w, a + b)
  {
    hide Keys, Values, KeyEnds, ValueEnds, Offsets, Small;
    KeysConcat(a, b);
    ValuesConcat(a, b);
    PageParts(page, w, a + b);
    var at := KeyStart(w, |a| + |b|);
    EndsBounded(a + b, at);
    KeyEndsConcat(a, b, at);
    ValueEndsConcat(a, b, at + |Keys(a + b)|);
  }

  lemma ShiftFirst(a: seq<Pair>, b: seq<Pair>, at: nat, vat: nat, dk: int, dv: int)
    requires 0 <= at + dk && at + dk + |Keys(a)| < MAX_U32 && 0 <= vat + dv && vat + dv + |Values(a)| < MAX_U32
    ensures var ks := KeyEnds(a, at) + KeyEnds(b, at + |Keys(a)|);
      Shiftable(ks, 0, |a|, dk) && Shifted(ks, 0, |a|, dk) == KeyEnds(a, at + dk) + KeyEnds(b, at + |Keys(a)|)
    ensures var vs := ValueEnds(a, vat) + ValueEnds(b, vat + |Values(a)|);
      Shiftable(vs, 0, |a|, dv) && Shifted(vs, 0, |a|, dv) == ValueEnds(a, vat + dv) + ValueEnds(b, vat + |Values(a)|)
  {
    hide Shiftable, Shifted, Keys, Values, KeyEnds, ValueEnds;
    KeySegment([], a, at, KeyEnds(b, at + |Keys(a)|), dk);
    ValueSegment([], a, vat, ValueEnds(b, vat + |Values(a)|), dv);
    assert [] + KeyEnds(a, at) == KeyEnds(a, at) && [] + KeyEnds(a, at + dk) == KeyEnds(a, at + dk);
    assert [] + ValueEnds(a, vat) == ValueEnds(a, vat) && [] + ValueEnds(a, vat + dv) == ValueEnds(a, vat + dv);
  }

  lemma ShiftSecond(ks: seq<nat>, vs: seq<nat>, b: seq<Pair>, at: nat, vat: nat, dk: int, dv: int)
    requires |ks| == |vs| && 0 <= at + dk && at + dk + |Keys(b)| < MAX_U32 && 0 <= vat + dv
      && vat + dv + |Values(b)| < MAX_U32
    ensures var n := |ks| + |b|; var s := ks + KeyEnds(b, at);
      Shiftable(s, |ks|, n, dk) && Shifted(s, |ks|, n, dk) == ks + KeyEnds(b, at + dk)
    ensures var n := |vs| + |b|; var s := vs + ValueEnds(b, vat);
      Shiftable(s, |vs|, n, dv) && Shifted(s, |vs|, n, dv) == vs + ValueEnds(b, vat + dv)
  {
    hide Shiftable, Shifted, Keys, Values, KeyEnds, ValueEnds;
    KeySegment(ks, b, at, [], dk);
    ValueSegment(vs, b, vat, [], dv);
    assert ks + KeyEnds(b, at) + [] == ks + KeyEnds(b, at) && ks + KeyEnds(b, at + dk) + [] == ks + KeyEnds(b, at + dk);
    assert vs + ValueEnds(b, vat) + [] == vs + ValueEnds(b, vat)
      && vs + ValueEnds(b, vat + dv) + [] == vs + ValueEnds(b, vat + dv);
  }

  lemma {:induction false} KeyTableIs(page: seq<Byte>, w: Widths, a: seq<Pair>, b: seq<Pair>, x: nat, y: nat)
    requires Table(page, 4, w.key, KeyEnds(a, x) + KeyEnds(b, y)) && 4 + w.KeyTableLen(|a| + |b|) <= |page|
    ensures page[4..4 + w.KeyTableLen(|a| + |b|)] == KeyTable(w, a, x) + KeyTable(w, b, y)
  {
    hide KeyEnds, Offsets;
    OffsetsConcat(KeyEnds(a, x), KeyEnds(b, y));
  }

  lemma {:induction false} ValueTableIs(page: seq<Byte>, base: nat, w: Widths, a: seq<Pair>, b: seq<Pair>, x: nat,
                                        y: nat)
    requires Table(page, base, w.value, ValueEnds(a, x) + ValueEnds(b, y))
      && base + w.ValueTableLen(|a| + |b|) <= |page|
    ensures page[base..base + w.ValueTableLen(|a| + |b|)] == ValueTable(w, a, x) + ValueTable(w, b, y)
  {
    hide ValueEnds, Offsets;
    OffsetsConcat(ValueEnds(a, x), ValueEnds(b, y));
  }

  /** The keys and values stay where they were while the pointers change. */
  lemma {:induction false} DataStays(p: seq<Byte>, q: seq<Byte>, w: Widths, a: seq<Pair>, b: seq<Pair>)
    requires Holds(p, w, a + b) && |q| == |p| && KeyStart(w, |a| + |b|) <= |p|
      && q[KeyStart(w, |a| + |b|)..] == p[KeyStart(w, |a| + |b|)..]
    ensures var at := KeyStart(w, |a| + |b|); var vat := at + |Keys(a)| + |Keys(b)|;
      var end := vat + |Values(a)| + |Values(b)|;
      && end == Total(w, a + b) <= |q| && q[at..vat] == Keys(a) + Keys(b) && q[vat..end] == Values(a) + Values(b)
  {
    hide Keys, Values, Body, KeyTable, ValueTable, AllFit, Le16;
    PageParts(p, w, a + b);
    KeysConcat(a, b);
    ValuesConcat(a, b);
    var at := KeyStart(w, |a| + |b|);
    var k, e := |Keys(a + b)|, |p| - at;
    After(p, q, at, at, at + k);
    After(p, q, at, at + k, at + k + |Values(a + b)|);
  }

  lemma Regroup(a1: seq<Byte>, x1: seq<Byte>, a2: seq<Byte>, b1: seq<Byte>, x2: seq<Byte>, b2: seq<Byte>,
                c1: seq<Byte>, x3: seq<Byte>, c2: seq<Byte>, d1: seq<Byte>, x4: seq<Byte>, d2: seq<Byte>)
    ensures a1 + (x1 + (a2 + b1) + (x2 + (b2 + c1) + (x3 + (c2 + d1) + (x4 + d2)))) == (a1 + x1 + a2) + (b1 + x2 + b2)
      + (c1 + x3 + c2) + (d1 + x4 + d2)
  {
    var t := x3 + (c2 + d1) + (x4 + d2);
    assert a1 + (x1 + (a2 + b1) + (x2 + (b2 + c1) + t)) == (a1 + x1 + a2) + (b1 + x2 + b2) + (c1 + t);
    assert c1 + t == (c1 + x3 + c2) + (d1 + x4 + d2);
  }

  lemma {:induction false} InsertedTotal(w: Widths, a: seq<Pair>, x: Pair, b: seq<Pair>)
    ensures Total(w, a + [x] + b) == KeyStart(w, |a| + 1 + |b|) + |Keys(a)| + |x.key| + |Keys(b)| + |Values(a)|
      + |x.value| + |Values(b)|
    ensures Total(w, a + [x] + b) == Total(w, a + b) + w.KeyTableLen(1) + w.ValueTableLen(1) + |x.key| + |x.value|
  {
    hide Keys, Values, KeyTable, ValueTable;
    InsertedKeys(w, a, x, b, 0);
    InsertedValues(w, a, x, b, 0);
    KeysConcat(a, b);
    ValuesConcat(a, b);
  }

  /** Four sections, each in two halves. */
  ghost predicate Sections(page: seq<Byte>, a: (seq<Byte>, seq<Byte>), b: (seq<Byte>, seq<Byte>),
                           c: (seq<Byte>, seq<Byte>), d: (seq<Byte>, seq<Byte>))
  {
    var b0 := 4 + |a.0| + |a.1|;
    var c0 := b0 + |b.0| + |b.1|;
    var d0 := c0 + |c.0| + |c.1|;
    var end := d0 + |d.0| + |d.1|;
    end <= |page| && page[4..b0] == a.0 + a.1 && page[b0..c0] == b.0 + b.1 && page[c0..d0] == c.0 + c.1
      && page[d0..end] == d.0 + d.1
  }

  /** Opening a gap between the halves of every section. */
  method OpenSections(page: array<Byte>, s1: nat, s2: nat, s3: nat, s4: nat, end: nat, x1: seq<Byte>, x2: seq<Byte>,
                      x3: seq<Byte>, x4: seq<Byte>,
    ghost a: (seq<Byte>, seq<Byte>), ghost b: (seq<Byte>, seq<Byte>), ghost c: (seq<Byte>, seq<Byte>),
      ghost d: (seq<Byte>, seq<Byte>))
    requires Sections(page[..], a, b, c, d)
    requires s1 == 4 + |a.0| && s2 == s1 + |a.1| + |b.0| && s3 == s2 + |b.1| + |c.0| && s4 == s3 + |c.1| + |d.0|
      && end == s4 + |d.1|
    requires end + |x1| + |x2| + |x3| + |x4| <= page.Length
    modifies page
    ensures page[..4] == old(page[..4])
    ensures page[4..end + |x1| + |x2| + |x3| + |x4|] == (a.0 + x1 + a.1) + (b.0 + x2 + b.1) + (c.0 + x3 + c.1)
      + (d.0 + x4 + d.1)
  {
    hide Sections;
    ghost var p := page[..];
    SectionsCut(p, a, b, c, d);
    OpenGaps(page, s1, s2, s3, s4, end, x1, x2, x3, x4, a.1 + b.0, b.1 + c.0, c.1 + d.0, d.1);
    Opened(p, page[..], s1, end + |x1| + |x2| + |x3| + |x4|, a, b, c, d, x1, x2, x3, x4);
  }

  lemma Opened(p: seq<Byte>, q: seq<Byte>, s1: nat, top: nat, a: (seq<Byte>, seq<Byte>), b: (seq<Byte>, seq<Byte>),
               c: (seq<Byte>, seq<Byte>), d: (seq<Byte>, seq<Byte>), x1: seq<Byte>, x2: seq<Byte>, x3: seq<Byte>,
               x4: seq<Byte>)
    requires |p| == |q| && 4 <= s1 <= top <= |p| && q[..s1] == p[..s1] && p[4..s1] == a.0
    requires q[s1..top] == x1 + (a.1 + b.0) + (x2 + (b.1 + c.0) + (x3 + (c.1 + d.0) + (x4 + d.1)))
    ensures q[..4] == p[..4]
    ensures q[4..top] == (a.0 + x1 + a.1) + (b.0 + x2 + b.1) + (c.0 + x3 + c.1) + (d.0 + x4 + d.1)
  {
    Around(p, q, s1, top, a.0, x1 + (a.1 + b.0) + (x2 + (b.1 + c.0) + (x3 + (c.1 + d.0) + (x4 + d.1))));
    Regroup(a.0, x1, a.1, b.0, x2, b.1, c.0, x3, c.1, d.0, x4, d.1);
  }

  lemma SectionsCut(p: seq<Byte>, a: (seq<Byte>, seq<Byte>), b: (seq<Byte>, seq<Byte>), c: (seq<Byte>, seq<Byte>),
                    d: (seq<Byte>, seq<Byte>))
    requires Sections(p, a, b, c, d)
    ensures var s1 := 4 + |a.0|; var s2 := s1 + |a.1| + |b.0|; var s3 := s2 + |b.1| + |c.0|;
      var s4 := s3 + |c.1| + |d.0|; var end := s4 + |d.1|;
      end <= |p| && p[4..s1] == a.0 && p[s1..s2] == a.1 + b.0 && p[s2..s3] == b.1 + c.0 && p[s3..s4] == c.1 + d.0
        && p[s4..end] == d.1
  {
    Halves(p, 4, a.0, a.1, b.0, b.1, c.0, c.1, d.0, d.1);
  }

  lemma Around(p: seq<Byte>, q: seq<Byte>, s1: nat, top: nat, a: seq<Byte>, t: seq<Byte>)
    requires |p| == |q| && 4 <= s1 <= top <= |p| && q[..s1] == p[..s1] && p[4..s1] == a && q[s1..top] == t
    ensures q[4..top] == a + t && q[..4] == p[..4]
  {
    Before(p, q, s1, 4, s1);
    Before(p, q, s1, 0, 4);
    Glue(q, 4, s1, top);
  }

  /** Pointers updated for the pair to come, which is not there yet. */
  ghost predicate Ready(page: seq<Byte>, w: Widths, a: seq<Pair>, x: Pair, b: seq<Pair>)
  {
    var at := KeyStart(w, |a| + 1 + |b|);
    var kb := at + |Keys(a)| + |x.key|;
    var vat := kb + |Keys(b)|;
    var vb := vat + |Values(a)| + |x.value|;
    Sections(page, (KeyTable(w, a, at), KeyTable(w, b, kb)), (ValueTable(w, a, vat), ValueTable(w, b, vb)),
             (Keys(a), Keys(b)), (Values(a), Values(b)))
  }

  /** The moves of an insertion. */
  method OpenFor(page: array<Byte>, w: Widths, n: nat, i: nat, s3: nat, s4: nat, end: nat, key: seq<Byte>,
                 value: seq<Byte>, ghost a: seq<Pair>, ghost b: seq<Pair>)
    requires Ready(page[..], w, a, Pair(key, value), b) && |a| == i && |a| + |b| == n
    requires s3 == KeyStart(w, n) + |Keys(a)| && s4 == s3 + |Keys(b)| + |Values(a)| && end == s4 + |Values(b)|
    requires Total(w, a + [Pair(key, value)] + b) <= page.Length
    modifies page
    ensures page[..4] == old(page[..4])
    ensures page[4..Total(w, a + [Pair(key, value)] + b)] == Body(w, a + [Pair(key, value)] + b)
  {
    hide Sections, KeyTable, ValueTable, Keys, Values, KeyPointer, ValuePointer, Total;
    var inserted := w.KeyTableLen(1) + w.ValueTableLen(1) + |key|;
    ghost var x := Pair(key, value);
    ghost var at := KeyStart(w, n + 1);
    var kb, vb := s3 + inserted, s4 + inserted + |value|;
    ghost var vat := kb + |Keys(b)|;
    InsertedTotal(w, a, x, b);
    InsertedKeys(w, a, x, b, at);
    InsertedValues(w, a, x, b, vat);
    OpenSections(page, 4 + w.KeyTableLen(i), 4 + w.KeyTableLen(n) + w.ValueTableLen(i), s3, s4, end,
                 KeyPointer(w, kb), ValuePointer(w, vb), key, value,
      (KeyTable(w, a, at), KeyTable(w, b, kb)), (ValueTable(w, a, vat), ValueTable(w, b, vb)), (Keys(a), Keys(b)),
        (Values(a), Values(b)));
  }

  /** Inserts a pair at index `i` and shifts what follows to the right. */
  method Insert(page: array<Byte>, w: Widths, i: nat, key: seq<Byte>, value: seq<Byte>, ghost ps: seq<Pair>)
    requires Holds(page[..], w, ps) && ps != [] && i <= |ps| && |ps| + 1 < 0x1_0000 && FitWidths(w, Pair(key, value))
    requires Total(w, ps[..i] + [Pair(key, value)] + ps[i..]) <= page.Length
    requires Total(w, ps[..i] + [Pair(key, value)] + ps[i..]) < MAX_U32
    modifies page
    ensures Holds(page[..], w, ps[..i] + [Pair(key, value)] + ps[i..])
  {
    hide Holds, Body, Keys, Values, KeyStartOf, ValueStartOf, ValueEnd, NumPairs, Total, Le16, AllFit, Ready, FitWidths;
    ghost var a, x, b := ps[..i], Pair(key, value), ps[i..];
    assert ps == a + b;
    ghost var p0 := page[..];
    FitInserted(p0, w, ps, i, x);
    StartsRead(p0, w, ps, i);
    InsertedTotal(w, a, x, b);
    KeysConcat(a, b);
    DataStays(p0, p0, w, a, b);
    var n := NumPairs(page[..]);
    var s3, s4, end := KeyStartOf(page[..], w, n, i), ValueStartOf(page[..], w, n, i), ValueEnd(page[..], w, n, n - 1);
    MakeReady(page, w, n, i, key, value, a, b);
    OpenFor(page, w, n, i, s3, s4, end, key, value, a, b);
    HoldsFrom(page[..], w, a + [x] + b);
  }

  /** Updates the pointers and the count. */
  method MakeReady(page: array<Byte>, w: Widths, n: nat, i: nat, key: seq<Byte>, value: seq<Byte>, ghost a: seq<Pair>,
                   ghost b: seq<Pair>)
    requires Holds(page[..], w, a + b) && |a| == i && |a| + |b| == n && Total(w, a + [Pair(key, value)] + b) < MAX_U32
    modifies page
    ensures Ready(page[..], w, a, Pair(key, value), b) && page[0] == LEAF && page[2..4] == Le16(n + 1)
  {
    hide Holds, Keys, Values, KeyEnds, ValueEnds, Table, Total, Le16, Ready;
    ghost var p0, x := page[..], Pair(key, value);
    InsertedTotal(w, a, x, b);
    PointersForInsert(page, w, i, |key|, |value|, a, b);
    ghost var p1 := page[..];
    Write(page, 2, Le16(n + 1));
    ghost var p2 := page[..];
    MadeReady(p0, p1, p2, w, a, x, b);
    HeaderKept(p0, p1, p2, w, a + b);
  }

  lemma MadeReady(p0: seq<Byte>, p1: seq<Byte>, p2: seq<Byte>, w: Widths, a: seq<Pair>, x: Pair, b: seq<Pair>)
    requires Holds(p0, w, a + b) && |p0| == |p1| == |p2| && KeyStart(w, |a| + |b|) <= |p0|
    requires p1[KeyStart(w, |a| + |b|)..] == p0[KeyStart(w, |a| + |b|)..] && p2[4..] == p1[4..]
    requires var n := |a| + |b|; var at := KeyStart(w, n + 1); var kb := at + |Keys(a)| + |x.key|;
      var vat := kb + |Keys(b)|;
      && Table(p1, 4, w.key, KeyEnds(a, at) + KeyEnds(b, kb))
      && Table(p1, 4 + w.KeyTableLen(n), w.value, ValueEnds(a, vat) + ValueEnds(b, vat + |Values(a)| + |x.value|))
    ensures Ready(p2, w, a, x, b)
  {
    hide Holds, Keys, Values, KeyEnds, ValueEnds, KeyTable, ValueTable, Table, Total;
    var at := KeyStart(w, |a| + |b| + 1);
    var kb := at + |Keys(a)| + |x.key|;
    var vat := kb + |Keys(b)|;
    Recounted(p0, p1, p2, w, a, b);
    CutForInsert(p1, p2, w, a, b, at, kb, vat, vat + |Values(a)| + |x.value|);
    DataStays(p0, p2, w, a, b);
  }

  lemma HeaderKept(p0: seq<Byte>, p1: seq<Byte>, p2: seq<Byte>, w: Widths, ps: seq<Pair>)
    requires Holds(p0, w, ps) && |p0| == |p1| == |p2| && p1[..4] == p0[..4] && p2[..2] == p1[..2]
    ensures p2[0] == LEAF
  {
    hide Body, Keys, Values, Le16, AllFit;
    assert p2[0] == p2[..2][0] == p1[..2][0] == p1[..4][0] == p0[..4][0];
  }

  lemma FitInserted(page: seq<Byte>, w: Widths, ps: seq<Pair>, i: nat, x: Pair)
    requires Holds(page, w, ps) && i <= |ps| && FitWidths(w, x)
    ensures AllFit(w, ps[..i] + [x] + ps[i..])
  {
    hide Body, Keys, Values, Le16, FitWidths;
  }

  lemma HoldsFrom(page: seq<Byte>, w: Widths, ps: seq<Pair>)
    requires |ps| < 0x1_0000 && Total(w, ps) < MAX_U32 && Total(w, ps) <= |page| && AllFit(w, ps) && |page| >= 4
    requires page[0] == LEAF && page[2..4] == Le16(|ps|) && page[4..Total(w, ps)] == Body(w, ps)
    ensures Holds(page, w, ps)
  {
    hide AllFit, Body, Le16;
  }

  lemma Recounted(p0: seq<Byte>, p1: seq<Byte>, p2: seq<Byte>, w: Widths, a: seq<Pair>, b: seq<Pair>)
    requires |p0| == |p1| == |p2| && 4 <= KeyStart(w, |a| + |b|) <= |p0|
    requires p1[KeyStart(w, |a| + |b|)..] == p0[KeyStart(w, |a| + |b|)..] && p2[4..] == p1[4..]
    ensures p2[KeyStart(w, |a| + |b|)..] == p0[KeyStart(w, |a| + |b|)..]
  {
    var at := KeyStart(w, |a| + |b|);
    After(p1, p2, 4, at, |p1|);
  }

  lemma {:induction false} CutForInsert(p1: seq<Byte>, p2: seq<Byte>, w: Widths, a: seq<Pair>, b: seq<Pair>, at: nat,
                                        kb: nat, vat: nat,
                     vb: nat)
    requires |p1| == |p2| && KeyStart(w, |a| + |b|) <= |p1| && p2[4..] == p1[4..]
    requires Table(p1, 4, w.key, KeyEnds(a, at) + KeyEnds(b, kb))
    requires Table(p1, 4 + w.KeyTableLen(|a| + |b|), w.value, ValueEnds(a, vat) + ValueEnds(b, vb))
    ensures p2[4..4 + w.KeyTableLen(|a| + |b|)] == KeyTable(w, a, at) + KeyTable(w, b, kb)
    ensures p2[4 + w.KeyTableLen(|a| + |b|)..KeyStart(w, |a| + |b|)] == ValueTable(w, a, vat) + ValueTable(w, b, vb)
  {
    hide Table, KeyTable, ValueTable, KeyEnds, ValueEnds;
    var n := |a| + |b|;
    KeyTableIs(p1, w, a, b, at, kb);
    ValueTableIs(p1, 4 + w.KeyTableLen(n), w, a, b, vat, vb);
    After(p1, p2, 4, 4, 4 + w.KeyTableLen(n));
    After(p1, p2, 4, 4 + w.KeyTableLen(n), 4 + w.KeyTableLen(n) + w.ValueTableLen(n));
  }
}
