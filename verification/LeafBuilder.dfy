/**
 The raw leaf builder: pairs are appended one by one to a page whose tables are sized in advance,
 and the finished page is the layout of the appended list.
 */
module LeafBuilder {
  import opened Bits
  import opened LeafLayout
  import opened LeafEditor
  import opened LeafOverwrite

  /** Where the values start: after the provisioned key bytes. */
  function ValuesAt(w: Widths, n: nat, keyBytes: nat): nat
  {
    KeyStart(w, n) + keyBytes
  }

  /** The pairs written so far, in a page laid out for `n`. */
  ghost predicate Partial(p: seq<Byte>, w: Widths, n: nat, keyBytes: nat, done: seq<Pair>)
  {
    var at, vat := KeyStart(w, n), ValuesAt(w, n, keyBytes);
    && |done| <= n && |Keys(done)| <= keyBytes && vat + |Values(done)| <= |p|
    && Table(p, 4, w.key, KeyEnds(done, at)) && Table(p, 4 + w.KeyTableLen(n), w.value, ValueEnds(done, vat))
    && p[at..at + |Keys(done)|] == Keys(done) && p[vat..vat + |Values(done)|] == Values(done)
  }

  /** Writes `x` after `s`, which starts at `base`. */
  method Extend(page: array<Byte>, base: nat, at: nat, x: seq<Byte>, ghost s: seq<Byte>)
    requires at == base + |s| && at + |x| <= page.Length && page[base..at] == s
    modifies page
    ensures page[base..at + |x|] == s + x && page[..at] == old(page[..at]) && page[at + |x|..] == old(page[at + |x|..])
  {
    ghost var p := page[..];
    Write(page, at, x);
    Before(p, page[..], at, base, at);
    Glue(page[..], base, at, at + |x|);
  }

  /** One more end at the end of a table. */
  method AppendEnd(page: array<Byte>, base: nat, width: Option<nat>, end: nat, limit: nat, k: nat, ghost ends: seq<nat>)
    requires Table(page[..], base, width, ends) && |ends| == k && end < MAX_U32 && base <= limit <= page.Length
      && (width.None? ==> base + 4 * k + 4 <= limit)
    modifies page
    ensures Table(page[..], base, width, ends + [end]) && page[..base] == old(page[..base])
      && page[limit..] == old(page[limit..])
  {
    hide Offsets;
    if width.None? {
      ghost var p := page[..];
      hide Le32;
      Extend(page, base, base + 4 * k, Le32(end), Offsets(ends));
      Before(p, page[..], base + 4 * k, 0, base);
      After(p, page[..], base + 4 * k + 4, limit, limit);
      OffsetsSnoc(ends, end);
    }
  }

  lemma {:induction false} OffsetsSnoc(ends: seq<nat>, end: nat)
    ensures Offsets(ends + [end]) == Offsets(ends) + Le32(end)
  {
    hide Le32;
    OffsetsConcat(ends, [end]);
    assert Offsets([end]) == Le32(end) + Offsets([]);
  }

  lemma {:induction false} Snoc(done: seq<Pair>, x: Pair, at: nat, vat: nat)
    ensures Keys(done + [x]) == Keys(done) + x.key && Values(done + [x]) == Values(done) + x.value
    ensures KeyEnds(done + [x], at) == KeyEnds(done, at) + [at + |Keys(done)| + |x.key|]
    ensures ValueEnds(done + [x], vat) == ValueEnds(done, vat) + [vat + |Values(done)| + |x.value|]
  {
    KeysConcat(done, [x]);
    ValuesConcat(done, [x]);
    KeyEndsConcat(done, [x], at);
    ValueEndsConcat(done, [x], vat);
    assert [x][1..] == [];
  }

  /** The end of the last key written, read back or computed. */
  lemma {:induction false} LastKeyWritten(p: seq<Byte>, w: Widths, n: nat, keyBytes: nat, done: seq<Pair>)
    requires Partial(p, w, n, keyBytes, done) && done != [] && AllFit(w, done)
    ensures w.key.Some? ==> w.key.value * |done| == |Keys(done)|
    ensures w.key.None? ==>
      4 * |done| + 4 <= |p| && FromLe32(p[4 * |done|..4 * |done| + 4]) == KeyStart(w, n) + |Keys(done)|
  {
    hide FromLe32, Offsets, Keys, Values, KeyEnds, ValueEnds, AllFit;
    var at := KeyStart(w, n);
    LastKeyEnd(done, at);
    if w.key.Some? {
      FixedKeys(w, done, at, |done| - 1);
    } else {
      OffsetRead(p, 4, KeyEnds(done, at), |done| - 1);
    }
  }

  lemma {:induction false} LastValueWritten(p: seq<Byte>, w: Widths, n: nat, keyBytes: nat, done: seq<Pair>)
    requires Partial(p, w, n, keyBytes, done) && done != [] && AllFit(w, done)
    ensures w.value.Some? ==> w.value.value * |done| == |Values(done)|
    ensures w.value.None? ==> var o := 4 + w.KeyTableLen(n) + 4 * (|done| - 1);
      o + 4 <= |p| && FromLe32(p[o..o + 4]) == ValuesAt(w, n, keyBytes) + |Values(done)|
  {
    hide FromLe32, Offsets, Keys, Values, KeyEnds, ValueEnds, AllFit;
    var vat := ValuesAt(w, n, keyBytes);
    LastValueEnd(done, vat);
    if w.value.Some? {
      FixedValues(w, done, vat, |done| - 1);
    } else {
      OffsetRead(p, 4 + w.KeyTableLen(n), ValueEnds(done, vat), |done| - 1);
    }
  }

  /** The four writes of one append. */
  method AppendPair(page: array<Byte>, w: Widths, n: nat, keyBytes: nat, k: nat, ko: nat, vo: nat, key: seq<Byte>,
                    value: seq<Byte>, ghost done: seq<Pair>)
    requires Partial(page[..], w, n, keyBytes, done) && |done| == k < n && ValuesAt(w, n, keyBytes) <= page.Length
    requires ko == KeyStart(w, n) + |Keys(done)| && vo == ValuesAt(w, n, keyBytes) + |Values(done)|
    requires |Keys(done)| + |key| <= keyBytes && vo + |value| <= page.Length && vo + |value| < MAX_U32
    modifies page
    ensures Partial(page[..], w, n, keyBytes, done + [Pair(key, value)]) && page[..4] == old(page[..4])
  {
    hide Partial, Table, Keys, Values, KeyEnds, ValueEnds;
    ghost var p0 := page[..];
    ghost var at, vat, base := KeyStart(w, n), ValuesAt(w, n, keyBytes), 4 + w.KeyTableLen(n);
    PartialParts(p0, w, n, keyBytes, done);
    AppendKey(page, w, n, k, ko, key, KeyEnds(done, at), Keys(done));
    ghost var p1 := page[..];
    SameTable(p0, p1, base, base, at, w.value, ValueEnds(done, vat));
    After(p0, p1, ko + |key|, vat, vo);
    AppendValue(page, w, n, k, ValuesAt(w, n, keyBytes), vo, value, ValueEnds(done, vat), Values(done));
    Together(p1, page[..], w, n, keyBytes, done, Pair(key, value));
  }

  /** The key is in place before the value is written, and stays. */
  lemma {:induction false} Together(p1: seq<Byte>, p2: seq<Byte>, w: Widths, n: nat, keyBytes: nat, done: seq<Pair>,
                                    x: Pair)
    requires |p1| == |p2| && |done| < n && |Keys(done)| + |x.key| <= keyBytes
      && ValuesAt(w, n, keyBytes) + |Values(done)| + |x.value| <= |p2|
    requires var at, vat, base := KeyStart(w, n), ValuesAt(w, n, keyBytes), 4 + w.KeyTableLen(n);
      var ke, ve := at + |Keys(done)| + |x.key|, vat + |Values(done)| + |x.value|;
      && Table(p1, 4, w.key, KeyEnds(done, at) + [ke]) && p1[at..ke] == Keys(done) + x.key
      && Table(p2, base, w.value, ValueEnds(done, vat) + [ve]) && p2[vat..ve] == Values(done) + x.value
      && p2[..base] == p1[..base] && p2[at..vat] == p1[at..vat]
    ensures Partial(p2, w, n, keyBytes, done + [x]) && p2[..4] == p1[..4]
  {
    hide Partial, Table, Keys, Values, KeyEnds, ValueEnds;
    var at, vat, base := KeyStart(w, n), ValuesAt(w, n, keyBytes), 4 + w.KeyTableLen(n);
    var ke := at + |Keys(done)| + |x.key|;
    SameTable(p1, p2, 4, 0, base, w.key, KeyEnds(done, at) + [ke]);
    Before(p1, p2, base, 0, 4);
    SubSlice(p1, at, vat, 0, ke - at);
    SubSlice(p2, at, vat, 0, ke - at);
    PartialFrom(p2, w, n, keyBytes, done, x);
  }

  /** The key's pointer and bytes. */
  method AppendKey(page: array<Byte>, w: Widths, n: nat, k: nat, ko: nat, key: seq<Byte>, ghost ks: seq<nat>,
                   ghost keys: seq<Byte>)
    requires |ks| == k < n && KeyStart(w, n) + |keys| == ko && ko + |key| <= page.Length && ko + |key| < MAX_U32
    requires Table(page[..], 4, w.key, ks) && page[KeyStart(w, n)..ko] == keys
    modifies page
    ensures Table(page[..], 4, w.key, ks + [ko + |key|]) && page[KeyStart(w, n)..ko + |key|] == keys + key
    ensures page[..4] == old(page[..4]) && page[4 + w.KeyTableLen(n)..KeyStart(w, n)] ==
      old(page[4 + w.KeyTableLen(n)..KeyStart(w, n)])
    ensures page[ko + |key|..] == old(page[ko + |key|..])
  {
    hide Table;
    ghost var p0, base, at := page[..], 4 + w.KeyTableLen(n), KeyStart(w, n);
    AppendEnd(page, 4, w.key, ko + |key|, 4 + w.KeyTableLen(n), k, ks);
    ghost var p1 := page[..];
    After(p0, p1, base, at, ko);
    Extend(page, KeyStart(w, n), ko, key, keys);
    ghost var p2 := page[..];
    Before(p1, p2, ko, 0, base);
    Before(p1, p2, ko, 0, 4);
    Before(p1, p2, ko, base, at);
    SameTable(p1, p2, 4, 0, base, w.key, ks + [ko + |key|]);
    After(p0, p1, base, base, at);
    After(p0, p1, base, ko + |key|, |p0|);
  }

  /** The value's pointer and bytes. */
  method AppendValue(page: array<Byte>, w: Widths, n: nat, k: nat, vat: nat, vo: nat, value: seq<Byte>,
                     ghost vs: seq<nat>, ghost values: seq<Byte>)
    requires |vs| == k < n && KeyStart(w, n) <= vat && vat + |values| == vo && vo + |value| <= page.Length
      && vo + |value| < MAX_U32
    requires Table(page[..], 4 + w.KeyTableLen(n), w.value, vs) && page[vat..vo] == values
    modifies page
    ensures Table(page[..], 4 + w.KeyTableLen(n), w.value, vs + [vo + |value|])
      && page[vat..vo + |value|] == values + value
    ensures page[..4 + w.KeyTableLen(n)] == old(page[..4 + w.KeyTableLen(n)])
      && page[KeyStart(w, n)..vat] == old(page[KeyStart(w, n)..vat])
  {
    hide Table;
    ghost var p0, base, at := page[..], 4 + w.KeyTableLen(n), KeyStart(w, n);
    AppendEnd(page, 4 + w.KeyTableLen(n), w.value, vo + |value|, KeyStart(w, n), k, vs);
    ghost var p1 := page[..];
    After(p0, p1, at, vat, vo);
    Extend(page, vat, vo, value, values);
    ghost var p2 := page[..];
    Before(p1, p2, vo, 0, base);
    Before(p1, p2, vo, base, at);
    Before(p1, p2, vo, at, vat);
    SameTable(p1, p2, base, base, at, w.value, vs + [vo + |value|]);
    After(p0, p1, at, at, vat);
  }

  lemma {:induction false} PartialParts(p: seq<Byte>, w: Widths, n: nat, keyBytes: nat, done: seq<Pair>)
    requires Partial(p, w, n, keyBytes, done)
    ensures var at, vat := KeyStart(w, n), ValuesAt(w, n, keyBytes);
      && |Keys(done)| <= keyBytes && vat + |Values(done)| <= |p|
      && Table(p, 4, w.key, KeyEnds(done, at)) && Table(p, 4 + w.KeyTableLen(n), w.value, ValueEnds(done, vat))
      && p[at..at + |Keys(done)|] == Keys(done) && p[vat..vat + |Values(done)|] == Values(done)
  {
    hide Table, Keys, Values, KeyEnds, ValueEnds;
  }

  lemma {:induction false} PartialFrom(p: seq<Byte>, w: Widths, n: nat, keyBytes: nat, done: seq<Pair>, x: Pair)
    requires |done| < n && |Keys(done)| + |x.key| <= keyBytes
      && ValuesAt(w, n, keyBytes) + |Values(done)| + |x.value| <= |p|
    requires var at, vat := KeyStart(w, n), ValuesAt(w, n, keyBytes);
      var ke, ve := at + |Keys(done)| + |x.key|, vat + |Values(done)| + |x.value|;
      && Table(p, 4, w.key, KeyEnds(done, at) + [ke])
        && Table(p, 4 + w.KeyTableLen(n), w.value, ValueEnds(done, vat) + [ve])
      && p[at..ke] == Keys(done) + x.key && p[vat..ve] == Values(done) + x.value
    ensures Partial(p, w, n, keyBytes, done + [x])
  {
    hide Table, Keys, Values, KeyEnds, ValueEnds;
    Snoc(done, x, KeyStart(w, n), ValuesAt(w, n, keyBytes));
  }

  class RawLeafBuilder {
    const page: array<Byte>
    const w: Widths
    const numPairs: nat
    const keyBytes: nat
    var written: nat
    ghost var done: seq<Pair>

    ghost predicate Valid()
      reads this, page
    {
      && |done| == written <= numPairs < 0x1_0000 && page.Length >= ValuesAt(w, numPairs, keyBytes) && AllFit(w, done)
      && page[0] == LEAF && page[2..4] == Le16(numPairs) && Partial(page[..], w, numPairs, keyBytes, done)
      && ValuesAt(w, numPairs, keyBytes) + |Values(done)| < MAX_U32
    }

    constructor (page: array<Byte>, numPairs: nat, w: Widths, keyBytes: nat)
      requires numPairs < 0x1_0000 && ValuesAt(w, numPairs, keyBytes) <= page.Length
        && ValuesAt(w, numPairs, keyBytes) < MAX_U32
      modifies page
      ensures Valid() && done == [] && written == 0 && this.page == page && this.w == w && this.numPairs == numPairs
        && this.keyBytes == keyBytes
    {
      this.page, this.w, this.numPairs, this.keyBytes := page, w, numPairs, keyBytes;
      written, done := 0, [];
      new;
      page[0] := LEAF;
      hide Le16;
      Write(page, 2, Le16(numPairs));
      assert page[0] == page[..2][0];
    }

    /** Where the keys and the values written so far end, found from the last pair. */
    method Ends() returns (ko: nat, vo: nat)
      requires Valid()
      ensures ko == KeyStart(w, numPairs) + |Keys(done)| && vo == ValuesAt(w, numPairs, keyBytes) + |Values(done)|
    {
      hide Partial, FromLe32, Le16, Keys, Values, AllFit;
      ko, vo := KeyStart(w, numPairs), ValuesAt(w, numPairs, keyBytes);
      if written > 0 {
        LastKeyWritten(page[..], w, numPairs, keyBytes, done);
        LastValueWritten(page[..], w, numPairs, keyBytes, done);
        ko := if w.key.Some? then ko + w.key.value * written else FromLe32(page[..][4 * written..4 * written + 4]);
        var o := 4 + w.KeyTableLen(numPairs) + 4 * (written - 1);
        vo := if w.value.Some? then vo + w.value.value * written else FromLe32(page[..][o..o + 4]);
      } else {
        Nothing(done);
      }
    }

    /** Appends a pair; its ends are found from the pair before it. */
    method Append(key: seq<Byte>, value: seq<Byte>)
      requires Valid() && written < numPairs && FitWidths(w, Pair(key, value)) && |Keys(done)| + |key| <= keyBytes
      requires ValuesAt(w, numPairs, keyBytes) + |Values(done)| + |value| <= page.Length
      requires ValuesAt(w, numPairs, keyBytes) + |Values(done)| + |value| < MAX_U32
      modifies this, page
      ensures Valid() && done == old(done) + [Pair(key, value)] && written == old(written) + 1
    {
      hide Partial, Le16, Keys, Values, KeyEnds, ValueEnds, AllFit;
      var ko, vo := Ends();
      ghost var p := page[..];
      AppendPair(page, w, numPairs, keyBytes, written, ko, vo, key, value, done);
      Snoc(done, Pair(key, value), 0, 0);
      Header(p, page[..]);
      FitSnoc(w, done, Pair(key, value));
      written, done := written + 1, done + [Pair(key, value)];
    }

    /** The finished page holds what was appended. */
    lemma Finished()
      requires Valid() && written == numPairs && |Keys(done)| == keyBytes
      ensures Holds(page[..], w, done)
    {
      hide Keys, Values, Le16, AllFit;
      Complete(page[..], w, keyBytes, done);
      HoldsFrom(page[..], w, done);
    }
  }

  lemma {:induction false} Nothing(done: seq<Pair>)
    requires done == []
    ensures Keys(done) == [] && Values(done) == []
  {
  }

  lemma Header(p: seq<Byte>, q: seq<Byte>)
    requires |p| == |q| >= 4 && q[..4] == p[..4]
    ensures q[0] == p[0] && q[2..4] == p[2..4]
  {
    assert q[0] == q[..4][0] == p[..4][0];
    Before(p, q, 4, 2, 4);
  }

  lemma FitSnoc(w: Widths, done: seq<Pair>, x: Pair)
    requires AllFit(w, done) && FitWidths(w, x)
    ensures AllFit(w, done + [x])
  {
  }

  lemma {:induction false} Complete(p: seq<Byte>, w: Widths, keyBytes: nat, done: seq<Pair>)
    requires Partial(p, w, |done|, keyBytes, done) && |Keys(done)| == keyBytes && KeyStart(w, |done|) <= |p|
    ensures Total(w, done) <= |p| && p[4..Total(w, done)] == Body(w, done)
  {
    hide Keys, Values, KeyEnds, ValueEnds, Table, KeyTable, ValueTable;
    var n := |done|;
    var base, at := 4 + w.KeyTableLen(n), KeyStart(w, n);
    WholeKeyTable(p, w, done, at);
    ValueTableHeld(p, base, w, done, at + keyBytes);
    FourGlued(p, base, at, at + keyBytes, Total(w, done));
  }

  lemma {:induction false} WholeKeyTable(p: seq<Byte>, w: Widths, ps: seq<Pair>, at: nat)
    requires Table(p, 4, w.key, KeyEnds(ps, at)) && 4 + w.KeyTableLen(|ps|) <= |p|
    ensures p[4..4 + w.KeyTableLen(|ps|)] == KeyTable(w, ps, at)
  {
    hide KeyEnds, Offsets;
  }

  lemma FourGlued(p: seq<Byte>, base: nat, at: nat, vat: nat, top: nat)
    requires 4 <= base <= at <= vat <= top <= |p|
    ensures p[4..top] == p[4..base] + p[base..at] + p[at..vat] + p[vat..top]
  {
    Glue(p, 4, base, at);
    Glue(p, 4, at, vat);
    Glue(p, 4, vat, top);
  }

  lemma {:induction false} PrefixFits(ps: seq<Pair>, i: nat)
    requires i < |ps|
    ensures |Keys(ps[..i])| + |ps[i].key| <= |Keys(ps)| && |Values(ps[..i])| + |ps[i].value| <= |Values(ps)|
  {
    var a, b := ps[..i + 1], ps[i + 1..];
    assert ps == a + b && a == ps[..i] + [ps[i]];
    KeysConcat(a, b);
    ValuesConcat(a, b);
    Snoc(ps[..i], ps[i], 0, 0);
  }

  /** Builds a leaf from a list of pairs. */
  method Build(page: array<Byte>, w: Widths, ps: seq<Pair>)
    requires AllFit(w, ps) && 0 < |ps| < 0x1_0000 && Total(w, ps) <= page.Length && Total(w, ps) < MAX_U32
    modifies page
    ensures Holds(page[..], w, ps)
  {
    hide RawLeafBuilder.Valid, Keys, Values;
    var keyBytes := 0;
    Nothing(ps[..0]);
    for i := 0 to |ps|
      invariant keyBytes == |Keys(ps[..i])|
    {
      keyBytes := keyBytes + |ps[i].key|;
      assert ps[..i + 1] == ps[..i] + [ps[i]];
      Snoc(ps[..i], ps[i], 0, 0);
    }
    assert ps[..|ps|] == ps;
    var builder := new RawLeafBuilder(page, |ps|, w, keyBytes);
    for i := 0 to |ps|
      invariant builder.Valid() && builder.page == page && builder.w == w && builder.numPairs == |ps|
        && builder.keyBytes == keyBytes
      invariant builder.written == i && builder.done == ps[..i]
    {
      PrefixFits(ps, i);
      builder.Append(ps[i].key, ps[i].value);
      assert ps[..i + 1] == ps[..i] + [Pair(ps[i].key, ps[i].value)];
    }
    builder.Finished();
  }

  /** A page holds one list of pairs at most, so an edited page and a rebuilt one agree. */
  lemma OneList(page: seq<Byte>, w: Widths, a: seq<Pair>, b: seq<Pair>)
    requires Holds(page, w, a) && Holds(page, w, b)
    ensures a == b
  {
    hide Holds, KeyStartOf, ValueStartOf, NumPairs;
    PairsRead(page, w, a);
    PairsRead(page, w, b);
    forall i | 0 <= i < |a|
      ensures a[i] == b[i]
    {
      EntryRead(page, w, a, i);
      EntryRead(page, w, b, i);
    }
  }
}
