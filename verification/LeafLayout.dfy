/**
 The bytes of a leaf page: a four-byte header, the end offsets of keys and of values where these
 have no fixed width, the keys, and the values.
 */
module LeafLayout {
  import opened Bits

  type Byte = x: int | 0 <= x < 256

  datatype Pair = Pair(key: seq<Byte>, value: seq<Byte>)

  /** Fixed widths, where there are any. */
  datatype Widths = Widths(key: Option<nat>, value: Option<nat>)
  {
    /** The lengths of the two offset tables of a leaf with `n` pairs. */
    function KeyTableLen(n: nat): nat {
      if key.None? then 4 * n else 0
    }

    function ValueTableLen(n: nat): nat {
      if value.None? then 4 * n else 0
    }
  }

  const LEAF: Byte := 1
  const MAX_U32: nat := 0x1_0000_0000

  function Zeros(n: nat): (r: seq<Byte>)
    ensures |r| == n
  {
    seq(n, _ => 0)
  }

  // ----- little-endian numbers -----

  function Le32(n: nat): (r: seq<Byte>)
    ensures |r| == 4
  {
    [n % 256, n / 0x100 % 256, n / 0x1_0000 % 256, n / 0x100_0000 % 256]
  }

  function FromLe32(s: seq<Byte>): (n: nat)
    requires |s| == 4
    ensures n < MAX_U32
  {
    var a: int, b: int, c: int, d: int := s[0], s[1], s[2], s[3];
    a + 0x100 * b + 0x1_0000 * c + 0x100_0000 * d
  }

  lemma Le32RoundTrip(n: nat)
    requires n < MAX_U32
    ensures FromLe32(Le32(n)) == n
  {
    var a := n / 0x100;
    var b := a / 0x100;
    assert n / 0x1_0000 == b && n / 0x100_0000 == b / 0x100;
    assert n == 0x100 * a + n % 256 && a == 0x100 * b + a % 256 && b == 0x100 * (b / 0x100) + b % 256;
  }

  function Le16(n: nat): (r: seq<Byte>)
    ensures |r| == 2
  {
    [n % 256, n / 256 % 256]
  }

  function FromLe16(s: seq<Byte>): nat
    requires |s| == 2
  {
    var a: int, b: int := s[0], s[1];
    a + 256 * b
  }

  lemma Le16RoundTrip(n: nat)
    requires n < 0x1_0000
    ensures FromLe16(Le16(n)) == n
  {
  }

  // ----- the pieces -----

  function Keys(ps: seq<Pair>): seq<Byte>
  {
    if ps == [] then [] else ps[0].key + Keys(ps[1..])
  }

  function Values(ps: seq<Pair>): seq<Byte>
  {
    if ps == [] then [] else ps[0].value + Values(ps[1..])
  }

  /** Where each key ends when the keys start at `at`. */
  function KeyEnds(ps: seq<Pair>, at: nat): (r: seq<nat>)
    ensures |r| == |ps|
  {
    if ps == [] then [] else [at + |ps[0].key|] + KeyEnds(ps[1..], at + |ps[0].key|)
  }

  function ValueEnds(ps: seq<Pair>, at: nat): (r: seq<nat>)
    ensures |r| == |ps|
  {
    if ps == [] then [] else [at + |ps[0].value|] + ValueEnds(ps[1..], at + |ps[0].value|)
  }

  ghost predicate Small(ns: seq<nat>)
  {
    forall i :: 0 <= i < |ns| ==> ns[i] < MAX_U32
  }

  function Offsets(ns: seq<nat>): (r: seq<Byte>)
    ensures |r| == 4 * |ns|
  {
    if ns == [] then [] else Le32(ns[0]) + Offsets(ns[1..])
  }

  /** Where the key section of a leaf with `n` pairs starts. */
  function KeyStart(w: Widths, n: nat): nat
  {
    4 + w.KeyTableLen(n) + w.ValueTableLen(n)
  }

  function Total(w: Widths, ps: seq<Pair>): nat
  {
    KeyStart(w, |ps|) + |Keys(ps)| + |Values(ps)|
  }

  function KeyTable(w: Widths, ps: seq<Pair>, at: nat): (r: seq<Byte>)
    ensures |r| == w.KeyTableLen(|ps|)
  {
    if w.key.None? then Offsets(KeyEnds(ps, at)) else []
  }

  function ValueTable(w: Widths, ps: seq<Pair>, at: nat): (r: seq<Byte>)
    ensures |r| == w.ValueTableLen(|ps|)
  {
    if w.value.None? then Offsets(ValueEnds(ps, at)) else []
  }

  /** Everything after the header. */
  function Body(w: Widths, ps: seq<Pair>): (r: seq<Byte>)
    ensures 4 + |r| == Total(w, ps)
  {
    var at := KeyStart(w, |ps|);
    KeyTable(w, ps, at) + ValueTable(w, ps, at + |Keys(ps)|) + Keys(ps) + Values(ps)
  }

  lemma {:induction false} KeyEndsBounded(ps: seq<Pair>, at: nat)
    ensures forall i :: 0 <= i < |ps| ==> at <= KeyEnds(ps, at)[i] <= at + |Keys(ps)|
    decreases |ps|
  {
    if ps != [] {
      KeyEndsBounded(ps[1..], at + |ps[0].key|);
    }
  }

  lemma {:induction false} ValueEndsBounded(ps: seq<Pair>, at: nat)
    ensures forall i :: 0 <= i < |ps| ==> at <= ValueEnds(ps, at)[i] <= at + |Values(ps)|
    decreases |ps|
  {
    if ps != [] {
      ValueEndsBounded(ps[1..], at + |ps[0].value|);
    }
  }

  lemma {:induction false} EndsBounded(ps: seq<Pair>, at: nat)
    requires at + |Keys(ps)| + |Values(ps)| < MAX_U32
    ensures Small(KeyEnds(ps, at)) && Small(ValueEnds(ps, at + |Keys(ps)|))
  {
    KeyEndsBounded(ps, at);
    ValueEndsBounded(ps, at + |Keys(ps)|);
  }

  // ----- concatenation -----

  lemma {:induction false} KeysConcat(a: seq<Pair>, b: seq<Pair>)
    ensures Keys(a + b) == Keys(a) + Keys(b)
    decreases |a|
  {
    if a == [] {
      assert a + b == b;
    } else {
      assert (a + b)[1..] == a[1..] + b;
      KeysConcat(a[1..], b);
    }
  }

  lemma {:induction false} ValuesConcat(a: seq<Pair>, b: seq<Pair>)
    ensures Values(a + b) == Values(a) + Values(b)
    decreases |a|
  {
    if a == [] {
      assert a + b == b;
    } else {
      assert (a + b)[1..] == a[1..] + b;
      ValuesConcat(a[1..], b);
    }
  }

  lemma {:induction false} KeyEndsConcat(a: seq<Pair>, b: seq<Pair>, at: nat)
    ensures KeyEnds(a + b, at) == KeyEnds(a, at) + KeyEnds(b, at + |Keys(a)|)
    decreases |a|
  {
    if a == [] {
      assert a + b == b;
    } else {
      assert (a + b)[1..] == a[1..] + b;
      KeyEndsConcat(a[1..], b, at + |a[0].key|);
    }
  }

  lemma {:induction false} ValueEndsConcat(a: seq<Pair>, b: seq<Pair>, at: nat)
    ensures ValueEnds(a + b, at) == ValueEnds(a, at) + ValueEnds(b, at + |Values(a)|)
    decreases |a|
  {
    if a == [] {
      assert a + b == b;
    } else {
      assert (a + b)[1..] == a[1..] + b;
      ValueEndsConcat(a[1..], b, at + |a[0].value|);
    }
  }

  lemma {:induction false} OffsetsConcat(a: seq<nat>, b: seq<nat>)
    ensures Offsets(a + b) == Offsets(a) + Offsets(b)
    decreases |a|
  {
    if a == [] {
      assert a + b == b;
    } else {
      assert (a + b)[1..] == a[1..] + b;
      OffsetsConcat(a[1..], b);
    }
  }

  lemma {:induction false} OffsetAt(ns: seq<nat>, i: nat)
    requires i < |ns|
    ensures Offsets(ns)[4 * i..4 * i + 4] == Le32(ns[i])
    decreases |ns|
  {
    if i > 0 {
      OffsetAt(ns[1..], i - 1);
      assert Offsets(ns)[4 * i..4 * i + 4] == Offsets(ns[1..])[4 * (i - 1)..4 * (i - 1) + 4];
    }
  }

  /** Moving the section moves every end. */
  lemma {:induction false} KeyEndsMove(ps: seq<Pair>, at: nat, to: nat, i: nat)
    requires i < |ps|
    ensures KeyEnds(ps, to)[i] - to == KeyEnds(ps, at)[i] - at
    decreases |ps|
  {
    if i > 0 {
      KeyEndsMove(ps[1..], at + |ps[0].key|, to + |ps[0].key|, i - 1);
    }
  }

  lemma {:induction false} ValueEndsMove(ps: seq<Pair>, at: nat, to: nat, i: nat)
    requires i < |ps|
    ensures ValueEnds(ps, to)[i] - to == ValueEnds(ps, at)[i] - at
    decreases |ps|
  {
    if i > 0 {
      ValueEndsMove(ps[1..], at + |ps[0].value|, to + |ps[0].value|, i - 1);
    }
  }

  // ----- reading a page -----

  predicate FitWidths(w: Widths, p: Pair)
  {
    (w.key.Some? ==> |p.key| == w.key.value) && (w.value.Some? ==> |p.value| == w.value.value)
  }

  ghost predicate AllFit(w: Widths, ps: seq<Pair>)
  {
    forall i :: 0 <= i < |ps| ==> FitWidths(w, ps[i])
  }

  /** The page starts with the layout of the pairs; what follows is unused. */
  ghost predicate Holds(page: seq<Byte>, w: Widths, ps: seq<Pair>)
  {
    && |ps| < 0x1_0000 && Total(w, ps) < MAX_U32 && Total(w, ps) <= |page| && AllFit(w, ps)
    && page[0] == LEAF && page[2..4] == Le16(|ps|) && page[4..Total(w, ps)] == Body(w, ps)
  }

  function NumPairs(page: seq<Byte>): nat
    requires |page| >= 4
  {
    FromLe16(page[2..4])
  }

  function KeyEnd(page: seq<Byte>, w: Widths, n: nat, j: nat): nat
    requires j < n && KeyStart(w, n) <= |page|
  {
    if w.key.Some? then KeyStart(w, n) + w.key.value * (j + 1) else FromLe32(page[4 + 4 * j..8 + 4 * j])
  }

  function ValueEnd(page: seq<Byte>, w: Widths, n: nat, j: nat): nat
    requires j < n && KeyStart(w, n) <= |page|
  {
    if w.value.Some? then KeyEnd(page, w, n, n - 1) + w.value.value * (j + 1)
    else
      var offset := 4 + w.KeyTableLen(n) + 4 * j;
      FromLe32(page[offset..offset + 4])
  }

  lemma {:induction false} FixedKeys(w: Widths, ps: seq<Pair>, at: nat, j: nat)
    requires AllFit(w, ps) && w.key.Some? && j < |ps|
    ensures KeyEnds(ps, at)[j] == at + w.key.value * (j + 1)
    decreases |ps|
  {
    if j > 0 {
      FixedKeys(w, ps[1..], at + |ps[0].key|, j - 1);
      assert w.key.value + w.key.value * j == w.key.value * (j + 1);
    }
  }

  lemma {:induction false} FixedValues(w: Widths, ps: seq<Pair>, at: nat, j: nat)
    requires AllFit(w, ps) && w.value.Some? && j < |ps|
    ensures ValueEnds(ps, at)[j] == at + w.value.value * (j + 1)
    decreases |ps|
  {
    if j > 0 {
      FixedValues(w, ps[1..], at + |ps[0].value|, j - 1);
      assert w.value.value + w.value.value * j == w.value.value * (j + 1);
    }
  }

  lemma {:induction false} LastKeyEnd(ps: seq<Pair>, at: nat)
    requires ps != []
    ensures KeyEnds(ps, at)[|ps| - 1] == at + |Keys(ps)|
    decreases |ps|
  {
    var end := at + |ps[0].key|;
    assert KeyEnds(ps, at) == [end] + KeyEnds(ps[1..], end) && |Keys(ps)| == |ps[0].key| + |Keys(ps[1..])|;
    if |ps| == 1 {
      assert Keys(ps[1..]) == [];
    } else {
      LastKeyEnd(ps[1..], end);
      hide KeyEnds, Keys;
      assert KeyEnds(ps, at)[|ps| - 1] == KeyEnds(ps[1..], end)[|ps| - 2];
    }
  }

  lemma SubSlice(s: seq<Byte>, base: nat, end: nat, i: nat, j: nat)
    requires base <= end <= |s| && i <= j <= end - base
    ensures s[base..end][i..j] == s[base + i..base + j]
  {
    var a, b := s[base..end][i..j], s[base + i..base + j];
    forall k | 0 <= k < j - i
      ensures a[k] == b[k]
    {
      assert s[base..end][i + k] == s[base + (i + k)];
    }
  }

  /** Slices of equal prefixes. */
  lemma Before(p: seq<Byte>, q: seq<Byte>, hi: nat, i: nat, j: nat)
    requires i <= j <= hi <= |p| && hi <= |q| && p[..hi] == q[..hi]
    ensures p[i..j] == q[i..j] && p[..j] == q[..j]
  {
    assert forall k :: 0 <= k < hi ==> p[..hi][k] == p[k] && q[..hi][k] == q[k];
  }

  /** Slices of equal suffixes. */
  lemma After(p: seq<Byte>, q: seq<Byte>, lo: nat, i: nat, j: nat)
    requires lo <= i <= j <= |p| == |q| && p[lo..] == q[lo..]
    ensures p[i..j] == q[i..j] && p[i..] == q[i..]
  {
    assert forall k :: lo <= k < |p| ==> p[k] == p[lo..][k - lo] && q[k] == q[lo..][k - lo];
  }

  lemma TwoParts(page: seq<Byte>, base: nat, a: seq<Byte>, b: seq<Byte>)
    requires base + |a| + |b| <= |page| && page[base..base + |a| + |b|] == a + b
    ensures page[base..base + |a|] == a && page[base + |a|..base + |a| + |b|] == b
  {
    var end := base + |a| + |b|;
    assert (a + b)[0..|a|] == a && (a + b)[|a|..|a| + |b|] == b;
    SubSlice(page, base, end, 0, |a|);
    SubSlice(page, base, end, |a|, |a| + |b|);
  }

  lemma FourParts(page: seq<Byte>, base: nat, a: seq<Byte>, b: seq<Byte>, c: seq<Byte>, d: seq<Byte>)
    requires base + |a| + |b| + |c| + |d| <= |page| && page[base..base + |a| + |b| + |c| + |d|] == a + b + c + d
    ensures page[base..base + |a|] == a && page[base + |a|..base + |a| + |b|] == b
    ensures page[base + |a| + |b|..base + |a| + |b| + |c|] == c
      && page[base + |a| + |b| + |c|..base + |a| + |b| + |c| + |d|] == d
  {
    TwoParts(page, base, a + b + c, d);
    TwoParts(page, base, a + b, c);
    TwoParts(page, base, a, b);
  }

  /** The four parts of a page that holds pairs. */
  lemma {:induction false} PageParts(page: seq<Byte>, w: Widths, ps: seq<Pair>)
    requires Holds(page, w, ps)
    ensures var n, at := |ps|, KeyStart(w, |ps|);
      && page[4..4 + w.KeyTableLen(n)] == KeyTable(w, ps, at)
      && page[4 + w.KeyTableLen(n)..at] == ValueTable(w, ps, at + |Keys(ps)|)
      && page[at..at + |Keys(ps)|] == Keys(ps)
      && page[at + |Keys(ps)|..Total(w, ps)] == Values(ps)
      && NumPairs(page) == n
  {
    hide KeyTable, ValueTable, Keys, Values, AllFit, Le16, FromLe16;
    var n, at := |ps|, KeyStart(w, |ps|);
    Le16RoundTrip(n);
    FourParts(page, 4, KeyTable(w, ps, at), ValueTable(w, ps, at + |Keys(ps)|), Keys(ps), Values(ps));
  }

  lemma {:induction false} KeyEndRead(page: seq<Byte>, w: Widths, ps: seq<Pair>, j: nat)
    requires Holds(page, w, ps) && j < |ps|
    ensures KeyStart(w, |ps|) <= |page| && KeyEnd(page, w, |ps|, j) == KeyEnds(ps, KeyStart(w, |ps|))[j]
  {
    hide Holds, Keys, Values, KeyEnds, ValueEnds, Offsets, FromLe32, Small;
    var at := KeyStart(w, |ps|);
    PageParts(page, w, ps);
    Bounds(page, w, ps);
    if w.key.Some? {
      FixedKeys(w, ps, at, j);
    } else {
      EndsBounded(ps, at);
      OffsetRead(page, 4, KeyEnds(ps, at), j);
    }
  }

  lemma {:induction false} OffsetRead(page: seq<Byte>, base: nat, ends: seq<nat>, j: nat)
    requires base + 4 * |ends| <= |page| && page[base..base + 4 * |ends|] == Offsets(ends) && j < |ends| && Small(ends)
    ensures FromLe32(page[base + 4 * j..base + 4 * j + 4]) == ends[j]
  {
    hide Le32, FromLe32, Offsets;
    OffsetAt(ends, j);
    Le32RoundTrip(ends[j]);
    SubSlice(page, base, base + 4 * |ends|, 4 * j, 4 * j + 4);
  }

  /** The accessor finds where each key and value ends. */
  lemma {:induction false} EndsRead(page: seq<Byte>, w: Widths, ps: seq<Pair>, j: nat)
    requires Holds(page, w, ps) && j < |ps|
    ensures var at := KeyStart(w, |ps|);
      && at <= |page| && KeyEnd(page, w, |ps|, j) == KeyEnds(ps, at)[j]
        && ValueEnd(page, w, |ps|, j) == ValueEnds(ps, at + |Keys(ps)|)[j]
  {
    hide Holds, KeyEnd, ValueEnd, Keys, Values, KeyEnds, ValueEnds;
    KeyEndRead(page, w, ps, j);
    ValueEndRead(page, w, ps, j);
  }

  lemma {:induction false} ValueEndRead(page: seq<Byte>, w: Widths, ps: seq<Pair>, j: nat)
    requires Holds(page, w, ps) && j < |ps|
    ensures KeyStart(w, |ps|) <= |page| && ValueEnd(page, w, |ps|, j) ==
      ValueEnds(ps, KeyStart(w, |ps|) + |Keys(ps)|)[j]
  {
    hide Holds, KeyEnd, Keys, Values, KeyEnds, ValueEnds, Offsets, FromLe32, Small;
    var n, at := |ps|, KeyStart(w, |ps|);
    PageParts(page, w, ps);
    KeyEndRead(page, w, ps, n - 1);
    Bounds(page, w, ps);
    if w.value.Some? {
      LastKeyEnd(ps, at);
      FixedValues(w, ps, at + |Keys(ps)|, j);
    } else {
      EndsBounded(ps, at);
      OffsetRead(page, 4 + w.KeyTableLen(n), ValueEnds(ps, at + |Keys(ps)|), j);
    }
  }

  lemma Bounds(page: seq<Byte>, w: Widths, ps: seq<Pair>)
    requires Holds(page, w, ps)
    ensures Total(w, ps) < MAX_U32 && Total(w, ps) <= |page| && AllFit(w, ps)
  {
    hide Keys, Values, Body, Le16, AllFit;
  }
}
