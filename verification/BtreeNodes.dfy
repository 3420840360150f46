/**
 Page sizes, the binary searches inside a page, and the builders that lay out leaves and branches.
 */
module BtreeNodes {
  import opened Bits
  import opened BtreeSpec

  const PAGE_SIZE: nat := 4096
  const EFFECTIVE_LEAF_PAGE_SIZE: nat := 4055

  /** Byte lengths of keys, and the fixed widths where the types have one. */
  datatype Format = Format(keyLen: Key -> nat, fixedKey: Option<nat>, fixedValue: Option<nat>)

  function PairBytes(f: Format, es: seq<Entry>): nat
  {
    if es == [] then 0 else PairBytes(f, es[..|es| - 1]) + f.keyLen(es[|es| - 1].key) + |es[|es| - 1].value|
  }

  function KeyBytes(f: Format, ks: seq<Key>): nat
  {
    if ks == [] then 0 else KeyBytes(f, ks[..|ks| - 1]) + f.keyLen(ks[|ks| - 1])
  }

  /** The bytes a leaf needs: header, offsets of what has no fixed width, keys and values. */
  function LeafBytes(f: Format, es: seq<Entry>): nat
  {
    4 + (if f.fixedKey.None? then 4 * |es| else 0) + (if f.fixedValue.None? then 4 * |es| else 0) + PairBytes(f, es)
  }

  /** Header, a checksum and a page number for each child, key offsets and keys. */
  function BranchBytes(f: Format, ks: seq<Key>): nat
  {
    8 + 24 * (|ks| + 1) + (if f.fixedKey.None? then 4 * |ks| else 0) + KeyBytes(f, ks)
  }

  predicate LeafShouldSplit(f: Format, es: seq<Entry>)
  {
    LeafBytes(f, es) > EFFECTIVE_LEAF_PAGE_SIZE && |es| > 1
  }

  predicate BranchShouldSplit(f: Format, ks: seq<Key>)
  {
    BranchBytes(f, ks) > PAGE_SIZE && |ks| >= 3
  }

  predicate SingleLargeValue(f: Format, es: seq<Entry>)
  {
    |es| == 1 && LeafBytes(f, es) >= EFFECTIVE_LEAF_PAGE_SIZE
  }

  /** Whether a pair can be written into an uncommitted leaf without rebuilding it. */
  function SufficientSpace(f: Format, room: nat, es: seq<Entry>, p: nat, found: bool, key: Key, value: Value): bool
    requires p <= |es| && (found ==> p < |es|)
  {
    if found then
      f.keyLen(key) + |value| - PairBytes(f, [es[p]]) <= room - LeafBytes(f, es)
    else
      !(room > PAGE_SIZE && p < |es|) &&
      f.keyLen(key) + |value| + (if f.fixedKey.None? then 4 else 0)
        + (if f.fixedValue.None? then 4 else 0) <= room - LeafBytes(f, es)
  }

  // ----- binary searches -----

  method Position(es: seq<Entry>, key: Key) returns (p: nat, found: bool)
    requires Sorted(es)
    ensures p <= |es| && AllBelow(es[..p], key)
    ensures if found then p < |es| && es[p].key == key && AllOver(es[p + 1..], key) else AllOver(es[p..], key)
  {
    var lo, hi := 0, |es|;
    while lo < hi
      invariant 0 <= lo <= hi <= |es|
      invariant forall i :: 0 <= i < lo ==> es[i].key < key
      invariant forall i :: hi <= i < |es| ==> es[i].key > key
    {
      var mid := (lo + hi) / 2;
      if key < es[mid].key {
        hi := mid;
      } else if key == es[mid].key {
        return mid, true;
      } else {
        lo := mid + 1;
      }
    }
    return lo, false;
  }

  ghost predicate Increasing(ks: seq<Key>)
  {
    forall i, j :: 0 <= i < j < |ks| ==> ks[i] < ks[j]
  }

  method ChildForKey(ks: seq<Key>, key: Key) returns (c: nat)
    requires Increasing(ks)
    ensures c <= |ks| && (forall i :: 0 <= i < c ==> ks[i] < key) && forall i :: c <= i < |ks| ==> key <= ks[i]
  {
    var lo, hi := 0, |ks|;
    while lo < hi
      invariant 0 <= lo <= hi <= |ks|
      invariant forall i :: 0 <= i < lo ==> ks[i] < key
      invariant forall i :: hi <= i < |ks| ==> key < ks[i]
    {
      var mid := (lo + hi) / 2;
      if key < ks[mid] {
        hi := mid;
      } else if key == ks[mid] {
        return mid;
      } else {
        lo := mid + 1;
      }
    }
    return lo;
  }

  // ----- builders -----

  /** The leaf builder's pairs with one pair put in at its place, or in place of the pair found there. */
  method LeafWith(es: seq<Entry>, p: nat, found: bool, e: Entry) returns (r: seq<Entry>)
    requires p <= |es| && (found ==> p < |es|)
    ensures r == es[..p] + [e] + es[if found then p + 1 else p..]
  {
    r := [];
    for i := 0 to |es|
      invariant r == if i <= p then es[..i] else es[..p] + [e] + es[(if found then p + 1 else p)..i]
    {
      if i == p {
        r := r + [e];
      }
      if !found || i != p {
        r := r + [es[i]];
      }
    }
    if p == |es| {
      r := r + [e];
    }
  }

  method LeafExcept(es: seq<Entry>, p: nat) returns (r: seq<Entry>)
    requires p < |es|
    ensures r == es[..p] + es[p + 1..]
  {
    r := [];
    for i := 0 to |es|
      invariant r == if i <= p then es[..i] else es[..p] + es[p + 1..i]
    {
      if i != p {
        r := r + [es[i]];
      }
    }
  }

  /** The shortest proper prefix that holds half of the bytes, or all pairs but the last. */
  method SplitPoint(f: Format, es: seq<Entry>) returns (d: nat)
    requires |es| > 1
    ensures 0 < d < |es|
    ensures PairBytes(f, es[..d]) >= PairBytes(f, es) / 2 || d == |es| - 1
    ensures forall j :: 0 < j < d ==> PairBytes(f, es[..j]) < PairBytes(f, es) / 2
  {
    var total := PairBytes(f, es);
    var bytes := 0;
    d := 0;
    while d < |es| - 1
      invariant 0 <= d <= |es| - 1 && bytes == PairBytes(f, es[..d])
      invariant forall j :: 0 < j <= d ==> PairBytes(f, es[..j]) < total / 2
    {
      assert es[..d + 1][..d] == es[..d];
      bytes := bytes + f.keyLen(es[d].key) + |es[d].value|;
      d := d + 1;
      if bytes >= total / 2 {
        break;
      }
    }
  }

  lemma TakeOne<T>(s: seq<T>, j: nat)
    requires j < |s|
    ensures s[..j + 1] == s[..j] + [s[j]]
  {
  }

  lemma SliceOne<T>(s: seq<T>, i: nat, j: nat)
    requires i <= j < |s|
    ensures s[i..j + 1] == s[i..j] + [s[j]]
  {
  }

  lemma AppendOne<T>(a: seq<T>, s: seq<T>, i: nat, j: nat)
    requires i <= j < |s|
    ensures a + s[i..j] + [s[j]] == a + s[i..j + 1]
  {
    SliceOne(s, i, j);
  }

  /** Appends a child that may have been split in two. */
  method PushSplit(rc: seq<Node>, rk: seq<Key>, ts: seq<Node>, tk: seq<Key>) returns (qc: seq<Node>, qk: seq<Key>)
    requires |ts| == |tk| + 1 && |tk| <= 1
    ensures qc == rc + ts && qk == rk + tk
  {
    qc, qk := rc + [ts[0]], rk;
    if |tk| == 1 {
      qk := qk + [tk[0]];
      qc := qc + [ts[1]];
    }
  }

  /** The children and separators with child `i` replaced by one or two trees. */
  method ReplaceChild(cs: seq<Node>, ks: seq<Key>, i: nat, ts: seq<Node>, tk: seq<Key>)
    returns (rc: seq<Node>, rk: seq<Key>)
    requires |cs| == |ks| + 1 && i < |cs| && |ts| == |tk| + 1 && |tk| <= 1
    ensures rc == cs[..i] + ts + cs[i + 1..] && rk == ks[..i] + tk + ks[i..]
  {
    if i == 0 {
      rc, rk := PushSplit([], [], ts, tk);
    } else {
      rc, rk := [cs[0]], [];
    }
    for j := 1 to |cs|
      invariant rc == if j <= i then cs[..j] else cs[..i] + ts + cs[i + 1..j]
      invariant rk == if j <= i then ks[..j - 1] else ks[..i] + tk + ks[i..j - 1]
    {
      if j <= i {
        TakeOne(ks, j - 1);
        TakeOne(cs, j);
      } else {
        AppendOne(ks[..i] + tk, ks, i, j - 1);
        AppendOne(cs[..i] + ts, cs, i + 1, j);
      }
      rk := rk + [ks[j - 1]];
      if j == i {
        rc, rk := PushSplit(rc, rk, ts, tk);
      } else {
        rc := rc + [cs[j]];
      }
    }
  }

  /** The children and separators without child `i`. */
  method RemoveChild(cs: seq<Node>, ks: seq<Key>, i: nat) returns (rc: seq<Node>, rk: seq<Key>)
    requires |cs| == |ks| + 1 && i < |cs| && |cs| >= 2
    ensures rc == cs[..i] + cs[i + 1..]
    ensures rk == if i == |ks| then ks[..i - 1] else ks[..i] + ks[i + 1..]
  {
    rc := Except(cs, i);
    if i == |cs| - 1 {
      // the last key goes with the last child
      rk := ks[..|cs| - 2];
    } else {
      rk := Except(ks, i);
    }
  }

  method Except<T>(s: seq<T>, i: nat) returns (r: seq<T>)
    requires i < |s|
    ensures r == s[..i] + s[i + 1..]
  {
    r := [];
    for j := 0 to |s|
      invariant r == if j <= i then s[..j] else s[..i] + s[i + 1..j]
    {
      if j != i {
        r := r + [s[j]];
      }
    }
  }

  /** Pushes the children from `a` to `b`, each followed by its separator unless it is the last of all. */
  method PushChildren(rc: seq<Node>, rk: seq<Key>, cs: seq<Node>, ks: seq<Key>, a: nat, b: nat)
    returns (qc: seq<Node>, qk: seq<Key>)
    requires |cs| == |ks| + 1 && a <= b <= |cs|
    ensures qc == rc + cs[a..b] && qk == rk + ks[if a <= |ks| then a else |ks|..if b <= |ks| then b else |ks|]
  {
    qc, qk := rc, rk;
    for j := a to b
      invariant qc == rc + cs[a..j] && qk == rk + ks[if a <= |ks| then a else |ks|..if j <= |ks| then j else |ks|]
    {
      SliceOne(cs, a, j);
      qc := qc + [cs[j]];
      if j < |cs| - 1 {
        SliceOne(ks, a, j);
        qk := qk + [ks[j]];
      }
    }
  }

  /** The children and separators with child `i` and its sibling replaced by what they were merged into. */
  method ReplaceMerged(cs: seq<Node>, ks: seq<Key>, i: nat, with: nat, ts: seq<Node>, tk: seq<Key>)
    returns (rc: seq<Node>, rk: seq<Key>)
    requires |cs| == |ks| + 1 && i < |cs| && with < |cs| && (with == i + 1 || i == with + 1)
    requires |ts| == |tk| + 1 && |tk| <= 1
    ensures var l := if i < with then i else with;
      rc == cs[..l] + ts + cs[l + 2..] && rk == ks[..l] + tk + ks[l + 1..]
  {
    var l, m := if i < with then i else with, if i < with then with else i;
    rc, rk := PushChildren([], [], cs, ks, 0, l);
    rc, rk := rc + ts, rk + tk;
    if m < |cs| - 1 {
      rk := rk + [ks[m]];
    }
    rc, rk := PushChildren(rc, rk, cs, ks, m + 1, |cs|);
  }
}
