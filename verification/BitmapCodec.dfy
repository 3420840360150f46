/**
 Saving a summary bitmap and loading it back. A byte is its eight bits, least significant first.
 */
module BitmapCodec {
  import opened Bitmap

  type Byte = b: seq<bool> | |b| == 8 witness seq(8, i => false)

  // ----- numbers -----

  function Pow2(k: nat): nat
  {
    if k == 0 then 1 else 2 * Pow2(k - 1)
  }

  function NatBits(n: nat, k: nat): (r: seq<bool>)
    ensures |r| == k
  {
    if k == 0 then [] else [n % 2 == 1] + NatBits(n / 2, k - 1)
  }

  function BitsNat(s: seq<bool>): nat
  {
    if s == [] then 0 else (if s[0] then 1 else 0) + 2 * BitsNat(s[1..])
  }

  lemma {:induction false} NatRoundTrip(n: nat, k: nat)
    requires n < Pow2(k)
    ensures BitsNat(NatBits(n, k)) == n
    decreases k
  {
    if k > 0 {
      NatRoundTrip(n / 2, k - 1);
      assert NatBits(n, k)[1..] == NatBits(n / 2, k - 1);
    }
  }

  // ----- bytes -----

  function ToBytes(s: seq<bool>): (r: seq<Byte>)
    requires |s| % 8 == 0
    ensures |r| == |s| / 8
  {
    if s == [] then [] else [s[..8]] + ToBytes(s[8..])
  }

  function FromBytes(bs: seq<Byte>): (r: seq<bool>)
    ensures |r| == 8 * |bs|
  {
    if bs == [] then [] else bs[0] + FromBytes(bs[1..])
  }

  lemma {:induction false} BytesRoundTrip(s: seq<bool>)
    requires |s| % 8 == 0
    ensures FromBytes(ToBytes(s)) == s
    decreases |s|
  {
    if s != [] {
      BytesRoundTrip(s[8..]);
      assert ToBytes(s)[1..] == ToBytes(s[8..]);
      assert s == s[..8] + s[8..];
    }
  }

  function U32(n: nat): (r: seq<Byte>)
    ensures |r| == 4
  {
    ToBytes(NatBits(n, 32))
  }

  function FromU32(bs: seq<Byte>): nat
  {
    BitsNat(FromBytes(bs))
  }

  lemma U32RoundTrip(n: nat)
    requires n < Pow2(32)
    ensures FromU32(U32(n)) == n
  {
    NatRoundTrip(n, 32);
    BytesRoundTrip(NatBits(n, 32));
  }

  // ----- one level -----

  function WordBytes(ws: seq<Word>): (r: seq<Byte>)
    ensures |r| == 8 * |ws|
  {
    if ws == [] then [] else ToBytes(ws[0]) + WordBytes(ws[1..])
  }

  /** The length, then as many words as the length needs. */
  function LevelBytes(l: Level): (r: seq<Byte>)
    requires Words(l.len) <= |l.data|
    ensures |r| == 4 + 8 * Words(l.len)
  {
    U32(l.len) + WordBytes(l.data[..Words(l.len)])
  }

  method ReadLevel(bs: seq<Byte>) returns (l: Level)
    requires |bs| >= 4 && (|bs| - 4) % 8 == 0
    ensures l.len == FromU32(bs[..4]) && |l.data| == (|bs| - 4) / 8
    ensures forall i :: 0 <= i < |l.data| ==> l.data[i] == FromBytes(WordAt(bs, i))
  {
    var words := (|bs| - 4) / 8;
    var data := [];
    for i := 0 to words
      invariant |data| == i && forall j :: 0 <= j < i ==> data[j] == FromBytes(WordAt(bs, j))
    {
      var start := 4 + i * 8;
      data := data + [FromBytes(bs[start..start + 8])];
    }
    l := Level(FromU32(bs[..4]), data);
  }

  function WordAt(bs: seq<Byte>, i: nat): (r: seq<Byte>)
    requires 4 + 8 * i + 8 <= |bs|
    ensures |r| == 8
  {
    bs[4 + i * 8..4 + i * 8 + 8]
  }

  lemma {:induction false} WordBytesAt(ws: seq<Word>, i: nat)
    requires i < |ws|
    ensures WordBytes(ws)[8 * i..8 * i + 8] == ToBytes(ws[i])
    decreases |ws|
  {
    if i > 0 {
      WordBytesAt(ws[1..], i - 1);
      var rest := WordBytes(ws[1..]);
      assert WordBytes(ws)[8 * i..8 * i + 8] == rest[8 * (i - 1)..8 * (i - 1) + 8];
    }
  }

  /** The level without the words kept in reserve past its length. */
  function Trim(l: Level): Level
    requires Words(l.len) <= |l.data|
  {
    l.(data := l.data[..Words(l.len)])
  }

  lemma LevelRead(l: Level, r: Level)
    requires Words(l.len) <= |l.data| && l.len < Pow2(32)
    requires var bs := LevelBytes(l);
      && r.len == FromU32(bs[..4]) && |r.data| == (|bs| - 4) / 8
      && forall i :: 0 <= i < |r.data| ==> r.data[i] == FromBytes(WordAt(bs, i))
    ensures r == Trim(l)
  {
    var bs, ws := LevelBytes(l), l.data[..Words(l.len)];
    assert bs[..4] == U32(l.len);
    U32RoundTrip(l.len);
    forall i | 0 <= i < |r.data|
      ensures r.data[i] == ws[i]
    {
      assert WordAt(bs, i) == WordBytes(ws)[8 * i..8 * i + 8];
      WordBytesAt(ws, i);
      BytesRoundTrip(ws[i]);
    }
    assert r.data == ws;
  }

  // ----- the whole map -----

  ghost predicate Storable(hs: seq<Level>)
  {
    && |hs| < Pow2(32) && DataEnd(hs, |hs|) < Pow2(32)
    && forall h :: 0 <= h < |hs| ==> Words(hs[h].len) <= |hs[h].data| && hs[h].len < Pow2(32)
  }

  /** Where the data of the first `k` levels ends. */
  ghost function DataEnd(hs: seq<Level>, k: nat): nat
    requires k <= |hs|
  {
    if k == 0 then 4 + 4 * |hs| else DataEnd(hs, k - 1) + 4 + 8 * Words(hs[k - 1].len)
  }

  lemma {:induction false} DataEndGrows(hs: seq<Level>, k: nat)
    requires k <= |hs|
    ensures 4 + 4 * |hs| <= DataEnd(hs, k) <= DataEnd(hs, |hs|)
    decreases |hs| - k
  {
    DataStart(hs, k);
    if k < |hs| {
      DataEndGrows(hs, k + 1);
    }
  }

  lemma {:induction false} DataStart(hs: seq<Level>, k: nat)
    requires k <= |hs|
    ensures 4 + 4 * |hs| <= DataEnd(hs, k)
    decreases k
  {
    if k > 0 {
      DataStart(hs, k - 1);
    }
  }

  /** A stored map: its height, where each level ends, and the levels. */
  ghost predicate Encodes(bs: seq<Byte>, hs: seq<Level>)
    requires Storable(hs)
  {
    && |bs| == DataEnd(hs, |hs|) && bs[..4] == U32(|hs|)
    && (forall h :: 0 <= h < |hs| ==> EndStored(bs, hs, h))
    && forall h :: 0 <= h < |hs| ==> LevelStored(bs, hs, h)
  }

  ghost predicate EndStored(bs: seq<Byte>, hs: seq<Level>, h: nat)
    requires h < |hs|
  {
    8 + 4 * h <= |bs| && bs[4 + 4 * h..8 + 4 * h] == U32(DataEnd(hs, h + 1))
  }

  ghost predicate LevelStored(bs: seq<Byte>, hs: seq<Level>, h: nat)
    requires h < |hs| && Words(hs[h].len) <= |hs[h].data|
  {
    DataEnd(hs, h + 1) <= |bs| && bs[DataEnd(hs, h)..DataEnd(hs, h + 1)] == LevelBytes(hs[h])
  }

  lemma EndKept(a: seq<Byte>, b: seq<Byte>, hs: seq<Level>, n: nat)
    requires n <= |hs| && forall k :: 0 <= k < n ==> EndStored(a, hs, k)
    ensures forall k :: 0 <= k < n ==> EndStored(a + b, hs, k)
  {
    hide DataEnd, U32;
    forall k | 0 <= k < n
      ensures EndStored(a + b, hs, k)
    {
      assert EndStored(a, hs, k);
      assert (a + b)[4 + 4 * k..8 + 4 * k] == a[4 + 4 * k..8 + 4 * k];
    }
  }

  lemma LevelKept(a: seq<Byte>, b: seq<Byte>, hs: seq<Level>, h: nat)
    requires h < |hs| && Words(hs[h].len) <= |hs[h].data| && LevelStored(a, hs, h)
    ensures LevelStored(a + b, hs, h)
  {
    assert DataEnd(hs, h) <= DataEnd(hs, h + 1);
    hide DataEnd, LevelBytes, Words;
    assert (a + b)[DataEnd(hs, h)..DataEnd(hs, h + 1)] == a[DataEnd(hs, h)..DataEnd(hs, h + 1)];
  }

  lemma NextEnd(hs: seq<Level>, h: nat)
    requires h < |hs| && Words(hs[h].len) <= |hs[h].data|
    ensures DataEnd(hs, h + 1) == DataEnd(hs, h) + |LevelBytes(hs[h])|
  {
  }

  /** The height and the table of ends. */
  method Metadata(hs: seq<Level>) returns (bs: seq<Byte>)
    requires Storable(hs)
    ensures |bs| == 4 + 4 * |hs| && bs[..4] == U32(|hs|) && forall k :: 0 <= k < |hs| ==> EndStored(bs, hs, k)
  {
    hide U32, LevelBytes, DataEnd, EndStored, Words, Pow2;
    bs := U32(|hs|);
    var offset := 4 + 4 * |hs|;
    FirstEnd(hs);
    for h := 0 to |hs|
      invariant offset == DataEnd(hs, h) && |bs| == 4 + 4 * h && bs[..4] == U32(|hs|)
      invariant forall k :: 0 <= k < h ==> EndStored(bs, hs, k)
    {
      NextEnd(hs, h);
      offset := offset + |LevelBytes(hs[h])|;
      EndKept(bs, U32(offset), hs, h);
      EndAppended(bs, hs, h);
      bs := bs + U32(offset);
    }
  }

  lemma {:induction false} FirstEnd(hs: seq<Level>)
    ensures DataEnd(hs, 0) == 4 + 4 * |hs|
  {
  }

  lemma EndAppended(bs: seq<Byte>, hs: seq<Level>, h: nat)
    requires h < |hs| && |bs| == 4 + 4 * h
    ensures EndStored(bs + U32(DataEnd(hs, h + 1)), hs, h)
  {
    hide DataEnd, U32;
  }

  lemma {:induction false} LevelAppended(bs: seq<Byte>, hs: seq<Level>, h: nat)
    requires h < |hs| && Words(hs[h].len) <= |hs[h].data| && |bs| == DataEnd(hs, h)
    ensures LevelStored(bs + LevelBytes(hs[h]), hs, h)
  {
    NextEnd(hs, h);
    hide DataEnd, LevelBytes, Words;
  }

  method ToVec(hs: seq<Level>) returns (bs: seq<Byte>)
    requires Storable(hs)
    ensures Encodes(bs, hs)
  {
    bs := Metadata(hs);
    FirstEnd(hs);
    hide U32, LevelBytes, DataEnd, EndStored, LevelStored, Words, Pow2;
    for h := 0 to |hs|
      invariant |bs| == DataEnd(hs, h) && |bs| >= 4 && bs[..4] == U32(|hs|)
      invariant forall k :: 0 <= k < |hs| ==> EndStored(bs, hs, k)
      invariant forall k :: 0 <= k < h ==> LevelStored(bs, hs, k)
    {
      NextEnd(hs, h);
      EndKept(bs, LevelBytes(hs[h]), hs, |hs|);
      forall k | 0 <= k < h
        ensures LevelStored(bs + LevelBytes(hs[h]), hs, k)
      {
        LevelKept(bs, LevelBytes(hs[h]), hs, k);
      }
      LevelAppended(bs, hs, h);
      bs := bs + LevelBytes(hs[h]);
    }
  }

  ghost function TrimAll(hs: seq<Level>): (r: seq<Level>)
    requires forall h :: 0 <= h < |hs| ==> Words(hs[h].len) <= |hs[h].data|
    ensures |r| == |hs| && forall h :: 0 <= h < |hs| ==> r[h] == Trim(hs[h])
  {
    seq(|hs|, h requires 0 <= h < |hs| => Trim(hs[h]))
  }

  /** Reading back what was stored gives every level again, less its reserve words. */
  method FromVec(bs: seq<Byte>, ghost hs: seq<Level>) returns (r: seq<Level>)
    requires Storable(hs) && Encodes(bs, hs)
    ensures r == TrimAll(hs)
  {
    U32RoundTrip(|hs|);
    DataEndGrows(hs, 0);
    FirstEnd(hs);
    hide U32, FromU32, LevelBytes, DataEnd, Words, Pow2, Trim, TrimAll;
    var height := FromU32(bs[..4]);
    var metadata, start := 4, 4 + height * 4;
    r := [];
    for h := 0 to height
      invariant |r| == h && metadata == 4 + 4 * h && start == DataEnd(hs, h)
      invariant forall k :: 0 <= k < h ==> r[k] == Trim(hs[k])
    {
      assert EndStored(bs, hs, h) && LevelStored(bs, hs, h);
      var l, end := ReadOne(bs, hs, h, metadata, start);
      r := r + [l];
      start, metadata := end, metadata + 4;
    }
    assert r == TrimAll(hs);
  }

  method ReadOne(bs: seq<Byte>, ghost hs: seq<Level>, ghost h: nat, metadata: nat, start: nat)
    returns (l: Level, end: nat)
    requires Storable(hs) && h < |hs| && EndStored(bs, hs, h) && LevelStored(bs, hs, h) && metadata == 4 + 4 * h
      && start == DataEnd(hs, h)
    ensures l == Trim(hs[h]) && end == DataEnd(hs, h + 1)
  {
    hide U32, FromU32, LevelBytes, DataEnd, Pow2, Words, FromBytes, WordAt, Trim;
    DataEndGrows(hs, h + 1);
    U32RoundTrip(DataEnd(hs, h + 1));
    NextEnd(hs, h);
    LevelLength(hs[h]);
    end := FromU32(bs[metadata..metadata + 4]);
    l := ReadLevel(bs[start..end]);
    LevelRead(hs[h], l);
  }

  lemma LevelLength(l: Level)
    requires Words(l.len) <= |l.data|
    ensures |LevelBytes(l)| == 4 + 8 * Words(l.len)
  {
  }

  /** What is loaded is a summary bitmap again, with the same bits. */
  lemma Reloaded(hs: seq<Level>)
    requires Tree(hs)
    ensures Tree(TrimAll(hs)) && LevelBits(TrimAll(hs)[|hs| - 1]) == LevelBits(hs[|hs| - 1])
  {
    var r := TrimAll(hs);
    forall h | 0 <= h < |hs|
      ensures r[h].Valid()
    {
      TrimGet(hs[h]);
    }
    forall h | 0 < h < |hs|
      ensures Linked(r[h - 1], r[h])
    {
      TrimGet(hs[h - 1]);
      assert Linked(hs[h - 1], hs[h]);
    }
    var l := hs[|hs| - 1];
    TrimGet(l);
    assert LevelBits(Trim(l)).clear == LevelBits(l).clear;
  }

  lemma TrimGet(l: Level)
    requires l.Valid()
    ensures Trim(l).Valid() && forall i: nat :: i < 64 * Words(l.len) ==> Trim(l).Get(i) == l.Get(i)
  {
    forall i: nat | i < 64 * Words(l.len)
      ensures Trim(l).Get(i) == l.Get(i)
    {
      assert Trim(l).data[i / 64] == l.data[i / 64];
    }
  }
}
