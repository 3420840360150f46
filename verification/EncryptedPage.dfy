/**
 The encrypted file backend: what a leaf page is after it has been written and read back. The
 cipher itself is a pair of functions; only its lengths and its round trip are used.
 */
module EncryptedPage {
  import opened Bits
  import opened LeafLayout
  import opened LeafEditor
  import opened LeafOverwrite

  const PAGE_SIZE: nat := 4096
  const NONCE_SIZE: nat := 12
  const TAG_SIZE: nat := 16
  const MAX_PLAINTEXT: nat := PAGE_SIZE - 1 - NONCE_SIZE - TAG_SIZE

  type Encrypt = (seq<Byte>, seq<Byte>) -> seq<Byte>
  type Decrypt = (seq<Byte>, seq<Byte>) -> Option<seq<Byte>>

  ghost predicate Cipher(enc: Encrypt, dec: Decrypt)
  {
    && (forall nonce, x :: |enc(nonce, x)| == |x| + TAG_SIZE && dec(nonce, enc(nonce, x)) == Some(x))
    && (forall nonce, c :: dec(nonce, c).Some? ==> |dec(nonce, c).value| + TAG_SIZE == |c|)
  }

  predicate ShouldEncrypt(data: seq<Byte>)
  {
    data != [] && data[0] == LEAF
  }

  /** The part of a leaf that is encrypted. */
  function Plaintext(data: seq<Byte>): seq<Byte>
    requires data != []
  {
    if |data| - 1 > MAX_PLAINTEXT then data[1..1 + MAX_PLAINTEXT] else data[1..]
  }

  /** The bytes that reach the file. */
  function Stored(enc: Encrypt, nonce: seq<Byte>, data: seq<Byte>): seq<Byte>
    requires |nonce| == NONCE_SIZE
  {
    if !ShouldEncrypt(data) then data
    else
      var page := [data[0]] + nonce + enc(nonce, Plaintext(data));
      if |page| < PAGE_SIZE then page + Zeros(PAGE_SIZE - |page|) else page
  }

  /** One page as it is read back; None when its tag does not match. */
  function PageRead(dec: Decrypt, raw: seq<Byte>): Option<seq<Byte>>
    requires |raw| == PAGE_SIZE
  {
    if !ShouldEncrypt(raw) then Some(raw)
    else
      match dec(raw[1..1 + NONCE_SIZE], raw[1 + NONCE_SIZE..])
      case None => None
      case Some(d) => Some([raw[0]] + d + (if |d| + 1 < PAGE_SIZE then Zeros(PAGE_SIZE - 1 - |d|) else []))
  }

  /** A longer range, page by page; a last partial page is left as it is. */
  function BlocksRead(dec: Decrypt, raw: seq<Byte>): Option<seq<Byte>>
    decreases |raw|
  {
    if |raw| < PAGE_SIZE then Some(raw)
    else
      match PageRead(dec, raw[..PAGE_SIZE])
      case None => None
      case Some(first) =>
        match BlocksRead(dec, raw[PAGE_SIZE..])
        case None => None
        case Some(rest) => Some(first + rest)
  }

  lemma ReadLength(enc: Encrypt, dec: Decrypt, raw: seq<Byte>)
    requires Cipher(enc, dec) && |raw| == PAGE_SIZE && PageRead(dec, raw).Some?
    ensures |PageRead(dec, raw).value| == PAGE_SIZE
  {
  }

  /** Writing at an offset; a hole before it is filled with zeros. */
  function WriteAt(file: seq<Byte>, offset: nat, s: seq<Byte>): (r: seq<Byte>)
    ensures |r| >= offset + |s| && r[offset..offset + |s|] == s
  {
    var padded := if |file| < offset + |s| then file + Zeros(offset + |s| - |file|) else file;
    padded[..offset] + s + padded[offset + |s|..]
  }

  class EncryptedFileBackend {
    var file: seq<Byte>
    const enc: Encrypt
    const dec: Decrypt

    constructor (file: seq<Byte>, enc: Encrypt, dec: Decrypt)
      ensures this.file == file && this.enc == enc && this.dec == dec
    {
      this.file, this.enc, this.dec := file, enc, dec;
    }

    method EncryptAndWrite(nonce: seq<Byte>, offset: nat, data: seq<Byte>)
      requires Cipher(enc, dec) && |nonce| == NONCE_SIZE
      modifies this
      ensures file == WriteAt(old(file), offset, Stored(enc, nonce, data))
    {
      if !ShouldEncrypt(data) {
        file := WriteAt(file, offset, data);
        return;
      }
      StoredPage(enc, dec, nonce, data);
      hide Cipher, Stored, Plaintext, WriteAt;
      var page := Assemble(data[0], nonce, enc(nonce, Plaintext(data)));
      file := WriteAt(file, offset, page);
    }

    /** Reads into a buffer of any length. */
    method ReadAndDecrypt(offset: nat, out: array<Byte>) returns (ok: bool)
      requires Cipher(enc, dec)
      modifies out
      ensures ok <==> ReadBack(dec, file, offset, out.Length).Some?
      ensures ok ==> Some(out[..]) == ReadBack(dec, file, offset, out.Length)
    {
      hide PageRead, Cipher, BlocksRead;
      if out.Length >= PAGE_SIZE {
        if offset + out.Length > |file| {
          return false;
        }
        ok := DecryptBlocks(enc, dec, file[offset..offset + out.Length], out);
        return;
      }
      if offset + PAGE_SIZE > |file| {
        return false;
      }
      var page := PageRead(dec, file[offset..offset + PAGE_SIZE]);
      if page.None? {
        return false;
      }
      ReadLength(enc, dec, file[offset..offset + PAGE_SIZE]);
      Write(out, 0, page.value[..out.Length]);
      assert out[..] == out[0..out.Length] == page.value[..out.Length];
      return true;
    }
  }

  /** Type, nonce and ciphertext in a page that is otherwise zero. */
  method Assemble(kind: Byte, nonce: seq<Byte>, x: seq<Byte>) returns (page: seq<Byte>)
    requires |nonce| == NONCE_SIZE && |x| + 13 <= PAGE_SIZE
    ensures page == [kind] + nonce + x + Zeros(PAGE_SIZE - 13 - |x|)
  {
    var buffer := new Byte[PAGE_SIZE](_ => 0);
    buffer[0] := kind;
    Write(buffer, 1, nonce);
    ghost var b := buffer[..];
    Write(buffer, 1 + NONCE_SIZE, x);
    Assembled(b, buffer[..], kind, nonce, x);
    page := buffer[..];
  }

  lemma StoredPage(enc: Encrypt, dec: Decrypt, nonce: seq<Byte>, data: seq<Byte>)
    requires Cipher(enc, dec) && |nonce| == NONCE_SIZE && ShouldEncrypt(data)
    ensures var x := enc(nonce, Plaintext(data));
      |x| + 13 <= PAGE_SIZE && Stored(enc, nonce, data) == [data[0]] + nonce + x + Zeros(PAGE_SIZE - 13 - |x|)
  {
    var x := enc(nonce, Plaintext(data));
    assert |x| == |Plaintext(data)| + TAG_SIZE;
    hide Cipher;
    if |x| + 13 == PAGE_SIZE {
      assert Zeros(0) == [];
    }
  }

  /** What a read returns, if it returns; a range shorter than a page is cut from the whole page. */
  function ReadBack(dec: Decrypt, file: seq<Byte>, offset: nat, len: nat): Option<seq<Byte>>
  {
    if len >= PAGE_SIZE then
      if offset + len > |file| then None else BlocksRead(dec, file[offset..offset + len])
    else if offset + PAGE_SIZE > |file| then None
    else
      match PageRead(dec, file[offset..offset + PAGE_SIZE])
      case None => None
      case Some(page) => if |page| < len then None else Some(page[..len])
  }

  /** Decrypts a range in place, one page at a time. */
  method DecryptBlocks(ghost enc: Encrypt, dec: Decrypt, raw: seq<Byte>, out: array<Byte>) returns (ok: bool)
    requires Cipher(enc, dec) && |raw| == out.Length
    modifies out
    ensures ok <==> BlocksRead(dec, raw).Some?
    ensures ok ==> Some(out[..]) == BlocksRead(dec, raw)
  {
    hide PageRead, Cipher;
    Write(out, 0, raw);
    var at := 0;
    PrependMore([], [], BlocksRead(dec, raw));
    assert raw[0..] == raw && out[..0] == [];
    while at + PAGE_SIZE <= out.Length
      invariant at <= out.Length && out[at..] == raw[at..]
      invariant BlocksRead(dec, raw) == Prepend(out[..at], BlocksRead(dec, raw[at..]))
      decreases out.Length - at
    {
      var page := PageRead(dec, out[at..at + PAGE_SIZE]);
      ghost var before := out[..];
      assert out[at..at + PAGE_SIZE] == raw[at..][..PAGE_SIZE];
      NextBlock(dec, raw, at);
      if page.None? {
        return false;
      }
      ReadLength(enc, dec, raw[at..][..PAGE_SIZE]);
      Write(out, at, page.value);
      assert out[..at + PAGE_SIZE] == before[..at] + page.value;
      PrependMore(before[..at], page.value, BlocksRead(dec, raw[at + PAGE_SIZE..]));
      at := at + PAGE_SIZE;
    }
    assert out[..at] + raw[at..] == out[..];
    return true;
  }

  lemma NextBlock(dec: Decrypt, raw: seq<Byte>, at: nat)
    requires at + PAGE_SIZE <= |raw|
    ensures var page := PageRead(dec, raw[at..][..PAGE_SIZE]);
      BlocksRead(dec, raw[at..]) == if page.None? then None
        else Prepend(page.value, BlocksRead(dec, raw[at + PAGE_SIZE..]))
  {
    hide PageRead;
    assert raw[at..][PAGE_SIZE..] == raw[at + PAGE_SIZE..];
  }

  ghost function Prepend(s: seq<Byte>, r: Option<seq<Byte>>): Option<seq<Byte>>
  {
    match r
    case None => None
    case Some(t) => Some(s + t)
  }

  lemma PrependMore(s: seq<Byte>, t: seq<Byte>, r: Option<seq<Byte>>)
    ensures Prepend(s, Prepend(t, r)) == Prepend(s + t, r) && Prepend([], r) == r
  {
    if r.Some? {
      assert s + (t + r.value) == s + t + r.value && [] + r.value == r.value;
    }
  }

  lemma Assembled(b: seq<Byte>, c: seq<Byte>, kind: Byte, nonce: seq<Byte>, x: seq<Byte>)
    requires |b| == |c| == PAGE_SIZE && |nonce| == NONCE_SIZE && |x| + 13 <= PAGE_SIZE
    requires b[0] == kind && b[1..13] == nonce && (forall k :: 13 <= k < PAGE_SIZE ==> b[k] == 0)
    requires c[..13] == b[..13] && c[13..13 + |x|] == x && c[13 + |x|..] == b[13 + |x|..]
    ensures c == [kind] + nonce + x + Zeros(PAGE_SIZE - 13 - |x|)
  {
    assert c == c[..13] + c[13..13 + |x|] + c[13 + |x|..];
    assert b[..13] == [kind] + nonce by { assert b[..13] == [b[0]] + b[1..13]; }
  }

  // ----- what survives -----

  /** The bytes of a leaf that are kept, its type included. */
  const KEPT: nat := 1 + MAX_PLAINTEXT

  /** A one-page leaf as it comes back. */
  function Kept(data: seq<Byte>): (r: seq<Byte>)
    requires |data| == PAGE_SIZE
    ensures |r| == PAGE_SIZE
  {
    data[..KEPT] + Zeros(PAGE_SIZE - KEPT)
  }

  lemma {:induction false} OnePageRead(dec: Decrypt, raw: seq<Byte>)
    requires |raw| == PAGE_SIZE
    ensures BlocksRead(dec, raw) == PageRead(dec, raw)
  {
    hide PageRead;
    assert raw[..PAGE_SIZE] == raw && raw[PAGE_SIZE..] == [];
    var page := PageRead(dec, raw);
    if page.Some? {
      assert page.value + [] == page.value;
    }
  }

  lemma StoredLeaf(enc: Encrypt, dec: Decrypt, nonce: seq<Byte>, data: seq<Byte>)
    requires Cipher(enc, dec) && |nonce| == NONCE_SIZE && |data| >= PAGE_SIZE && data[0] == LEAF
    ensures var s := Stored(enc, nonce, data);
      |s| == PAGE_SIZE && s == [LEAF] + nonce + enc(nonce, data[1..KEPT])
        && PageRead(dec, s) == Some(data[..KEPT] + Zeros(PAGE_SIZE - KEPT))
  {
    var s := Stored(enc, nonce, data);
    var x := enc(nonce, data[1..KEPT]);
    assert |x| == PAGE_SIZE - 13 && dec(nonce, x) == Some(data[1..KEPT]);
    assert s == [LEAF] + nonce + x;
    assert s[1..13] == nonce && s[13..] == x;
    assert [LEAF] + data[1..KEPT] == data[..KEPT];
  }

  /** Whatever the file held, a one-page leaf comes back without its last 28 bytes. */
  lemma LeafComesBack(enc: Encrypt, dec: Decrypt, nonce: seq<Byte>, file: seq<Byte>, offset: nat, data: seq<Byte>)
    requires Cipher(enc, dec) && |nonce| == NONCE_SIZE && |data| == PAGE_SIZE && data[0] == LEAF
    ensures ReadBack(dec, WriteAt(file, offset, Stored(enc, nonce, data)), offset, PAGE_SIZE) == Some(Kept(data))
  {
    StoredLeaf(enc, dec, nonce, data);
    hide Cipher, Stored, PageRead, BlocksRead, WriteAt;
    OnePageRead(dec, Stored(enc, nonce, data));
  }

  lemma KeptHoldsIff(w: Widths, ps: seq<Pair>, data: seq<Byte>, tail: seq<Byte>)
    requires |data| == PAGE_SIZE + |tail| && Holds(data, w, ps)
    ensures Holds(Kept(data[..PAGE_SIZE]) + tail, w, ps) <==>
      && (forall k :: KEPT <= k < PAGE_SIZE && k < Total(w, ps) ==> data[k] == 0)
      && (forall k :: PAGE_SIZE <= k < Total(w, ps) ==> tail[k - PAGE_SIZE] == data[k])
  {
    hide Le16, AllFit, Keys, Values, KeyStart;
    var r, top := Kept(data[..PAGE_SIZE]) + tail, Total(w, ps);
    assert forall k :: 0 <= k < KEPT ==> r[k] == data[k];
    assert forall k :: KEPT <= k < PAGE_SIZE ==> r[k] == 0;
    assert forall k :: PAGE_SIZE <= k < |data| ==> r[k] == tail[k - PAGE_SIZE];
    assert top >= 4;
    assert r[2..4] == data[2..4];
    if forall k :: KEPT <= k < top ==> r[k] == data[k] {
      assert r[4..top] == data[4..top];
    } else {
      var k :| KEPT <= k < top && r[k] != data[k];
      assert r[4..top][k - 4] == r[k] && data[4..top][k - 4] == data[k];
    }
  }

  lemma {:induction false} BlocksLength(enc: Encrypt, dec: Decrypt, raw: seq<Byte>)
    requires Cipher(enc, dec) && BlocksRead(dec, raw).Some?
    ensures |BlocksRead(dec, raw).value| == |raw|
    decreases |raw|
  {
    if |raw| >= PAGE_SIZE {
      ReadLength(enc, dec, raw[..PAGE_SIZE]);
      BlocksLength(enc, dec, raw[PAGE_SIZE..]);
    }
    hide PageRead, Cipher;
  }

  /**
   A leaf of any size comes back as its first block without the last 28 bytes, and whatever the file
   held after that block.
   */
  lemma LargeLeafComesBack(enc: Encrypt, dec: Decrypt, nonce: seq<Byte>, file: seq<Byte>, offset: nat, data: seq<Byte>)
    requires Cipher(enc, dec) && |nonce| == NONCE_SIZE && |data| > PAGE_SIZE && data[0] == LEAF
    ensures var r := ReadBack(dec, WriteAt(file, offset, Stored(enc, nonce, data)), offset, |data|);
      r == if offset + |data| > |file| then None
           else Prepend(Kept(data[..PAGE_SIZE]), BlocksRead(dec, file[offset + PAGE_SIZE..offset + |data|]))
  {
    StoredLeaf(enc, dec, nonce, data);
    var s := Stored(enc, nonce, data);
    var f := WriteAt(file, offset, s);
    assert Kept(data[..PAGE_SIZE]) == data[..KEPT] + Zeros(PAGE_SIZE - KEPT);
    assert |f| == if |file| < offset + PAGE_SIZE then offset + PAGE_SIZE else |file|;
    if offset + |data| <= |file| {
      var raw := f[offset..offset + |data|];
      assert raw[..PAGE_SIZE] == s;
      assert raw[PAGE_SIZE..] == file[offset + PAGE_SIZE..offset + |data|];
    }
    hide Cipher, Stored, PageRead, WriteAt, Kept;
  }

  /**
   A leaf that has been written and read back still holds its pairs if and only if no byte of the
   layout in the cut of its first block is set and, when it is longer than a block, the old file
   already shows the rest of the layout.
   */
  lemma LeafSurvivesIff(enc: Encrypt, dec: Decrypt, nonce: seq<Byte>, file: seq<Byte>, offset: nat,
                        w: Widths, ps: seq<Pair>, data: seq<Byte>)
    requires Cipher(enc, dec) && |nonce| == NONCE_SIZE && |data| >= PAGE_SIZE && data[0] == LEAF && Holds(data, w, ps)
    ensures var r := ReadBack(dec, WriteAt(file, offset, Stored(enc, nonce, data)), offset, |data|);
      r.Some? && Holds(r.value, w, ps) <==>
        && (forall k :: KEPT <= k < PAGE_SIZE && k < Total(w, ps) ==> data[k] == 0)
        && (|data| > PAGE_SIZE ==>
            offset + |data| <= |file| && Shown(dec, file[offset + PAGE_SIZE..offset + |data|], data, Total(w, ps)))
  {
    if |data| == PAGE_SIZE {
      assert data[..PAGE_SIZE] == data && Kept(data) + [] == Kept(data);
      LeafComesBack(enc, dec, nonce, file, offset, data);
      Bounds(data, w, ps);
      hide Cipher, Stored, ReadBack, WriteAt, Kept, Holds, Total;
      KeptHoldsIff(w, ps, data, []);
    } else if offset + |data| <= |file| {
      LargeLeafComesBack(enc, dec, nonce, file, offset, data);
      var rest := file[offset + PAGE_SIZE..offset + |data|];
      hide Stored, ReadBack, WriteAt, Kept, Holds, Total, PageRead, BlocksRead;
      if BlocksRead(dec, rest).Some? {
        BlocksLength(enc, dec, rest);
        hide Cipher;
        KeptHoldsIff(w, ps, data, BlocksRead(dec, rest).value);
      }
    } else {
      LargeLeafComesBack(enc, dec, nonce, file, offset, data);
      hide Cipher, Stored, ReadBack, WriteAt, Kept, Holds, Total, PageRead, BlocksRead;
    }
  }

  /** Read block by block, the file shows the layout past the first block. */
  predicate Shown(dec: Decrypt, raw: seq<Byte>, data: seq<Byte>, top: nat)
  {
    var t := BlocksRead(dec, raw);
    t.Some? && |data| == PAGE_SIZE + |t.value| && top <= |data| && forall k :: PAGE_SIZE <= k < top ==>
      t.value[k - PAGE_SIZE] == data[k]
  }

  /** Of a leaf of any size only the first page's worth reaches the file. */
  lemma OnlyThePrefixIsStored(enc: Encrypt, dec: Decrypt, nonce: seq<Byte>, a: seq<Byte>, b: seq<Byte>)
    requires Cipher(enc, dec) && |nonce| == NONCE_SIZE && |a| >= PAGE_SIZE && |b| >= PAGE_SIZE && a[0] == LEAF
      && a[..KEPT] == b[..KEPT]
    ensures Stored(enc, nonce, a) == Stored(enc, nonce, b)
  {
    Before(a, b, KEPT, 1, KEPT);
    assert b[0] == b[..KEPT][0] == a[0];
    StoredLeaf(enc, dec, nonce, a);
    StoredLeaf(enc, dec, nonce, b);
  }

  /** A page of another type comes back whole when no page-sized piece of it starts like a leaf. */
  lemma {:induction false} OtherPageComesBack(dec: Decrypt, data: seq<Byte>)
    requires forall k :: 0 <= k < |data| && k % PAGE_SIZE == 0 ==> data[k] != LEAF
    ensures BlocksRead(dec, data) == Some(data)
    decreases |data|
  {
    if |data| >= PAGE_SIZE {
      var rest := data[PAGE_SIZE..];
      forall k | 0 <= k < |rest| && k % PAGE_SIZE == 0
        ensures rest[k] != LEAF
      {
        assert (k + PAGE_SIZE) % PAGE_SIZE == 0 && rest[k] == data[k + PAGE_SIZE];
      }
      OtherPageComesBack(dec, rest);
      assert data[0] != LEAF;
      assert data[..PAGE_SIZE] + rest == data;
    }
  }

  /** The last byte of the layout is the last byte of the last value. */
  lemma LastByte(w: Widths, ps: seq<Pair>, x: Pair, data: seq<Byte>)
    requires Holds(data, w, ps + [x]) && x.value != []
    ensures data[Total(w, ps + [x]) - 1] == x.value[|x.value| - 1]
  {
    hide Le16, AllFit, Keys, KeyTable, ValueTable;
    ValuesConcat(ps, [x]);
    assert Values([x]) == x.value + Values([x][1..]);
    hide Values;
    var top, body := Total(w, ps + [x]), Body(w, ps + [x]);
    assert data[4..top][top - 5] == body[top - 5];
  }

  /** The test for an insertion in place admits pages whose end is then cut off. */
  lemma AcceptedAndLost(w: Widths, ps: seq<Pair>, x: Pair, page: seq<Byte>, data: seq<Byte>)
    requires |page| == |data| == PAGE_SIZE && Holds(page, w, ps) && ps != [] && Holds(data, w, ps + [x])
    requires x.value != [] && x.value[|x.value| - 1] != 0
    ensures NumPairs(page) == |ps| && KeyStart(w, |ps|) <= |page|
      && SufficientSpace(page, w, 0, |ps|, false, x.key, x.value)
    ensures Holds(Kept(data), w, ps + [x]) <==> Total(w, ps + [x]) <= KEPT
  {
    assert data[..PAGE_SIZE] == data && Kept(data) + [] == Kept(data);
    hide Holds, Kept, Total, SufficientSpace;
    SpaceExact(page, w, ps, 0, |ps|, x.key, x.value);
    assert ps[..|ps|] + [Pair(x.key, x.value)] + ps[|ps|..] == ps + [x];
    Bounds(data, w, ps + [x]);
    KeptHoldsIff(w, ps + [x], data, []);
    LastByte(w, ps, x, data);
  }

  lemma PageOf(w: Widths, ps: seq<Pair>, n: nat) returns (page: seq<Byte>)
    requires AllFit(w, ps) && |ps| < 0x1_0000 && Total(w, ps) < MAX_U32 && Total(w, ps) <= n
    ensures |page| == n && Holds(page, w, ps) && page[0] == LEAF
  {
    hide Le16, AllFit, Keys, Values;
    page := [LEAF, 0] + Le16(|ps|) + Body(w, ps) + Zeros(n - Total(w, ps));
    assert page[2..4] == Le16(|ps|) && page[4..Total(w, ps)] == Body(w, ps);
  }

  lemma OnePair(x: Pair)
    ensures Keys([x]) == x.key && Values([x]) == x.value
  {
    assert [x][1..] == [];
  }

  ghost function Sevens(n: nat): (s: seq<Byte>)
    ensures |s| == n && (n > 0 ==> s[n - 1] == 7)
  {
    seq(n, _ => 7)
  }

  /** Such a page: two pairs that fill it, the second of them cut off. */
  lemma LostLeaf() returns (page: seq<Byte>, data: seq<Byte>, x: Pair)
    ensures var w, ps := Widths(None, None), [Pair([1], [])];
      && |page| == |data| == PAGE_SIZE && Holds(page, w, ps) && Holds(data, w, ps + [x])
      && NumPairs(page) == 1 && KeyStart(w, 1) <= |page| && SufficientSpace(page, w, 0, 1, false, x.key, x.value)
        && !Holds(Kept(data), w, ps + [x])
  {
    var w, ps := Widths(None, None), [Pair([1], [])];
    x := Pair([2], Sevens(4074));
    OnePair(ps[0]);
    OnePair(x);
    KeysConcat(ps, [x]);
    ValuesConcat(ps, [x]);
    hide Holds, Keys, Values, SufficientSpace, Kept, Body, Sevens;
    assert Total(w, ps) == 13 && Total(w, ps + [x]) == PAGE_SIZE;
    page := PageOf(w, ps, PAGE_SIZE);
    data := PageOf(w, ps + [x], PAGE_SIZE);
    AcceptedAndLost(w, ps, x, page, data);
  }

  lemma ZerosRead(dec: Decrypt)
    ensures BlocksRead(dec, Zeros(PAGE_SIZE)) == Some(Zeros(PAGE_SIZE))
  {
    OtherPageComesBack(dec, Zeros(PAGE_SIZE));
  }

  /** A leaf of one large pair on two pages. */
  lemma LargeLeaf() returns (data: seq<Byte>, x: Pair)
    ensures var w := Widths(None, None); var top := Total(w, [x]);
      && |data| == 2 * PAGE_SIZE && data[0] == LEAF && Holds(data, w, [x])
      && PAGE_SIZE < top <= |data| && data[top - 1] != 0
  {
    var w := Widths(None, None);
    x := Pair([2], Sevens(5000));
    OnePair(x);
    assert [] + [x] == [x];
    hide Holds, Keys, Values, Body, Sevens;
    assert PAGE_SIZE < Total(w, [x]) <= 2 * PAGE_SIZE;
    data := PageOf(w, [x], 2 * PAGE_SIZE);
    LastByte(w, [], x, data);
  }

  /** In a file that held zeros its second page is lost. */
  lemma LostLargeLeaf(enc: Encrypt, dec: Decrypt, nonce: seq<Byte>) returns (data: seq<Byte>, x: Pair)
    requires Cipher(enc, dec) && |nonce| == NONCE_SIZE
    ensures var w, file := Widths(None, None), Zeros(2 * PAGE_SIZE);
      && |data| == 2 * PAGE_SIZE && data[0] == LEAF && Holds(data, w, [x])
      && var r := ReadBack(dec, WriteAt(file, 0, Stored(enc, nonce, data)), 0, |data|);
         r.Some? && !Holds(r.value, w, [x])
  {
    hide Holds, Total, ReadBack, WriteAt, Stored, BlocksRead, Cipher;
    data, x := LargeLeaf();
    var file := Zeros(2 * PAGE_SIZE);
    assert file[PAGE_SIZE..2 * PAGE_SIZE] == Zeros(PAGE_SIZE);
    ZerosRead(dec);
    LostTail(enc, dec, nonce, Widths(None, None), [x], data, file, Zeros(PAGE_SIZE));
  }

  lemma LostTail(enc: Encrypt, dec: Decrypt, nonce: seq<Byte>, w: Widths, ps: seq<Pair>, data: seq<Byte>,
                 file: seq<Byte>, tail: seq<Byte>)
    requires Cipher(enc, dec) && |nonce| == NONCE_SIZE && |data| == |file| == 2 * PAGE_SIZE && data[0] == LEAF
      && Holds(data, w, ps)
    requires |tail| == PAGE_SIZE && BlocksRead(dec, file[PAGE_SIZE..2 * PAGE_SIZE]) == Some(tail)
    requires PAGE_SIZE < Total(w, ps) <= |data| && tail[Total(w, ps) - 1 - PAGE_SIZE] != data[Total(w, ps) - 1]
    ensures var r := ReadBack(dec, WriteAt(file, 0, Stored(enc, nonce, data)), 0, |data|);
      r.Some? && !Holds(r.value, w, ps)
  {
    hide Holds, Total, ReadBack, WriteAt, Stored, BlocksRead, Cipher, Kept;
    LargeLeafComesBack(enc, dec, nonce, file, 0, data);
    LeafSurvivesIff(enc, dec, nonce, file, 0, w, ps, data);
  }
}
