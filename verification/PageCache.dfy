/**
 The page cache over a flat file: a striped read cache, a write buffer, and their byte counters.
 `view` is what a reader of the cache is to see.
 */
module PageCache {
  import opened Bits
  import opened LeafLayout
  import opened Lru

  type Bytes = seq<Byte>

  const STRIPES: nat := 131

  // ----- sums over maps -----

  function Size(b: Bytes): nat {
    |b|
  }

  function Same(n: nat): nat {
    n
  }

  function Sum<T>(m: map<nat, T>, f: T -> nat): nat
    decreases |m|
  {
    if m == map[] then 0
    else
      assert m.Keys != {} by { assert m.Keys == {} ==> m == map[]; }
      var k := Least(m.Keys);
      f(m[k]) + Sum(m - {k}, f)
  }

  lemma {:induction false} SumWithout<T>(m: map<nat, T>, f: T -> nat, k: nat)
    requires k in m
    ensures Sum(m, f) == f(m[k]) + Sum(m - {k}, f)
    decreases |m|
  {
    var j := Least(m.Keys);
    if j != k {
      SumWithout(m - {j}, f, k);
      SumWithout(m - {k}, f, j);
      assert m - {j} - {k} == m - {k} - {j};
    }
  }

  lemma SumWith<T>(m: map<nat, T>, f: T -> nat, k: nat, v: T)
    ensures Sum(m[k := v], f) == Sum(m - {k}, f) + f(v)
  {
    SumWithout(m[k := v], f, k);
    assert m[k := v] - {k} == m - {k};
  }

  lemma SumAbsent<T>(m: map<nat, T>, f: T -> nat, k: nat)
    ensures k !in m ==> m - {k} == m
  {
  }

  function SumAll(stripes: seq<Lru<Bytes>>): nat
  {
    if stripes == [] then 0 else SumAll(stripes[..|stripes| - 1]) + Sum(stripes[|stripes| - 1].cache, Size)
  }

  lemma {:induction false} SumAllSet(stripes: seq<Lru<Bytes>>, s: nat, lru: Lru<Bytes>)
    requires s < |stripes|
    ensures SumAll(stripes[s := lru]) == SumAll(stripes) - Sum(stripes[s].cache, Size) + Sum(lru.cache, Size)
    decreases |stripes|
  {
    hide Sum;
    var n := |stripes| - 1;
    if s < n {
      SumAllSet(stripes[..n], s, lru);
      assert stripes[s := lru][..n] == stripes[..n][s := lru];
    } else {
      assert stripes[s := lru][..n] == stripes[..n];
    }
  }

  // ----- coherence -----

  /** Two ranges that do not overlap. */
  predicate Apart(a: nat, n: nat, b: nat, m: nat) {
    a + n <= b || b + m <= a
  }

  ghost predicate Covered(lens: map<nat, nat>, i: nat) {
    exists k :: k in lens && k <= i < k + lens[k]
  }

  /** The cached page at `k` shows the view. */
  ghost predicate Shows(view: Bytes, k: nat, data: Bytes) {
    k + |data| <= |view| && view[k..k + |data|] == data
  }

  /** Read-cached pages show the view and lie in their stripe. */
  ghost predicate ReadsShow(view: Bytes, stripes: seq<Lru<Bytes>>) {
    && |stripes| == STRIPES
    && (forall s :: 0 <= s < STRIPES ==> stripes[s].Valid())
    && forall s, k :: 0 <= s < STRIPES && k in stripes[s].cache ==>
      k % STRIPES == s && Shows(view, k, stripes[s].cache[k])
  }

  /** Buffered pages show the view unless they are lent out; `lens` has the length of every one of them. */
  ghost predicate BufferShows(view: Bytes, buffer: Lru<Option<Bytes>>, lens: map<nat, nat>) {
    && buffer.Valid() && lens.Keys == buffer.cache.Keys
    && (forall k :: k in lens ==> k + lens[k] <= |view|)
    && forall k :: k in buffer.cache && buffer.cache[k].Some? ==>
      |buffer.cache[k].value| == lens[k] && Shows(view, k, buffer.cache[k].value)
  }

  /** Away from the buffered pages the file has the view. */
  ghost predicate FileShows(view: Bytes, file: Bytes, lens: map<nat, nat>) {
    |file| == |view| && forall i :: 0 <= i < |view| && !Covered(lens, i) ==> file[i] == view[i]
  }

  ghost predicate BufferApart(lens: map<nat, nat>) {
    forall k, j :: k in lens && j in lens && k != j ==> Apart(k, lens[k], j, lens[j])
  }

  ghost predicate ReadsApart(stripes: seq<Lru<Bytes>>, lens: map<nat, nat>) {
    forall s, k, j :: 0 <= s < |stripes| && k in stripes[s].cache && j in lens ==>
      k != j && Apart(k, |stripes[s].cache[k]|, j, lens[j])
  }

  /** Lemmas about the parts, one change at a time. */

  lemma StripeSet(view: Bytes, stripes: seq<Lru<Bytes>>, s: nat, lru: Lru<Bytes>)
    requires ReadsShow(view, stripes) && s < STRIPES && lru.Valid()
    requires forall k :: k in lru.cache ==> k % STRIPES == s && Shows(view, k, lru.cache[k])
    ensures ReadsShow(view, stripes[s := lru])
  {
    hide Shows;
  }

  lemma StripeApart(stripes: seq<Lru<Bytes>>, lens: map<nat, nat>, s: nat, lru: Lru<Bytes>)
    requires ReadsApart(stripes, lens) && s < |stripes|
    requires forall k, j :: k in lru.cache && j in lens ==> k != j && Apart(k, |lru.cache[k]|, j, lens[j])
    ensures ReadsApart(stripes[s := lru], lens)
  {
    hide Apart;
  }

  /** A stripe that only lost entries. */
  lemma StripeShrunk(view: Bytes, stripes: seq<Lru<Bytes>>, lens: map<nat, nat>, s: nat, lru: Lru<Bytes>)
    requires ReadsShow(view, stripes) && ReadsApart(stripes, lens) && s < STRIPES && lru.Valid()
    requires forall k :: k in lru.cache ==> k in stripes[s].cache && lru.cache[k] == stripes[s].cache[k]
    ensures ReadsShow(view, stripes[s := lru]) && ReadsApart(stripes[s := lru], lens)
  {
    hide Shows, Apart;
    StripeSet(view, stripes, s, lru);
    StripeApart(stripes, lens, s, lru);
  }

  /** A byte range that no buffered page touches is the file's. */
  lemma FileHas(view: Bytes, file: Bytes, lens: map<nat, nat>, offset: nat, len: nat)
    requires FileShows(view, file, lens) && offset + len <= |view|
    requires forall k :: k in lens ==> Apart(k, lens[k], offset, len)
    ensures file[offset..offset + len] == view[offset..offset + len]
  {
    forall i | offset <= i < offset + len
      ensures file[i] == view[i]
    {
      assert !Covered(lens, i);
    }
  }

  function Patch(file: Bytes, offset: nat, data: Bytes): (r: Bytes)
    requires offset + |data| <= |file|
    ensures |r| == |file|
    ensures forall i {:trigger r[i]} :: 0 <= i < |r| ==>
      r[i] == if offset <= i < offset + |data| then data[i - offset] else file[i]
  {
    file[..offset] + data + file[offset + |data|..]
  }

  lemma CoveredStill(lens: map<nat, nat>, k: nat, i: nat)
    requires k in lens && !(k <= i < k + lens[k])
    ensures Covered(lens, i) <==> Covered(lens - {k}, i)
  {
    if j :| j in lens && j <= i < j + lens[j] {
      assert j in lens - {k} && (lens - {k})[j] == lens[j];
    }
    if j :| j in lens - {k} && j <= i < j + (lens - {k})[j] {
      assert j in lens && (lens - {k})[j] == lens[j];
    }
  }

  /** Writing a buffered page back. */
  lemma WrittenBack(view: Bytes, file: Bytes, lens: map<nat, nat>, k: nat, data: Bytes)
    requires FileShows(view, file, lens) && k in lens && |data| == lens[k] && Shows(view, k, data)
    ensures FileShows(view, Patch(file, k, data), lens - {k}) && FileShows(view, Patch(file, k, data), lens)
  {
    var r := Patch(file, k, data);
    forall i | 0 <= i < |view| && !Covered(lens - {k}, i)
      ensures r[i] == view[i]
    {
      if k <= i < k + |data| {
        assert view[k..k + |data|][i - k] == view[i];
      } else {
        CoveredStill(lens, k, i);
      }
    }
    forall i | 0 <= i < |view| && !Covered(lens, i)
      ensures r[i] == view[i]
    {
      assert !(k <= i < k + lens[k]);
    }
  }

  /** A change of the view away from a page. */
  lemma ShowsStill(view: Bytes, at: nat, data: Bytes, k: nat, page: Bytes)
    requires at + |data| <= |view| && Shows(view, k, page) && Apart(at, |data|, k, |page|)
    ensures Shows(Patch(view, at, data), k, page)
  {
    var r := Patch(view, at, data);
    forall i | 0 <= i < |page|
      ensures r[k..k + |page|][i] == page[i]
    {
      assert view[k..k + |page|][i] == view[k + i];
    }
  }

  /** The read cache, when a buffered page changes. */
  lemma ReadsShowStill(view: Bytes, stripes: seq<Lru<Bytes>>, lens: map<nat, nat>, at: nat, data: Bytes)
    requires at + |data| <= |view| && ReadsShow(view, stripes) && ReadsApart(stripes, lens) && at in lens
      && |data| == lens[at]
    ensures ReadsShow(Patch(view, at, data), stripes)
  {
    hide Shows, Patch;
    forall s, k | 0 <= s < STRIPES && k in stripes[s].cache
      ensures Shows(Patch(view, at, data), k, stripes[s].cache[k])
    {
      ShowsStill(view, at, data, k, stripes[s].cache[k]);
    }
  }

  /** The rest of the write buffer, when a buffered page changes. */
  lemma BufferShowsStill(view: Bytes, buffer: Lru<Option<Bytes>>, lens: map<nat, nat>, at: nat, data: Bytes, k: nat)
    requires at + |data| <= |view| && BufferShows(view, buffer, lens) && BufferApart(lens) && at in lens
      && |data| == lens[at]
    requires k in lens && k != at && buffer.cache[k].Some?
    ensures Shows(Patch(view, at, data), k, buffer.cache[k].value)
  {
    hide Shows, Patch;
    ShowsStill(view, at, data, k, buffer.cache[k].value);
  }

  lemma CoveredMore(lens: map<nat, nat>, offset: nat, len: nat, i: nat)
    requires offset !in lens
    ensures Covered(lens, i) ==> Covered(lens[offset := len], i)
  {
    if k :| k in lens && k <= i < k + lens[k] {
      assert k in lens[offset := len] && lens[offset := len][k] == lens[k];
    }
  }

  /** One buffered page more. */
  lemma Buffered(view: Bytes, file: Bytes, stripes: seq<Lru<Bytes>>, lens: map<nat, nat>, offset: nat, len: nat)
    requires FileShows(view, file, lens) && BufferApart(lens) && ReadsApart(stripes, lens) && offset !in lens
    requires forall k :: k in lens ==> Apart(k, lens[k], offset, len)
    requires forall s, k :: 0 <= s < |stripes| && k in stripes[s].cache ==>
      k != offset && Apart(k, |stripes[s].cache[k]|, offset, len)
    ensures FileShows(view, file, lens[offset := len]) && BufferApart(lens[offset := len])
      && ReadsApart(stripes, lens[offset := len])
    ensures Sum(lens[offset := len], Same) == Sum(lens, Same) + len
  {
    var more := lens[offset := len];
    forall i | 0 <= i < |view| && !Covered(more, i)
      ensures file[i] == view[i]
    {
      CoveredMore(lens, offset, len, i);
    }
    SumWith(lens, Same, offset, len);
    SumAbsent(lens, Same, offset);
  }

  /** Takes the next page that is not lent out from the write buffer; pages that are go back in. */
  method PopWritable(buffer: Lru<Option<Bytes>>) returns (r: Option<(nat, Bytes)>, rest: Lru<Option<Bytes>>)
    requires buffer.Valid()
    ensures rest.Valid()
    ensures r.None? ==> rest.cache == buffer.cache
    ensures r.Some? ==>
      r.value.0 in buffer.cache && buffer.cache[r.value.0] == Some(r.value.1)
        && rest.cache == buffer.cache - {r.value.0}
  {
    hide Lru.Pop;
    rest := buffer;
    for i := 0 to |buffer.cache|
      invariant rest.Valid() && rest.cache == buffer.cache
    {
      PopMeaning(rest);
      var (popped, remaining) := rest.Pop();
      if popped.None? {
        rest := remaining;
        break;
      }
      var (k, v) := popped.value;
      if v.Some? {
        return Some((k, v.value)), remaining;
      }
      InsertValid(remaining, k, v);
      rest := remaining.Insert(k, v);
      assert rest.cache == buffer.cache;
    }
    r := None;
  }

  lemma {:induction false} EmptyStripes(stripes: seq<Lru<Bytes>>)
    requires forall s :: 0 <= s < |stripes| ==> stripes[s].cache == map[]
    ensures SumAll(stripes) == 0
    decreases |stripes|
  {
    if stripes != [] {
      EmptyStripes(stripes[..|stripes| - 1]);
    }
  }

  class PagedCachedFile {
    var file: Bytes
    const maxReadBytes: nat
    const maxWriteBytes: nat
    var readBytes: nat
    var writeBytes: nat
    var stripes: seq<Lru<Bytes>>
    var buffer: Lru<Option<Bytes>>
    ghost var view: Bytes
    ghost var lens: map<nat, nat>

    ghost predicate Coherent()
      reads this
    {
      && ReadsShow(view, stripes) && BufferShows(view, buffer, lens) && FileShows(view, file, lens)
      && BufferApart(lens) && ReadsApart(stripes, lens)
    }

    /** Coherent, and both counters are exact. */
    ghost predicate Valid()
      reads this
    {
      Coherent() && readBytes == SumAll(stripes) && writeBytes == Sum(lens, Same)
    }

    constructor (file: Bytes, maxReadBytes: nat, maxWriteBytes: nat)
      ensures Valid() && view == file && lens == map[]
    {
      this.file, this.maxReadBytes, this.maxWriteBytes := file, maxReadBytes, maxWriteBytes;
      readBytes, writeBytes := 0, 0;
      stripes, buffer := seq(STRIPES, _ => Lru(map[], {}, [])), Lru(map[], {}, []);
      view, lens := file, map[];
      new;
      EmptyStripes(stripes);
    }

    /**
     A page may be asked for under one offset and length while it is buffered or cached, and not
     while it is lent out.
     */
    ghost predicate Askable(offset: nat, len: nat)
      reads this
    {
      && offset + len <= |view| && (offset in buffer.cache ==> buffer.cache[offset].Some?)
      && (forall k :: k in lens ==> if k == offset then lens[k] == len else Apart(k, lens[k], offset, len))
      && (|stripes| == STRIPES && offset in stripes[offset % STRIPES].cache ==>
          |stripes[offset % STRIPES].cache[offset]| == len)
    }

    /** Reads through both caches; `clean` skips the write buffer. */
    method Read(offset: nat, len: nat, clean: bool) returns (data: Bytes)
      requires Valid() && Askable(offset, len) && (clean ==> offset !in buffer.cache)
      modifies this`buffer, this`stripes, this`readBytes
      ensures Valid() && data == view[offset..offset + len] && buffer.cache == old(buffer.cache)
    {
      hide SumAll, Sum;
      if !clean && offset in buffer.cache {
        data := buffer.cache[offset].value;
        buffer := buffer.Touch(offset);
        return;
      }
      var s := offset % STRIPES;
      if offset in stripes[s].cache {
        data := stripes[s].cache[offset];
        var touched := stripes[s].Touch(offset);
        StripeShrunk(view, stripes, lens, s, touched);
        SumAllSet(stripes, s, touched);
        stripes := stripes[s := touched];
        return;
      }
      FileHas(view, file, lens, offset, len);
      data := file[offset..offset + len];
      CacheRead(s, offset, data);
      MakeRoom(s, len);
    }

    /** Adds a page to its stripe of the read cache. */
    method CacheRead(s: nat, offset: nat, data: Bytes)
      requires Valid() && s == offset % STRIPES && offset !in stripes[s].cache && Shows(view, offset, data)
      requires forall k :: k in lens ==> k != offset && Apart(k, lens[k], offset, |data|)
      modifies this`stripes, this`readBytes
      ensures Valid() && readBytes == old(readBytes) + |data|
    {
      hide SumAll, Sum, Shows;
      var lru := stripes[s].Insert(offset, data);
      InsertValid(stripes[s], offset, data);
      StripeSet(view, stripes, s, lru);
      StripeApart(stripes, lens, s, lru);
      SumAllSet(stripes, s, lru);
      SumWith(stripes[s].cache, Size, offset, data);
      SumAbsent(stripes[s].cache, Size, offset);
      stripes, readBytes := stripes[s := lru], readBytes + |data|;
    }

    /** Evicts from one stripe, when the cache is over its limit, until `len` bytes are gone or the stripe is empty. */
    method MakeRoom(s: nat, len: nat)
      requires Valid() && s < STRIPES
      modifies this`stripes, this`readBytes
      ensures Valid() && readBytes <= old(readBytes)
      ensures old(readBytes) > maxReadBytes ==> readBytes + len <= old(readBytes) || stripes[s].cache == map[]
    {
      hide SumAll, Sum, Lru.Pop, ReadsShow, ReadsApart;
      var removed: nat := 0;
      StripeValid(view, stripes, s);
      if readBytes > maxReadBytes {
        while removed < len
          invariant Coherent() && |stripes| == STRIPES && readBytes == old(readBytes) == SumAll(stripes) + removed
          decreases |stripes[s].cache|
        {
          StripeValid(view, stripes, s);
          PopMeaning(stripes[s]);
          var (r, lru) := stripes[s].Pop();
          StripeShrunk(view, stripes, lens, s, lru);
          SumAllSet(stripes, s, lru);
          if r.None? {
            stripes := stripes[s := lru];
            break;
          }
          SumWithout(stripes[s].cache, Size, r.value.0);
          stripes := stripes[s := lru];
          removed := removed + |r.value.1|;
        }
      }
      readBytes := readBytes - removed;
    }
  
    /** Takes a page out of the read cache. */
    method Uncache(offset: nat, len: nat) returns (existing: Option<Bytes>)
      requires Valid() && (offset in stripes[offset % STRIPES].cache ==>
          |stripes[offset % STRIPES].cache[offset]| == len)
      modifies this`readBytes, this`stripes
      ensures Valid() && existing == if offset in old(stripes)[offset % STRIPES].cache
        then Some(old(stripes)[offset % STRIPES].cache[offset]) else None
      ensures forall s, k :: 0 <= s < STRIPES && k in stripes[s].cache ==>
        k != offset && k in old(stripes)[s].cache && stripes[s].cache[k] == old(stripes)[s].cache[k]
      ensures existing.Some? ==> Shows(view, offset, existing.value)
    {
      hide SumAll, Sum, Shows, Apart, Lru.Remove;
      var s := offset % STRIPES;
      if offset !in stripes[s].cache {
        return None;
      }
      existing := Some(stripes[s].cache[offset]);
      var lru := stripes[s].Remove(offset);
      RemoveValid(stripes[s], offset);
      StripeShrunk(view, stripes, lens, s, lru);
      SumAllSet(stripes, s, lru);
      SumWithout(stripes[s].cache, Size, offset);
      stripes, readBytes := stripes[s := lru], readBytes - len;
    }

    /**
     Writes buffered pages back, when the buffer is over its limit, until `len` bytes are gone or all
     that is left is lent out.
     */
    method FlushSome(len: nat)
      requires Coherent() && readBytes == SumAll(stripes) && writeBytes == Sum(lens, Same) + len
      modifies this`file, this`writeBytes, this`buffer, this`lens
      ensures Coherent() && readBytes == SumAll(stripes) && writeBytes == Sum(lens, Same) + len
      ensures forall k :: k in lens ==> k in old(lens) && lens[k] == old(lens)[k]
    {
      hide SumAll, Sum, BufferShows, ReadsShow, FileShows, BufferApart, ReadsApart, Patch;
      if writeBytes > maxWriteBytes {
        var removed := 0;
        while removed < len
          invariant Coherent() && writeBytes == Sum(lens, Same) + len
          invariant forall k :: k in lens ==> k in old(lens) && lens[k] == old(lens)[k]
          decreases |lens|
        {
          BufferValid(view, buffer, lens);
          var r, rest := PopWritable(buffer);
          if r.None? {
            BufferSame(view, buffer, lens, rest);
            buffer := rest;
            break;
          }
          var (k, page) := r.value;
          removed := removed + |page|;
          WriteBack(k, page, rest, len);
        }
      }
    }

    /** Writes one page taken from the buffer to the file. */
    method WriteBack(k: nat, page: Bytes, rest: Lru<Option<Bytes>>, ghost len: nat)
      requires Coherent() && writeBytes == Sum(lens, Same) + len && k in lens && k in buffer.cache
        && buffer.cache[k] == Some(page)
      requires rest.Valid() && rest.cache == buffer.cache - {k}
      modifies this`file, this`writeBytes, this`buffer, this`lens
      ensures Coherent() && writeBytes == Sum(lens, Same) + len && lens == old(lens) - {k}
    {
      hide SumAll, Sum, BufferShows, ReadsShow, FileShows, BufferApart, ReadsApart, Patch;
      BufferValid(view, buffer, lens);
      Dropped(view, buffer, lens, rest, k, stripes);
      WrittenBack(view, file, lens, k, page);
      SumWithout(lens, Same, k);
      file, buffer, lens := Patch(file, k, page), rest, lens - {k};
      writeBytes := writeBytes - |page|;
    }

    /** Lends a page out for writing, zeroed only if neither cache holds it; it must come back through Return. */
    method Write(offset: nat, len: nat, overwrite: bool) returns (data: Bytes)
      requires Valid() && Askable(offset, len)
      requires forall s, k :: 0 <= s < STRIPES && k in stripes[s].cache && k != offset ==>
        Apart(k, |stripes[s].cache[k]|, offset, len)
      modifies this`file, this`readBytes, this`writeBytes, this`stripes, this`buffer, this`lens
      ensures Valid() && offset in buffer.cache && buffer.cache[offset].None? && lens[offset] == len == |data|
      ensures data == if overwrite && old(offset !in buffer.cache && offset !in stripes[offset % STRIPES].cache)
        then Zeros(len)
                      else view[offset..offset + len]
      ensures forall k :: k in lens && k != offset ==> k in old(lens) && lens[k] == old(lens)[k]
      ensures forall s, k :: 0 <= s < STRIPES && k in stripes[s].cache ==>
                k != offset && k in old(stripes)[s].cache && stripes[s].cache[k] == old(stripes)[s].cache[k]
    {
      hide SumAll, Sum, Shows, Apart, BufferShows;
      var existing := Uncache(offset, len);
      if offset in buffer.cache {
        LentOut(view, buffer, lens, offset);
        data := buffer.cache[offset].value;
        buffer := Lent(buffer, offset);
      } else {
        SameKeys(view, buffer, lens);
        writeBytes := writeBytes + len;
        FlushSome(len);
        SameKeys(view, buffer, lens);
        FileHas(view, file, lens, offset, len);
        if existing.Some? {
          data := existing.value;
          ShownBytes(view, offset, data);
        } else if overwrite {
          data := Zeros(len);
        } else {
          data := file[offset..offset + len];
        }
        Buffered(view, file, stripes, lens, offset, len);
        LentIn(view, buffer, lens, offset, data);
        buffer, lens := Lent(buffer.Insert(offset, Some(data)), offset), lens[offset := len];
      }
    }

    /** Gives a page back; its bytes are now what readers see. */
    method Return(offset: nat, data: Bytes)
      requires Valid() && offset in buffer.cache && buffer.cache[offset].None? && lens[offset] == |data|
        && offset + |data| <= |view|
      modifies this`buffer, this`view
      ensures Valid() && view == Patch(old(view), offset, data)
        && buffer.cache == old(buffer.cache)[offset := Some(data)]
    {
      hide SumAll, Sum, ReadsShow, BufferApart, ReadsApart, Patch;
      ReadsShowStill(view, stripes, lens, offset, data);
      Returned(view, buffer, lens, offset, data);
      FileOff(view, file, lens, offset, data);
      buffer := buffer.Touch(offset).(cache := buffer.cache[offset := Some(data)]);
      view := Patch(view, offset, data);
    }

    /**
     A page asked for to be overwritten, given back and asked for again comes with the bytes it was
     given back with.
     */
    method WriteTwice(offset: nat, written: Bytes) returns (again: Bytes)
      requires Valid() && Askable(offset, |written|)
      requires forall s, k :: 0 <= s < STRIPES && k in stripes[s].cache && k != offset ==>
                 Apart(k, |stripes[s].cache[k]|, offset, |written|)
      modifies this
      ensures Valid() && again == written
    {
      hide Apart, Coherent, SumAll, Sum, Patch;
      var first := Write(offset, |written|, true);
      assert offset + |written| <= |view|;
      Return(offset, written);
      PatchedPart(old(view), offset, written);
      again := Write(offset, |written|, true);
    }

    /** Gives up what was written to a page; readers see the file again. */
    method CancelPendingWrite(offset: nat)
      requires Valid() && (offset in buffer.cache ==> buffer.cache[offset].Some?)
      modifies this`writeBytes, this`buffer, this`view, this`lens
      ensures Valid() && buffer.cache == old(buffer.cache) - {offset}
      ensures offset !in old(lens) ==> view == old(view)
      ensures offset in old(lens) ==>
        offset + old(lens)[offset] <= |file| == |old(view)|
          && view == Patch(old(view), offset, file[offset..offset + old(lens)[offset]])
    {
      hide SumAll, Sum, ReadsShow, BufferApart, ReadsApart, Patch, Lru.Remove;
      RemoveValid(buffer, offset);
      SameKeys(view, buffer, lens);
      if offset in buffer.cache {
        var page := buffer.cache[offset].value;
        ghost var data := file[offset..offset + |page|];
        var rest := buffer.Remove(offset);
        ReadsShowStill(view, stripes, lens, offset, data);
        Cancelled(view, buffer, lens, rest, offset, data);
        Dropped(view, buffer, lens, rest, offset, stripes);
        FileAgain(view, file, lens, offset, data);
        SumWithout(lens, Same, offset);
        writeBytes, buffer := writeBytes - |page|, rest;
        view, lens := Patch(view, offset, data), lens - {offset};
      }
    }

    method InvalidateCache(offset: nat, len: nat)
      requires Valid() && (offset in stripes[offset % STRIPES].cache ==>
          |stripes[offset % STRIPES].cache[offset]| == len)
      modifies this`readBytes, this`stripes
      ensures Valid() && offset !in stripes[offset % STRIPES].cache
    {
      var existing := Uncache(offset, len);
    }

    /** Writes every buffered page back, then keeps what fits in the read cache. */
    method FlushWriteBuffer()
      requires Valid() && forall k :: k in buffer.cache ==> buffer.cache[k].Some?
      modifies this`file, this`readBytes, this`writeBytes, this`stripes, this`buffer, this`lens
      ensures Valid() && file == view && buffer.cache == map[]
    {
      hide ReadsShow, ReadsApart, SumAll, Sum, Shows, BufferApart;
      WriteAll();
      NotCached(stripes, lens, view, buffer);
      KeepFlushed();
      writeBytes, buffer, lens := 0, Lru(map[], {}, []), map[];
      NothingBuffered(view, stripes);
    }

    method WriteAll()
      requires Coherent() && forall k :: k in buffer.cache ==> buffer.cache[k].Some?
      modifies this`file
      ensures Coherent() && file == view
    {
      hide ReadsShow, ReadsApart, BufferApart, FileShows, Patch;
      BufferValid(view, buffer, lens);
      hide BufferShows;
      var todo := buffer.cache;
      ghost var rest := lens;
      while todo != map[]
        invariant forall k :: k in rest <==> k in todo
        invariant forall k :: k in todo ==> k in buffer.cache && todo[k] == buffer.cache[k] && rest[k] == lens[k]
        invariant FileShows(view, file, rest) && FileShows(view, file, lens)
        decreases |todo|
      {
        var k :| k in todo;
        WrittenBack(view, file, rest, k, todo[k].value);
        WrittenBack(view, file, lens, k, todo[k].value);
        file := Patch(file, k, todo[k].value);
        todo, rest := todo - {k}, rest - {k};
      }
      NoneLeft(view, file, rest);
    }

    /** The second half of a flush: into the read cache, page by page, until one does not fit. */
    method KeepFlushed()
      requires |stripes| == STRIPES && ReadsShow(view, stripes) && readBytes == SumAll(stripes)
      requires forall k :: k in buffer.cache ==>
        buffer.cache[k].Some? && Shows(view, k, buffer.cache[k].value) && k !in stripes[k % STRIPES].cache
      modifies this`readBytes, this`stripes
      ensures ReadsShow(view, stripes) && readBytes == SumAll(stripes)
      ensures readBytes <= old(readBytes) || readBytes <= maxReadBytes
    {
      hide SumAll, Sum, Shows, ReadsShow;
      var todo := buffer.cache;
      while todo != map[]
        invariant forall k :: k in todo ==> k in buffer.cache && todo[k] == buffer.cache[k]
        invariant |stripes| == STRIPES && ReadsShow(view, stripes) && readBytes == SumAll(stripes)
        invariant forall k :: k in todo ==> k !in stripes[k % STRIPES].cache
        invariant readBytes <= old(readBytes) || readBytes <= maxReadBytes
        decreases |todo|
      {
        var k :| k in todo;
        var page := todo[k].value;
        todo := todo - {k};
        if readBytes + |page| > maxReadBytes {
          break;
        }
        KeepOne(k, page);
      }
    }

    method KeepOne(k: nat, page: Bytes)
      requires ReadsShow(view, stripes) && readBytes == SumAll(stripes) && Shows(view, k, page)
        && k !in stripes[k % STRIPES].cache
      modifies this`readBytes, this`stripes
      ensures |stripes| == STRIPES && ReadsShow(view, stripes)
        && readBytes == old(readBytes) + |page| == SumAll(stripes)
      ensures forall j :: j != k ==> (j in stripes[j % STRIPES].cache <==> j in old(stripes)[j % STRIPES].cache)
    {
      hide SumAll, Sum, Shows;
      var s := k % STRIPES;
      var lru := stripes[s].Insert(k, page);
      InsertValid(stripes[s], k, page);
      StripeSet(view, stripes, s, lru);
      SumAllSet(stripes, s, lru);
      SumWith(stripes[s].cache, Size, k, page);
      SumAbsent(stripes[s].cache, Size, k);
      stripes, readBytes := stripes[s := lru], readBytes + |page|;
    }

    /** Empties the read cache. */
    method InvalidateCacheAll()
      requires Valid()
      modifies this`readBytes, this`stripes
      ensures Valid() && readBytes == 0 && forall s :: 0 <= s < STRIPES ==> stripes[s].cache == map[]
    {
      hide SumAll, Sum, ReadsApart;
      for s := 0 to STRIPES
        invariant Valid() && forall i :: 0 <= i < s ==> stripes[i].cache == map[]
      {
        EmptyStripe(s);
      }
      EmptyStripes(stripes);
    }

    method EmptyStripe(s: nat)
      requires Valid() && s < STRIPES
      modifies this`readBytes, this`stripes
      ensures Valid() && stripes[s].cache == map[] && forall i :: 0 <= i < STRIPES && i != s ==>
        stripes[i] == old(stripes)[i]
    {
      hide SumAll, Sum, ReadsShow, ReadsApart, Lru.Pop;
      StripeValid(view, stripes, s);
      while true
        invariant Valid() && |stripes| == STRIPES && forall i :: 0 <= i < STRIPES && i != s ==>
          stripes[i] == old(stripes)[i]
        decreases |stripes[s].cache|
      {
        StripeValid(view, stripes, s);
        PopMeaning(stripes[s]);
        var (r, lru) := stripes[s].Pop();
        StripeShrunk(view, stripes, lens, s, lru);
        SumAllSet(stripes, s, lru);
        if r.None? {
          stripes := stripes[s := lru];
          return;
        }
        SumWithout(stripes[s].cache, Size, r.value.0);
        stripes, readBytes := stripes[s := lru], readBytes - |r.value.1|;
      }
    }

    /** Cuts the file off or extends it with zeros; no buffered page may lie past its new end. */
    method Resize(len: nat)
      requires Valid() && forall k :: k in lens ==> k + lens[k] <= len
      modifies this`file, this`readBytes, this`stripes, this`view
      ensures Valid() && readBytes == 0 && view == Resized(old(view), len) && file == Resized(old(file), len)
    {
      InvalidateCacheAll();
      hide SumAll, Sum;
      ResizedShows(view, file, buffer, lens, stripes, len);
      file, view := Resized(file, len), Resized(view, len);
    }
  }

  function Resized(s: Bytes, len: nat): (r: Bytes)
    ensures |r| == len
  {
    if len <= |s| then s[..len] else s + Zeros(len - |s|)
  }

  lemma ResizedShows(view: Bytes, file: Bytes, buffer: Lru<Option<Bytes>>, lens: map<nat, nat>,
                     stripes: seq<Lru<Bytes>>, len: nat)
    requires BufferShows(view, buffer, lens) && FileShows(view, file, lens) && forall k :: k in lens ==>
      k + lens[k] <= len
    requires ReadsShow(view, stripes) && forall s :: 0 <= s < STRIPES ==> stripes[s].cache == map[]
    ensures BufferShows(Resized(view, len), buffer, lens) && FileShows(Resized(view, len), Resized(file, len), lens)
      && ReadsShow(Resized(view, len), stripes)
  {
    var v := Resized(view, len);
    forall k | k in buffer.cache && buffer.cache[k].Some?
      ensures Shows(v, k, buffer.cache[k].value)
    {
      var page := buffer.cache[k].value;
      assert v[k..k + |page|] == view[k..k + |page|];
    }
  }

  lemma NotCached(stripes: seq<Lru<Bytes>>, lens: map<nat, nat>, view: Bytes, buffer: Lru<Option<Bytes>>)
    requires ReadsShow(view, stripes) && ReadsApart(stripes, lens) && BufferShows(view, buffer, lens)
    ensures |stripes| == STRIPES && forall k :: k in buffer.cache ==> k !in stripes[k % STRIPES].cache
  {
    hide Shows, Apart;
    SameKeys(view, buffer, lens);
  }

  lemma NothingBuffered(view: Bytes, stripes: seq<Lru<Bytes>>)
    ensures var none: map<nat, nat> := map[];
      BufferShows(view, Lru(map[], {}, []), none) && BufferApart(none) && ReadsApart(stripes, none)
        && Sum(none, Same) == 0 && FileShows(view, view, none)
  {
  }

  lemma NoneLeft(view: Bytes, file: Bytes, rest: map<nat, nat>)
    requires FileShows(view, file, rest) && forall k :: k !in rest
    ensures file == view
  {
    assert forall i :: 0 <= i < |view| ==> !Covered(rest, i);
  }

  lemma BufferValid(view: Bytes, buffer: Lru<Option<Bytes>>, lens: map<nat, nat>)
    requires BufferShows(view, buffer, lens)
    ensures buffer.Valid() && forall k :: k in lens <==> k in buffer.cache
    ensures forall k :: k in buffer.cache && buffer.cache[k].Some? ==>
      |buffer.cache[k].value| == lens[k] && Shows(view, k, buffer.cache[k].value)
  {
    SameKeys(view, buffer, lens);
  }

  lemma BufferSame(view: Bytes, buffer: Lru<Option<Bytes>>, lens: map<nat, nat>, rest: Lru<Option<Bytes>>)
    requires BufferShows(view, buffer, lens) && rest.Valid() && rest.cache == buffer.cache
    ensures BufferShows(view, rest, lens)
  {
    hide Shows;
  }

  /** One buffered page less. */
  lemma Dropped(view: Bytes, buffer: Lru<Option<Bytes>>, lens: map<nat, nat>, rest: Lru<Option<Bytes>>, k: nat,
                stripes: seq<Lru<Bytes>>)
    requires BufferShows(view, buffer, lens) && BufferApart(lens) && ReadsApart(stripes, lens) && rest.Valid()
      && rest.cache == buffer.cache - {k}
    ensures BufferShows(view, rest, lens - {k}) && BufferApart(lens - {k}) && ReadsApart(stripes, lens - {k})
  {
    hide Shows, Apart;
    assert (lens - {k}).Keys == rest.cache.Keys;
  }

  /** A page lent out: its entry stays, empty. */
  function Lent(buffer: Lru<Option<Bytes>>, offset: nat): Lru<Option<Bytes>>
  {
    buffer.Touch(offset).(cache := buffer.cache[offset := None])
  }

  lemma LentOut(view: Bytes, buffer: Lru<Option<Bytes>>, lens: map<nat, nat>, offset: nat)
    requires BufferShows(view, buffer, lens) && offset in buffer.cache && buffer.cache[offset].Some?
    ensures BufferShows(view, Lent(buffer, offset), lens) && offset in lens
    ensures |buffer.cache[offset].value| == lens[offset] && offset + lens[offset] <= |view|
      && buffer.cache[offset].value == view[offset..offset + lens[offset]]
  {
  }

  lemma LentIn(view: Bytes, buffer: Lru<Option<Bytes>>, lens: map<nat, nat>, offset: nat, data: Bytes)
    requires BufferShows(view, buffer, lens) && offset !in buffer.cache && offset + |data| <= |view|
    ensures BufferShows(view, Lent(buffer.Insert(offset, Some(data)), offset), lens[offset := |data|])
  {
    hide Shows;
    InsertValid(buffer, offset, Some(data));
  }

  lemma SameKeys(view: Bytes, buffer: Lru<Option<Bytes>>, lens: map<nat, nat>)
    requires BufferShows(view, buffer, lens)
    ensures forall k :: k in lens <==> k in buffer.cache
  {
    hide Shows;
    assert forall k :: k in lens.Keys <==> k in buffer.cache.Keys;
  }

  lemma ShownBytes(view: Bytes, k: nat, data: Bytes)
    requires Shows(view, k, data)
    ensures k + |data| <= |view| && data == view[k..k + |data|]
  {
  }

  lemma StripeValid(view: Bytes, stripes: seq<Lru<Bytes>>, s: nat)
    requires ReadsShow(view, stripes) && s < STRIPES
    ensures |stripes| == STRIPES && stripes[s].Valid()
  {
  }

  /** The buffer after a page came back. */
  lemma Returned(view: Bytes, buffer: Lru<Option<Bytes>>, lens: map<nat, nat>, offset: nat, data: Bytes)
    requires BufferShows(view, buffer, lens) && BufferApart(lens) && offset in lens && lens[offset] == |data|
      && offset + |data| <= |view|
    ensures BufferShows(Patch(view, offset, data), buffer.Touch(offset).(cache := buffer.cache[offset := Some(data)]),
                        lens)
  {
    hide Shows, Patch, BufferApart;
    var r := buffer.Touch(offset).(cache := buffer.cache[offset := Some(data)]);
    assert r.cache.Keys == buffer.cache.Keys;
    Patched(view, offset, data);
    forall k | k in r.cache && r.cache[k].Some?
      ensures |r.cache[k].value| == lens[k] && Shows(Patch(view, offset, data), k, r.cache[k].value)
    {
      if k != offset {
        BufferShowsStill(view, buffer, lens, offset, data, k);
      }
    }
  }

  lemma PatchedPart(view: Bytes, offset: nat, data: Bytes)
    requires offset + |data| <= |view|
    ensures Patch(view, offset, data)[offset..offset + |data|] == data
  {
  }

  lemma Patched(view: Bytes, offset: nat, data: Bytes)
    requires offset + |data| <= |view|
    ensures |Patch(view, offset, data)| == |view| && Shows(Patch(view, offset, data), offset, data)
  {
  }

  lemma FileOff(view: Bytes, file: Bytes, lens: map<nat, nat>, offset: nat, data: Bytes)
    requires FileShows(view, file, lens) && offset in lens && lens[offset] == |data| && offset + |data| <= |view|
    ensures FileShows(Patch(view, offset, data), file, lens)
  {
    forall i | 0 <= i < |view| && !Covered(lens, i)
      ensures Patch(view, offset, data)[i] == file[i]
    {
      assert !(offset <= i < offset + lens[offset]);
    }
  }

  lemma Cancelled(view: Bytes, buffer: Lru<Option<Bytes>>, lens: map<nat, nat>, rest: Lru<Option<Bytes>>, offset: nat,
                  data: Bytes)
    requires BufferShows(view, buffer, lens) && BufferApart(lens) && offset in lens && lens[offset] == |data|
      && offset + |data| <= |view|
    requires rest.Valid() && rest.cache == buffer.cache - {offset}
    ensures BufferShows(Patch(view, offset, data), rest, lens - {offset})
  {
    hide Shows, Patch, BufferApart;
    assert (lens - {offset}).Keys == rest.cache.Keys;
    Patched(view, offset, data);
    forall k | k in rest.cache && rest.cache[k].Some?
      ensures |rest.cache[k].value| == lens[k] && Shows(Patch(view, offset, data), k, rest.cache[k].value)
    {
      BufferShowsStill(view, buffer, lens, offset, data, k);
    }
  }

  lemma FileAgain(view: Bytes, file: Bytes, lens: map<nat, nat>, offset: nat, data: Bytes)
    requires FileShows(view, file, lens) && offset in lens && lens[offset] == |data| && offset + |data| <= |view|
      && data == file[offset..offset + |data|]
    ensures FileShows(Patch(view, offset, data), file, lens - {offset})
  {
    var r := Patch(view, offset, data);
    forall i | 0 <= i < |view| && !Covered(lens - {offset}, i)
      ensures r[i] == file[i]
    {
      if !(offset <= i < offset + |data|) {
        CoveredStill(lens, offset, i);
      }
    }
  }
}
