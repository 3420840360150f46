/**
 The commit header: two slots and one atomically written byte that names the primary. A commit
 writes the secondary slot and then swaps; a crash keeps any mixture of what was not yet flushed.
 */
module Header {
  import opened Bits

  /** A tree root, standing for the whole tree it reaches. */
  type Tree = nat

  datatype Commit = Commit(txn: nat, user: Tree, sys: Tree)

  /** An ideal checksum: it names the content it was computed from, or nothing when it is itself torn. */
  datatype Checksum = Of(body: Commit) | Garbage

  datatype Slot = Slot(body: Commit, sum: Checksum)

  datatype God = God(swapped: bool, recovery: bool, twoPhase: bool)

  /** The header as it is on disk. */
  datatype Image = Image(god: God, slot0: Slot, slot1: Slot)

  datatype Result<T> = Ok(value: T) | Corrupt

  predicate Corrupted(s: Slot)
  {
    s.sum != Of(s.body)
  }

  function Seal(c: Commit): Slot
  {
    Slot(c, Of(c))
  }

  /** The header as it is in memory. */
  datatype Header = Header(god: God, slot0: Commit, slot1: Commit) {
    function Primary(): Commit {
      if god.swapped then slot1 else slot0
    }

    function Secondary(): Commit {
      if god.swapped then slot0 else slot1
    }

    function Swap(): Header {
      this.(god := god.(swapped := !god.swapped))
    }

    function WithSecondary(c: Commit): Header {
      if god.swapped then this.(slot0 := c) else this.(slot1 := c)
    }

    /** Writing a header computes fresh checksums for both slots, whatever they hold. */
    function ToImage(): Image {
      Image(god, Seal(slot0), Seal(slot1))
    }
  }

  function FromImage(i: Image): Header
  {
    Header(i.god, i.slot0.body, i.slot1.body)
  }

  function PrimaryCorrupted(i: Image): bool
  {
    Corrupted(if i.god.swapped then i.slot1 else i.slot0)
  }

  function SecondaryCorrupted(i: Image): bool
  {
    Corrupted(if i.god.swapped then i.slot0 else i.slot1)
  }

  /** Which slot a repair starts from. */
  function Pick(h: Header, primaryCorrupted: bool, secondaryCorrupted: bool): Result<Header>
  {
    if h.god.twoPhase then
      if primaryCorrupted then Corrupt else Ok(h)
    else if primaryCorrupted then
      if secondaryCorrupted then Corrupt else Ok(h.Swap())
    else if h.Secondary().txn > h.Primary().txn && !secondaryCorrupted then Ok(h.Swap())
    else Ok(h)
  }

  predicate Verifies(c: Commit, ok: set<Tree>)
  {
    c.user in ok && c.sys in ok
  }

  /** Falls back to the other slot when the trees of the picked one do not verify. */
  function Repair(h: Header, ok: set<Tree>): Result<Header>
  {
    if Verifies(h.Primary(), ok) then Ok(h)
    else if h.god.twoPhase then Corrupt
    else if Verifies(h.Swap().Primary(), ok) then Ok(h.Swap())
    else Corrupt
  }

  /** Opening: `quick` says that the primary's tree holds a usable allocator state, so that no repair is done. */
  function Open(i: Image, ok: set<Tree>, quick: bool): Result<Header>
  {
    var picked := if i.god.recovery then Pick(FromImage(i), PrimaryCorrupted(i), SecondaryCorrupted(i))
      else Ok(FromImage(i));
    if picked.Corrupt? then Corrupt
    else if picked.value.god.twoPhase && quick then picked
    else Repair(picked.value, ok)
  }

  // ----- crashes -----

  /** A torn slot takes each field from one of the versions; a checksum torn between two of them matches nothing. */
  ghost predicate TornSlot(s: Slot, versions: seq<Slot>)
  {
    && (exists k :: 0 <= k < |versions| && s.body.txn == versions[k].body.txn)
    && (exists k :: 0 <= k < |versions| && s.body.user == versions[k].body.user)
    && (exists k :: 0 <= k < |versions| && s.body.sys == versions[k].body.sys)
    && (s.sum == Garbage || exists k :: 0 <= k < |versions| && s.sum == versions[k].sum)
    && (s.sum == Garbage ==> exists j, k :: 0 <= j < k < |versions| && versions[j].sum != versions[k].sum)
  }

  function Slots0(images: seq<Image>): seq<Slot>
  {
    seq(|images|, i requires 0 <= i < |images| => images[i].slot0)
  }

  function Slots1(images: seq<Image>): seq<Slot>
  {
    seq(|images|, i requires 0 <= i < |images| => images[i].slot1)
  }

  /** What may be on disk after a crash with the given versions written since the last flush, the flushed one first. */
  ghost predicate AfterCrash(i: Image, versions: seq<Image>)
  {
    && (exists k :: 0 <= k < |versions| && i.god == versions[k].god)
    && TornSlot(i.slot0, Slots0(versions))
    && TornSlot(i.slot1, Slots1(versions))
  }

  /** A slot written with the same content each time comes back whole. */
  lemma SameSlot(s: Slot, versions: seq<Slot>, c: Commit)
    requires TornSlot(s, versions) && forall k :: 0 <= k < |versions| ==> versions[k] == Seal(c)
    ensures s == Seal(c)
  {
  }

  /** A torn slot with a matching checksum is the old content or the new one. */
  lemma TornIsDetected(s: Slot, versions: seq<Slot>, a: Commit, b: Commit)
    requires TornSlot(s, versions) && forall k :: 0 <= k < |versions| ==>
      versions[k] == Seal(a) || versions[k] == Seal(b)
    ensures !Corrupted(s) ==> s.body == a || s.body == b
  {
  }

  // ----- the machine -----

  /** The flushed header, the unflushed versions written over it, and the commit being made. */
  datatype Machine = Machine(header: Header, unsynced: seq<Image>, last: Commit, flight: Option<Commit>, synced: bool,
                             twoPhase: bool)
  {
    ghost predicate AtRest() {
      && unsynced == [] && flight.None? && header.Primary() == last && header.god.recovery
    }

    function Versions(): seq<Image> {
      [header.ToImage()] + unsynced
    }

    /** The trees a crash cannot have harmed: those of the last commit, and of the new one once flushed. */
    ghost predicate Intact(ok: set<Tree>) {
      Verifies(last, ok) && (synced && flight.Some? ==> Verifies(flight.value, ok))
    }
  }

  /** Nothing can make the old secondary look like the newest commit. */
  ghost predicate Harmless(h: Header, c: Commit)
  {
    h.Secondary().txn < h.Primary().txn || h.Secondary() == h.Primary() || h.Secondary() == c
  }

  /** A commit may start: the old secondary is harmless, or never looked at because both commits are two-phase. */
  ghost predicate MayStart(h: Header, c: Commit, twoPhase: bool)
  {
    c.txn > h.Primary().txn && (Harmless(h, c) || (h.god.twoPhase && twoPhase))
  }

  datatype Stage = Rest | Written | Flushed | Swapped

  ghost predicate At(m: Machine, stage: Stage)
  {
    && m.header.god.recovery
    && match stage
       case Rest => m.AtRest() && !m.synced && (Harmless(m.header, m.last) || m.header.god.twoPhase)
       case Written =>
         && m.flight.Some? && m.header.Primary() == m.last && !m.synced
           && MayStart(m.header, m.flight.value, m.twoPhase)
         && m.unsynced == [m.header.WithSecondary(m.flight.value).ToImage()]
       case Flushed =>
         && m.flight.Some? && m.header.Primary() == m.last && m.synced && m.flight.value.txn > m.last.txn && m.twoPhase
         && m.header.Secondary() == m.flight.value && m.unsynced == []
       case Swapped =>
         && m.flight.Some? && m.header.Primary() == m.last && m.flight.value.txn > m.last.txn && m.synced == m.twoPhase
         && Harmless(m.header, m.flight.value)
         && (m.twoPhase ==> m.header.Secondary() == m.flight.value)
         && (var h := m.header.WithSecondary(m.flight.value);
             var g := h.Swap().(god := God(!h.god.swapped, h.god.recovery, m.twoPhase));
             m.unsynced == if m.twoPhase then [g.ToImage()] else [h.ToImage(), g.ToImage()])
  }

  ghost predicate Recovers(m: Machine, r: Result<Header>)
  {
    r.Ok? && (r.value.Primary() == m.last || (m.flight.Some? && r.value.Primary() == m.flight.value))
  }

  ghost function OldPrimary(m: Machine, i: Image): Slot
  {
    if m.header.god.swapped then i.slot1 else i.slot0
  }

  ghost function OldSecondary(m: Machine, i: Image): Slot
  {
    if m.header.god.swapped then i.slot0 else i.slot1
  }

  lemma OldPrimaryWhole(m: Machine, stage: Stage, i: Image)
    requires At(m, stage) && AfterCrash(i, m.Versions())
    ensures OldPrimary(m, i) == Seal(m.last)
  {
    hide TornSlot;
    var vs := m.Versions();
    SameSlot(OldPrimary(m, i), if m.header.god.swapped then Slots1(vs) else Slots0(vs), m.last);
  }

  lemma OldSecondarySeen(m: Machine, stage: Stage, i: Image)
    requires At(m, stage) && AfterCrash(i, m.Versions())
    ensures var s := OldSecondary(m, i);
      !Corrupted(s) ==> s.body == m.header.Secondary() || (m.flight.Some? && s.body == m.flight.value)
    ensures m.synced && m.flight.Some? ==> OldSecondary(m, i) == Seal(m.flight.value)
  {
    hide TornSlot;
    var vs := m.Versions();
    var s := if m.header.god.swapped then Slots0(vs) else Slots1(vs);
    if m.flight.None? {
      SameSlot(OldSecondary(m, i), s, m.header.Secondary());
    } else if m.synced {
      SameSlot(OldSecondary(m, i), s, m.flight.value);
    } else {
      TornIsDetected(OldSecondary(m, i), s, m.header.Secondary(), m.flight.value);
    }
  }

  /** The old primary is whole; the other slot is the old content, the new one, or seen to be torn. */
  lemma CrashSlots(m: Machine, stage: Stage, i: Image)
    requires At(m, stage) && AfterCrash(i, m.Versions())
    ensures OldPrimary(m, i) == Seal(m.last)
    ensures var s := OldSecondary(m, i);
      !Corrupted(s) ==> s.body == m.header.Secondary() || (m.flight.Some? && s.body == m.flight.value)
    ensures m.synced && m.flight.Some? ==> OldSecondary(m, i) == Seal(m.flight.value)
    ensures i.god == m.header.god || (stage.Swapped?
        && i.god == God(!m.header.god.swapped, m.header.god.recovery, m.twoPhase))
  {
    hide TornSlot;
    OldPrimaryWhole(m, stage, i);
    OldSecondarySeen(m, stage, i);
  }

  /** At every moment of a commit, every crash outcome opens to the last commit or to the one in flight. */
  lemma CrashRecovers(m: Machine, stage: Stage, i: Image, ok: set<Tree>, quick: bool)
    requires At(m, stage)
    requires AfterCrash(i, m.Versions()) && m.Intact(ok)
    ensures Recovers(m, Open(i, ok, quick))
  {
    CrashSlots(m, stage, i);
    hide AfterCrash;
  }

  /** The header a commit ends with. */
  function Target(m: Machine): Header
    requires m.flight.Some?
  {
    var h := m.header.WithSecondary(m.flight.value);
    h.Swap().(god := God(!h.god.swapped, h.god.recovery, m.twoPhase))
  }

  // ----- when the old secondary is not harmless -----

  ghost function OnePhase(h: Header, c: Commit): Machine
  {
    var m := Machine(h, [], h.Primary(), Some(c), false, false);
    m.(unsynced := [h.WithSecondary(c).ToImage(), Target(m).ToImage()])
  }

  ghost predicate CrashSafe(m: Machine)
  {
    forall i, ok, quick :: AfterCrash(i, m.Versions()) && m.Intact(ok) ==> Recovers(m, Open(i, ok, quick))
  }

  /** A one-phase commit survives every crash exactly when the old secondary is harmless. */
  lemma OnePhaseSafeIff(h: Header, c: Commit)
    requires h.god.recovery && c.txn > h.Primary().txn
    ensures CrashSafe(OnePhase(h, c)) <==> Harmless(h, c)
  {
    var m := OnePhase(h, c);
    if Harmless(h, c) {
      assert At(m, Swapped);
      forall i, ok, quick | AfterCrash(i, m.Versions()) && m.Intact(ok)
        ensures Recovers(m, Open(i, ok, quick))
      {
        CrashRecovers(m, Swapped, i, ok, quick);
      }
    } else {
      OnlyTheGodByte(h, c);
    }
  }

  /** The crash that writes nothing but the byte naming the primary. */
  lemma OnlyTheGodByte(h: Header, c: Commit)
    requires h.god.recovery && c.txn > h.Primary().txn && !Harmless(h, c)
    ensures !CrashSafe(OnePhase(h, c))
  {
    var m := OnePhase(h, c);
    var i := h.ToImage().(god := Target(m).god);
    var ok := {h.slot0.user, h.slot0.sys, h.slot1.user, h.slot1.sys};
    var vs := m.Versions();
    assert vs[0] == h.ToImage() && vs[2] == Target(m).ToImage();
    assert Slots0(vs)[0] == h.ToImage().slot0 && Slots1(vs)[0] == h.ToImage().slot1;
    assert i.god == vs[2].god;
    assert AfterCrash(i, vs);
    assert m.Intact(ok);
    assert !Recovers(m, Open(i, ok, false));
  }

  /**
   Opening a crashed file rewrites its header, and with it seals a torn slot. Should a second crash
   come before the slot is overwritten, the sealed slot wins exactly when it looks newer and verifies.
   */
  lemma SecondCrashIff(h: Header, ok: set<Tree>, quick: bool)
    requires h.god.recovery && !h.god.twoPhase && Verifies(h.Primary(), ok)
    ensures Open(h.ToImage(), ok, quick).Ok?
    ensures Open(h.ToImage(), ok, quick).value.Primary() == h.Primary()
      <==> !(h.Secondary().txn > h.Primary().txn && Verifies(h.Secondary(), ok)) || h.Secondary() == h.Primary()
  {
  }

  /** After commit 5 a one-phase commit 6 is torn; opening seals the torn slot; the next crash brings it back. */
  lemma TornSlotComesBack()
    ensures
      var h := Header(God(false, true, true), Commit(5, 50, 51), Commit(4, 40, 41));
      var torn := Image(h.god, Seal(Commit(5, 50, 51)), Slot(Commit(6, 40, 61), Of(Commit(4, 40, 41))));
      var opened1 := Header(h.god, Commit(5, 50, 51), Commit(6, 40, 61));
      var again := OnePhase(opened1, Commit(7, 62, 63));
      var second := opened1.ToImage().(god := God(true, true, false));
      && At(OnePhase(h, Commit(6, 60, 61)), Swapped)
      && AfterCrash(torn, OnePhase(h, Commit(6, 60, 61)).Versions())
      && Open(torn, {50, 51}, true) == Ok(opened1)
      && AfterCrash(second, again.Versions()) && again.Intact({50, 51, 40, 61})
      && Open(second, {50, 51, 40, 61}, true).Ok?
      && Open(second, {50, 51, 40, 61}, true).value.Primary() == Commit(6, 40, 61)
  {
    var h := Header(God(false, true, true), Commit(5, 50, 51), Commit(4, 40, 41));
    var torn := Image(h.god, Seal(Commit(5, 50, 51)), Slot(Commit(6, 40, 61), Of(Commit(4, 40, 41))));
    var vs := OnePhase(h, Commit(6, 60, 61)).Versions();
    var s0, s1 := Slots0(vs), Slots1(vs);
    assert vs[0].god == torn.god;
    assert s0[0] == Seal(Commit(5, 50, 51)) && s1[0] == Seal(Commit(4, 40, 41)) && s1[1] == Seal(Commit(6, 60, 61));
    assert TornSlot(torn.slot0, s0) && TornSlot(torn.slot1, s1);
    var opened1 := Header(h.god, Commit(5, 50, 51), Commit(6, 40, 61));
    var second := opened1.ToImage().(god := God(true, true, false));
    var ws := OnePhase(opened1, Commit(7, 62, 63)).Versions();
    assert ws[2].god == second.god;
    assert Slots0(ws)[0] == second.slot0 && Slots1(ws)[0] == second.slot1;
  }

  // ----- the code that runs these steps -----

  class DatabaseHeader {
    var header: Header

    constructor (h: Header)
      ensures header == h
    {
      header := h;
    }

    method SwapPrimarySlot()
      modifies this
      ensures header.Primary() == old(header.Secondary()) && header.Secondary() == old(header.Primary())
      ensures header.god.twoPhase == old(header.god.twoPhase) && header.god.recovery == old(header.god.recovery)
      ensures header == old(header).Swap()
    {
      header := header.(god := header.god.(swapped := !header.god.swapped));
    }

    /** True when the original primary was kept. On an error nothing is changed. */
    method PickPrimaryForRepair(primaryCorrupted: bool, secondaryCorrupted: bool) returns (r: Result<bool>)
      modifies this
      ensures var p := Pick(old(header), primaryCorrupted, secondaryCorrupted);
        if p.Ok? then header == p.value && r == Ok(header == old(header)) else r == Corrupt && header == old(header)
    {
      if header.god.twoPhase {
        if primaryCorrupted {
          return Corrupt;
        }
        return Ok(true);
      }
      if primaryCorrupted {
        if secondaryCorrupted {
          return Corrupt;
        }
        SwapPrimarySlot();
        return Ok(false);
      }
      var secondaryNewer := header.Secondary().txn > header.Primary().txn;
      if secondaryNewer && !secondaryCorrupted {
        SwapPrimarySlot();
        return Ok(false);
      }
      return Ok(true);
    }
  }

  /** The header part of the memory manager, over a file whose unflushed writes may or may not survive. */
  class TransactionalMemory {
    var header: Header
    var file: Image
    var unsynced: seq<Image>

    method WriteHeader(h: Header)
      modifies this`unsynced
      ensures unsynced == old(unsynced) + [h.ToImage()]
    {
      unsynced := unsynced + [h.ToImage()];
    }

    method FlushFile()
      modifies this`unsynced, this`file
      ensures unsynced == [] && file == (if old(unsynced) == [] then old(file) else old(unsynced)[|old(unsynced)| - 1])
    {
      if unsynced != [] {
        file := unsynced[|unsynced| - 1];
      }
      unsynced := [];
    }

    /** A commit; `moments` are its states between any two writes or flushes, each of them safe against a crash. */
    method CommitInner(c: Commit, twoPhase: bool) returns (ghost moments: seq<Machine>)
      requires file == header.ToImage() && unsynced == [] && header.god.recovery && MayStart(header, c, twoPhase)
      requires Harmless(header, header.Primary()) || header.god.twoPhase
      modifies this
      ensures header.Primary() == c && header.Secondary() == old(header).Primary() && header.god.twoPhase == twoPhase
        && header.god.recovery
      ensures file == header.ToImage() && unsynced == []
      ensures |moments| >= 4 && moments[0].last == old(header).Primary() && moments[|moments| - 1].last == c
      ensures forall k :: 0 <= k < |moments| ==>
        CrashSafe(moments[k]) && (moments[k].flight == Some(c) || moments[k].flight.None?)
    {
      hide CrashSafe;
      ghost var m := Machine(header, [], header.Primary(), None, false, false);
      StageSafe(m, Rest);
      moments := [m];
      var h := header.WithSecondary(c);
      WriteHeader(h);
      m := m.(flight := Some(c), twoPhase := twoPhase, unsynced := unsynced);
      StageSafe(m, Written);
      moments := moments + [m];
      if twoPhase {
        FlushFile();
        m := m.(header := h, unsynced := [], synced := true);
        StageSafe(m, Flushed);
        moments := moments + [m];
      }
      h := h.Swap().(god := God(!h.god.swapped, h.god.recovery, twoPhase));
      WriteHeader(h);
      m := m.(unsynced := unsynced);
      StageSafe(m, Swapped);
      moments := moments + [m];
      FlushFile();
      header := h;
      m := Machine(h, [], c, None, false, twoPhase);
      StageSafe(m, Rest);
      moments := moments + [m];
    }

    /** Falls back to the other slot when the trees of the primary do not verify. */
    method DoRepair(ok: set<Tree>) returns (r: Result<Commit>)
      modifies this
      ensures var p := Repair(old(header), ok);
        if p.Ok? then r == Ok(p.value.Primary()) && header == p.value.(god := p.value.god.(recovery := false))
          && file == header.ToImage() && unsynced == []
        else r == Corrupt
    {
      if !Verifies(header.Primary(), ok) {
        if header.god.twoPhase {
          return Corrupt;
        }
        header := header.Swap();
        if !Verifies(header.Primary(), ok) {
          return Corrupt;
        }
      }
      header := header.(god := header.god.(recovery := false));
      WriteHeader(header);
      FlushFile();
      return Ok(header.Primary());
    }
  }

  lemma StageSafe(m: Machine, stage: Stage)
    requires At(m, stage)
    ensures CrashSafe(m)
  {
    forall i, ok, quick | AfterCrash(i, m.Versions()) && m.Intact(ok)
      ensures Recovers(m, Open(i, ok, quick))
    {
      CrashRecovers(m, stage, i, ok, quick);
    }
  }
}
