/**
 What the steps that end a write transaction, and a crash, keep, whatever becomes of stored savepoints.
 */
module StoreCommit {
  import opened Bits
  import opened Tracker
  import opened Store
  import opened StoreInv
  import opened StoreProof

  // ----- aborting -----

  lemma AbortHeld(s: State)
    requires AllHeld(s) && s.phase.Active? && s.post == {}
    ensures AllHeld(DoAbort(s))
  {
    var r := DoAbort(s);
    forall x | Held(s, x)
      ensures Held(r, x)
    {
      hide Pages, UpTo;
    }
    hide Held;
  }

  lemma AbortAccounted(v: World, inUse: set<Page>, uncommitted: set<Page>)
    requires Within(v, {}, {}, uncommitted, inUse)
    ensures Within(v, {}, {}, {}, inUse - uncommitted)
    ensures Accounted(v, {}, {}, uncommitted, inUse) ==> Accounted(v, {}, {}, {}, inUse - uncommitted)
  {
    hide Apart, Pages, Places;
  }

  lemma AbortIds(s: State)
    requires Ids(s)
    ensures Ids(DoAbort(s))
  {
    hide StoredRows;
  }

  lemma AbortRest(s: State)
    requires Fresh(s) && DurableSystem(s) && Times(s) && s.phase.Active?
    ensures Fresh(DoAbort(s)) && DurableSystem(DoAbort(s)) && Times(DoAbort(s))
  {
    assert Fresh(DoAbort(s)) by { hide DurableSystem, Times; }
    assert Times(DoAbort(s)) by { hide DurableSystem, Fresh, Dated; }
    hide Pages, UpTo, Times;
  }

  lemma CoreAbort(s: State)
    requires Core(s) && s.phase.Active?
    ensures Core(DoAbort(s)) && (Exact(s) ==> Exact(DoAbort(s)))
  {
    var r := DoAbort(s);
    assert s.post == {} by { hide Within, AllHeld, DurableSystem, Times, Ids, Counted; }
    hide Within, Accounted, Fresh, AllHeld, DurableSystem, Times, Ids, Counted;
    AbortAccounted(s.latest.world, s.inUse, s.uncommitted);
    AbortHeld(s);
    AbortIds(s);
    AbortRest(s);
    KeepCounted(s, r);
  }

  // ----- writing the freed and allocated tables -----

  lemma PrepareAccounted(s: State)
    requires Within(s.w.world, s.w.queued, s.w.sysQueued, s.post, s.inUse)
    ensures var r := DoPrepare(s);
      && Within(r.w.world, r.w.queued, r.w.sysQueued, r.post, r.inUse)
      && (Accounted(s.w.world, s.w.queued, s.w.sysQueued, s.post, s.inUse) ==>
            Accounted(r.w.world, r.w.queued, r.w.sysQueued, r.post, r.inUse))
  {
    AddOnce(s.w.world.dataFreed, s.w.id, s.w.queued);
    hide Pages, Once, Entries, Purge;
  }

  lemma PrepareSafe(x: Snapshot, s: State)
    requires Safe(x, s.w.world, s.w.sysQueued, s.post, s.inUse, s.uncommitted) && x.txn < s.w.id
    ensures var r := DoPrepare(s); Safe(x, r.w.world, s.w.sysQueued, s.post, s.inUse, s.uncommitted)
  {
    AddEntries(s.w.world.dataFreed, s.w.id, s.w.queued, x.txn);
    hide Pages, UpTo, Entries, Purge;
  }

  lemma PrepareHeld(s: State)
    requires AllHeld(s) && s.phase.Active? && s.latest.id < s.w.id
    ensures AllHeld(DoPrepare(s))
  {
    var r := DoPrepare(s);
    forall x | Held(s, x)
      ensures Held(r, x)
    {
      PrepareSafe(x, s);
      hide Safe;
    }
    hide Held;
  }

  lemma PrepareTimes(s: State)
    requires Times(s) && s.phase.Active?
    ensures Times(DoPrepare(s))
  {
  }

  lemma PrepareDurableSystem(s: State)
    requires DurableSystem(s) && s.durable.id < s.w.id
    ensures DurableSystem(DoPrepare(s)) || !CanRollBack(s.phase)
  {
    AddEntries(s.w.world.dataFreed, s.w.id, s.w.queued, s.durable.id);
    hide Pages, UpTo, Entries, Purge;
  }

  lemma CorePrepare(s: State)
    requires Core(s) && Enabled(s, Prepare)
    ensures Core(DoPrepare(s)) && (Exact(s) ==> Exact(DoPrepare(s)))
  {
    var r := DoPrepare(s);
    assert s.latest.id < s.w.id && s.durable.id < s.w.id by {
      hide Within, Fresh, AllHeld, DurableSystem, Ids, Counted, Dated;
    }
    assert Fresh(r) by {
      hide Within, AllHeld, DurableSystem, Times, Ids, Counted, Entries, Purge;
    }
    assert Ids(r) by {
      hide Within, AllHeld, DurableSystem, Times, Fresh, Counted, StoredRows, Entries, Purge;
    }
    hide Within, Accounted, Fresh, AllHeld, DurableSystem, Times, Ids, Counted, Entries, Purge;
    PrepareAccounted(s);
    PrepareHeld(s);
    PrepareTimes(s);
    PrepareDurableSystem(s);
    KeepCounted(s, r);
  }

  // ----- freeing what nobody can reach: durable commits -----

  /** Only committed transactions are referenced. */
  lemma RefsCommitted(s: State, t: Txn)
    requires Counted(s) && Times(s) && s.tracker.Refs(t) > 0
    requires forall h :: h in s.readers ==> s.readers[h].txn <= s.latest.id
    requires forall i :: i in s.saves ==> s.saves[i].txn <= s.latest.id
    ensures t <= s.latest.id
  {
    hide Dated, DatedOrNow;
    if Count(Txns(s.readers), t) > 0 {
      var k :| k in Mapped(Txns(s.readers), t);
    } else if Count(Txns(s.saves), t) > 0 {
      var k :| k in Mapped(Txns(s.saves), t);
    } else {
      var k :| k in Mapped(s.tracker.pending, t);
    }
  }

  /** A pending non-durable commit keeps its durable ancestor referenced. */
  lemma AncestorReferenced(s: State)
    requires Counted(s) && Times(s) && s.tracker.pending != map[]
    ensures s.durable.id in s.tracker.liveReads
  {
    hide Dated, DatedOrNow;
    var k :| k in s.tracker.pending;
    CountPositive(s.tracker.pending, k);
    assert s.tracker.Refs(s.durable.id) > 0;
  }

  /** `t` is a transaction somebody can still look at. */
  ghost predicate Watched(s: State, t: Txn)
  {
    t == s.durable.id || t == s.latest.id || s.tracker.Refs(t) > 0
  }

  ghost predicate Committers(s: State)
  {
    && Counted(s) && Times(s) && s.phase.Prepared?
    && (forall h :: h in s.readers ==> s.readers[h].txn <= s.latest.id)
    && (forall i :: i in s.saves ==> s.saves[i].txn <= s.latest.id)
  }

  /** The central argument: what a durable commit frees was already dead for everything still watched. */
  lemma FreedBeforeWatched(s: State, t: Txn, e: (Txn, Page))
    requires Committers(s) && Watched(s, t)
    requires e in s.w.world.dataFreed || e in s.w.world.sysFreed
    requires e.0 < FreeUntil(s)
    ensures e.0 <= t
  {
    if s.tracker.pending != map[] {
      AncestorReferenced(s);
    }
    if s.tracker.liveReads != map[] {
      RefsCommitted(s, s.tracker.OldestLiveRead().value);
    }
    hide Dated;
  }

  lemma ProcessSafe(x: Snapshot, s: State)
    requires Safe(x, s.w.world, s.w.sysQueued, s.post, s.inUse, s.uncommitted)
    requires UpTo(s.w.world.dataFreed, FreeUntil(s) - 1) <= UpTo(s.w.world.dataFreed, x.txn)
    ensures var r := DoProcessDurable(s); Safe(x, r.w.world, s.w.sysQueued, s.post, r.inUse, s.uncommitted)
  {
    var v, until := s.w.world, FreeUntil(s) - 1;
    assert UpTo(Above(v.dataFreed, until), x.txn) <= UpTo(v.dataFreed, x.txn);
    assert UpTo(v.sysFreed, until) <= v.sysFreed;
    hide FreeUntil, Above, UpTo;
  }

  lemma ProcessHeld(s: State)
    requires AllHeld(s) && Committers(s)
    ensures AllHeld(DoProcessDurable(s))
  {
    var r := DoProcessDurable(s);
    assert forall h :: h in s.readers ==> Watched(s, s.readers[h].txn) by { HoldersWatched(s); }
    assert forall i :: i in s.saves ==> Watched(s, s.saves[i].txn) by { HoldersWatched(s); }
    forall x | Held(s, x) && Watched(s, x.txn)
      ensures Held(r, x)
    {
      forall e | e in UpTo(s.w.world.dataFreed, FreeUntil(s) - 1)
        ensures e in UpTo(s.w.world.dataFreed, x.txn)
      {
        FreedBeforeWatched(s, x.txn, e);
      }
      ProcessSafe(x, s);
      hide Safe, Committers, FreeUntil;
    }
    hide Held, Committers;
  }

  lemma HoldersWatched(s: State)
    requires Counted(s)
    ensures forall h :: h in s.readers ==> Watched(s, s.readers[h].txn)
    ensures forall i :: i in s.saves ==> Watched(s, s.saves[i].txn)
  {
    forall h | h in s.readers
      ensures Watched(s, s.readers[h].txn)
    {
      CountPositive(Txns(s.readers), h);
    }
    forall i | i in s.saves
      ensures Watched(s, s.saves[i].txn)
    {
      CountPositive(Txns(s.saves), i);
    }
  }

  lemma ProcessAccounted(s: State)
    requires Within(s.w.world, s.w.queued, s.w.sysQueued, s.post, s.inUse)
    ensures var r := DoProcessDurable(s);
      && Within(r.w.world, r.w.queued, r.w.sysQueued, r.post, r.inUse)
      && (Accounted(s.w.world, s.w.queued, s.w.sysQueued, s.post, s.inUse) ==>
            Accounted(r.w.world, r.w.queued, r.w.sysQueued, r.post, r.inUse))
  {
    SplitTable(s.w.world.dataFreed, FreeUntil(s) - 1);
    SplitTable(s.w.world.sysFreed, FreeUntil(s) - 1);
    hide Pages, Above, UpTo, Once, FreeUntil;
  }

  lemma ProcessDurableSystem(s: State)
    requires DurableSystem(s) && Committers(s)
    ensures DurableSystem(DoProcessDurable(s))
  {
    var v, until := s.w.world, FreeUntil(s) - 1;
    forall e | e in UpTo(v.dataFreed, until)
      ensures e in UpTo(v.dataFreed, s.durable.id)
    {
      FreedBeforeWatched(s, s.durable.id, e);
    }
    forall e | e in UpTo(v.sysFreed, until)
      ensures e in UpTo(v.sysFreed, s.durable.id)
    {
      FreedBeforeWatched(s, s.durable.id, e);
    }
    assert UpTo(Above(v.dataFreed, until), s.durable.id) <= UpTo(v.dataFreed, s.durable.id);
    assert UpTo(Above(v.sysFreed, until), s.durable.id) <= UpTo(v.sysFreed, s.durable.id);
    hide Committers, FreeUntil, UpTo, Above;
  }

  lemma ProcessRest(s: State)
    requires Fresh(s) && Times(s) && Ids(s) && s.phase.Prepared?
    ensures Fresh(DoProcessDurable(s)) && Times(DoProcessDurable(s)) && Ids(DoProcessDurable(s))
  {
    hide FreeUntil, StoredRows;
  }

  lemma PreparedFacts(s: State)
    requires Core(s) && s.phase.Prepared?
    ensures Committers(s) && s.w.queued == {} && s.w.tracked == {} && s.post == {}
  {
    hide Within, DurableSystem, Times, Ids, Counted, Safe, Persisted;
  }

  lemma CoreProcessDurable(s: State)
    requires Core(s) && s.phase.Prepared?
    ensures Core(DoProcessDurable(s)) && (Exact(s) ==> Exact(DoProcessDurable(s)))
  {
    PreparedFacts(s);
    hide Within, Accounted, Fresh, AllHeld, DurableSystem, Times, Ids, Counted, Committers, FreeUntil;
    ProcessAccounted(s);
    ProcessHeld(s);
    ProcessDurableSystem(s);
    ProcessRest(s);
    KeepCounted(s, DoProcessDurable(s));
  }

  // ----- freeing what nobody can reach: non-durable commits -----

  lemma SplitOff(t: Table, d: Table)
    requires Once(t) && d <= t
    ensures Once(t - d) && Pages(t - d) !! Pages(d) && Pages(t) == Pages(t - d) + Pages(d)
  {
    assert t == (t - d) + d;
    PagesUnion(t - d, d);
  }

  /** A non-durable commit looks only at entries dead for every referenced non-durable commit and every savepoint. */
  lemma ReclaimedBefore(s: State, t: Txn, e: (Txn, Page))
    requires Committers(s) && t in s.tracker.pending && (t == s.latest.id || s.tracker.Refs(t) > 0)
    requires e in s.w.world.dataFreed || e in s.w.world.sysFreed
    requires e.0 < FreeUntilNonDurable(s)
    ensures e.0 <= t
  {
    hide Dated, Counted;
  }

  ghost function ReclaimedData(s: State): Table
  {
    Reclaimable(s.w.world.dataFreed, FreeUntilNonDurable(s), s.tracker.unprocessed, s.unpersisted)
  }

  ghost function ReclaimedSystem(s: State): Table
  {
    Reclaimable(s.w.world.sysFreed, FreeUntilNonDurable(s), s.tracker.unprocessed, s.unpersisted)
  }

  lemma ReclaimedBounds(s: State)
    ensures ReclaimedData(s) <= s.w.world.dataFreed && ReclaimedSystem(s) <= s.w.world.sysFreed
    ensures Pages(ReclaimedData(s)) <= s.unpersisted && Pages(ReclaimedSystem(s)) <= s.unpersisted
    ensures forall e :: e in ReclaimedData(s) + ReclaimedSystem(s) ==> e.0 < FreeUntilNonDurable(s)
  {
    hide FreeUntilNonDurable;
  }

  lemma ReclaimShape(s: State)
    ensures var r, d, y := DoProcessNonDurable(s), ReclaimedData(s), ReclaimedSystem(s);
      && r.w == s.w.(world := s.w.world.(dataFreed := s.w.world.dataFreed - d, sysFreed := s.w.world.sysFreed - y))
      && r.inUse == s.inUse - Pages(d) - Pages(y) && r.unpersisted == s.unpersisted - Pages(d) - Pages(y)
      && r == s.(phase := Processed, w := r.w, inUse := r.inUse, unpersisted := r.unpersisted, tracker := r.tracker)
      && r.tracker == s.tracker.(unprocessed := r.tracker.unprocessed)
  {
  }

  lemma ReclaimHeldOne(x: Snapshot, s: State)
    requires Held(s, x) && (x.txn in s.tracker.pending ==> ReclaimedData(s) <= UpTo(s.w.world.dataFreed, x.txn))
    ensures Held(DoProcessNonDurable(s), x)
  {
    var v, d, y := s.w.world, ReclaimedData(s), ReclaimedSystem(s);
    assert UpTo(v.dataFreed - d, x.txn) <= UpTo(v.dataFreed, x.txn);
    ReclaimedBounds(s);
    ReclaimShape(s);
    hide FreeUntilNonDurable, DoProcessNonDurable, ReclaimedData, ReclaimedSystem, UpTo;
  }

  lemma ReclaimHeld(s: State)
    requires AllHeld(s) && Committers(s)
    ensures AllHeld(DoProcessNonDurable(s))
  {
    var r := DoProcessNonDurable(s);
    HoldersWatched(s);
    ReclaimedBounds(s);
    ReclaimShape(s);
    forall x | Held(s, x) && Watched(s, x.txn)
      ensures Held(r, x)
    {
      if x.txn in s.tracker.pending {
        assert x.txn == s.latest.id || s.tracker.Refs(x.txn) > 0 by { hide Held, Dated, DatedOrNow, Counted; }
        forall e | e in ReclaimedData(s)
          ensures e in UpTo(s.w.world.dataFreed, x.txn)
        {
          hide Held, Committers, FreeUntilNonDurable, DoProcessNonDurable;
          ReclaimedBefore(s, x.txn, e);
        }
      }
      ReclaimHeldOne(x, s);
    }
    hide Held, Committers, DoProcessNonDurable, ReclaimedData, ReclaimedSystem, Pages;
  }

  lemma ReclaimAccounted(s: State)
    requires Within(s.w.world, s.w.queued, s.w.sysQueued, s.post, s.inUse)
    ensures var r := DoProcessNonDurable(s);
      && Within(r.w.world, r.w.queued, r.w.sysQueued, r.post, r.inUse)
      && (Accounted(s.w.world, s.w.queued, s.w.sysQueued, s.post, s.inUse) ==>
            Accounted(r.w.world, r.w.queued, r.w.sysQueued, r.post, r.inUse))
  {
    ReclaimedBounds(s);
    ReclaimShape(s);
    SplitOff(s.w.world.dataFreed, ReclaimedData(s));
    SplitOff(s.w.world.sysFreed, ReclaimedSystem(s));
    hide Pages, Once, FreeUntilNonDurable, DoProcessNonDurable, ReclaimedData, ReclaimedSystem;
  }

  lemma ReclaimDurableSystem(s: State)
    requires DurableSystem(s)
    ensures DurableSystem(DoProcessNonDurable(s))
  {
    var v := s.w.world;
    ReclaimedBounds(s);
    ReclaimShape(s);
    assert UpTo(v.dataFreed - ReclaimedData(s), s.durable.id) <= UpTo(v.dataFreed, s.durable.id);
    assert UpTo(v.sysFreed - ReclaimedSystem(s), s.durable.id) <= UpTo(v.sysFreed, s.durable.id);
    hide FreeUntilNonDurable, DoProcessNonDurable, ReclaimedData, ReclaimedSystem, UpTo;
  }

  lemma ReclaimRest(s: State)
    requires Fresh(s) && Times(s) && Ids(s) && s.phase.Prepared?
    ensures Fresh(DoProcessNonDurable(s)) && Times(DoProcessNonDurable(s)) && Ids(DoProcessNonDurable(s))
  {
    ReclaimedBounds(s);
    ReclaimShape(s);
    hide FreeUntilNonDurable, DoProcessNonDurable, ReclaimedData, ReclaimedSystem, StoredRows, Pages;
  }

  lemma CoreProcessNonDurable(s: State)
    requires Core(s) && s.phase.Prepared?
    ensures Core(DoProcessNonDurable(s)) && (Exact(s) ==> Exact(DoProcessNonDurable(s)))
  {
    PreparedFacts(s);
    ReclaimShape(s);
    hide Within, Accounted, Fresh, AllHeld, DurableSystem, Times, Ids, Counted, Committers;
    hide FreeUntilNonDurable, DoProcessNonDurable, ReclaimedData, ReclaimedSystem;
    ReclaimAccounted(s);
    ReclaimHeld(s);
    ReclaimDurableSystem(s);
    ReclaimRest(s);
    KeepCounted(s, DoProcessNonDurable(s));
  }

  // ----- publishing the new roots -----

  ghost function Stored(s: State, quickRepair: bool): set<Page>
  {
    if s.w.durable then (if quickRepair then s.w.sysQueued else {}) else s.w.sysQueued - s.unpersisted
  }

  ghost function Published(s: State, stored: set<Page>): World
  {
    s.w.world.(sysFreed := s.w.world.sysFreed + Entries(s.w.id, stored))
  }

  ghost function DoCommit(s: State, quickRepair: bool): State
  {
    if s.w.durable then DoCommitDurable(s, quickRepair) else DoCommitNonDurable(s)
  }

  lemma PublishedAccounted(s: State, stored: set<Page>)
    requires Within(s.w.world, {}, s.w.sysQueued, {}, s.inUse) && stored <= s.w.sysQueued
    ensures Within(Published(s, stored), {}, {}, s.w.sysQueued - stored, s.inUse)
    ensures Accounted(s.w.world, {}, s.w.sysQueued, {}, s.inUse) ==>
      Accounted(Published(s, stored), {}, {}, s.w.sysQueued - stored, s.inUse)
    ensures Pages(Published(s, stored).sysFreed) == Pages(s.w.world.sysFreed) + stored
  {
    AddOnce(s.w.world.sysFreed, s.w.id, stored);
    hide Pages, Once, Entries;
  }

  lemma PublishedSafe(x: Snapshot, s: State, stored: set<Page>)
    requires Safe(x, s.w.world, s.w.sysQueued, {}, s.inUse, s.uncommitted) && stored <= s.w.sysQueued
    ensures Safe(x, Published(s, stored), {}, s.w.sysQueued - stored, s.inUse, {})
  {
    PagesEntries(s.w.id, stored);
    PagesUnion(s.w.world.sysFreed, Entries(s.w.id, stored));
    hide Pages, Entries, UpTo;
  }

  /** The new data root is as safe as the snapshots before it. */
  lemma PublishedRootSafe(s: State, stored: set<Page>)
    requires Within(s.w.world, {}, s.w.sysQueued, {}, s.inUse) && stored <= s.w.sysQueued
    ensures Safe(Snapshot(s.w.id, s.w.world.data), Published(s, stored), {}, s.w.sysQueued - stored, s.inUse, {})
  {
    var f := s.w.world.dataFreed;
    PublishedAccounted(s, stored);
    SplitTable(f, s.w.id);
    hide Pages, Entries, UpTo, Above, Once;
  }

  lemma CommitShape(s: State, quick: bool)
    ensures var r, stored := DoCommit(s, quick), Stored(s, quick);
      && stored <= s.w.sysQueued
      && r.phase == Committed && r.latest == Commit(s.w.id, Published(s, stored))
        && r.w == s.w.(world := Published(s, stored), sysQueued := {})
      && r.post == s.w.sysQueued - stored && r.inUse == s.inUse && r.uncommitted == {}
      && r.readers == s.readers && r.saves == s.saves && r.ephemeral == s.ephemeral
      && r.durable == (if s.w.durable then r.latest else s.durable)
      && r.unpersisted == (if s.w.durable then {} else s.unpersisted + s.uncommitted)
      && r.tracker == s.tracker.(liveReads := r.tracker.liveReads, pending := r.tracker.pending,
                                 unprocessed := r.tracker.unprocessed)
      && r.tracker.pending == if s.w.durable then map[] else s.tracker.pending[s.w.id := s.durable.id]
  {
    hide Entries;
  }

  lemma CommitHeldOne(x: Snapshot, s: State, quick: bool)
    requires Held(s, x) && s.phase.Processed? && s.post == {} && s.latest.id < s.w.id
    ensures Held(DoCommit(s, quick), x)
  {
    CommitShape(s, quick);
    PublishedSafe(x, s, Stored(s, quick));
    hide Safe, Published, Stored, DoCommit;
  }

  lemma CommitRoots(s: State, quick: bool)
    requires Held(s, Root(s.durable)) && s.phase.Processed? && s.post == {} && s.latest.id < s.w.id && s.w.queued == {}
    requires Root(s.durable).pages !! s.unpersisted
    requires Within(s.w.world, {}, s.w.sysQueued, {}, s.inUse)
    ensures var r := DoCommit(s, quick);
      Held(r, Root(r.latest)) && Held(r, Root(r.durable)) && Root(r.durable).pages !! r.unpersisted
  {
    CommitShape(s, quick);
    PublishedRootSafe(s, Stored(s, quick));
    CommitHeldOne(Root(s.durable), s, quick);
    hide Within, DoCommit, Stored, UpTo, Pages;
  }

  lemma CommitHeld(s: State, quick: bool)
    requires AllHeld(s) && s.phase.Processed? && s.post == {} && s.latest.id < s.w.id && s.w.queued == {}
    requires Within(s.w.world, {}, s.w.sysQueued, {}, s.inUse)
    ensures AllHeld(DoCommit(s, quick))
  {
    CommitShape(s, quick);
    CommitRoots(s, quick);
    hide Held, DoCommit, Stored, Published, Within;
    var r := DoCommit(s, quick);
    forall x | Held(s, x)
      ensures Held(r, x)
    {
      CommitHeldOne(x, s, quick);
    }
  }

  lemma CommitDurableSystem(s: State, quick: bool)
    requires DurableSystem(s) && s.durable.id < s.w.id && s.w.queued == {} && s.post == {}
    requires Within(s.w.world, {}, s.w.sysQueued, {}, s.inUse)
    ensures DurableSystem(DoCommit(s, quick))
  {
    CommitShape(s, quick);
    PublishedAccounted(s, Stored(s, quick));
    var r := DoCommit(s, quick);
    if s.w.durable {
      SplitTable(r.w.world.dataFreed, s.w.id);
      SplitTable(r.w.world.sysFreed, s.w.id);
      hide Pages, UpTo, Above, Once, DoCommit, Stored;
    } else {
      AddEntries(s.w.world.sysFreed, s.w.id, Stored(s, quick), s.durable.id);
      hide Pages, UpTo, Above, Once, DoCommit, Within, Entries;
    }
  }

  lemma CommitTimes(s: State, quick: bool)
    requires Times(s) && s.phase.Processed?
    ensures Times(DoCommit(s, quick))
  {
    CommitShape(s, quick);
    hide DoCommit, Stored;
  }

  lemma CommitIds(s: State, quick: bool)
    requires Ids(s)
    ensures Ids(DoCommit(s, quick))
  {
    CommitShape(s, quick);
    hide DoCommit, Stored, StoredRows;
  }

  lemma CommitCounted(s: State, quick: bool)
    requires Counted(s) && s.w.id !in s.tracker.pending
    ensures Counted(DoCommit(s, quick))
  {
    var r := DoCommit(s, quick);
    if s.w.durable {
      ReleaseAllRefs(s.tracker, s.tracker.pending);
      forall t
        ensures r.tracker.Refs(t) == Count(Txns(r.readers), t) + Count(Txns(r.saves), t) + Count(r.tracker.pending, t)
      {
        CountEmpty(t);
        assert r.tracker.Refs(t) == ReleaseAll(s.tracker, s.tracker.pending).Refs(t);
      }
    } else {
      AcquireRefs(s.tracker, s.durable.id);
      CountAdd(s.tracker.pending, s.w.id, s.durable.id);
      forall t
        ensures r.tracker.Refs(t) == Count(Txns(r.readers), t) + Count(Txns(r.saves), t) + Count(r.tracker.pending, t)
      {
        assert r.tracker.Refs(t) == Acquire(s.tracker, s.durable.id).Refs(t);
      }
    }
  }

  lemma ProcessedFacts(s: State)
    requires Core(s) && s.phase.Processed?
    ensures s.w.queued == {} && s.w.tracked == {} && s.post == {}
    ensures s.durable.id <= s.latest.id < s.w.id && s.w.id !in s.tracker.pending
  {
    hide Within, AllHeld, DurableSystem, Ids, Counted, Dated, DatedOrNow;
  }

  lemma CommitFresh(s: State, quick: bool)
    requires Fresh(s) && s.phase.Processed?
    ensures Fresh(DoCommit(s, quick))
  {
    CommitShape(s, quick);
    hide DoCommit, Stored, Published;
  }

  lemma CoreCommit(s: State, quick: bool)
    requires Core(s) && s.phase.Processed?
    ensures Core(DoCommit(s, quick)) && (Exact(s) ==> Exact(DoCommit(s, quick)))
  {
    ProcessedFacts(s);
    CommitShape(s, quick);
    hide Within, Accounted, Fresh, AllHeld, DurableSystem, Times, Ids, Counted, DoCommit, Stored, Published;
    PublishedAccounted(s, Stored(s, quick));
    CommitHeld(s, quick);
    CommitDurableSystem(s, quick);
    CommitTimes(s, quick);
    CommitIds(s, quick);
    CommitCounted(s, quick);
    CommitFresh(s, quick);
  }

  // ----- finishing -----

  ghost function Gone(s: State): map<SavepointId, Snapshot>
  {
    map i | i in s.w.deleted && i in s.saves :: s.saves[i]
  }

  lemma CountSplit(s: State, t: Txn)
    ensures Count(Txns(s.saves), t) == Count(Txns(s.saves - s.w.deleted), t) + Count(Txns(Gone(s)), t)
  {
    var a, b, c := Mapped(Txns(s.saves), t), Mapped(Txns(s.saves - s.w.deleted), t), Mapped(Txns(Gone(s)), t);
    assert a == b + c && b !! c;
  }

  lemma FinishCounted(s: State)
    requires Counted(s)
    ensures Counted(DoFinish(s))
  {
    var r := DoFinish(s);
    forall t
      ensures Count(Txns(s.saves), t) == Count(Txns(r.saves), t) + Count(Txns(Gone(s)), t)
    {
      CountSplit(s, t);
    }
    ReleaseAllRefs(s.tracker, Txns(Gone(s)));
    forall t
      ensures r.tracker.Refs(t) == Count(Txns(r.readers), t) + Count(Txns(r.saves), t) + Count(r.tracker.pending, t)
    {
      assert r.tracker.Refs(t) == ReleaseAll(s.tracker, Txns(Gone(s))).Refs(t);
    }
  }

  lemma FinishHeld(s: State)
    requires AllHeld(s) && Fresh(s) && s.phase.Committed?
    ensures AllHeld(DoFinish(s))
  {
    var r := DoFinish(s);
    forall x | Held(s, x)
      ensures Held(r, x)
    {
      hide Pages, UpTo, ReleaseAll, Txns;
    }
    hide Held, Fresh, ReleaseAll, Txns;
  }

  lemma FinishTracker(s: State)
    ensures DoFinish(s).tracker == s.tracker.(liveReads := DoFinish(s).tracker.liveReads,
                                              savepoints := s.tracker.savepoints - s.w.deleted, liveWrite := None)
  {
  }

  lemma FinishTimes(s: State)
    requires Times(s) && s.phase.Committed?
    ensures Times(DoFinish(s))
  {
    FinishTracker(s);
    hide ReleaseAll, Txns, Dated, DatedOrNow;
  }

  lemma FinishIds(s: State)
    requires Ids(s) && s.w.world == s.latest.world
    ensures Ids(DoFinish(s))
  {
    FinishTracker(s);
    hide ReleaseAll, Txns;
  }

  lemma FinishAccounted(v: World, post: set<Page>, inUse: set<Page>)
    requires Within(v, {}, {}, post, inUse)
    ensures Within(v, {}, {}, {}, inUse - post)
    ensures Accounted(v, {}, {}, post, inUse) ==> Accounted(v, {}, {}, {}, inUse - post)
  {
    hide Apart, Pages, Places;
  }

  lemma CoreFinish(s: State)
    requires Core(s) && s.phase.Committed?
    ensures Core(DoFinish(s)) && (Exact(s) ==> Exact(DoFinish(s)))
  {
    var r := DoFinish(s);
    assert DurableSystem(r) by {
      hide AllHeld, Times, Ids, Counted, Within, Txns, ReleaseAll, Pages, UpTo;
    }
    assert s.w.world == s.latest.world && s.w.queued == {} && s.w.sysQueued == {} && Fresh(r) by {
      hide AllHeld, Times, Ids, Counted, Within, Txns, ReleaseAll, DurableSystem;
    }
    hide Within, Accounted, Fresh, AllHeld, DurableSystem, Times, Ids, Counted, Txns;
    FinishAccounted(s.w.world, s.post, s.inUse);
    FinishCounted(s);
    FinishHeld(s);
    FinishTimes(s);
    FinishIds(s);
  }

  // ----- crash and reopening -----

  lemma RowHeld(c: Commit, repaired: bool, i: SavepointId)
    requires Ordered(c) && i in c.world.rows
    ensures Held(Reopened(c, repaired), c.world.rows[i])
  {
    var x, v := c.world.rows[i], c.world;
    SplitTable(v.dataFreed, x.txn);
    assert x.pages <= Late(v, x.txn, {});
    hide Pages, UpTo, Above, Once, Dated, Txns, Count;
  }

  lemma ReopenedHeld(c: Commit, repaired: bool)
    requires Ordered(c)
    ensures AllHeld(Reopened(c, repaired))
  {
    var r := Reopened(c, repaired);
    forall i | i in r.saves
      ensures Held(r, r.saves[i])
    {
      RowHeld(c, repaired, i);
    }
    assert Held(r, Root(r.latest)) by {
      SplitTable(c.world.dataFreed, r.latest.id);
      hide UpTo, Pages, Above, Once, Dated, Txns, Count;
    }
    hide Held, Ordered;
  }

  lemma ReopenedCounted(c: Commit, repaired: bool)
    ensures Counted(Reopened(c, repaired))
  {
    var r := Reopened(c, repaired);
    var txns := Txns(c.world.rows);
    assert r.tracker.Valid() by {
      forall t | t in txns.Values
        ensures Count(txns, t) > 0
      {
        var k :| k in txns && txns[k] == t;
        CountPositive(txns, k);
      }
    }
    forall t
      ensures r.tracker.Refs(t) == Count(Txns(r.readers), t) + Count(Txns(r.saves), t) + Count(r.tracker.pending, t)
    {
      CountEmpty(t);
      assert Txns(r.readers) == map[];
      if t !in txns.Values {
        assert Mapped(txns, t) == {};
      }
    }
  }

  lemma ReopenedRest(c: Commit, repaired: bool)
    requires Ordered(c)
    ensures var r := Reopened(c, repaired); Times(r) && Ids(r) && Fresh(r)
  {
    hide Count, Apart, Places, Late;
  }

  lemma ReopenedDurableSystem(c: Commit, repaired: bool)
    requires Ordered(c)
    ensures DurableSystem(Reopened(c, repaired))
  {
    var id := if repaired then c.id + 1 else c.id;
    SplitTable(c.world.dataFreed, id);
    SplitTable(c.world.sysFreed, id);
    hide Count, Dated, UpTo, Above, Pages, Once, Txns, Late;
  }

  lemma CoreCrash(c: Commit, repaired: bool)
    requires Ordered(c)
    ensures Core(Reopened(c, repaired)) && Exact(Reopened(c, repaired))
  {
    var r := Reopened(c, repaired);
    assert Disjoint(r) && Exact(r) by {
      hide Count, Dated, Pages, Txns, Late, Once;
    }
    hide Disjoint, Exact, Fresh, AllHeld, Ordered, DurableSystem, Times, Ids, Counted, Count, Txns, Places;
    ReopenedHeld(c, repaired);
    ReopenedCounted(c, repaired);
    ReopenedRest(c, repaired);
    ReopenedDurableSystem(c, repaired);
  }
}
