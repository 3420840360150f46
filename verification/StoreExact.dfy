/**
 While the tracker knows every stored savepoint, every page in use is in exactly one place and
 every savepoint can be restored exactly.
 */
module StoreExact {
  import opened Bits
  import opened Tracker
  import opened Store
  import opened StoreInv
  import opened StoreProof
  import opened StoreCommit

  // ----- readers and the write transaction -----

  /** A step that changes no world, no savepoint and no page. */
  lemma KeepLaws(s: State, r: State)
    requires AllRestorable(s) && Reopenable(s.durable) && Registered(s)
    requires r == s.(readers := r.readers, tracker := r.tracker,
                     w := s.w.(dirty := r.w.dirty, tablesOpen := r.w.tablesOpen, durable := r.w.durable))
    requires r.tracker.savepoints == s.tracker.savepoints
    ensures AllRestorable(r) && Reopenable(r.durable) && Registered(r)
  {
    hide Restorable, Reopenable;
  }

  lemma KeepBeginRead(s: State, h: nat)
    requires Inv(s) && h !in s.readers
    ensures Inv(DoBeginRead(s, h))
  {
    hide Core, Exact, AllRestorable, Reopenable, Registered;
    CoreBeginRead(s, h);
    KeepLaws(s, DoBeginRead(s, h));
  }

  lemma KeepEndRead(s: State, h: nat)
    requires Inv(s) && h in s.readers
    ensures s.tracker.Refs(s.readers[h].txn) > 0 && Inv(DoEndRead(s, h))
  {
    hide Core, Exact, AllRestorable, Reopenable, Registered;
    CoreEndRead(s, h);
    KeepLaws(s, DoEndRead(s, h));
  }

  lemma KeepBeginWrite(s: State)
    requires Inv(s) && s.phase.Idle?
    ensures Inv(DoBeginWrite(s))
  {
    assert s.w == IdleWriter(s.latest) by { FreshOf(s); hide Core, Exact; }
    hide Core, Exact, Restorable, Reopenable;
    CoreBeginWrite(s);
  }

  lemma FreshOf(s: State)
    requires Core(s)
    ensures Fresh(s)
  {
    hide Disjoint, Fresh, AllHeld, DurableSystem, Times, Ids, Counted;
  }

  lemma IdsOf(s: State)
    requires Core(s)
    ensures Ids(s)
  {
    hide Disjoint, Fresh, AllHeld, DurableSystem, Times, Ids, Counted;
  }

  lemma WithinOf(s: State)
    requires Core(s)
    ensures Within(s.w.world, s.w.queued, s.w.sysQueued, s.post, s.inUse)
    ensures CanRollBack(s.phase) ==> Within(s.latest.world, {}, {}, s.uncommitted, s.inUse)
  {
    hide Within, Fresh, AllHeld, DurableSystem, Times, Ids, Counted;
  }

  lemma HeldOf(s: State)
    requires Core(s)
    ensures AllHeld(s) && DurableSystem(s)
  {
    hide Disjoint, Fresh, AllHeld, DurableSystem, Times, Ids, Counted;
  }

  lemma TimesOf(s: State)
    requires Core(s)
    ensures Times(s)
  {
    hide Disjoint, Fresh, AllHeld, DurableSystem, Times, Ids, Counted;
  }

  lemma OpenedRestorable(s: State)
    requires AllRestorable(s) && Fresh(s) && s.phase.Active?
    ensures AllRestorable(DoOpenTable(s))
  {
    var r := DoOpenTable(s);
    assert s.tracker.savepoints != map[] ==> r.w.tracked == s.w.tracked by { hide Restorable; }
    hide Restorable, Fresh;
  }

  lemma KeepOpenTable(s: State)
    requires Inv(s) && s.phase.Active?
    ensures Inv(DoOpenTable(s))
  {
    hide Core, Exact, AllRestorable, Reopenable, Fresh;
    FreshOf(s);
    CoreOpenTable(s);
    OpenedRestorable(s);
  }

  lemma KeepSetDurability(s: State, immediate: bool)
    requires Inv(s) && Enabled(s, SetDurability(immediate))
    ensures Inv(s.(w := s.w.(durable := immediate)))
  {
    hide Core, Exact, AllRestorable, Reopenable, Registered;
    CoreSetDurability(s, immediate);
    KeepLaws(s, s.(w := s.w.(durable := immediate)));
  }

  // ----- editing the trees -----

  lemma RestorableMutate(x: Snapshot, v: World, queued: set<Page>, tracked: set<Page>, inUse: set<Page>,
                         alloc: set<Page>, drop: set<Page>, gone: set<Page>)
    requires Restorable(x, v, queued, tracked) && alloc !! inUse && drop <= v.data
    requires gone <= tracked && gone <= drop && gone == drop * tracked
    requires v.data <= inUse && Pages(v.dataFreed) <= inUse && queued <= inUse && v.data !! Pages(v.dataFreed)
      && v.data !! queued
    ensures Restorable(x, v.(data := v.data - drop + alloc), queued + (drop - gone), tracked - gone + alloc)
  {
    SplitTable(v.dataFreed, x.txn);
    hide Pages, Once, Above, UpTo;
    var a, f := Pages(Above(v.dataAlloc, x.txn)), Pages(Above(v.dataFreed, x.txn));
    assert x.pages + a + tracked <= inUse;
    assert gone !! x.pages && gone !! a && gone !! f && gone !! queued;
    var l, t := x.pages + a + (tracked - gone + alloc), v.data - drop + alloc + f + (queued + (drop - gone));
    assert l == x.pages + a + tracked - gone + alloc;
    assert t == v.data + f + queued - gone + alloc;
  }

  lemma MutateRestorable(s: State, alloc: set<Page>, drop: set<Page>)
    requires AllRestorable(s) && Fresh(s) && Enabled(s, Mutate(alloc, drop))
    requires Within(s.w.world, s.w.queued, s.w.sysQueued, s.post, s.inUse)
    ensures AllRestorable(DoMutate(s, alloc, drop))
  {
    hide Pages, Once;
    var r := DoMutate(s, alloc, drop);
    forall i | i in r.tracker.savepoints && i in r.saves
      ensures Restorable(r.saves[i], r.w.world, r.w.queued, r.w.tracked)
    {
      RestorableMutate(s.saves[i], s.w.world, s.w.queued, s.w.tracked, s.inUse, alloc, drop, drop * s.uncommitted);
      hide Restorable;
    }
    hide Restorable, Within, Fresh;
  }

  lemma KeepMutate(s: State, alloc: set<Page>, drop: set<Page>)
    requires Inv(s) && Enabled(s, Mutate(alloc, drop))
    ensures Inv(DoMutate(s, alloc, drop))
  {
    hide Core, Exact, AllRestorable, Reopenable, Within, Fresh;
    WithinOf(s);
    FreshOf(s);
    CoreMutate(s, alloc, drop);
    MutateRestorable(s, alloc, drop);
  }

  /** What a savepoint needs does not depend on the system tree. */
  lemma RestorableAnySystem(x: Snapshot, v: World, u: World, queued: set<Page>, tracked: set<Page>)
    requires Restorable(x, v, queued, tracked)
    requires u.data == v.data && u.dataFreed == v.dataFreed && u.dataAlloc == v.dataAlloc
    ensures Restorable(x, u, queued, tracked)
  {
  }

  lemma MutateSystemRestorable(s: State, alloc: set<Page>, drop: set<Page>)
    requires AllRestorable(s)
    ensures AllRestorable(DoMutateSystem(s, alloc, drop))
  {
    var r := DoMutateSystem(s, alloc, drop);
    forall i | i in r.tracker.savepoints && i in r.saves
      ensures Restorable(r.saves[i], r.w.world, r.w.queued, r.w.tracked)
    {
      RestorableAnySystem(s.saves[i], s.w.world, r.w.world, s.w.queued, s.w.tracked);
      hide Restorable;
    }
    hide Restorable;
  }

  lemma KeepMutateSystem(s: State, alloc: set<Page>, drop: set<Page>)
    requires Inv(s) && Enabled(s, MutateSystem(alloc, drop))
    ensures Inv(DoMutateSystem(s, alloc, drop))
  {
    hide Core, Exact, AllRestorable, Reopenable;
    CoreMutateSystem(s, alloc, drop);
    MutateSystemRestorable(s, alloc, drop);
  }

  // ----- savepoints -----

  /** A savepoint of the committed tree holds nothing but that tree, so it is restorable at once. */
  lemma NewSavepointRestorable(x: Snapshot, v: World)
    requires Apart(v, {}, {}) && Dated(v, x.txn) && x.pages == v.data
    ensures Restorable(x, v, {}, {})
  {
    assert Above(v.dataAlloc, x.txn) == {} && Above(v.dataFreed, x.txn) == {};
  }

  lemma NewSaveRestorable(s: State, ephemeral: set<SavepointId>)
    requires AllRestorable(s) && Ids(s) && Fresh(s) && s.phase.Active? && !s.w.dirty
    requires Apart(s.latest.world, {}, {}) && Dated(s.latest.world, s.latest.id)
    ensures AllRestorable(WithSave(s, ephemeral))
  {
    NewSavepointRestorable(Root(s.latest), s.latest.world);
    RestorableAnySystem(Root(s.latest), s.latest.world, s.w.world, {}, {});
    hide Restorable, Apart, Dated, StoredRows;
  }

  lemma CleanCommit(s: State)
    requires Core(s) && s.phase.Active? && !s.w.dirty
    ensures Apart(s.latest.world, {}, {}) && Dated(s.latest.world, s.latest.id) && s.w.restored.None?
  {
    assert s.w.restored.None? by { FreshOf(s); hide Core; }
    assert Dated(s.latest.world, s.latest.id) by { TimesOf(s); hide Core, Dated; }
    WithinOf(s);
    hide Core, Dated, Apart, Places;
  }

  lemma NewSaveRegistered(s: State, ephemeral: set<SavepointId>)
    requires Registered(s) && s.w.restored.None?
    ensures Registered(WithSave(s, ephemeral))
  {
  }

  lemma KeepNewSave(s: State, ephemeral: set<SavepointId>)
    requires Inv(s) && s.phase.Active? && !s.w.dirty
    requires ephemeral == s.ephemeral || ephemeral == s.ephemeral + {s.tracker.nextSavepoint + 1}
    ensures Inv(WithSave(s, ephemeral))
  {
    hide Core, Exact, AllRestorable, Reopenable, Registered, Apart, Dated, Fresh, Ids;
    CleanCommit(s);
    FreshOf(s);
    IdsOf(s);
    CoreNewSave(s, ephemeral);
    NewSaveRestorable(s, ephemeral);
    NewSaveRegistered(s, ephemeral);
  }

  lemma KeepCreateEphemeral(s: State)
    requires Inv(s) && Enabled(s, CreateEphemeral)
    ensures Inv(DoCreateEphemeral(s))
  {
    hide Inv;
    KeepNewSave(s, s.ephemeral + {s.tracker.nextSavepoint + 1});
  }

  /** What a savepoint needs does not depend on the stored rows. */
  lemma KeepRows(s: State, r: State)
    requires AllRestorable(s) && r == s.(w := s.w.(world :=
        s.w.world.(rows := r.w.world.rows, nextRow := r.w.world.nextRow),
                                                   created := r.w.created, deleted := r.w.deleted, dirty := true))
    ensures AllRestorable(r)
  {
    forall i | i in r.tracker.savepoints && i in r.saves
      ensures Restorable(r.saves[i], r.w.world, r.w.queued, r.w.tracked)
    {
      RestorableAnySystem(s.saves[i], s.w.world, r.w.world, s.w.queued, s.w.tracked);
      hide Restorable;
    }
    hide Restorable;
  }

  lemma KeepCreatePersistent(s: State)
    requires Inv(s) && Enabled(s, CreatePersistent)
    ensures Inv(DoCreatePersistent(s))
  {
    hide Core, Exact, AllRestorable, Reopenable;
    KeepNewSave(s, s.ephemeral);
    CoreCreatePersistent(s);
    KeepRows(WithSave(s, s.ephemeral), DoCreatePersistent(s));
  }

  lemma KeepDeletePersistent(s: State, id: SavepointId)
    requires Inv(s) && Enabled(s, DeletePersistent(id))
    ensures Inv(DoDeletePersistent(s, id))
  {
    hide Core, Exact, AllRestorable, Reopenable;
    CoreDeletePersistent(s, id);
    KeepRows(s, DoDeletePersistent(s, id));
  }

  lemma DropRestorable(s: State, r: State)
    requires AllRestorable(s)
    requires r == s.(tracker := r.tracker, saves := r.saves, ephemeral := r.ephemeral)
    requires r.tracker.savepoints.Keys <= s.tracker.savepoints.Keys
    requires forall i :: i in r.saves ==> i in s.saves && r.saves[i] == s.saves[i]
    ensures AllRestorable(r)
  {
    hide Restorable;
  }

  lemma KeepDropEphemeral(s: State, id: SavepointId)
    requires Inv(s) && Enabled(s, DropEphemeral(id))
    ensures id in s.saves && s.tracker.Refs(s.saves[id].txn) > 0 && Inv(DoDropEphemeral(s, id))
  {
    hide Core, Exact, AllRestorable, Reopenable, Registered;
    IdsOf(s);
    CoreDropEphemeral(s, id);
    var r := DoDropEphemeral(s, id);
    assert forall i :: i in r.saves ==> i in s.saves && r.saves[i] == s.saves[i];
    DropRestorable(s, r);
    DropRegistered(s, id);
  }

  lemma DropRegistered(s: State, id: SavepointId)
    requires Ids(s) && Registered(s) && id in s.ephemeral && id in s.saves && s.tracker.Refs(s.saves[id].txn) > 0
    ensures Registered(DoDropEphemeral(s, id))
  {
  }

  // ----- restoring a savepoint -----

  /** The rows between two savepoints, and the rows after the later one, make up the rows after the earlier one. */
  lemma Between(t: Table, a: int, b: int)
    requires a <= b
    ensures Pages(Above(t, a)) == Pages(Above(UpTo(t, b), a)) + Pages(Above(t, b))
  {
    assert Above(t, a) == Above(UpTo(t, b), a) + Above(t, b);
    PagesUnion(Above(UpTo(t, b), a), Above(t, b));
  }

  /** An older savepoint stays restorable: its law is the sum of the restored one's and of what lies between. */
  lemma RestorableRestore(y: Snapshot, x: Snapshot, v: World, rows: map<SavepointId, Snapshot>)
    requires Restorable(x, v, {}, {}) && Restorable(y, v, {}, {}) && y.txn <= x.txn
    ensures Restorable(y, RestoredWorld(v, x, rows), Pages(Above(v.dataAlloc, x.txn)), {})
  {
    Between(v.dataFreed, y.txn, x.txn);
    hide Pages, Above, UpTo, Once;
  }

  lemma RestoreRestorable(s: State, id: SavepointId)
    requires AllRestorable(s) && id in s.tracker.savepoints && id in s.saves && s.w.queued == {} && s.w.tracked == {}
    requires forall i :: i in s.saves && i <= id ==> s.saves[i].txn <= s.saves[id].txn
    ensures AllRestorable(DoRestore(s, id))
  {
    hide Restorable, RestoredWorld, Pages, Above, UpTo;
    var r, rows := DoRestore(s, id), RowsUpTo(s.w.world.rows, id);
    assert r.w.queued == Pages(Above(s.w.world.dataAlloc, s.saves[id].txn));
    assert RestoredWorld(s.w.world, s.saves[id], rows) == r.w.world by { RestoresAreRewound(s, id); }
    forall i | i in r.tracker.savepoints && i in r.saves
      ensures Restorable(r.saves[i], r.w.world, r.w.queued, r.w.tracked)
    {
      RestorableRestore(s.saves[i], s.saves[id], s.w.world, rows);
    }
  }

  lemma RestorableMeans(x: Snapshot, v: World)
    requires Restorable(x, v, {}, {})
    ensures Replaceable(x, v) && Gathered(x, v)
  {
    hide Pages, Above, Late, Once;
  }

  lemma RestoreReady(s: State, id: SavepointId)
    requires Inv(s) && Restoring(s, id)
    ensures id in s.saves && s.w.queued == {} && s.w.tracked == {}
    ensures Restorable(s.saves[id], s.w.world, {}, {})
    ensures forall i :: i in s.saves && i <= id ==> s.saves[i].txn <= s.saves[id].txn
  {
    FreshOf(s);
    IdsOf(s);
    hide Core, Exact, Restorable, Reopenable, Registered, StoredRows;
  }

  lemma RestoreRegistered(s: State, id: SavepointId)
    requires Registered(s) && id in s.saves && s.w.restored.None?
    ensures Registered(DoRestore(s, id))
  {
    hide Pages, Above, UpTo;
  }

  lemma KeepRestore(s: State, id: SavepointId)
    requires Inv(s) && Enabled(s, Restore(id))
    ensures id in s.saves && Inv(DoRestore(s, id))
  {
    hide Core, Exact, AllRestorable, Reopenable, Registered, Restorable, Replaceable, Gathered, DoRestore;
    RestoreReady(s, id);
    RestorableMeans(s.saves[id], s.w.world);
    CoreRestore(s, id);
    RestoreRestorable(s, id);
    RestoreRegistered(s, id);
    RestoreDurable(s, id);
  }

  lemma RestoreDurable(s: State, id: SavepointId)
    requires id in s.saves
    ensures DoRestore(s, id).durable == s.durable
  {
    hide Pages, Above, UpTo;
  }

  // ----- ending a write transaction -----

  lemma KeepAbort(s: State)
    requires Inv(s) && s.phase.Active? && KeepsRowsRegistered(s)
    ensures Inv(DoAbort(s))
  {
    hide Core, Exact, Restorable, Reopenable;
    CoreAbort(s);
  }

  /** Purging keeps what any valid savepoint can still ask for: none is older than the oldest. */
  lemma PurgeKeeps(t: Table, oldest: Option<Txn>, x: Txn)
    requires oldest.Some? && oldest.value <= x
    ensures Above(Purge(t, oldest), x) == Above(t, x)
  {
  }

  lemma OldestIsLowest(s: State, i: SavepointId)
    requires Ids(s) && i in s.tracker.savepoints
    ensures s.tracker.OldestSavepoint().Some? && s.tracker.OldestSavepoint().value <= s.saves[i].txn
  {
  }

  lemma PrepareRestorable(x: Snapshot, s: State)
    requires Restorable(x, s.w.world, s.w.queued, s.w.tracked) && x.txn < s.w.id
    requires s.tracker.OldestSavepoint().Some? && s.tracker.OldestSavepoint().value <= x.txn
    ensures Restorable(x, DoPrepare(s).w.world, {}, {})
  {
    var v := s.w.world;
    PurgeKeeps(v.dataAlloc + Entries(s.w.id, s.w.tracked), s.tracker.OldestSavepoint(), x.txn);
    AddEntries(v.dataAlloc, s.w.id, s.w.tracked, x.txn);
    AddEntries(v.dataFreed, s.w.id, s.w.queued, x.txn);
    AddOnce(Above(v.dataAlloc, x.txn), s.w.id, s.w.tracked);
    hide Pages, Above, Entries, Purge, Once;
  }

  lemma PrepareAllRestorable(s: State)
    requires AllRestorable(s) && Ids(s) && s.phase.Active?
    requires forall i :: i in s.saves ==> s.saves[i].txn < s.w.id
    ensures AllRestorable(DoPrepare(s))
  {
    var r := DoPrepare(s);
    hide Ids, Restorable, Entries, Purge;
    forall i | i in r.tracker.savepoints && i in r.saves
      ensures Restorable(r.saves[i], r.w.world, r.w.queued, r.w.tracked)
    {
      OldestIsLowest(s, i);
      PrepareRestorable(s.saves[i], s);
    }
  }

  lemma KeepPrepare(s: State)
    requires Inv(s) && Enabled(s, Prepare)
    ensures Inv(DoPrepare(s))
  {
    assert s.latest.id < s.w.id by { TimesOf(s); hide Core, Exact, Dated; }
    HeldOf(s);
    SavesCommitted(s);
    IdsOf(s);
    hide Core, Exact, AllHeld, AllRestorable, Reopenable, Ids, DurableSystem, Entries, Purge;
    CorePrepare(s);
    PrepareAllRestorable(s);
  }

  lemma ProcessRestorable(x: Snapshot, v: World, until: int)
    requires Restorable(x, v, {}, {}) && UpTo(v.dataFreed, until) <= UpTo(v.dataFreed, x.txn)
    ensures Restorable(x, v.(dataFreed := Above(v.dataFreed, until), sysFreed := Above(v.sysFreed, until)), {}, {})
  {
    assert Above(Above(v.dataFreed, until), x.txn) == Above(v.dataFreed, x.txn) by {
      forall e | e in v.dataFreed && e.0 <= until
        ensures e.0 <= x.txn
      {
        assert e in UpTo(v.dataFreed, until);
      }
    }
    hide Pages, Above, UpTo, Once;
  }

  lemma ProcessAllRestorable(s: State)
    requires AllRestorable(s) && Committers(s) && s.w.queued == {} && s.w.tracked == {}
    ensures AllRestorable(DoProcessDurable(s))
  {
    var r := DoProcessDurable(s);
    HoldersWatched(s);
    forall i | i in r.tracker.savepoints && i in r.saves
      ensures Restorable(r.saves[i], r.w.world, r.w.queued, r.w.tracked)
    {
      forall e | e in UpTo(s.w.world.dataFreed, FreeUntil(s) - 1)
        ensures e in UpTo(s.w.world.dataFreed, s.saves[i].txn)
      {
        FreedBeforeWatched(s, s.saves[i].txn, e);
      }
      ProcessRestorable(s.saves[i], s.w.world, FreeUntil(s) - 1);
      hide Restorable, FreeUntil, Committers;
    }
    hide Restorable, Committers, FreeUntil;
  }

  lemma KeepProcessDurable(s: State)
    requires Inv(s) && s.phase.Prepared?
    ensures Inv(DoProcessDurable(s))
  {
    PreparedFacts(s);
    hide Core, Exact, AllRestorable, Reopenable, Committers, FreeUntil;
    CoreProcessDurable(s);
    ProcessAllRestorable(s);
  }

  lemma ReclaimRestorable(x: Snapshot, v: World, d: Table, y: Table)
    requires Restorable(x, v, {}, {}) && forall e :: e in d ==> e.0 <= x.txn
    ensures Restorable(x, v.(dataFreed := v.dataFreed - d, sysFreed := v.sysFreed - y), {}, {})
  {
    assert Above(v.dataFreed - d, x.txn) == Above(v.dataFreed, x.txn);
    hide Pages, Above, UpTo, Once;
  }

  lemma ReclaimAllRestorable(s: State)
    requires AllRestorable(s) && Ids(s) && s.w.queued == {} && s.w.tracked == {}
    ensures AllRestorable(DoProcessNonDurable(s))
  {
    hide DoProcessNonDurable, Restorable, Pages, ReclaimedData, ReclaimedSystem, Ids;
    var r := DoProcessNonDurable(s);
    ReclaimedBounds(s);
    ReclaimShape(s);
    forall i | i in r.tracker.savepoints && i in r.saves
      ensures Restorable(r.saves[i], r.w.world, r.w.queued, r.w.tracked)
    {
      OldestIsLowest(s, i);
      ReclaimRestorable(s.saves[i], s.w.world, ReclaimedData(s), ReclaimedSystem(s));
    }
  }

  lemma KeepProcessNonDurable(s: State)
    requires Inv(s) && s.phase.Prepared?
    ensures Inv(DoProcessNonDurable(s))
  {
    PreparedFacts(s);
    IdsOf(s);
    ReclaimShape(s);
    hide Core, Exact, AllRestorable, Reopenable, Committers, Ids;
    hide FreeUntilNonDurable, DoProcessNonDurable, ReclaimedData, ReclaimedSystem;
    CoreProcessNonDurable(s);
    ReclaimAllRestorable(s);
  }

  lemma CommitRestorable(s: State, quick: bool)
    requires AllRestorable(s) && s.w.queued == {} && s.w.tracked == {}
    ensures AllRestorable(DoCommit(s, quick))
  {
    CommitShape(s, quick);
    var r := DoCommit(s, quick);
    forall i | i in r.tracker.savepoints && i in r.saves
      ensures Restorable(r.saves[i], r.w.world, r.w.queued, r.w.tracked)
    {
      RestorableAnySystem(s.saves[i], s.w.world, r.w.world, {}, {});
      hide Restorable, DoCommit, Stored;
    }
    hide Restorable, DoCommit, Stored, Published;
  }

  /** The new durable commit is in order. */
  lemma CommitOrdered(s: State, quick: bool)
    requires Core(s) && s.phase.Processed? && s.w.durable
    requires forall i :: i in s.w.world.rows ==> s.w.world.rows[i].pages <= Late(s.w.world, s.w.world.rows[i].txn, {})
    ensures Ordered(DoCommit(s, quick).durable)
  {
    ProcessedFacts(s);
    CommitShape(s, quick);
    HeldOf(s);
    SavesCommitted(s);
    IdsOf(s);
    TimesOf(s);
    hide DoCommit;
    assert Apart(DoCommit(s, quick).durable.world, {}, {}) by {
      CoreCommit(s, quick);
      WithinOf(DoCommit(s, quick));
      hide Core, AllHeld, Ids, Times, DurableSystem, Stored, Published, Apart, Places;
    }
    assert Dated(DoCommit(s, quick).durable.world, s.w.id) by { hide Core, AllHeld, Ids, DurableSystem, Apart; }
    hide Core, AllHeld, Times, DurableSystem, Apart, Dated, Stored;
  }

  /** Each stored savepoint of the new commit can be restored from that commit alone. */
  lemma CommitReopenable(s: State, quick: bool)
    requires Core(s) && Registered(s) && AllRestorable(s) && Reopenable(s.durable) && s.phase.Processed?
    ensures Reopenable(DoCommit(s, quick).durable)
  {
    CommitShape(s, quick);
    ProcessedFacts(s);
    if s.w.durable {
      IdsOf(s);
      forall i | i in s.w.world.rows
        ensures Restorable(s.w.world.rows[i], s.w.world, {}, {})
        ensures Restorable(s.w.world.rows[i], DoCommit(s, quick).durable.world, {}, {})
        ensures s.w.world.rows[i].pages <= Late(s.w.world, s.w.world.rows[i].txn, {})
      {
        assert Restorable(s.w.world.rows[i], s.w.world, {}, {}) by { hide Core, Restorable, Reopenable, DoCommit; }
        RestorableAnySystem(s.w.world.rows[i], s.w.world, DoCommit(s, quick).durable.world, {}, {});
        hide Core, Reopenable, DoCommit, Ids, AllRestorable, Late, Pages, Above, Once;
      }
      hide Core, Restorable, DoCommit, Ids, AllRestorable, Late;
      CommitOrdered(s, quick);
    } else {
      hide Reopenable, DoCommit, Core, AllRestorable;
    }
  }

  lemma KeepCommit(s: State, quick: bool)
    requires Inv(s) && s.phase.Processed?
    ensures Inv(DoCommit(s, quick))
  {
    ProcessedFacts(s);
    CommitShape(s, quick);
    hide Core, Exact, AllRestorable, Reopenable, DoCommit, Stored;
    CoreCommit(s, quick);
    CommitRestorable(s, quick);
    CommitReopenable(s, quick);
  }

  lemma KeepFinish(s: State)
    requires Inv(s) && s.phase.Committed?
    ensures Inv(DoFinish(s))
  {
    assert s.w.world == s.latest.world && s.w.queued == {} && s.w.tracked == {} by { FreshOf(s); hide Core, Exact; }
    hide Core, Exact, AllRestorable, Reopenable, Registered, ReleaseAll, Txns, Ids;
    IdsOf(s);
    CoreFinish(s);
    FinishRegistered(s);
    FinishRestorable(s);
  }

  lemma FinishRegistered(s: State)
    requires Registered(s) && Ids(s) && s.w.world == s.latest.world
    ensures Registered(DoFinish(s))
  {
    FinishTracker(s);
    hide ReleaseAll, Txns, StoredRows;
  }

  lemma FinishRestorable(s: State)
    requires AllRestorable(s) && s.w.world == s.latest.world && s.w.queued == {} && s.w.tracked == {}
    ensures AllRestorable(DoFinish(s))
  {
    FinishTracker(s);
    hide ReleaseAll, Txns, Restorable;
  }

  // ----- crash and reopening -----

  lemma KeepCrash(s: State, repaired: bool)
    requires Reopenable(s.durable)
    ensures Inv(Reopened(s.durable, repaired))
  {
    var r := Reopened(s.durable, repaired);
    assert AllRestorable(r) && Registered(r) && Reopenable(r.durable)
      by { hide Count, Restorable, Places, Late, Apart; }
    hide Core, Exact, AllRestorable, Reopenable, Registered, Reopened, Ordered;
    assert Ordered(s.durable) by { OrderedOf(s.durable); }
    CoreCrash(s.durable, repaired);
  }

  lemma OrderedOf(c: Commit)
    requires Reopenable(c)
    ensures Ordered(c)
  {
    hide Ordered, Restorable;
  }
}
