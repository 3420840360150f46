/**
 What every step up to the end of a write transaction keeps, whatever becomes of stored savepoints.
 */
module StoreProof {
  import opened Tracker
  import opened Store
  import opened StoreInv

  // ----- tables -----

  lemma PagesUnion(a: Table, b: Table)
    ensures Pages(a + b) == Pages(a) + Pages(b)
  {
  }

  lemma PagesEntries(x: Txn, ps: set<Page>)
    ensures Pages(Entries(x, ps)) == ps
  {
    forall p | p in ps
      ensures p in Pages(Entries(x, ps))
    {
      assert (x, p) in Entries(x, ps);
    }
  }

  lemma SplitTable(t: Table, x: int)
    ensures Pages(t) == Pages(UpTo(t, x)) + Pages(Above(t, x))
    ensures Once(t) ==> Pages(UpTo(t, x)) !! Pages(Above(t, x))
    ensures Once(t) ==> Once(UpTo(t, x)) && Once(Above(t, x))
  {
    assert UpTo(t, x) + Above(t, x) == t;
    PagesUnion(UpTo(t, x), Above(t, x));
  }

  lemma AddEntries(t: Table, w: Txn, ps: set<Page>, x: int)
    requires w > x
    ensures UpTo(t + Entries(w, ps), x) == UpTo(t, x)
    ensures Above(t + Entries(w, ps), x) == Above(t, x) + Entries(w, ps)
    ensures Pages(Above(t + Entries(w, ps), x)) == Pages(Above(t, x)) + ps
  {
    PagesUnion(Above(t, x), Entries(w, ps));
    PagesEntries(w, ps);
  }

  lemma AddOnce(t: Table, w: Txn, ps: set<Page>)
    requires Once(t) && Pages(t) !! ps
    ensures Once(t + Entries(w, ps)) && Pages(t + Entries(w, ps)) == Pages(t) + ps
  {
    PagesUnion(t, Entries(w, ps));
    PagesEntries(w, ps);
    forall a, b | a in t + Entries(w, ps) && b in t + Entries(w, ps) && a.1 == b.1
      ensures a == b
    {
      assert a in t ==> a.1 in Pages(t);
      assert b in t ==> b.1 in Pages(t);
    }
  }

  lemma DatedLater(v: World, a: Txn, b: Txn)
    requires Dated(v, a) && a <= b
    ensures Dated(v, b)
  {
  }

  // ----- readers -----

  /** A step that only changes which readers hold references. */
  lemma CoreReaders(s: State, r: State)
    requires Core(s) && r == s.(readers := r.readers, tracker := s.tracker.(liveReads := r.tracker.liveReads))
    requires forall h :: h in r.readers ==> Held(s, r.readers[h])
    requires Counted(r)
    ensures Core(r)
  {
    hide Within, Safe, Persisted, Dated, StoredRows, Counted, Fresh;
    assert AllHeld(r) by { hide Ids, Times, DurableSystem; }
    assert Fresh(r) by { KeepFresh(s, r); }
  }

  lemma KeepFresh(s: State, r: State)
    requires Fresh(s) && r == s.(readers := r.readers, saves := r.saves, tracker := r.tracker, ephemeral := r.ephemeral)
    requires s.tracker.savepoints == map[] ==> r.tracker.savepoints == map[]
    ensures Fresh(r)
  {
  }

  lemma CoreBeginRead(s: State, h: nat)
    requires Core(s) && h !in s.readers
    ensures Core(DoBeginRead(s, h)) && (Exact(s) ==> Exact(DoBeginRead(s, h)))
  {
    hide Held, Fresh, Times, Ids, DurableSystem, Within, Accounted;
    var r := DoBeginRead(s, h);
    AcquireRefs(s.tracker, s.latest.id);
    CountAdd(Txns(s.readers), h, s.latest.id);
    assert Txns(r.readers) == Txns(s.readers)[h := s.latest.id];
    CoreReaders(s, r);
  }

  lemma CoreEndRead(s: State, h: nat)
    requires Core(s) && h in s.readers
    ensures s.tracker.Refs(s.readers[h].txn) > 0
    ensures Core(DoEndRead(s, h)) && (Exact(s) ==> Exact(DoEndRead(s, h)))
  {
    hide Held, Fresh, Times, Ids, DurableSystem, Within, Accounted;
    CountPositive(Txns(s.readers), h);
    var r := DoEndRead(s, h);
    ReleaseRefs(s.tracker, s.readers[h].txn);
    CountRemove(Txns(s.readers), h);
    assert Txns(r.readers) == Txns(s.readers) - {h};
    CoreReaders(s, r);
  }

  // ----- the write transaction -----

  lemma CoreBeginWrite(s: State)
    requires Core(s) && s.phase.Idle?
    ensures Core(DoBeginWrite(s)) && (Exact(s) ==> Exact(DoBeginWrite(s)))
  {
    hide Safe, Dated, StoredRows, Apart, Counted;
    var r := DoBeginWrite(s);
    DatedLater(s.latest.world, s.latest.id, r.w.id);
    assert AllHeld(r) by { hide Ids, Times, DurableSystem, Within; }
    assert Counted(r) by { KeepCounted(s, r); }
  }

  lemma KeepCounted(s: State, r: State)
    requires Counted(s) && r.tracker.liveReads == s.tracker.liveReads && r.tracker.pending == s.tracker.pending
    requires r.readers == s.readers && r.saves == s.saves
    ensures Counted(r)
  {
    forall t
      ensures r.tracker.Refs(t) == Count(Txns(r.readers), t) + Count(Txns(r.saves), t) + Count(r.tracker.pending, t)
    {
      assert s.tracker.Refs(t) == Count(Txns(s.readers), t) + Count(Txns(s.saves), t) + Count(s.tracker.pending, t);
    }
  }

  lemma CoreOpenTable(s: State)
    requires Core(s) && s.phase.Active?
    ensures Core(DoOpenTable(s)) && (Exact(s) ==> Exact(DoOpenTable(s)))
  {
    hide Within, Accounted, Safe, Dated, StoredRows, Counted;
    var r := DoOpenTable(s);
    assert AllHeld(r) by { hide Fresh, Ids, Times, DurableSystem; }
    assert Fresh(r);
    assert Counted(r) by { KeepCounted(s, r); }
  }

  /**
   Held snapshots lie in pages already in use, so neither new pages nor the freeing of uncommitted
   ones touch them.
   */
  lemma HeldWhileMutating(s: State, r: State, x: Snapshot, alloc: set<Page>, gone: set<Page>)
    requires Held(s, x) && alloc !! s.inUse && gone <= s.uncommitted
    requires r.inUse == s.inUse - gone + alloc && r.uncommitted == s.uncommitted - gone + alloc
    requires r.w.world == s.w.world.(data := r.w.world.data, sys := r.w.world.sys)
    requires r.w.world.sys <= s.w.world.sys + alloc && r.w.sysQueued <= s.w.sysQueued + s.w.world.sys
    requires r.latest == s.latest && r.phase == s.phase && r.post == s.post
    requires r.tracker == s.tracker && r.unpersisted == s.unpersisted
    ensures Held(r, x)
  {
  }

  lemma AllHeldWhileMutating(s: State, r: State, alloc: set<Page>, gone: set<Page>)
    requires AllHeld(s) && alloc !! s.inUse && gone <= s.uncommitted
    requires r.inUse == s.inUse - gone + alloc && r.uncommitted == s.uncommitted - gone + alloc
    requires r.w.world == s.w.world.(data := r.w.world.data, sys := r.w.world.sys)
    requires r.w.world.sys <= s.w.world.sys + alloc && r.w.sysQueued <= s.w.sysQueued + s.w.world.sys
    requires r.latest == s.latest && r.phase == s.phase && r.post == s.post
    requires r.tracker == s.tracker && r.unpersisted == s.unpersisted
    requires r.readers == s.readers && r.saves == s.saves && r.durable == s.durable
    ensures AllHeld(r)
  {
    forall x | Held(s, x)
      ensures Held(r, x)
    {
      HeldWhileMutating(s, r, x, alloc, gone);
    }
    hide Held;
  }

  lemma WithinWhileMutating(v: World, inUse: set<Page>, uncommitted: set<Page>, alloc: set<Page>, gone: set<Page>)
    requires Within(v, {}, {}, uncommitted, inUse) && alloc !! inUse && gone <= uncommitted
    ensures Within(v, {}, {}, uncommitted - gone + alloc, inUse - gone + alloc)
    ensures Accounted(v, {}, {}, uncommitted, inUse) ==>
      Accounted(v, {}, {}, uncommitted - gone + alloc, inUse - gone + alloc)
  {
    hide Apart, Pages;
  }

  lemma AccountMutate(s: State, alloc: set<Page>, drop: set<Page>)
    requires Within(s.w.world, s.w.queued, s.w.sysQueued, s.post, s.inUse)
    requires alloc !! s.inUse && drop <= s.w.world.data
    ensures var r := DoMutate(s, alloc, drop);
      && Within(r.w.world, r.w.queued, r.w.sysQueued, r.post, r.inUse)
      && (Accounted(s.w.world, s.w.queued, s.w.sysQueued, s.post, s.inUse) ==>
            Accounted(r.w.world, r.w.queued, r.w.sysQueued, r.post, r.inUse))
  {
    hide Pages, Once;
  }

  lemma MutateRest(s: State, alloc: set<Page>, drop: set<Page>)
    requires Fresh(s) && Times(s) && Ids(s) && Enabled(s, Mutate(alloc, drop))
    requires s.uncommitted <= s.w.world.data + s.w.world.sys
    requires s.w.world.data !! s.w.world.sys && alloc !! s.w.world.sys
    ensures Fresh(DoMutate(s, alloc, drop)) && Times(DoMutate(s, alloc, drop)) && Ids(DoMutate(s, alloc, drop))
  {
    hide StoredRows;
  }

  lemma MutateDurable(s: State, r: State, alloc: set<Page>, gone: set<Page>)
    requires DurableSystem(s) && alloc !! s.inUse && gone <= s.uncommitted
    requires r.inUse == s.inUse - gone + alloc && r.uncommitted == s.uncommitted - gone + alloc
    requires r.w.world.dataFreed == s.w.world.dataFreed && r.w.world.sysFreed == s.w.world.sysFreed
    requires r.latest == s.latest && r.phase == s.phase && r.post == s.post && r.unpersisted == s.unpersisted
      && r.durable == s.durable
    ensures DurableSystem(r)
  {
    hide Pages, UpTo;
  }

  lemma TreesApart(v: World, queued: set<Page>, sysQueued: set<Page>, post: set<Page>, inUse: set<Page>)
    requires Within(v, queued, sysQueued, post, inUse)
    ensures v.data !! v.sys && v.data <= inUse && v.sys <= inUse
  {
    hide Pages, Once;
  }

  lemma CoreMutate(s: State, alloc: set<Page>, drop: set<Page>)
    requires Core(s) && Enabled(s, Mutate(alloc, drop))
    ensures Core(DoMutate(s, alloc, drop)) && (Exact(s) ==> Exact(DoMutate(s, alloc, drop)))
  {
    assert s.uncommitted <= s.w.world.data + s.w.world.sys by {
      hide Within, AllHeld, DurableSystem, Times, Ids, Counted;
    }
    hide Within, Accounted, Fresh, AllHeld, DurableSystem, Times, Ids, Counted;
    var r := DoMutate(s, alloc, drop);
    var gone := drop * s.uncommitted;
    AccountMutate(s, alloc, drop);
    TreesApart(s.w.world, s.w.queued, s.w.sysQueued, s.post, s.inUse);
    WithinWhileMutating(s.latest.world, s.inUse, s.uncommitted, alloc, gone);
    AllHeldWhileMutating(s, r, alloc, gone);
    MutateRest(s, alloc, drop);
    MutateDurable(s, r, alloc, gone);
    KeepCounted(s, r);
  }

  lemma AccountMutateSystem(s: State, alloc: set<Page>, drop: set<Page>)
    requires Within(s.w.world, s.w.queued, s.w.sysQueued, s.post, s.inUse)
    requires alloc !! s.inUse && drop <= s.w.world.sys
    ensures var r := DoMutateSystem(s, alloc, drop);
      && Within(r.w.world, r.w.queued, r.w.sysQueued, r.post, r.inUse)
      && (Accounted(s.w.world, s.w.queued, s.w.sysQueued, s.post, s.inUse) ==>
            Accounted(r.w.world, r.w.queued, r.w.sysQueued, r.post, r.inUse))
  {
    hide Pages, Once;
  }

  lemma MutateSystemRest(s: State, alloc: set<Page>, drop: set<Page>)
    requires Fresh(s) && Times(s) && Ids(s) && Enabled(s, MutateSystem(alloc, drop))
    requires s.w.world.data !! s.w.world.sys && alloc !! s.w.world.data
    ensures Fresh(DoMutateSystem(s, alloc, drop)) && Times(DoMutateSystem(s, alloc, drop))
      && Ids(DoMutateSystem(s, alloc, drop))
  {
    hide StoredRows;
  }

  lemma CoreMutateSystem(s: State, alloc: set<Page>, drop: set<Page>)
    requires Core(s) && Enabled(s, MutateSystem(alloc, drop))
    ensures Core(DoMutateSystem(s, alloc, drop)) && (Exact(s) ==> Exact(DoMutateSystem(s, alloc, drop)))
  {
    hide Within, Accounted, Fresh, AllHeld, DurableSystem, Times, Ids, Counted;
    var r := DoMutateSystem(s, alloc, drop);
    var gone := drop * s.uncommitted;
    AccountMutateSystem(s, alloc, drop);
    TreesApart(s.w.world, s.w.queued, s.w.sysQueued, s.post, s.inUse);
    if CanRollBack(s.phase) {
      WithinWhileMutating(s.latest.world, s.inUse, s.uncommitted, alloc, gone);
    }
    AllHeldWhileMutating(s, r, alloc, gone);
    MutateSystemRest(s, alloc, drop);
    MutateDurable(s, r, alloc, gone);
    KeepCounted(s, r);
  }

  // ----- savepoints -----

  lemma CountedSave(s: State, r: State, id: SavepointId, x: Snapshot)
    requires Counted(s) && id !in s.saves
    requires r.tracker.liveReads == Acquire(s.tracker, x.txn).liveReads && r.tracker.pending == s.tracker.pending
    requires r.readers == s.readers && r.saves == s.saves[id := x]
    ensures Counted(r)
  {
    AcquireRefs(s.tracker, x.txn);
    CountAdd(Txns(s.saves), id, x.txn);
    assert Txns(r.saves) == Txns(s.saves)[id := x.txn];
    forall t
      ensures r.tracker.Refs(t) == Acquire(s.tracker, x.txn).Refs(t)
    {
    }
  }

  /** The state once the tracker has registered a new savepoint of the committed tree. */
  ghost function WithSave(s: State, ephemeral: set<SavepointId>): State
  {
    DoCreateEphemeral(s).(ephemeral := ephemeral)
  }

  lemma NewSaveHeld(s: State, ephemeral: set<SavepointId>)
    requires AllHeld(s)
    ensures AllHeld(WithSave(s, ephemeral))
  {
    hide Safe, Persisted;
    var r := WithSave(s, ephemeral);
    forall x | Held(s, x)
      ensures Held(r, x)
    {
    }
    hide Held;
  }

  lemma NewSaveIds(s: State, ephemeral: set<SavepointId>)
    requires Ids(s) && forall i :: i in s.saves ==> s.saves[i].txn <= s.latest.id
    requires ephemeral == s.ephemeral || ephemeral == s.ephemeral + {s.tracker.nextSavepoint + 1}
    ensures Ids(WithSave(s, ephemeral))
  {
  }

  lemma SavesCommitted(s: State)
    requires AllHeld(s)
    ensures forall i :: i in s.saves ==> s.saves[i].txn <= s.latest.id
  {
    hide Safe, Persisted;
  }

  lemma CoreNewSave(s: State, ephemeral: set<SavepointId>)
    requires Core(s) && s.phase.Active? && !s.w.dirty
    requires ephemeral == s.ephemeral || ephemeral == s.ephemeral + {s.tracker.nextSavepoint + 1}
    ensures Core(WithSave(s, ephemeral)) && (Exact(s) ==> Exact(WithSave(s, ephemeral)))
  {
    var r := WithSave(s, ephemeral);
    SavesCommitted(s);
    assert forall i :: i in s.saves ==> i <= s.tracker.nextSavepoint by {
      hide Fresh, AllHeld, Within, DurableSystem, Times, Counted, StoredRows;
    }
    assert Fresh(r) by { hide AllHeld, Within, DurableSystem, Times, Counted, Ids; }
    hide Within, Accounted, Counted, Fresh, AllHeld, DurableSystem, Times, Ids;
    NewSaveHeld(s, ephemeral);
    NewSaveIds(s, ephemeral);
    KeepTimes(s, r);
    KeepDurableSystem(s, r);
    CountedSave(s, r, r.tracker.nextSavepoint, Root(s.latest));
  }

  lemma CoreCreateEphemeral(s: State)
    requires Core(s) && Enabled(s, CreateEphemeral)
    ensures Core(DoCreateEphemeral(s)) && (Exact(s) ==> Exact(DoCreateEphemeral(s)))
  {
    hide Core, Exact;
    CoreNewSave(s, s.ephemeral + {s.tracker.nextSavepoint + 1});
  }

  /** A step that only rewrites the stored savepoint rows. */
  lemma CoreRows(s: State, r: State)
    requires Core(s)
    requires r == s.(w := s.w.(world := s.w.world.(rows := r.w.world.rows, nextRow := r.w.world.nextRow),
                               created := r.w.created, deleted := r.w.deleted, dirty := true))
    requires s.phase.Active? && Ids(r)
    ensures Core(r) && (Exact(s) ==> Exact(r))
  {
    hide Pages, Counted, Ids, Once;
    assert AllHeld(r) by { hide DurableSystem, Fresh, Within; }
    assert Counted(r) by { KeepCounted(s, r); }
  }

  lemma CreatePersistentIds(s: State)
    requires Ids(s) && s.w.durable && forall i :: i in s.saves ==> s.saves[i].txn <= s.latest.id
    ensures Ids(DoCreatePersistent(s))
  {
  }

  lemma CoreCreatePersistent(s: State)
    requires Core(s) && Enabled(s, CreatePersistent)
    ensures Core(DoCreatePersistent(s)) && (Exact(s) ==> Exact(DoCreatePersistent(s)))
  {
    SavesCommitted(s);
    hide Within, Fresh, AllHeld, DurableSystem, Times, Ids, Counted, Exact;
    CoreNewSave(s, s.ephemeral);
    CreatePersistentIds(s);
    CoreRows(WithSave(s, s.ephemeral), DoCreatePersistent(s));
  }

  lemma CoreDeletePersistent(s: State, id: SavepointId)
    requires Core(s) && Enabled(s, DeletePersistent(id))
    ensures Core(DoDeletePersistent(s, id)) && (Exact(s) ==> Exact(DoDeletePersistent(s, id)))
  {
    hide Within, Accounted, Pages, Counted, AllHeld, DurableSystem;
    CoreRows(s, DoDeletePersistent(s, id));
  }

  lemma DropHeld(s: State, r: State)
    requires AllHeld(s)
    requires r == s.(tracker := r.tracker, saves := r.saves, ephemeral := r.ephemeral)
    requires r.tracker.pending == s.tracker.pending
    requires forall i :: i in r.saves ==> i in s.saves && r.saves[i] == s.saves[i]
    ensures AllHeld(r)
  {
    hide Safe, Persisted;
    forall x | Held(s, x)
      ensures Held(r, x)
    {
    }
    hide Held;
  }

  lemma DropCounted(s: State, id: SavepointId)
    requires Counted(s) && id in s.saves
    ensures s.tracker.Refs(s.saves[id].txn) > 0 && Counted(DoDropEphemeral(s, id))
  {
    CountPositive(Txns(s.saves), id);
    var r := DoDropEphemeral(s, id);
    ReleaseRefs(s.tracker, s.saves[id].txn);
    CountRemove(Txns(s.saves), id);
    assert Txns(r.saves) == Txns(s.saves) - {id};
    forall t
      ensures r.tracker.Refs(t) == Release(s.tracker, s.saves[id].txn).Refs(t)
    {
    }
  }

  lemma DropIds(s: State, id: SavepointId)
    requires Ids(s) && id in s.ephemeral && s.tracker.Refs(s.saves[id].txn) > 0
    ensures Ids(DoDropEphemeral(s, id))
  {
  }

  lemma EphemeralSaved(s: State)
    requires Ids(s)
    ensures s.ephemeral <= s.saves.Keys
  {
  }

  lemma KeepTimes(s: State, r: State)
    requires Times(s) && r == s.(tracker := r.tracker, readers := r.readers, saves := r.saves, ephemeral := r.ephemeral)
    requires r.tracker.pending == s.tracker.pending && r.tracker.nextTxn == s.tracker.nextTxn
    ensures Times(r)
  {
    hide Dated;
  }

  lemma KeepDurableSystem(s: State, r: State)
    requires DurableSystem(s) && r == s.(tracker := r.tracker, readers := r.readers, saves := r.saves,
                                         ephemeral := r.ephemeral)
    ensures DurableSystem(r)
  {
    hide Pages, UpTo;
  }

  lemma CoreDropEphemeral(s: State, id: SavepointId)
    requires Core(s) && Enabled(s, DropEphemeral(id))
    ensures id in s.saves && s.tracker.Refs(s.saves[id].txn) > 0
    ensures Core(DoDropEphemeral(s, id)) && (Exact(s) ==> Exact(DoDropEphemeral(s, id)))
  {
    hide Within, Accounted, Counted, Dated, AllHeld, Ids, Fresh, DurableSystem, Times;
    EphemeralSaved(s);
    DropCounted(s, id);
    var r := DoDropEphemeral(s, id);
    assert Times(r) by { KeepTimes(s, r); }
    assert DurableSystem(r) by { KeepDurableSystem(s, r); }
    assert forall i :: i in r.saves ==> i in s.saves && r.saves[i] == s.saves[i];
    DropHeld(s, r);
    DropIds(s, id);
    KeepFresh(s, r);
  }

  lemma CoreSetDurability(s: State, immediate: bool)
    requires Core(s) && Enabled(s, SetDurability(immediate))
    ensures var r := s.(w := s.w.(durable := immediate)); Core(r) && (Exact(s) ==> Exact(r))
  {
    hide Within, Accounted, Pages, Safe, Dated, Counted;
    var r := s.(w := s.w.(durable := immediate));
    assert AllHeld(r) by { hide Ids, DurableSystem, Fresh; }
    assert Counted(r) by { KeepCounted(s, r); }
  }

  // ----- restoring a savepoint -----

  ghost function RestoredWorld(v: World, x: Snapshot, rows: map<SavepointId, Snapshot>): World
  {
    v.(data := x.pages, dataFreed := UpTo(v.dataFreed, x.txn), rows := rows)
  }

  /** What both a restore and one that stops half way do, up to the stored savepoints. */
  ghost function Rewound(s: State, id: SavepointId, rows: map<SavepointId, Snapshot>, deleted: set<SavepointId>,
                         half: bool): State
    requires id in s.saves
  {
    var r := DoRestore(s, id);
    r.(w := r.w.(world := RestoredWorld(s.w.world, s.saves[id], rows), deleted := deleted, halfRestored := half))
  }

  lemma RestoresAreRewound(s: State, id: SavepointId)
    requires id in s.saves
    ensures var later := set i | i in s.w.world.rows && i > id;
      DoRestore(s, id) == Rewound(s, id, RowsUpTo(s.w.world.rows, id), s.w.deleted + later, s.w.halfRestored)
    ensures DoRestoreFails(s, id) == Rewound(s, id, s.w.world.rows, s.w.deleted, true)
  {
  }

  /** Every page in the tree or freed after the savepoint is its own or has an allocation entry. */
  ghost predicate Gathered(x: Snapshot, v: World)
  {
    x.pages + Pages(Above(v.dataAlloc, x.txn)) == Late(v, x.txn, {})
  }

  lemma GatheredIff(s: State, x: Snapshot)
    requires Replaceable(x, s.w.world)
    ensures Gathered(x, s.w.world) <==> Superseded(s, x) <= Pages(Above(s.w.world.dataAlloc, x.txn))
  {
    hide Pages, Above;
  }

  /** Restoring moves pages between places and doubles none; it loses none if the savepoint's law is exact. */
  lemma AccountRestore(v: World, x: Snapshot, rows: map<SavepointId, Snapshot>, sysQueued: set<Page>, post: set<Page>,
                       inUse: set<Page>)
    requires Within(v, {}, sysQueued, post, inUse) && Replaceable(x, v)
    ensures var u, a := RestoredWorld(v, x, rows), Pages(Above(v.dataAlloc, x.txn));
      && Within(u, a, sysQueued, post, inUse)
      && (Accounted(v, {}, sysQueued, post, inUse) && Gathered(x, v) ==> Accounted(u, a, sysQueued, post, inUse))
  {
    SplitTable(v.dataFreed, x.txn);
    hide Pages, Above, UpTo, Once;
    var f, g, a := Pages(UpTo(v.dataFreed, x.txn)), Pages(Above(v.dataFreed, x.txn)), Pages(Above(v.dataAlloc, x.txn));
    assert x.pages + a <= v.data + g;
    assert x.pages !! f && a !! f;
  }

  lemma SafeRestore(y: Snapshot, v: World, x: Snapshot, rows: map<SavepointId, Snapshot>, sysQueued: set<Page>,
                    post: set<Page>, inUse: set<Page>, uncommitted: set<Page>)
    requires Safe(y, v, sysQueued, post, inUse, uncommitted)
    ensures Safe(y, RestoredWorld(v, x, rows), sysQueued, post, inUse, uncommitted)
  {
    assert UpTo(UpTo(v.dataFreed, x.txn), y.txn) <= UpTo(v.dataFreed, y.txn);
  }

  lemma RewindHeld(s: State, id: SavepointId, rows: map<SavepointId, Snapshot>, deleted: set<SavepointId>, half: bool)
    requires AllHeld(s) && id in s.saves
    ensures AllHeld(Rewound(s, id, rows, deleted, half))
  {
    var r := Rewound(s, id, rows, deleted, half);
    forall y | Held(s, y)
      ensures Held(r, y)
    {
      SafeRestore(y, s.w.world, s.saves[id], rows, s.w.sysQueued, s.post, s.inUse, s.uncommitted);
      hide Safe, RestoredWorld;
    }
    hide Held, RestoredWorld;
  }

  lemma RewindFresh(s: State, id: SavepointId, rows: map<SavepointId, Snapshot>, deleted: set<SavepointId>, half: bool)
    requires Fresh(s) && Restoring(s, id) && id in s.saves
    requires s.saves[id].pages !! s.uncommitted && s.latest.world.data !! s.uncommitted
    ensures s.w.queued == {} && s.w.tracked == {} && Fresh(Rewound(s, id, rows, deleted, half))
  {
    hide Pages, Above, UpTo;
  }

  lemma RewindTimes(s: State, id: SavepointId, rows: map<SavepointId, Snapshot>, deleted: set<SavepointId>, half: bool)
    requires Times(s) && s.phase.Active? && id in s.saves
    ensures Times(Rewound(s, id, rows, deleted, half))
  {
  }

  lemma RewindDurableSystem(s: State, id: SavepointId, rows: map<SavepointId, Snapshot>, deleted: set<SavepointId>,
                            half: bool)
    requires DurableSystem(s) && id in s.saves
    ensures DurableSystem(Rewound(s, id, rows, deleted, half))
  {
    var x := s.saves[id].txn;
    assert UpTo(UpTo(s.w.world.dataFreed, x), s.durable.id) <= UpTo(s.w.world.dataFreed, s.durable.id);
  }

  lemma CoreRewind(s: State, id: SavepointId, rows: map<SavepointId, Snapshot>, deleted: set<SavepointId>, half: bool)
    requires Core(s) && Restoring(s, id) && id in s.saves && Replaceable(s.saves[id], s.w.world)
    requires Ids(Rewound(s, id, rows, deleted, half))
    ensures var r := Rewound(s, id, rows, deleted, half);
      && Core(r)
      && (Exact(s) && Gathered(s.saves[id], s.w.world) ==> Exact(r))
  {
    assert s.saves[id].pages !! s.uncommitted && s.latest.world.data !! s.uncommitted by {
      hide Within, Fresh, DurableSystem, Times, Ids, Counted, Pages, UpTo, Replaceable, Rewound;
    }
    hide Within, Accounted, Fresh, AllHeld, DurableSystem, Times, Ids, Counted, Replaceable;
    hide RestoredWorld, Pages, Above, UpTo, RowsUpTo;
    var r := Rewound(s, id, rows, deleted, half);
    RewindFresh(s, id, rows, deleted, half);
    AccountRestore(s.w.world, s.saves[id], rows, s.w.sysQueued, s.post, s.inUse);
    assert r.w.queued == Pages(Above(s.w.world.dataAlloc, s.saves[id].txn));
    RewindHeld(s, id, rows, deleted, half);
    RewindTimes(s, id, rows, deleted, half);
    RewindDurableSystem(s, id, rows, deleted, half);
    KeepCounted(s, r);
  }

  lemma RestoreIds(s: State, id: SavepointId)
    requires Ids(s) && Enabled(s, Restore(id)) && id in s.saves
    ensures Ids(DoRestore(s, id))
  {
    var r := DoRestore(s, id);
    if r.w.created == {} && r.w.deleted == {} {
      assert RowsUpTo(s.w.world.rows, id) == s.w.world.rows by {
        assert forall i :: i in s.w.world.rows && i > id ==> i in r.w.deleted;
      }
    }
  }

  lemma CoreRestore(s: State, id: SavepointId)
    requires Core(s) && Enabled(s, Restore(id)) && id in s.saves && Replaceable(s.saves[id], s.w.world)
    ensures var r, x := DoRestore(s, id), s.saves[id];
      && Core(r)
      && (Exact(s) && Gathered(x, s.w.world) ==> Exact(r))
  {
    RestoresAreRewound(s, id);
    hide Within, Fresh, AllHeld, DurableSystem, Times, Ids, Counted, Replaceable, Exact, Rewound, DoRestore, Gathered;
    RestoreIds(s, id);
    var later := set i | i in s.w.world.rows && i > id;
    CoreRewind(s, id, RowsUpTo(s.w.world.rows, id), s.w.deleted + later, s.w.halfRestored);
  }

  lemma RestoreFailsIds(s: State, id: SavepointId)
    requires Ids(s) && Restoring(s, id) && id in s.saves
    ensures Ids(DoRestoreFails(s, id))
  {
    hide StoredRows;
  }

  lemma CoreRestoreFails(s: State, id: SavepointId)
    requires Core(s) && Enabled(s, RestoreFails(id)) && id in s.saves && Replaceable(s.saves[id], s.w.world)
    ensures var r := DoRestoreFails(s, id); Core(r) && (Exact(s) && Gathered(s.saves[id], s.w.world) ==> Exact(r))
  {
    RestoresAreRewound(s, id);
    hide Within, Fresh, AllHeld, DurableSystem, Times, Ids, Counted, Replaceable, Exact, Rewound, DoRestoreFails,
         Gathered;
    RestoreFailsIds(s, id);
    CoreRewind(s, id, s.w.world.rows, s.w.deleted, true);
  }
}
