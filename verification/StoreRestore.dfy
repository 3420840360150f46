/**
 What restoring a savepoint gives back, what a commit without readers reclaims, and what a restore
 that is aborted, or that fails, leaves behind.
 */
module StoreRestore {
  import opened Bits
  import opened Tracker
  import opened Store
  import opened StoreInv
  import opened StoreProof
  import opened StoreCommit
  import opened StoreExact
  import opened StoreSafety
  import opened StoreTheorems

  /**
   The data tree is the savepoint's again; exactly the superseded pages are queued, each from one
   allocation entry; exactly the later savepoints become invalid, and none of those is older.
   */
  lemma RestoreGivesBack(s: State, id: SavepointId)
    requires Inv(s) && Enabled(s, Restore(id))
    ensures id in s.saves && Inv(DoRestore(s, id))
    ensures var x, r := s.saves[id], DoRestore(s, id);
      && r.w.world.data == x.pages
      && r.w.queued == Superseded(s, x)
      && Once(Above(s.w.world.dataAlloc, x.txn))
      && x.pages !! r.w.queued && x.pages !! Pages(r.w.world.dataFreed)
      && (forall i :: i in r.tracker.savepoints <==> i in s.tracker.savepoints && i <= id)
      && (forall i :: i in s.tracker.savepoints ==>
            if i in r.tracker.savepoints then s.tracker.savepoints[i] <= x.txn else s.tracker.savepoints[i] >= x.txn)
  {
    hide Inv, Core, Live, Reopenable, Restorable, Ids, DoRestore;
    KeepRestore(s, id);
    RestoreReady(s, id);
    assert Once(Above(s.w.world.dataAlloc, s.saves[id].txn)) by { RestorableOnce(s.saves[id], s.w.world); }
    InvParts(s);
    IdsOf(s);
    RestoreQueue(s, id);
    RestoredRows(s, id);
    RestoredTimes(s, id);
    InvAccounted(DoRestore(s, id));
    hide Pages, Above, Once;
  }

  lemma RestorableOnce(x: Snapshot, v: World)
    requires Restorable(x, v, {}, {})
    ensures Once(Above(v.dataAlloc, x.txn))
  {
    hide Once, Pages, Above, Late;
  }

  /** Which savepoints stay registered, and which stay stored. */
  lemma RestoredRows(s: State, id: SavepointId)
    requires id in s.saves
    ensures var r := DoRestore(s, id);
      && r.w.world.data == s.saves[id].pages && r.latest == s.latest && r.w.durable == s.w.durable && r.phase == s.phase
      && (forall i :: i in r.tracker.savepoints <==> i in s.tracker.savepoints && i <= id)
      && (forall i :: i in r.w.world.rows <==> i in s.w.world.rows && i <= id)
    ensures var r := DoRestoreFails(s, id);
      && r.w.world.data == s.saves[id].pages && r.latest == s.latest && r.w.durable == s.w.durable && r.phase == s.phase
      && r.tracker == DoRestore(s, id).tracker && r.w.world.rows == s.w.world.rows && r.w.deleted == s.w.deleted
  {
    hide Pages, Above, UpTo;
  }

  lemma RestoredTimes(s: State, id: SavepointId)
    requires Ids(s) && id in s.tracker.savepoints && id in s.saves
    ensures forall i :: i in s.tracker.savepoints ==>
              if i <= id then s.tracker.savepoints[i] <= s.saves[id].txn else s.tracker.savepoints[i] >= s.saves[id].txn
  {
    hide StoredRows;
  }

  lemma RestoreQueue(s: State, id: SavepointId)
    requires Inv(s) && Enabled(s, Restore(id)) && id in s.saves
    ensures DoRestore(s, id).w.queued == Superseded(s, s.saves[id])
  {
    RestoreReady(s, id);
    hide Inv, Pages, Above, UpTo, RowsUpTo, Once;
  }

  /** Whatever the tracker has forgotten before, a restore queues superseded pages only. */
  lemma RestoreTakesNothingElse(s: State, id: SavepointId, b: Births, d: Births)
    requires Sound(s, b, d) && Enabled(s, Restore(id))
    ensures id in s.saves
    ensures var x, r := s.saves[id], DoRestore(s, id);
      && r.w.world.data == x.pages
      && r.w.queued <= Superseded(s, x)
      && x.pages !! r.w.queued && x.pages !! Pages(r.w.world.dataFreed)
  {
    hide Sound, Core;
    assert Core(s) by { SoundParts(s, b, d); hide Live, Survives; }
    RestoreBegins(s, id);
    RestoreFinds(s, id, b, d);
    SoundRestore(s, id, b, d);
    SoundParts(DoRestore(s, id), b, d);
    WithinOf(DoRestore(s, id));
    hide Live, Survives, Floor, Pages, Above, UpTo, RowsUpTo, Once;
  }

  /** It queues all of them, and no page gets lost, exactly when each has an allocation entry. */
  lemma RestoreAccountsIff(s: State, id: SavepointId, b: Births, d: Births)
    requires Sound(s, b, d) && Exact(s) && Enabled(s, Restore(id))
    ensures id in s.saves
    ensures Exact(DoRestore(s, id)) <==>
      Superseded(s, s.saves[id]) <= Pages(Above(s.w.world.dataAlloc, s.saves[id].txn))
  {
    hide Sound, Core, Exact, Replaceable, Gathered;
    assert Core(s) by { SoundParts(s, b, d); hide Live, Survives; }
    RestoreBegins(s, id);
    RestoreFinds(s, id, b, d);
    CoreRestore(s, id);
    GatheredIff(s, s.saves[id]);
    hide Superseded;
    if Exact(DoRestore(s, id)) {
      WithinOf(s);
      ExactRestore(s, id);
    }
  }

  lemma ExactRestore(s: State, id: SavepointId)
    requires Within(s.w.world, s.w.queued, s.w.sysQueued, s.post, s.inUse) && s.w.queued == {} && id in s.saves
    requires Exact(DoRestore(s, id)) && Replaceable(s.saves[id], s.w.world)
    ensures Gathered(s.saves[id], s.w.world)
  {
    var x, v, r := s.saves[id], s.w.world, DoRestore(s, id);
    SplitTable(v.dataFreed, x.txn);
    var f, g, a := Pages(UpTo(v.dataFreed, x.txn)), Pages(Above(v.dataFreed, x.txn)), Pages(Above(v.dataAlloc, x.txn));
    assert r.w.queued == a && Pages(r.w.world.dataFreed) == f && r.w.world.data == x.pages && r.w.world.sys == v.sys
      && r.w.world.sysFreed == v.sysFreed;
    hide DoRestore, UpTo, Above, Pages, Once, CanRollBack;
  }

  ghost function Committing(s: State, quick: bool): State
  {
    DoCommit(DoProcessDurable(DoPrepare(s)), quick)
  }

  lemma CommittingKeeps(s: State, quick: bool)
    requires Inv(s) && s.phase.Active?
    ensures Inv(Committing(s, quick))
  {
    KeepPrepare(s);
    var p := DoPrepare(s);
    assert p.phase.Prepared?;
    hide Inv, DoPrepare;
    KeepProcessDurable(p);
    assert DoProcessDurable(p).phase.Processed?;
    hide DoProcessDurable, DoCommit;
    KeepCommit(DoProcessDurable(p), quick);
  }

  /** Once committed, the restored pages are in use and wait in no freed table. */
  lemma RestoredAndCommitted(s: State, id: SavepointId, quick: bool)
    requires Inv(s) && Enabled(s, Restore(id)) && s.w.durable
    ensures id in s.saves
    ensures var x, c := s.saves[id], Committing(DoRestore(s, id), quick);
      && Inv(c)
      && c.latest.world.data == x.pages && c.durable == c.latest
      && x.pages <= c.inUse && x.pages !! Pages(c.latest.world.dataFreed) && x.pages !! Pages(c.latest.world.sysFreed)
        && x.pages !! c.post
  {
    KeepRestore(s, id);
    var r := DoRestore(s, id);
    assert r.phase.Active? && r.w.durable && r.w.world.data == s.saves[id].pages;
    hide Inv, DoRestore, Enabled;
    CommittingKeeps(r, quick);
    var c := Committing(r, quick);
    assert c.latest.world.data == r.w.world.data && c.w.world == c.latest.world && c.durable == c.latest by {
      hide Pages, Above, UpTo, Entries, Purge, FreeUntil, ReleaseAll;
    }
    hide Committing;
    InvAccounted(c);
    hide Pages, Once;
  }

  /** With nothing referenced, a durable commit reclaims every page freed by an earlier transaction. */
  lemma ReclaimsEverything(s: State)
    requires Inv(s) && s.phase.Prepared? && s.tracker.liveReads == map[]
    ensures var r := DoProcessDurable(s);
      && (forall e :: e in r.w.world.dataFreed || e in r.w.world.sysFreed ==> e.0 == s.w.id)
      && r.inUse == r.w.world.data + r.w.world.sys + Pages(r.w.world.dataFreed) + Pages(r.w.world.sysFreed)
        + r.w.sysQueued
  {
    InvParts(s);
    PreparedFacts(s);
    KeepProcessDurable(s);
    var r := DoProcessDurable(s);
    InvAccounted(r);
    hide Live, Reopenable;
    forall e | e in r.w.world.dataFreed || e in r.w.world.sysFreed
      ensures e.0 == s.w.id
    {
      hide Inv, Core, Accounted, Pages, Counted;
    }
    hide Inv, Core, Committers, Pages, FreeUntil, Above, UpTo;
  }

  // ----- whole commits -----

  /** One whole commit of the write transaction, durable or not. */
  ghost function WholeCommit(s: State): State
  {
    DoFinish(DoCommit(Processing(DoPrepare(s)), false))
  }

  lemma PreparedState(s: State)
    ensures var p := DoPrepare(s);
      && p.w == s.w.(world := s.w.world.(dataFreed := p.w.world.dataFreed, dataAlloc := p.w.world.dataAlloc),
                     queued := {}, tracked := {})
      && p.w.world.dataAlloc <= s.w.world.dataAlloc + Entries(s.w.id, s.w.tracked)
      && p.tracker == s.tracker && p.saves == s.saves && p.ephemeral == s.ephemeral && p.phase.Prepared?
  {
    hide Entries;
  }

  ghost function Processing(p: State): State
  {
    if p.w.durable then DoProcessDurable(p) else DoProcessNonDurable(p)
  }

  lemma ProcessingState(p: State)
    ensures var q := Processing(p);
      && q.w == p.w.(world := p.w.world.(dataFreed := q.w.world.dataFreed, sysFreed := q.w.world.sysFreed))
      && q.tracker == p.tracker.(unprocessed := q.tracker.unprocessed) && q.saves == p.saves
      && q.ephemeral == p.ephemeral && q.phase.Processed?
  {
    ReclaimShape(p);
    hide DoProcessNonDurable, FreeUntil, Above, UpTo, Pages;
  }

  lemma FinishedState(c: State)
    requires c.w.deleted == {}
    ensures var r := DoFinish(c);
      && r.phase.Idle? && r.tracker.savepoints == c.tracker.savepoints
        && r.tracker.nextSavepoint == c.tracker.nextSavepoint
      && r.latest == c.latest && r.durable == c.durable && r.w == IdleWriter(c.latest)
      && r.saves == c.saves && r.ephemeral == c.ephemeral
  {
    FinishTracker(c);
    hide ReleaseAll, Txns;
    assert c.tracker.savepoints - {} == c.tracker.savepoints && c.saves - {} == c.saves;
  }

  lemma CommittedState(s: State)
    requires s.w.deleted == {}
    ensures var r := WholeCommit(s);
      && r.phase.Idle? && r.tracker.savepoints == s.tracker.savepoints
        && r.tracker.nextSavepoint == s.tracker.nextSavepoint
      && r.latest.world.data == s.w.world.data && r.latest.world.rows == s.w.world.rows
        && r.latest.world.sys == s.w.world.sys
      && r.w == IdleWriter(r.latest) && (s.w.durable ==> r.durable == r.latest)
      && r.latest.world.dataAlloc <= s.w.world.dataAlloc + Entries(s.w.id, s.w.tracked)
      && r.saves == s.saves && r.ephemeral == s.ephemeral
  {
    hide DoPrepare, Processing, DoFinish, DoCommit, Stored, Entries;
    var p := DoPrepare(s);
    PreparedState(s);
    ProcessingState(p);
    CommitShape(Processing(p), false);
    FinishedState(DoCommit(Processing(p), false));
  }

  lemma CommittedKeeps(s: State)
    requires Inv(s) && s.phase.Active?
    ensures Inv(WholeCommit(s))
  {
    hide Inv, DoPrepare, DoProcessDurable, DoProcessNonDurable, DoCommit, DoFinish, Stored, Published;
    var p := DoPrepare(s);
    KeepPrepare(s);
    PreparedState(s);
    ProcessingState(p);
    if p.w.durable { KeepProcessDurable(p); } else { KeepProcessNonDurable(p); }
    KeepCommit(Processing(p), false);
    CommitShape(Processing(p), false);
    KeepFinish(DoCommit(Processing(p), false));
  }

  // ----- a restore that is aborted, or that fails -----

  /** After an abort every stored savepoint is registered exactly when no stored one is later than the restored one. */
  lemma AbortKeepsRowsIff(s: State)
    requires Inv(s) && s.phase.Active?
    ensures (forall i :: i in DoAbort(s).latest.world.rows ==> i in DoAbort(s).tracker.savepoints) <==>
      KeepsRowsRegistered(s)
  {
    hide Core, Exact, AllRestorable, Reopenable;
    var rows, valid := s.latest.world.rows, s.tracker.savepoints;
    assert DoAbort(s).latest.world.rows == rows && DoAbort(s).tracker.savepoints == valid;
    if s.w.restored.Some? {
      var k := s.w.restored.value;
      assert forall i :: i in rows && i <= k ==> i in valid;
      assert forall i :: i in valid ==> i <= k;
    } else {
      assert forall i :: i in rows ==> i in valid;
    }
  }

  /** In a new database, ephemeral savepoint 1 and stored savepoint 2. */
  ghost function Creating(): State
  {
    DoCreatePersistent(DoCreateEphemeral(DoBeginWrite(Initial(1))))
  }

  /** The same, committed. */
  ghost function TwoSavepoints(): State
  {
    WholeCommit(Creating())
  }

  lemma CreatingKeeps()
    ensures Inv(Creating())
  {
    hide Inv, Initial, DoCreateEphemeral, DoCreatePersistent, DoBeginWrite, Enabled;
    InitialInv(1);
    BeginningState(1);
    KeepBeginWrite(Initial(1));
    KeepCreateEphemeral(DoBeginWrite(Initial(1)));
    KeepCreatePersistent(DoCreateEphemeral(DoBeginWrite(Initial(1))));
  }

  lemma BeginningState(id: Txn)
    ensures Initial(id).phase.Idle?
    ensures var b := DoBeginWrite(Initial(id));
      Enabled(b, CreateEphemeral) && Enabled(DoCreateEphemeral(b), CreatePersistent)
  {
    hide Count, Txns;
  }

  lemma CreatingState()
    ensures var c := Creating();
      && c.phase.Active? && c.w.durable && c.w.deleted == {}
      && c.tracker.savepoints.Keys == {1, 2} && c.w.world.rows.Keys == {2} && c.ephemeral == {1}
  {
    var a := Initial(1);
    assert a.tracker.nextSavepoint == 0 && a.tracker.savepoints == map[] && a.latest.world.rows == map[]
      && a.ephemeral == {};
    hide Initial;
    var b := DoCreateEphemeral(DoBeginWrite(a));
    assert b.tracker.savepoints.Keys == {1} && b.tracker.nextSavepoint == 1 && b.w.world.rows.Keys == {}
      && b.w.deleted == {} && b.w.durable && b.phase.Active? && b.ephemeral == {1};
    hide DoCreateEphemeral, DoBeginWrite;
  }

  lemma TwoSavepointsReached()
    ensures var s := TwoSavepoints();
      s.phase.Idle? && s.tracker.savepoints.Keys == {1, 2} && s.latest.world.rows.Keys == {2} && s.ephemeral == {1}
  {
    hide Creating, WholeCommit;
    CreatingState();
    CommittedState(Creating());
  }

  lemma TwoSavepointsKeeps()
    ensures Inv(TwoSavepoints())
  {
    hide Inv, Creating, WholeCommit;
    CreatingKeeps();
    CreatingState();
    CommittedKeeps(Creating());
  }

  lemma BegunState(a: State)
    ensures var s := DoBeginWrite(a);
      && s.phase.Active? && s.latest == a.latest && s.w == IdleWriter(a.latest).(id := s.w.id) && s.saves == a.saves
      && s.tracker.savepoints == a.tracker.savepoints && s.tracker.nextSavepoint == a.tracker.nextSavepoint
      && s.inUse == a.inUse && s.uncommitted == a.uncommitted && s.durable == a.durable && s.ephemeral == a.ephemeral
  {
  }

  lemma SavesRegistered(s: State)
    requires Inv(s)
    ensures s.tracker.savepoints.Keys <= s.saves.Keys
  {
    hide Core, Live, Reopenable, Inv;
    InvParts(s);
    assert Ids(s) by { hide Ids; IdsOf(s); }
    hide StoredRows;
  }

  /** Restoring savepoint 1 and aborting: savepoint 2 is still stored, but the tracker has forgotten it. */
  lemma AbortedRestoreForgets()
    ensures var s := DoBeginWrite(TwoSavepoints());
      && Inv(s) && Enabled(s, Restore(1)) && 1 in s.saves
      && var r := DoAbort(DoRestore(s, 1));
         2 in r.latest.world.rows && 2 !in r.tracker.savepoints
  {
    hide TwoSavepoints, Inv, DoRestore, DoBeginWrite;
    var a := TwoSavepoints();
    TwoSavepointsReached();
    TwoSavepointsKeeps();
    KeepBeginWrite(a);
    BegunState(a);
    SavesRegistered(DoBeginWrite(a));
    RestoredRows(DoBeginWrite(a), 1);
  }

  /** An attempt to restore: with later savepoints stored and no durability it stops half way. */
  ghost function Attempt(s: State, id: SavepointId): State
    requires id in s.saves
  {
    if MayDeleteLaterRows(s, id) then DoRestore(s, id) else DoRestoreFails(s, id)
  }

  /** It leaves every stored savepoint registered exactly when the transaction is durable or none is later. */
  lemma AttemptKeepsRowsIff(s: State, id: SavepointId)
    requires Inv(s) && Restoring(s, id)
    ensures id in s.saves
    ensures var r := Attempt(s, id);
      (forall i :: i in r.w.world.rows ==> i in r.tracker.savepoints) <==>
        s.w.durable || forall i :: i in s.w.world.rows ==> i <= id
  {
    hide Core, Exact, AllRestorable, Reopenable, Restorable, DoRestore, DoRestoreFails;
    assert s.w.world.rows.Keys <= s.tracker.savepoints.Keys;
    SavesRegistered(s);
    RestoredRows(s, id);
    if !MayDeleteLaterRows(s, id) {
      var i :| i in s.w.world.rows && i > id;
      assert i in Attempt(s, id).w.world.rows && i !in Attempt(s, id).tracker.savepoints;
    }
  }

  ghost function NonDurable(s: State): State
  {
    s.(w := s.w.(durable := false))
  }

  /**
   In a non-durable transaction, with savepoint 2 stored after savepoint 1, restoring 1 is refused
   after it has been done: 2 stays stored, unknown to the tracker, whether the transaction is then
   aborted or committed.
   */
  lemma HalfRestoreForgets()
    ensures var s := NonDurable(DoBeginWrite(TwoSavepoints()));
      && Inv(s) && Enabled(s, RestoreFails(1)) && 1 in s.saves
      && var r := DoRestoreFails(s, 1);
         && (2 in DoAbort(r).latest.world.rows && 2 !in DoAbort(r).tracker.savepoints)
         && (2 in WholeCommit(r).latest.world.rows && 2 !in WholeCommit(r).tracker.savepoints)
  {
    hide TwoSavepoints, Inv, DoRestore, DoRestoreFails, DoBeginWrite, WholeCommit;
    var a := TwoSavepoints();
    TwoSavepointsReached();
    TwoSavepointsKeeps();
    KeepBeginWrite(a);
    BegunState(a);
    KeepSetDurability(DoBeginWrite(a), false);
    var s := NonDurable(DoBeginWrite(a));
    SavesRegistered(s);
    RestoredRows(s, 1);
    CommittedState(DoRestoreFails(s, 1));
  }

  /** One more write transaction, not knowing the stored savepoint, then a crash and the restore of it. */
  ghost function LaterCommit(s: State, p: Page): State
  {
    DoCommitDurable(DoProcessDurable(DoPrepare(DoMutate(DoOpenTable(DoBeginWrite(s)), {p}, {}))), false)
  }

  lemma LaterCommitWorld(s: State, p: Page)
    requires s.phase.Idle? && s.w == IdleWriter(s.latest) && s.tracker.savepoints == map[] && s.uncommitted == {}
    ensures var v := LaterCommit(s, p).durable.world;
      && v.data == s.latest.world.data + {p} && v.sys == s.latest.world.sys && v.dataAlloc == {}
        && v.rows == s.latest.world.rows
      && v.dataFreed <= s.latest.world.dataFreed && v.sysFreed <= s.latest.world.sysFreed
  {
    hide FreeUntil;
    var m := DoMutate(DoOpenTable(DoBeginWrite(s)), {p}, {});
    assert m.w.queued == {} && m.w.tracked == {} && m.w.sysQueued == {}
      && m.w.world == s.latest.world.(data := s.latest.world.data + {p});
    assert m.tracker.OldestSavepoint() == None;
    hide DoMutate, DoOpenTable, DoBeginWrite;
    var q := DoPrepare(m);
    assert Entries(m.w.id, {}) == {};
    assert q.w.world == m.w.world.(dataAlloc := {});
    hide DoPrepare, Purge;
    assert Entries(DoProcessDurable(q).w.id, {}) == {};
  }

  /** A stored savepoint the tracker has forgotten cannot be restored without losing pages. */
  lemma ForgottenSavepointLeaks(s: State, i: SavepointId, p: Page)
    requires s.phase.Idle? && s.w == IdleWriter(s.latest) && s.tracker.savepoints == map[] && s.uncommitted == {}
    requires i in s.latest.world.rows && s.latest.world.rows[i].pages <= s.inUse
    requires Places(s.latest.world, {}, {}) <= s.inUse && p !in s.inUse
    ensures var b := DoBeginWrite(Reopened(LaterCommit(s, p).durable, false));
      && Enabled(b, Restore(i)) && i in b.saves
      && var r := DoRestore(b, i);
         p in r.inUse && p !in Places(r.w.world, r.w.queued, r.w.sysQueued) + r.post
  {
    LaterCommitWorld(s, p);
    hide LaterCommit;
    LeakedAfter(s.latest.world, s.inUse, LaterCommit(s, p).durable, i, p);
  }

  lemma LeakedAfter(v: World, inUse: set<Page>, c: Commit, i: SavepointId, p: Page)
    requires i in v.rows && v.rows[i].pages <= inUse && Places(v, {}, {}) <= inUse && p !in inUse
    requires c.world.data == v.data + {p} && c.world.sys == v.sys && c.world.dataAlloc == {} && c.world.rows == v.rows
    requires c.world.dataFreed <= v.dataFreed && c.world.sysFreed <= v.sysFreed
    ensures var b := DoBeginWrite(Reopened(c, false));
      && Enabled(b, Restore(i)) && i in b.saves
      && var r := DoRestore(b, i);
         p in r.inUse && p !in Places(r.w.world, r.w.queued, r.w.sysQueued) + r.post
  {
    var b := DoBeginWrite(Reopened(c, false));
    ReopenedBegun(c);
    hide Reopened, DoBeginWrite;
    var r, x := DoRestore(b, i), c.world.rows[i];
    assert r.inUse == Places(c.world, {}, {}) && r.post == {} && r.w.sysQueued == {};
    assert Above(c.world.dataAlloc, x.txn) == {};
    assert r.w.queued == {};
    assert r.w.world.data == x.pages && r.w.world.sys == v.sys;
    assert UpTo(c.world.dataFreed, x.txn) <= v.dataFreed;
    assert Pages(r.w.world.dataFreed) <= Pages(v.dataFreed) && Pages(r.w.world.sysFreed) <= Pages(v.sysFreed);
  }

  lemma ReopenedBegun(c: Commit)
    ensures var b := DoBeginWrite(Reopened(c, false));
      && b.phase.Active? && !b.w.tablesOpen && b.w.restored.None? && b.w.durable && b.saves == c.world.rows
        && b.tracker.savepoints.Keys == c.world.rows.Keys
      && b.inUse == Places(c.world, {}, {}) && b.post == {} && b.w.sysQueued == {} && b.w.queued == {}
        && b.w.world == c.world
  {
    hide Count;
  }
}
