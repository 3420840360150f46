/**
 Whole runs that go wrong. An aborted restore makes the tracker forget a stored savepoint, and
 restoring that one later leaves pages in use and in no place. A transaction that commits after a
 restore of its own has failed leaves later stored savepoints on another timeline, and restoring one
 of them takes pages from the earlier ones.
 */
module StoreTimeline {
  import opened Tracker
  import opened Store
  import opened StoreInv
  import opened StoreProof
  import opened StoreCommit
  import opened StoreExact
  import opened StoreTheorems
  import opened StoreRestore

  // ----- whole commits as runs -----

  lemma CommittedReached(s: State)
    requires Core(s) && s.phase.Active?
    ensures Core(WholeCommit(s)) && Reaches(s, WholeCommit(s))
  {
    hide Core, Exact, Reaches, Live, DoPrepare, DoProcessDurable, DoProcessNonDurable, DoCommitDurable,
         DoCommitNonDurable, DoFinish;
    var p := DoPrepare(s);
    CorePrepare(s);
    PreparedState(s);
    CoreLive(s);
    ReachesStep(s, Prepare);
    ProcessedReached(p);
    var q := Processing(p);
    ReachesOn(s, p, q);
    var c := DoCommit(q, false);
    CoreLive(q);
    CoreCommit(q, false);
    ReachesStep(q, CommitMemory(false));
    ReachesOn(s, q, c);
    CommitShape(q, false);
    hide DoCommit, Stored, Published;
    CoreLive(c);
    CoreFinish(c);
    ReachesStep(c, Finish);
    ReachesOn(s, c, DoFinish(c));
  }

  lemma ProcessedReached(p: State)
    requires Core(p) && p.phase.Prepared?
    ensures Core(Processing(p)) && Processing(p).phase.Processed? && Reaches(p, Processing(p))
  {
    hide Core, Exact, Reaches, Live, DoProcessDurable, DoProcessNonDurable;
    ProcessingState(p);
    CoreLive(p);
    ReachesStep(p, Process);
    if p.w.durable { CoreProcessDurable(p); } else { CoreProcessNonDurable(p); }
  }

  // ----- from a failed restore to a lost page -----

  /** The savepoint restored half way, and the transaction committed all the same. */
  ghost function HalfRestored(s: State, a: SavepointId): State
    requires a in s.saves
  {
    WholeCommit(DoRestoreFails(NonDurable(DoBeginWrite(s)), a))
  }

  /** A later stored savepoint keeps the restore from finishing. */
  ghost predicate Blocked(s: State, a: SavepointId)
  {
    && s.phase.Idle? && a in s.tracker.savepoints && a in s.saves
    && exists j :: j in s.latest.world.rows && j > a
  }

  lemma FailedRestoreReached(s: State, a: SavepointId)
    requires Inv(s) && Blocked(s, a)
    ensures var r := DoRestoreFails(NonDurable(DoBeginWrite(s)), a);
      && Core(r) && Reaches(s, r) && r.phase.Active? && r.w.deleted == {} && r.w.tracked == {}
      && r.w.world.data == s.saves[a].pages && r.w.world.rows == s.latest.world.rows
        && r.w.world.dataAlloc == s.latest.world.dataAlloc
  {
    hide Inv, Core, Live, Reopenable, Reaches, Restorable, Replaceable, Gathered, DoBeginWrite, DoRestoreFails,
         DoRestore;
    InvParts(s);
    var b := DoBeginWrite(s);
    ReachesStep(s, BeginWrite);
    KeepBeginWrite(s);
    BegunState(s);
    InvParts(b);
    ReachesStep(b, SetDurability(false));
    KeepSetDurability(b, false);
    var n := NonDurable(b);
    ReachesOn(s, b, n);
    InvParts(n);
    RestoreReady(n, a);
    RestorableMeans(n.saves[a], n.w.world);
    CoreRestoreFails(n, a);
    ReachesStep(n, RestoreFails(a));
    ReachesOn(s, n, DoRestoreFails(n, a));
    RestoredRows(n, a);
    FailedWriter(n, a);
  }

  lemma FailedWriter(s: State, a: SavepointId)
    requires a in s.saves
    ensures var r := DoRestoreFails(s, a); r.w.tracked == s.w.tracked && r.w.world.dataAlloc == s.w.world.dataAlloc
  {
    hide Pages, Above, UpTo;
  }

  lemma HalfRestoredReached(s: State, a: SavepointId)
    requires Inv(s) && Blocked(s, a)
    ensures var h := HalfRestored(s, a);
      && Core(h) && Reaches(s, h) && h.phase.Idle?
      && h.latest.world.data == s.saves[a].pages && h.latest.world.rows == s.latest.world.rows
      && h.latest.world.dataAlloc <= s.latest.world.dataAlloc
  {
    hide Inv, Core, Reaches, DoBeginWrite, DoRestoreFails, WholeCommit;
    BegunState(s);
    FailedRestoreReached(s, a);
    var r := DoRestoreFails(NonDurable(DoBeginWrite(s)), a);
    CommittedReached(r);
    CommittedState(r);
    ReachesOn(s, r, WholeCommit(r));
  }

  /** An empty durable transaction puts everything committed before it on disk. */
  lemma MadeDurable(h: State)
    requires Core(h) && h.phase.Idle?
    ensures var g := WholeCommit(DoBeginWrite(h));
      && Core(g) && Reaches(h, g) && g.phase.Idle? && g.w == IdleWriter(g.latest) && g.durable == g.latest
      && g.latest.world.data == h.latest.world.data && g.latest.world.rows == h.latest.world.rows
      && g.latest.world.dataAlloc <= h.latest.world.dataAlloc
  {
    hide Core, Exact, Live, Reaches, DoBeginWrite, WholeCommit;
    CoreLive(h);
    var b := DoBeginWrite(h);
    ReachesStep(h, BeginWrite);
    CoreBeginWrite(h);
    BegunState(h);
    CommittedReached(b);
    CommittedState(b);
    ReachesOn(h, b, WholeCommit(b));
  }

  /** A savepoint restored after reopening, the restore committed, and a crash. */
  ghost function RestoredOnDisk(c: Commit, j: SavepointId): State
    requires j in c.world.rows
  {
    Reopened(Committing(DoRestore(DoBeginWrite(Reopened(c, false)), j), false).durable, false)
  }

  lemma LiveReopened(c: Commit)
    ensures Live(Reopened(c, false)) && Reopened(c, false).tracker.pending == map[] && Reopened(c, false).phase.Idle?
  {
    ReopenedCounted(c, false);
    var r := Reopened(c, false);
    forall i | i in r.saves
      ensures r.tracker.Refs(r.saves[i].txn) > 0
    {
      CountPositive(Txns(r.saves), i);
    }
    hide Count, Places;
  }

  lemma LiveOn(s: State, r: State)
    requires Live(s) && r.saves == s.saves && r.readers == s.readers && r.ephemeral == s.ephemeral
    requires (forall t :: r.tracker.Refs(t) == s.tracker.Refs(t))
      && r.tracker.savepoints.Keys <= s.tracker.savepoints.Keys
    ensures Live(r)
  {
    forall h | h in r.readers
      ensures r.tracker.Refs(r.readers[h].txn) > 0
    {
      assert s.tracker.Refs(s.readers[h].txn) > 0;
    }
    forall i | i in r.saves
      ensures r.tracker.Refs(r.saves[i].txn) > 0
    {
      assert s.tracker.Refs(s.saves[i].txn) > 0;
    }
  }

  lemma RestoredOnDiskReached(c: Commit, j: SavepointId)
    requires j in c.world.rows
    ensures Reaches(Reopened(c, false), RestoredOnDisk(c, j))
  {
    hide Live, Reaches, Reopened, DoBeginWrite, DoRestore, DoPrepare, DoProcessDurable, DoCommitDurable;
    var o := Reopened(c, false);
    LiveReopened(c);
    var b := DoBeginWrite(o);
    ReopenedBegun(c);
    BegunTracker(o);
    LiveOn(o, b);
    ReachesStep(o, BeginWrite);
    var r := DoRestore(b, j);
    ReachesStep(b, Restore(j));
    RestoredTracker(b, j);
    LiveOn(b, r);
    ReachesOn(o, b, r);
    CommittingReached(r);
    ReachesOn(o, r, Committing(r, false));
    LiveCommitting(r);
    ReachesStep(Committing(r, false), Crash(false));
    ReachesOn(o, Committing(r, false), RestoredOnDisk(c, j));
  }

  lemma BegunTracker(s: State)
    ensures var b := DoBeginWrite(s);
      && b.tracker.liveReads == s.tracker.liveReads && b.tracker.pending == s.tracker.pending
      && b.readers == s.readers && b.ephemeral == s.ephemeral && b.saves == s.saves
        && b.tracker.savepoints == s.tracker.savepoints
  {
  }

  lemma RestoredTracker(s: State, j: SavepointId)
    requires j in s.saves
    ensures var r := DoRestore(s, j);
      && r.tracker.liveReads == s.tracker.liveReads && r.tracker.pending == s.tracker.pending && r.readers == s.readers
      && r.ephemeral == s.ephemeral && r.saves == s.saves && r.tracker.savepoints.Keys <= s.tracker.savepoints.Keys
      && r.phase == s.phase && r.w.durable == s.w.durable
  {
    hide Pages, Above, UpTo;
  }

  /** The states between, for a durable transaction without pending commits before it. */
  lemma CommittingTracker(s: State)
    requires s.w.durable && s.tracker.pending == map[]
    ensures var p := DoPrepare(s); var q := DoProcessDurable(p); var c := Committing(s, false);
      && p.tracker == s.tracker && q.tracker == s.tracker && c.tracker.savepoints == s.tracker.savepoints
      && (forall t :: c.tracker.Refs(t) == s.tracker.Refs(t))
      && p.saves == q.saves == c.saves == s.saves && p.readers == q.readers == c.readers == s.readers
      && p.ephemeral == q.ephemeral == c.ephemeral == s.ephemeral
      && p.phase.Prepared? && q.phase.Processed? && p.w.durable && q.w.durable
  {
    hide Pages, Above, UpTo, Entries, Purge, FreeUntil, ReleaseAll;
    ReleaseNone(s.tracker);
    var c := Committing(s, false);
    forall t
      ensures c.tracker.Refs(t) == s.tracker.Refs(t)
    {
      assert c.tracker.Refs(t) == ReleaseAll(s.tracker, map[]).Refs(t);
    }
  }

  lemma ReleaseNone(t: TrackerState)
    ensures forall k :: ReleaseAll(t, map[]).Refs(k) == t.Refs(k)
    ensures ReleaseAll(t, map[]).savepoints == t.savepoints
  {
    forall k
      ensures ReleaseAll(t, map[]).Refs(k) == t.Refs(k)
    {
      CountEmpty(k);
    }
  }

  lemma CommittingReached(s: State)
    requires Live(s) && s.phase.Active? && s.w.durable && s.tracker.pending == map[]
    ensures Reaches(s, Committing(s, false))
  {
    hide Live, Reaches, DoPrepare, DoProcessDurable, DoCommitDurable;
    CommittingTracker(s);
    var p := DoPrepare(s);
    var q := DoProcessDurable(p);
    ReachesStep(s, Prepare);
    LiveOn(s, p);
    ReachesStep(p, Process);
    LiveOn(s, q);
    ReachesOn(s, p, q);
    ReachesStep(q, CommitMemory(false));
    ReachesOn(s, q, Committing(s, false));
  }

  lemma LiveCommitting(s: State)
    requires Live(s) && s.w.durable && s.tracker.pending == map[]
    ensures Live(Committing(s, false))
  {
    hide Live, DoPrepare, DoProcessDurable, DoCommitDurable, DoCommit;
    CommittingTracker(s);
    LiveOn(s, Committing(s, false));
  }

  /** What the restore and its commit leave of the pages that were there. */
  lemma RestoredPlaces(b: State, j: SavepointId, q: Page)
    requires j in b.saves && b.w.queued == {} && b.w.sysQueued == {} && b.w.durable
    requires q !in b.saves[j].pages && q !in b.w.world.sys && q !in Pages(b.w.world.dataFreed)
      && q !in Pages(b.w.world.sysFreed)
    requires q !in Pages(Above(b.w.world.dataAlloc, b.saves[j].txn))
    ensures var v := Committing(DoRestore(b, j), false).durable.world;
      q !in Places(v, {}, {}) && forall i :: i in b.w.world.rows && i <= j ==>
        i in v.rows && v.rows[i] == b.w.world.rows[i]
  {
    var r, x, u := DoRestore(b, j), b.saves[j], b.w.world;
    assert r.w.world.data == x.pages && r.w.world.sys == u.sys && r.w.world.sysFreed == u.sysFreed
      && r.w.world.dataFreed <= u.dataFreed
           && r.w.queued == Pages(Above(u.dataAlloc, x.txn)) && r.w.sysQueued == {}
             && r.w.durable by { hide Pages, Above; }
    assert forall i :: i in u.rows && i <= j ==> i in r.w.world.rows && r.w.world.rows[i] == u.rows[i];
    assert q !in Pages(r.w.world.dataFreed);
    hide DoRestore;
    var p := DoPrepare(r);
    assert p.w.world == r.w.world.(dataFreed := r.w.world.dataFreed + Entries(r.w.id, r.w.queued),
                                   dataAlloc := p.w.world.dataAlloc)
           && p.w.sysQueued == {} && p.w.durable by { hide Pages, Above, Entries, Purge; }
    assert q !in Pages(p.w.world.dataFreed) by {
      PagesUnion(r.w.world.dataFreed, Entries(r.w.id, r.w.queued));
      PagesEntries(r.w.id, r.w.queued);
      hide Pages, Above, Entries, DoPrepare;
    }
    hide DoPrepare, Purge;
    var t := DoProcessDurable(p);
    assert t.w.world == p.w.world.(dataFreed := t.w.world.dataFreed, sysFreed := t.w.world.sysFreed)
      && t.w.sysQueued == {} && t.w.durable by {
      hide Pages, Above, Entries, FreeUntil;
    }
    assert t.w.world.dataFreed <= p.w.world.dataFreed
      && t.w.world.sysFreed <= p.w.world.sysFreed by { hide Pages, Entries, FreeUntil; }
    assert q !in Pages(t.w.world.dataFreed) && q !in Pages(t.w.world.sysFreed);
    hide DoProcessDurable, Entries;
    CommitShape(t, false);
    assert Stored(t, false) == {};
    assert Entries(t.w.id, {}) == {} by { PagesEntries(t.w.id, {}); EntriesNone(t.w.id); }
    hide DoCommit, Pages;
  }

  lemma EntriesNone(id: Txn)
    ensures Entries(id, {}) == {}
  {
  }

  /** The restored savepoint's commit drops a page that only an earlier stored savepoint and the other timeline hold. */
  lemma OtherTimelineLoses(c: Commit, a: SavepointId, j: SavepointId, q: Page)
    requires Apart(c.world, {}, {}) && a in c.world.rows && j in c.world.rows && a < j
    requires q in c.world.data && q in c.world.rows[a].pages && q !in c.world.rows[j].pages
    requires q !in Pages(Above(c.world.dataAlloc, c.world.rows[j].txn))
    ensures var z := RestoredOnDisk(c, j); a in z.saves && q in z.saves[a].pages && q !in z.inUse
  {
    var b := DoBeginWrite(Reopened(c, false));
    ReopenedBegun(c);
    assert q !in c.world.sys && q !in Pages(c.world.dataFreed) && q !in Pages(c.world.sysFreed) by { hide Pages, Once; }
    hide Reopened, DoBeginWrite, DoRestore, Apart, Pages, Above, Committing, Places;
    RestoredPlaces(b, j, q);
    ReopenedBegun(Committing(DoRestore(b, j), false).durable);
    BegunState(RestoredOnDisk(c, j));
    BegunInUse(RestoredOnDisk(c, j));
  }

  lemma BegunInUse(s: State)
    ensures DoBeginWrite(s).inUse == s.inUse && DoBeginWrite(s).saves == s.saves
  {
  }

  /**
   Wherever two savepoints are stored, and the earlier holds a page the later does not: if a
   non-durable transaction commits after failing to restore the earlier one, and the later one is
   restored after reopening, the next crash finds that page free although the earlier savepoint is
   still stored with it.
   */
  lemma CommittedHalfRestoreLoses(s: State, a: SavepointId, j: SavepointId, q: Page)
    requires Inv(s) && s.phase.Idle? && a in s.latest.world.rows && j in s.latest.world.rows && a < j
    requires q in s.latest.world.rows[a].pages && q !in s.latest.world.rows[j].pages
    ensures exists z :: Reaches(s, z) && Live(z) && a in z.saves && q in z.saves[a].pages && q !in z.inUse
  {
    StoredAndRegistered(s, a, j, q);
    hide Inv, Core, Live, Reaches, HalfRestored, WholeCommit, DoBeginWrite, RestoredOnDisk, Apart, Pages, Above;
    HalfRestoredReached(s, a);
    var h := HalfRestored(s, a);
    MadeDurable(h);
    var g := WholeCommit(DoBeginWrite(h));
    ReachesOn(s, h, g);
    var c := g.durable;
    assert Apart(c.world, {}, {}) by { WithinOf(g); hide Places; }
    assert q !in Pages(Above(c.world.dataAlloc, c.world.rows[j].txn)) by {
      FewerAllocated(c.world.dataAlloc, s.latest.world.dataAlloc, c.world.rows[j].txn, q);
    }
    OtherTimelineLoses(c, a, j, q);
    CrashReached(g);
    RestoredOnDiskReached(c, j);
    ReachesOn(s, g, Reopened(c, false));
    ReachesOn(s, Reopened(c, false), RestoredOnDisk(c, j));
    LiveOnDisk(c, j);
  }

  lemma LiveOnDisk(c: Commit, j: SavepointId)
    requires j in c.world.rows
    ensures Live(RestoredOnDisk(c, j))
  {
    ReopenedBegun(c);
    hide Live, Reopened, DoBeginWrite, DoRestore, Committing;
    LiveReopened(Committing(DoRestore(DoBeginWrite(Reopened(c, false)), j), false).durable);
  }

  lemma CrashReached(g: State)
    requires Core(g)
    ensures Reaches(g, Reopened(g.durable, false))
  {
    hide Core, Live, Reaches, Reopened;
    CoreLive(g);
    ReachesStep(g, Crash(false));
  }

  lemma FewerAllocated(t: Table, u: Table, x: Txn, q: Page)
    requires t <= u && q !in Pages(Above(u, x))
    ensures q !in Pages(Above(t, x))
  {
    assert Above(t, x) <= Above(u, x);
  }

  lemma StoredAndRegistered(s: State, a: SavepointId, j: SavepointId, q: Page)
    requires Inv(s) && s.phase.Idle? && a in s.latest.world.rows && j in s.latest.world.rows && a < j
    requires q in s.latest.world.rows[a].pages
    ensures Blocked(s, a) && s.saves[a] == s.latest.world.rows[a]
    ensures q !in Pages(Above(s.latest.world.dataAlloc, s.latest.world.rows[j].txn))
  {
    hide Core, Exact, Restorable, Reopenable;
    FreshOf(s);
    assert s.w == IdleWriter(s.latest) by { hide AllRestorable; }
    assert Ids(s) by { IdsOf(s); hide Ids; }
    assert a in s.tracker.savepoints && a in s.saves && s.saves[a] == s.latest.world.rows[a];
    assert s.latest.world.rows[a].txn <= s.latest.world.rows[j].txn;
    assert Restorable(s.saves[a], s.latest.world, {}, {});
    hide Ids, Fresh;
    RestorableMeans(s.saves[a], s.latest.world);
    assert Above(s.latest.world.dataAlloc, s.latest.world.rows[j].txn) <= Above(s.latest.world.dataAlloc,
            s.saves[a].txn);
    assert q !in Pages(Above(s.latest.world.dataAlloc, s.saves[a].txn)) by { hide Pages, Above; }
  }

  // ----- such a database is reached -----

  ghost function Edited(s: State, alloc: set<Page>, drop: set<Page>): State
  {
    DoMutate(DoOpenTable(DoBeginWrite(s)), alloc, drop)
  }

  lemma EditedState(s: State, alloc: set<Page>, drop: set<Page>)
    ensures var t := DoOpenTable(DoBeginWrite(s)); var r := Edited(s, alloc, drop);
      && t.phase.Active? && t.w.tablesOpen && t.inUse == s.inUse && t.w.world == s.latest.world
      && r.phase.Active? && r.w.deleted == {} && r.w.durable
      && r.w.world.data == s.latest.world.data - drop + alloc && r.w.world.rows == s.latest.world.rows
      && r.tracker.nextSavepoint == s.tracker.nextSavepoint
  {
    BegunState(s);
    hide DoBeginWrite;
  }

  lemma EditReached(s: State, alloc: set<Page>, drop: set<Page>)
    requires Inv(s) && s.phase.Idle? && alloc !! s.inUse && drop <= s.latest.world.data
    ensures var r := WholeCommit(Edited(s, alloc, drop));
      && Inv(r) && Reaches(s, r) && r.phase.Idle?
      && r.latest.world.data == s.latest.world.data - drop + alloc && r.latest.world.rows == s.latest.world.rows
      && r.tracker.nextSavepoint == s.tracker.nextSavepoint
  {
    hide Inv, Core, Live, Reopenable, Reaches, DoBeginWrite, DoOpenTable, DoMutate, WholeCommit;
    EditedState(s, alloc, drop);
    BegunState(s);
    var b := DoBeginWrite(s);
    var t := DoOpenTable(b);
    var m := DoMutate(t, alloc, drop);
    InvParts(s);
    KeepBeginWrite(s);
    ReachesStep(s, BeginWrite);
    InvParts(b);
    KeepOpenTable(b);
    ReachesStep(b, OpenTable);
    ReachesOn(s, b, t);
    InvParts(t);
    KeepMutate(t, alloc, drop);
    ReachesStep(t, Mutate(alloc, drop));
    ReachesOn(s, t, m);
    InvParts(m);
    CommittedKeeps(m);
    CommittedReached(m);
    CommittedState(m);
    ReachesOn(s, m, WholeCommit(m));
  }

  lemma SavedState(b: State)
    ensures var r := DoCreatePersistent(b);
      && r.phase == b.phase && r.w.deleted == b.w.deleted && r.w.durable == b.w.durable
        && r.w.world.data == b.w.world.data
      && r.w.world.rows == b.w.world.rows[b.tracker.nextSavepoint + 1 := Snapshot(b.latest.id, b.latest.world.data)]
      && r.tracker.nextSavepoint == b.tracker.nextSavepoint + 1
  {
  }

  lemma SaveReached(s: State)
    requires Inv(s) && s.phase.Idle?
    ensures var r := WholeCommit(DoCreatePersistent(DoBeginWrite(s)));
      && Inv(r) && Reaches(s, r) && r.phase.Idle? && r.latest.world.data == s.latest.world.data
      && r.latest.world.rows == s.latest.world.rows[s.tracker.nextSavepoint + 1 :=
          Snapshot(s.latest.id, s.latest.world.data)]
      && r.tracker.nextSavepoint == s.tracker.nextSavepoint + 1
  {
    hide Inv, Core, Live, Reopenable, Reaches, DoBeginWrite, DoCreatePersistent, WholeCommit;
    BegunState(s);
    var b := DoBeginWrite(s);
    SavedState(b);
    var m := DoCreatePersistent(b);
    InvParts(s);
    KeepBeginWrite(s);
    ReachesStep(s, BeginWrite);
    InvParts(b);
    KeepCreatePersistent(b);
    ReachesStep(b, CreatePersistent);
    ReachesOn(s, b, m);
    InvParts(m);
    CommittedKeeps(m);
    CommittedReached(m);
    CommittedState(m);
    ReachesOn(s, m, WholeCommit(m));
  }

  lemma InitialState(id: Txn)
    ensures var s := Initial(id);
      && s.phase.Idle? && s.inUse == {} && s.latest.world.data == {} && s.latest.world.rows == map[]
        && s.tracker.nextSavepoint == 0
  {
    hide Count;
  }

  /** A page written, savepoint 1 stored, the page dropped, savepoint 2 stored. */
  lemma TwoTimelinesReached(q: Page) returns (s: State)
    ensures Inv(s) && Reaches(Initial(1), s) && s.phase.Idle?
    ensures 1 in s.latest.world.rows && 2 in s.latest.world.rows
    ensures q in s.latest.world.rows[1].pages && q !in s.latest.world.rows[2].pages
  {
    hide Inv, Reaches, Initial, WholeCommit, Edited, DoCreatePersistent, DoBeginWrite;
    var i := Initial(1);
    InitialInv(1);
    InitialState(1);
    EditReached(i, {q}, {});
    var a := WholeCommit(Edited(i, {q}, {}));
    SaveReached(a);
    var b := WholeCommit(DoCreatePersistent(DoBeginWrite(a)));
    ReachesOn(i, a, b);
    EditReached(b, {}, {q});
    var c := WholeCommit(Edited(b, {}, {q}));
    ReachesOn(i, b, c);
    SaveReached(c);
    s := WholeCommit(DoCreatePersistent(DoBeginWrite(c)));
    ReachesOn(i, c, s);
  }

  /** So there is a run of a new database at whose end a stored savepoint lacks a page. */
  lemma HalfRestoreLosesInARun()
    ensures exists ss: seq<State>, es: seq<Event> ::
              LiveRun(ss, es) && 1 in ss[|es|].saves && !(ss[|es|].saves[1].pages <= ss[|es|].inUse)
  {
    hide Inv, Live, Reaches, Follows, Initial;
    var s := TwoTimelinesReached(7);
    CommittedHalfRestoreLoses(s, 1, 2, 7);
    var z :| Reaches(s, z) && Live(z) && 1 in z.saves && 7 in z.saves[1].pages && 7 !in z.inUse;
    ReachesOn(Initial(1), s, z);
    ReachedByRun(1, z);
    var ss, es :| LiveRun(ss, es) && ss[|es|] == z;
    assert !(z.saves[1].pages <= z.inUse);
  }

  // ----- a forgotten savepoint -----

  lemma TwoSavepointsInARun()
    ensures Reaches(Initial(1), TwoSavepoints())
  {
    hide Inv, Core, Live, Reopenable, Reaches, Initial, DoBeginWrite, DoCreateEphemeral, DoCreatePersistent,
         WholeCommit;
    var i := Initial(1);
    InitialInv(1);
    BeginningState(1);
    var b := DoBeginWrite(i);
    InvParts(i);
    KeepBeginWrite(i);
    ReachesStep(i, BeginWrite);
    InvParts(b);
    KeepCreateEphemeral(b);
    ReachesStep(b, CreateEphemeral);
    var e := DoCreateEphemeral(b);
    ReachesOn(i, b, e);
    InvParts(e);
    KeepCreatePersistent(e);
    ReachesStep(e, CreatePersistent);
    ReachesOn(i, e, Creating());
    InvParts(Creating());
    CreatingState();
    CommittedReached(Creating());
    ReachesOn(i, Creating(), TwoSavepoints());
  }

  /** Savepoint 1 restored and the restore aborted. */
  lemma AbortedReached() returns (a: State)
    ensures Core(a) && Reaches(Initial(1), a) && a.phase.Idle? && a.tracker.savepoints.Keys == {1}
    ensures a.ephemeral == {1} && 2 in a.latest.world.rows
  {
    hide Inv, Core, Exact, Live, Reopenable, Reaches, Initial, TwoSavepoints, DoBeginWrite, DoRestore;
    hide Restorable, Replaceable, Gathered;
    var t := TwoSavepoints();
    TwoSavepointsInARun();
    TwoSavepointsReached();
    TwoSavepointsKeeps();
    InvParts(t);
    var s := DoBeginWrite(t);
    KeepBeginWrite(t);
    BegunState(t);
    ReachesStep(t, BeginWrite);
    ReachesOn(Initial(1), t, s);
    InvParts(s);
    RestoreReady(s, 1);
    RestorableMeans(s.saves[1], s.w.world);
    CoreRestore(s, 1);
    ReachesStep(s, Restore(1));
    var r := DoRestore(s, 1);
    ReachesOn(Initial(1), s, r);
    RestoredRows(s, 1);
    RestoredTracker(s, 1);
    CoreLive(r);
    CoreAbort(r);
    ReachesStep(r, Abort);
    a := DoAbort(r);
    ReachesOn(Initial(1), r, a);
    AbortedState(r);
  }

  lemma AbortedState(r: State)
    ensures var a := DoAbort(r);
      a.phase.Idle? && a.tracker.savepoints == r.tracker.savepoints && a.ephemeral == r.ephemeral
        && a.latest == r.latest
  {
  }

  lemma DroppedState(a: State)
    requires 1 in a.saves && a.tracker.Refs(a.saves[1].txn) > 0 && a.tracker.savepoints.Keys == {1}
    ensures var f := DoDropEphemeral(a, 1);
      f.phase == a.phase && f.latest == a.latest && f.tracker.savepoints == map[]
  {
  }

  /** What the leak asks of its start, in any idle state. */
  lemma IdleState(f: State)
    requires Core(f) && f.phase.Idle?
    ensures f.w == IdleWriter(f.latest) && f.uncommitted == {} && Places(f.latest.world, {}, {}) <= f.inUse
    ensures forall i :: i in f.latest.world.rows ==> f.latest.world.rows[i].pages <= f.inUse
  {
    assert f.w == IdleWriter(f.latest) && f.uncommitted == {} by { FreshOf(f); hide Core; }
    assert forall i :: i in f.latest.world.rows ==> f.latest.world.rows[i].pages <= f.inUse by {
      HeldOf(f);
      IdsOf(f);
      hide Core, DurableSystem, Pages, UpTo, Persisted;
    }
    WithinOf(f);
    hide Core, Apart, Places;
  }

  lemma LaterCommitReached(f: State, p: Page)
    requires Core(f) && f.phase.Idle? && p !in f.inUse
    ensures Core(LaterCommit(f, p)) && Reaches(f, LaterCommit(f, p))
  {
    hide Core, Exact, Live, Reaches, DoBeginWrite, DoOpenTable, DoMutate, DoPrepare, DoProcessDurable, DoCommitDurable;
    var b := DoBeginWrite(f);
    BegunState(f);
    EditedState(f, {p}, {});
    CoreLive(f);
    CoreBeginWrite(f);
    ReachesStep(f, BeginWrite);
    CoreLive(b);
    CoreOpenTable(b);
    var t := DoOpenTable(b);
    ReachesStep(b, OpenTable);
    ReachesOn(f, b, t);
    CoreLive(t);
    CoreMutate(t, {p}, {});
    var m := DoMutate(t, {p}, {});
    ReachesStep(t, Mutate({p}, {}));
    ReachesOn(f, t, m);
    DurableReached(m);
    ReachesOn(f, m, LaterCommit(f, p));
  }

  lemma DurableReached(m: State)
    requires Core(m) && m.phase.Active? && m.w.durable
    ensures var c := DoCommitDurable(DoProcessDurable(DoPrepare(m)), false); Core(c) && Reaches(m, c)
  {
    hide Core, Exact, Live, Reaches, DoPrepare, DoProcessDurable, DoCommitDurable;
    CoreLive(m);
    CorePrepare(m);
    var q := DoPrepare(m);
    PreparedState(m);
    ReachesStep(m, Prepare);
    ProcessedReached(q);
    var r := DoProcessDurable(q);
    ProcessingState(q);
    ReachesOn(m, q, r);
    CoreLive(r);
    CoreCommit(r, false);
    ReachesStep(r, CommitMemory(false));
    ReachesOn(m, r, DoCommitDurable(r, false));
  }

  lemma RestoredReached(c: Commit, j: SavepointId)
    requires j in c.world.rows
    ensures var b := DoBeginWrite(Reopened(c, false));
      j in b.saves && Reaches(Reopened(c, false), DoRestore(b, j)) && Live(DoRestore(b, j))
  {
    hide Live, Reaches, Reopened, DoBeginWrite, DoRestore;
    var o := Reopened(c, false);
    LiveReopened(c);
    var b := DoBeginWrite(o);
    ReopenedBegun(c);
    BegunTracker(o);
    LiveOn(o, b);
    ReachesStep(o, BeginWrite);
    ReachesStep(b, Restore(j));
    RestoredTracker(b, j);
    LiveOn(b, DoRestore(b, j));
    ReachesOn(o, b, DoRestore(b, j));
  }

  /** A run of a new database at whose end a page is in use and in no tree, table or queue. */
  lemma ForgottenSavepointLeaksInARun()
    ensures exists ss: seq<State>, es: seq<Event>, p: Page ::
              && LiveRun(ss, es) && p in ss[|es|].inUse
              && p !in Places(ss[|es|].w.world, ss[|es|].w.queued, ss[|es|].w.sysQueued) + ss[|es|].post
  {
    hide Core, Exact, Live, Reaches, Follows, Initial, LaterCommit, Reopened, DoBeginWrite, DoRestore, DoDropEphemeral;
    hide Places;
    var i := Initial(1);
    var a := AbortedReached();
    CoreDropEphemeral(a, 1);
    CoreLive(a);
    var f := DoDropEphemeral(a, 1);
    ReachesStep(a, DropEphemeral(1));
    ReachesOn(i, a, f);
    DroppedState(a);
    IdleState(f);
    var p := Unused(f.inUse);
    ForgottenSavepointLeaks(f, 2, p);
    LaterCommitReached(f, p);
    var g := LaterCommit(f, p);
    ReachesOn(i, f, g);
    CrashReached(g);
    var o := Reopened(g.durable, false);
    ReachesOn(i, g, o);
    assert 2 in g.durable.world.rows by { LaterCommitWorld(f, p); }
    RestoredReached(g.durable, 2);
    var r := DoRestore(DoBeginWrite(o), 2);
    ReachesOn(i, o, r);
    ReachedByRun(1, r);
    var ss, es :| LiveRun(ss, es) && ss[|es|] == r;
  }

  lemma Unused(ps: set<Page>) returns (p: Page)
    ensures p !in ps
  {
    p := 0;
    if ps != {} {
      p := Greatest(ps);
      p := p + 1;
    }
  }

  lemma {:induction false} Greatest(ps: set<Page>) returns (p: Page)
    requires ps != {}
    ensures p in ps && forall q :: q in ps ==> q <= p
    decreases |ps|
  {
    var x :| x in ps;
    if ps == {x} {
      p := x;
    } else {
      assert ps - {x} != {} && forall q :: q in ps ==> q == x || q in ps - {x};
      var y := Greatest(ps - {x});
      p := if x < y then y else x;
    }
  }
}
