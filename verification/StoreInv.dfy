/**
 What every step of the protocol keeps.
 */
module StoreInv {
  import opened Tracker
  import opened Store

  // ----- accounting: every page in use is in exactly one place -----

  ghost predicate Apart(v: World, queued: set<Page>, sysQueued: set<Page>)
  {
    && (v.data !! v.sys !! Pages(v.dataFreed) !! Pages(v.sysFreed) !! queued !! sysQueued)
    && Once(v.dataFreed) && Once(v.sysFreed)
  }

  /** The places are disjoint and in use. */
  ghost predicate Within(v: World, queued: set<Page>, sysQueued: set<Page>, post: set<Page>, inUse: set<Page>)
  {
    && Apart(v, queued, sysQueued)
    && Places(v, queued, sysQueued) !! post
    && Places(v, queued, sysQueued) + post <= inUse
  }

  /** Nothing else is in use. */
  ghost predicate Accounted(v: World, queued: set<Page>, sysQueued: set<Page>, post: set<Page>, inUse: set<Page>)
  {
    Within(v, queued, sysQueued, post, inUse) && inUse <= Places(v, queued, sysQueued) + post
  }

  /** Until freed entries are processed the writer can still fall back to the committed world. */
  ghost predicate CanRollBack(p: Phase)
  {
    p.Active? || p.Prepared?
  }

  ghost predicate Disjoint(s: State)
  {
    && Within(s.w.world, s.w.queued, s.w.sysQueued, s.post, s.inUse)
    && (CanRollBack(s.phase) ==> Within(s.latest.world, {}, {}, s.uncommitted, s.inUse))
  }

  ghost predicate Exact(s: State)
  {
    && Accounted(s.w.world, s.w.queued, s.w.sysQueued, s.post, s.inUse)
    && (CanRollBack(s.phase) ==> Accounted(s.latest.world, {}, {}, s.uncommitted, s.inUse))
  }

  /** Pages allocated since the last commit are in the writer's trees; those of the data tree are tracked. */
  ghost predicate Fresh(s: State)
  {
    && s.uncommitted <= s.w.world.data + s.w.world.sys
    && (s.phase.Active? && s.w.tracking ==> s.w.tracked == s.uncommitted * s.w.world.data)
    && (s.phase.Active? && !s.w.tracking ==> s.w.tracked == {} && s.tracker.savepoints == map[] && s.w.dirty)
    && (!s.phase.Active? ==> s.w.tracked == {} && s.w.queued == {})
    && (s.phase.Committed? || s.phase.Idle? ==>
        s.uncommitted == {} && s.w.sysQueued == {} && s.w.world == s.latest.world)
    && (!s.phase.Committed? ==> s.post == {})
    && (s.phase.Active? && !s.w.tablesOpen && s.w.restored.None? ==>
          s.w.queued == {} && s.w.tracked == {} && s.w.world.data == s.latest.world.data)
    && (s.phase.Active? && s.w.restored.None? ==> s.w.world.dataFreed == s.latest.world.dataFreed)
    && (s.phase.Active? ==> s.w.world.dataAlloc == s.latest.world.dataAlloc)
    && (s.w.tablesOpen || s.w.restored.Some? ==> s.w.dirty)
    && (s.phase.Idle? ==> s.w == IdleWriter(s.latest))
  }

  // ----- what readers and savepoints rely on -----

  /** No page of the snapshot is free, is about to be freed, or belongs to the system side. */
  ghost predicate Safe(x: Snapshot, v: World, sysQueued: set<Page>, post: set<Page>, inUse: set<Page>,
                       uncommitted: set<Page>)
  {
    && x.pages <= inUse
    && x.pages !! Pages(UpTo(v.dataFreed, x.txn))
    && x.pages !! v.sys && x.pages !! Pages(v.sysFreed) && x.pages !! sysQueued && x.pages !! post
      && x.pages !! uncommitted
  }

  /** A snapshot of anything but a pending non-durable commit holds no page a durable commit has not reached. */
  ghost predicate Persisted(x: Snapshot, pending: map<Txn, Txn>, unpersisted: set<Page>)
  {
    x.txn in pending || x.pages !! unpersisted
  }

  ghost predicate Held(s: State, x: Snapshot)
  {
    && x.txn <= s.latest.id
    && Safe(x, s.w.world, s.w.sysQueued, s.post, s.inUse, s.uncommitted)
    && (CanRollBack(s.phase) ==> Safe(x, s.latest.world, {}, {}, s.inUse, s.uncommitted))
    && Persisted(x, s.tracker.pending, s.unpersisted)
  }

  ghost function Root(c: Commit): Snapshot
  {
    Snapshot(c.id, c.world.data)
  }

  ghost predicate AllHeld(s: State)
  {
    && (forall h :: h in s.readers ==> Held(s, s.readers[h]))
    && (forall i :: i in s.saves ==> Held(s, s.saves[i]))
    && Held(s, Root(s.latest))
    && Held(s, Root(s.durable))
    && Root(s.durable).pages !! s.unpersisted
  }

  // ----- what restoring a savepoint relies on -----

  /** The data pages in the tree or freed after `t`. */
  ghost function Late(v: World, t: Txn, queued: set<Page>): set<Page>
  {
    v.data + Pages(Above(v.dataFreed, t)) + queued
  }

  /** The pages a restore must give up: what the tree holds or has dropped since, except the savepoint's own. */
  ghost function Superseded(s: State, x: Snapshot): set<Page>
  {
    s.w.world.data + Pages(Above(s.w.world.dataFreed, x.txn)) - x.pages
  }

  /** What queueing the pages allocated after a savepoint must not touch, and must find. */
  ghost predicate Replaceable(x: Snapshot, v: World)
  {
    var a := Pages(Above(v.dataAlloc, x.txn));
    x.pages !! a && x.pages + a <= Late(v, x.txn, {})
  }

  /** Pages in the savepoint or allocated after it are exactly those in the tree or freed after it. */
  ghost predicate Restorable(x: Snapshot, v: World, queued: set<Page>, tracked: set<Page>)
  {
    && x.pages !! Pages(Above(v.dataAlloc, x.txn)) && x.pages !! tracked && Pages(Above(v.dataAlloc, x.txn)) !! tracked
    && Once(Above(v.dataAlloc, x.txn))
    && x.pages + Pages(Above(v.dataAlloc, x.txn)) + tracked == Late(v, x.txn, queued)
  }

  ghost predicate AllRestorable(s: State)
  {
    forall i :: i in s.tracker.savepoints && i in s.saves ==>
      && Restorable(s.saves[i], s.w.world, s.w.queued, s.w.tracked)
      && (CanRollBack(s.phase) ==> Restorable(s.saves[i], s.latest.world, {}, {}))
  }

  // ----- the durable commit -----

  /** A commit whose places are disjoint and whose stored savepoints are in order, with every page in some place. */
  ghost predicate Ordered(c: Commit)
  {
    && Apart(c.world, {}, {})
    && (forall i :: i in c.world.rows ==> i < c.world.nextRow && c.world.rows[i].txn <= c.id)
    && (forall i, j :: i in c.world.rows && j in c.world.rows && i < j ==> c.world.rows[i].txn <= c.world.rows[j].txn)
    && (forall i :: i in c.world.rows ==> c.world.rows[i].pages <= Late(c.world, c.world.rows[i].txn, {}))
    && Dated(c.world, c.id)
  }

  /** A commit that can be reopened: its stored savepoints are restorable. */
  ghost predicate Reopenable(c: Commit)
  {
    Ordered(c) && forall i :: i in c.world.rows ==> Restorable(c.world.rows[i], c.world, {}, {})
  }

  ghost predicate Dated(v: World, last: Txn)
  {
    forall e :: e in v.dataFreed || e in v.sysFreed || e in v.dataAlloc ==> e.0 <= last
  }

  ghost predicate DatedOrNow(v: World, last: Txn, now: Txn)
  {
    forall e :: e in v.dataFreed || e in v.sysFreed || e in v.dataAlloc ==> e.0 <= last || e.0 == now
  }

  /** The system pages of the durable commit stay untouched until the next one is on disk. */
  ghost predicate DurableSystem(s: State)
  {
    var sys := s.durable.world.sys;
    && sys <= s.inUse && sys !! s.uncommitted && sys !! s.unpersisted && sys !! s.post
    && sys !! Pages(UpTo(s.w.world.dataFreed, s.durable.id)) && sys !! Pages(UpTo(s.w.world.sysFreed, s.durable.id))
    && (CanRollBack(s.phase) ==>
        sys !! Pages(UpTo(s.latest.world.dataFreed, s.durable.id))
          && sys !! Pages(UpTo(s.latest.world.sysFreed, s.durable.id)))
  }

  // ----- identities and counts -----

  ghost predicate Times(s: State)
  {
    && s.durable.id <= s.latest.id <= s.tracker.nextTxn
    && (s.latest.id == s.durable.id ==> s.latest == s.durable && s.tracker.pending == map[])
    && (s.latest.id != s.durable.id ==> s.latest.id in s.tracker.pending)
    && (forall k :: k in s.tracker.pending ==> s.tracker.pending[k] == s.durable.id && s.durable.id < k <= s.latest.id)
    && s.w.id <= s.tracker.nextTxn
    && (s.phase.Active? || s.phase.Prepared? || s.phase.Processed? ==> s.latest.id < s.w.id)
    && Dated(s.latest.world, s.latest.id)
    && (s.phase.Active? || s.phase.Idle? || s.phase.Committed? ==> Dated(s.w.world, s.latest.id))
    && (s.phase.Prepared? || s.phase.Processed? ==> DatedOrNow(s.w.world, s.latest.id, s.w.id))
  }

  ghost predicate Ids(s: State)
  {
    && s.ephemeral <= s.saves.Keys && s.tracker.savepoints.Keys <= s.saves.Keys
    && (forall i :: i in s.tracker.savepoints ==> s.tracker.savepoints[i] == s.saves[i].txn)
    && (forall i :: i in s.saves ==> i <= s.tracker.nextSavepoint)
    && (forall i, j :: i in s.saves && j in s.saves && i < j ==> s.saves[i].txn <= s.saves[j].txn)
    && StoredRows(s.w.world.rows, s.w.world.nextRow, s.saves, s.ephemeral)
    && StoredRows(s.latest.world.rows, s.latest.world.nextRow, s.saves, s.ephemeral)
    && StoredRows(s.durable.world.rows, s.durable.world.nextRow, s.saves, s.ephemeral)
    && s.latest.world.rows == s.durable.world.rows && s.latest.world.nextRow == s.durable.world.nextRow
    && (!s.w.durable ==> s.w.created == {} && s.w.deleted == {})
    && (s.w.created == {} && s.w.deleted == {} ==>
        s.w.world.rows == s.latest.world.rows && s.w.world.nextRow == s.latest.world.nextRow)
    && s.w.deleted <= s.saves.Keys && s.w.deleted !! s.w.world.rows.Keys && s.w.deleted !! s.ephemeral
  }

  ghost predicate StoredRows(rows: map<SavepointId, Snapshot>, nextRow: SavepointId,
                             saves: map<SavepointId, Snapshot>, ephemeral: set<SavepointId>)
  {
    && (forall i :: i in rows ==> i < nextRow && i in saves && saves[i] == rows[i])
    && rows.Keys !! ephemeral
  }

  ghost predicate Counted(s: State)
  {
    && s.tracker.Valid()
    && forall t ::
         s.tracker.Refs(t) == Count(Txns(s.readers), t) + Count(Txns(s.saves), t) + Count(s.tracker.pending, t)
  }

  /** Every stored savepoint is one the tracker knows, as far as no restore has just invalidated it. */
  ghost predicate Registered(s: State)
  {
    && !s.w.halfRestored
    && s.w.world.rows.Keys <= s.tracker.savepoints.Keys
    && (forall i :: i in s.latest.world.rows && (s.w.restored.None? || i <= s.w.restored.value) ==>
        i in s.tracker.savepoints)
    && (s.w.restored.Some? ==> forall i :: i in s.tracker.savepoints ==> i <= s.w.restored.value)
  }

  // ----- the invariants -----

  /** What holds whatever becomes of stored savepoints. */
  ghost predicate Core(s: State)
  {
    Disjoint(s) && Fresh(s) && AllHeld(s) && DurableSystem(s) && Times(s) && Ids(s) && Counted(s)
  }

  /** What holds as long as the tracker knows every stored savepoint. */
  ghost predicate Inv(s: State)
  {
    Core(s) && Exact(s) && AllRestorable(s) && Reopenable(s.durable) && Registered(s)
  }

  /** An aborted restore leaves no stored savepoint that the tracker has already forgotten. */
  ghost predicate KeepsRowsRegistered(s: State)
  {
    s.w.restored.None? || forall i :: i in s.latest.world.rows ==> i <= s.w.restored.value
  }

  /** A step after which the tracker still knows every stored savepoint. */
  ghost predicate Orderly(s: State, e: Event)
  {
    !e.RestoreFails? && (e.Abort? ==> KeepsRowsRegistered(s))
  }
}
