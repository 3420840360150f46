/**
 The page-lifetime protocol: which pages a commit reaches, which wait to be freed, and what each
 step of readers, savepoints, the writer and a crash does to them.
 */
module Store {
  import opened Bits
  import opened Tracker

  type Page = nat

  /** A table keyed by transaction id, as its (transaction, page) entries. */
  type Table = set<(Txn, Page)>

  function Pages(t: Table): set<Page>
  {
    set e | e in t :: e.1
  }

  /** Entries of transactions up to and including `x`. */
  function UpTo(t: Table, x: int): Table
  {
    set e | e in t && e.0 <= x
  }

  function Above(t: Table, x: int): Table
  {
    set e | e in t && e.0 > x
  }

  function Entries(x: Txn, ps: set<Page>): Table
  {
    set p | p in ps :: (x, p)
  }

  /** No page is listed twice. */
  ghost predicate Once(t: Table)
  {
    forall a, b :: a in t && b in t && a.1 == b.1 ==> a == b
  }

  /** A snapshot of the data tree: the transaction that committed it and the pages its root reaches. */
  datatype Snapshot = Snapshot(txn: Txn, pages: set<Page>)

  /** What one pair of roots reaches, and the contents of the system tables. */
  datatype World = World(
    data: set<Page>,
    sys: set<Page>,
    dataFreed: Table,
    sysFreed: Table,
    dataAlloc: Table,
    rows: map<SavepointId, Snapshot>,
    nextRow: SavepointId)

  datatype Commit = Commit(id: Txn, world: World)

  datatype Phase = Idle | Active | Prepared | Processed | Committed

  /** The write transaction in progress. */
  datatype Writer = Writer(
    id: Txn,
    world: World,
    queued: set<Page>,
    sysQueued: set<Page>,
    tracking: bool,
    tracked: set<Page>,
    dirty: bool,
    tablesOpen: bool,
    durable: bool,
    restored: Option<SavepointId>,
    created: set<SavepointId>,
    deleted: set<SavepointId>,
    halfRestored: bool)

  datatype State = State(
    tracker: TrackerState,
    latest: Commit,
    durable: Commit,
    phase: Phase,
    w: Writer,
    post: set<Page>,
    inUse: set<Page>,
    uncommitted: set<Page>,
    unpersisted: set<Page>,
    readers: map<nat, Snapshot>,
    saves: map<SavepointId, Snapshot>,
    ephemeral: set<SavepointId>)

  datatype Event =
    | BeginRead(reader: nat)
    | EndRead(reader: nat)
    | BeginWrite
    | OpenTable
    | Mutate(alloc: set<Page>, drop: set<Page>)
    | MutateSystem(alloc: set<Page>, drop: set<Page>)
    | CreateEphemeral
    | CreatePersistent
    | DropEphemeral(id: SavepointId)
    | DeletePersistent(id: SavepointId)
    | SetDurability(immediate: bool)
    | Restore(id: SavepointId)
    | RestoreFails(id: SavepointId)
    | Abort
    | Prepare
    | Process
    | CommitMemory(quickRepair: bool)
    | Finish
    | Crash(repaired: bool)

  function Txns(m: map<nat, Snapshot>): map<nat, Txn>
  {
    map k | k in m :: m[k].txn
  }

  function IdleWriter(c: Commit): Writer
  {
    Writer(c.id, c.world, {}, {}, true, {}, false, false, true, None, {}, {}, false)
  }

  function EmptyWorld(): World
  {
    World({}, {}, {}, {}, {}, map[], 0)
  }

  // ----- readers -----

  function DoBeginRead(s: State, h: nat): State
  {
    s.(readers := s.readers[h := Snapshot(s.latest.id, s.latest.world.data)],
       tracker := Acquire(s.tracker, s.latest.id))
  }

  function DoEndRead(s: State, h: nat): State
    requires h in s.readers && s.tracker.Refs(s.readers[h].txn) > 0
  {
    s.(readers := s.readers - {h}, tracker := Release(s.tracker, s.readers[h].txn))
  }

  // ----- the write transaction -----

  function DoBeginWrite(s: State): State
  {
    var id := s.tracker.nextTxn + 1;
    s.(phase := Active,
       w := IdleWriter(s.latest).(id := id),
       tracker := s.tracker.(nextTxn := id, liveWrite := Some(id)))
  }

  /** Opening a table ends the time in which savepoints may be created; with none, allocations go untracked. */
  function DoOpenTable(s: State): State
  {
    var none := s.tracker.savepoints == map[];
    s.(w := s.w.(dirty := true, tablesOpen := true,
                 tracking := s.w.tracking && !none,
                 tracked := if none then {} else s.w.tracked))
  }

  /** What any operation on the data tree does to pages: new ones in, old ones queued, uncommitted ones freed. */
  function DoMutate(s: State, alloc: set<Page>, drop: set<Page>): State
  {
    var gone := drop * s.uncommitted;
    s.(w := s.w.(world := s.w.world.(data := s.w.world.data - drop + alloc),
                 queued := s.w.queued + (drop - gone),
                 tracked := if s.w.tracking then s.w.tracked - gone + alloc else {}),
       inUse := s.inUse - gone + alloc,
       uncommitted := s.uncommitted - gone + alloc)
  }

  function DoMutateSystem(s: State, alloc: set<Page>, drop: set<Page>): State
  {
    var gone := drop * s.uncommitted;
    s.(w := s.w.(world := s.w.world.(sys := s.w.world.sys - drop + alloc),
                 sysQueued := s.w.sysQueued + (drop - gone)),
       inUse := s.inUse - gone + alloc,
       uncommitted := s.uncommitted - gone + alloc)
  }

  // ----- savepoints -----

  function DoCreateEphemeral(s: State): State
  {
    var id := s.tracker.nextSavepoint + 1;
    s.(tracker := Acquire(s.tracker, s.latest.id).(nextSavepoint := id,
                                                   savepoints := s.tracker.savepoints[id := s.latest.id]),
       saves := s.saves[id := Snapshot(s.latest.id, s.latest.world.data)],
       ephemeral := s.ephemeral + {id})
  }

  function DoCreatePersistent(s: State): State
  {
    var id := s.tracker.nextSavepoint + 1;
    var snap := Snapshot(s.latest.id, s.latest.world.data);
    s.(tracker := Acquire(s.tracker, s.latest.id).(nextSavepoint := id,
                                                   savepoints := s.tracker.savepoints[id := s.latest.id]),
       saves := s.saves[id := snap],
       w := s.w.(world := s.w.world.(rows := s.w.world.rows[id := snap], nextRow := id + 1),
                 created := s.w.created + {id}, dirty := true))
  }

  function DoDropEphemeral(s: State, id: SavepointId): State
    requires id in s.saves && s.tracker.Refs(s.saves[id].txn) > 0
  {
    s.(tracker := Release(s.tracker, s.saves[id].txn).(savepoints := s.tracker.savepoints - {id}),
       saves := s.saves - {id},
       ephemeral := s.ephemeral - {id})
  }

  function DoDeletePersistent(s: State, id: SavepointId): State
  {
    s.(w := s.w.(world := s.w.world.(rows := s.w.world.rows - {id}),
                 deleted := s.w.deleted + {id}, dirty := true))
  }

  function RowsUpTo(rows: map<SavepointId, Snapshot>, id: SavepointId): map<SavepointId, Snapshot>
  {
    map i | i in rows && i <= id :: rows[i]
  }

  /**
   Back to a savepoint: its root, the freed entries up to its transaction, and every data page
   allocated after it queued for freeing. Later savepoints become invalid.
   */
  function DoRestore(s: State, id: SavepointId): State
    requires id in s.saves
  {
    var snap := s.saves[id];
    var v := s.w.world;
    s.(w := s.w.(world := v.(data := snap.pages, dataFreed := UpTo(v.dataFreed, snap.txn),
                             rows := RowsUpTo(v.rows, id)),
                 queued := s.w.queued + Pages(Above(v.dataAlloc, snap.txn)),
                 dirty := true,
                 restored := Some(id),
                 deleted := s.w.deleted + (set i | i in v.rows && i > id)),
       tracker := s.tracker.(savepoints := map i | i in s.tracker.savepoints && i <= id :: s.tracker.savepoints[i]))
  }

  /**
   A restore that may not delete the later stored savepoints: it stops with an error when it comes
   to the first of them, after everything else has been done.
   */
  function DoRestoreFails(s: State, id: SavepointId): State
    requires id in s.saves
  {
    var r := DoRestore(s, id);
    r.(w := r.w.(world := r.w.world.(rows := s.w.world.rows), deleted := s.w.deleted, halfRestored := true))
  }

  // ----- ending the write transaction -----

  function DoAbort(s: State): State
  {
    s.(phase := Idle, w := IdleWriter(s.latest),
       inUse := s.inUse - s.uncommitted, uncommitted := {},
       tracker := s.tracker.(liveWrite := None))
  }

  /** Allocation entries older than the oldest savepoint serve no restore. */
  function Purge(t: Table, oldest: Option<Txn>): Table
  {
    if oldest.None? then {} else Above(t, oldest.value - 1)
  }

  /** Writes the queued pages and the tracked allocations into their tables. */
  function DoPrepare(s: State): State
  {
    var v := s.w.world;
    s.(phase := Prepared,
       w := s.w.(world := v.(dataFreed := v.dataFreed + Entries(s.w.id, s.w.queued),
                             dataAlloc := Purge(v.dataAlloc + Entries(s.w.id, s.w.tracked),
                                                s.tracker.OldestSavepoint())),
                 queued := {}, tracked := {}))
  }

  function Min(a: nat, b: nat): nat
  {
    if a <= b then a else b
  }

  /** Entries below this transaction are freed by a durable commit. */
  function FreeUntil(s: State): Txn
  {
    var oldest := s.tracker.OldestLiveRead();
    if oldest.None? then s.w.id else oldest.value + 1
  }

  /** Entries below this transaction are looked at by a non-durable commit. */
  function FreeUntilNonDurable(s: State): Txn
  {
    var live := s.tracker.OldestLiveReadNonDurable();
    var until := if live.None? then s.w.id else live.value + 1;
    var oldest := s.tracker.OldestSavepoint();
    if oldest.None? then until else Min(until, oldest.value)
  }

  function DoProcessDurable(s: State): State
  {
    var v, until := s.w.world, FreeUntil(s);
    s.(phase := Processed,
       w := s.w.(world := v.(dataFreed := Above(v.dataFreed, until - 1), sysFreed := Above(v.sysFreed, until - 1))),
       inUse := s.inUse - Pages(UpTo(v.dataFreed, until - 1)) - Pages(UpTo(v.sysFreed, until - 1)))
  }

  /** Entries of unprocessed non-durable commits whose page no durable commit has ever reached. */
  function Reclaimable(t: Table, until: Txn, unprocessed: set<Txn>, unpersisted: set<Page>): Table
  {
    set e | e in t && e.0 < until && e.0 in unprocessed && e.1 in unpersisted
  }

  function DoProcessNonDurable(s: State): State
  {
    var v, until := s.w.world, FreeUntilNonDurable(s);
    var d := Reclaimable(v.dataFreed, until, s.tracker.unprocessed, s.unpersisted);
    var y := Reclaimable(v.sysFreed, until, s.tracker.unprocessed, s.unpersisted);
    var done := set e | e in v.dataFreed + v.sysFreed && e.0 < until && e.0 in s.tracker.unprocessed :: e.0;
    s.(phase := Processed,
       w := s.w.(world := v.(dataFreed := v.dataFreed - d, sysFreed := v.sysFreed - y)),
       inUse := s.inUse - Pages(d) - Pages(y),
       unpersisted := s.unpersisted - Pages(d) - Pages(y),
       tracker := s.tracker.(unprocessed := s.tracker.unprocessed - done))
  }

  /**
   The new roots become the primary on disk; superseded system pages are freed after that, or stored
   for quick repair.
   */
  function DoCommitDurable(s: State, quickRepair: bool): State
  {
    var stored := if quickRepair then s.w.sysQueued else {};
    var v := s.w.world.(sysFreed := s.w.world.sysFreed + Entries(s.w.id, stored));
    var c := Commit(s.w.id, v);
    s.(phase := Committed, latest := c, durable := c,
       w := s.w.(world := v, sysQueued := {}),
       post := s.w.sysQueued - stored,
       uncommitted := {}, unpersisted := {},
       tracker := ReleaseAll(s.tracker, s.tracker.pending).(pending := map[]))
  }

  /** The new roots become visible without reaching the disk. */
  function DoCommitNonDurable(s: State): State
  {
    var stored := s.w.sysQueued - s.unpersisted;
    var v := s.w.world.(sysFreed := s.w.world.sysFreed + Entries(s.w.id, stored));
    s.(phase := Committed, latest := Commit(s.w.id, v),
       w := s.w.(world := v, sysQueued := {}),
       post := s.w.sysQueued - stored,
       uncommitted := {}, unpersisted := s.unpersisted + s.uncommitted,
       tracker := Acquire(s.tracker, s.durable.id).(pending := s.tracker.pending[s.w.id := s.durable.id],
                                                    unprocessed := s.tracker.unprocessed + {s.w.id}))
  }

  function DoFinish(s: State): State
  {
    var gone := map i | i in s.w.deleted && i in s.saves :: s.saves[i];
    s.(phase := Idle, w := IdleWriter(s.latest),
       inUse := s.inUse - s.post, post := {},
       tracker := ReleaseAll(s.tracker, Txns(gone)).(savepoints := s.tracker.savepoints - s.w.deleted,
                                                     liveWrite := None),
       saves := s.saves - s.w.deleted)
  }

  // ----- crash and reopening -----

  /** Repair marks exactly the pages of the two trees and of the two freed tables. */
  function Places(v: World, queued: set<Page>, sysQueued: set<Page>): set<Page>
  {
    v.data + v.sys + Pages(v.dataFreed) + Pages(v.sysFreed) + queued + sysQueued
  }

  function Reopened(c: Commit, repaired: bool): State
  {
    var d := if repaired then Commit(c.id + 1, c.world) else c;
    var txns := Txns(c.world.rows);
    var tracker := TrackerState(c.world.nextRow, map t | t in txns.Values ::
        Count(txns, t), d.id + 2, None, txns, map[], {});
    State(tracker, d, d, Idle, IdleWriter(d), {}, Places(c.world, {}, {}), {}, {}, map[], c.world.rows, {})
  }

  /** What the code checks, or its callers are bound to, before each step. */
  predicate Enabled(s: State, e: Event)
  {
    match e
    case BeginRead(h) => h !in s.readers
    case EndRead(h) => h in s.readers
    case BeginWrite => s.phase.Idle?
    case OpenTable => s.phase.Active?
    case Mutate(alloc, drop) => s.phase.Active? && s.w.tablesOpen && alloc !! s.inUse && drop <= s.w.world.data
    case MutateSystem(alloc, drop) =>
      (s.phase.Active? || s.phase.Prepared? || s.phase.Processed?) && alloc !! s.inUse && drop <= s.w.world.sys
    case CreateEphemeral => s.phase.Active? && !s.w.dirty
    case CreatePersistent => s.phase.Active? && !s.w.dirty && s.w.durable
    case DropEphemeral(id) => id in s.ephemeral
    case DeletePersistent(id) => s.phase.Active? && s.w.durable && id in s.w.world.rows
    case SetDurability(immediate) => s.phase.Active? && (immediate || (s.w.created == {} && s.w.deleted == {}))
    case Restore(id) => Restoring(s, id) && MayDeleteLaterRows(s, id)
    case RestoreFails(id) => Restoring(s, id) && !MayDeleteLaterRows(s, id)
    case Abort => s.phase.Active?
    case Prepare => s.phase.Active?
    case Process => s.phase.Prepared?
    case CommitMemory(quick) => s.phase.Processed?
    case Finish => s.phase.Committed?
    case Crash(repaired) => true
  }

  predicate Restoring(s: State, id: SavepointId)
  {
    s.phase.Active? && id in s.tracker.savepoints && !s.w.tablesOpen && s.w.restored.None?
  }

  /** Stored savepoints are deleted by durable transactions only. */
  predicate MayDeleteLaterRows(s: State, id: SavepointId)
  {
    s.w.durable || forall i :: i in s.w.world.rows ==> i <= id
  }

  function Step(s: State, e: Event): State
    requires Enabled(s, e) && Live(s)
  {
    match e
    case BeginRead(h) => DoBeginRead(s, h)
    case EndRead(h) => DoEndRead(s, h)
    case BeginWrite => DoBeginWrite(s)
    case OpenTable => DoOpenTable(s)
    case Mutate(alloc, drop) => DoMutate(s, alloc, drop)
    case MutateSystem(alloc, drop) => DoMutateSystem(s, alloc, drop)
    case CreateEphemeral => DoCreateEphemeral(s)
    case CreatePersistent => DoCreatePersistent(s)
    case DropEphemeral(id) => DoDropEphemeral(s, id)
    case DeletePersistent(id) => DoDeletePersistent(s, id)
    case SetDurability(immediate) => s.(w := s.w.(durable := immediate))
    case Restore(id) => DoRestore(s, id)
    case RestoreFails(id) => DoRestoreFails(s, id)
    case Abort => DoAbort(s)
    case Prepare => DoPrepare(s)
    case Process => if s.w.durable then DoProcessDurable(s) else DoProcessNonDurable(s)
    case CommitMemory(quick) => if s.w.durable then DoCommitDurable(s, quick) else DoCommitNonDurable(s)
    case Finish => DoFinish(s)
    case Crash(repaired) => Reopened(s.durable, repaired)
  }

  /** Every holder of a reference is counted, so giving one back never meets a missing count. */
  predicate Live(s: State)
  {
    && s.ephemeral <= s.saves.Keys
    && s.tracker.savepoints.Keys <= s.saves.Keys
    && (forall h :: h in s.readers ==> s.tracker.Refs(s.readers[h].txn) > 0)
    && (forall i :: i in s.saves ==> s.tracker.Refs(s.saves[i].txn) > 0)
  }
}
