/**
 What protects savepoints even after the tracker has forgotten a stored one: every page has a
 birth, the transaction that allocated it, and a savepoint holds exactly the pages of the data side
 that were born before it and had not been freed.
 */
module StoreSafety {
  import opened Tracker
  import opened Store
  import opened StoreInv
  import opened StoreProof
  import opened StoreCommit
  import opened StoreExact

  type Births = map<Page, Txn>

  ghost function Borne(b: Births, alloc: set<Page>, id: Txn): Births
  {
    map p | p in b.Keys + alloc :: if p in alloc then id else b[p]
  }

  /**
   The pages of a savepoint are those in the tree or freed after it that were born before it, and
   allocation entries after it, from `floor` on, are births of such pages.
   */
  ghost predicate Remembers(x: Snapshot, v: World, queued: set<Page>, b: Births, floor: int)
  {
    && (forall p :: p in x.pages ==> p in Late(v, x.txn, queued) && p in b && b[p] <= x.txn)
    && (forall p :: p in Late(v, x.txn, queued) && p in b && b[p] <= x.txn ==> p in x.pages)
    && (forall e :: e in v.dataAlloc && e.0 > x.txn && e.0 >= floor ==>
          e.1 in Late(v, x.txn, queued) && e.1 in b && b[e.1] == e.0)
  }

  /** Allocation entries before the oldest registered savepoint are dropped at the next commit. */
  ghost function Floor(t: TrackerState): int
  {
    var oldest := t.OldestSavepoint();
    if oldest.None? then t.nextTxn + 1 else oldest.value
  }

  /** A durable commit has just dropped them, and no longer minds which savepoints are registered. */
  ghost function WriterFloor(s: State): int
  {
    if (s.phase.Prepared? || s.phase.Processed?) && s.w.durable then 0 else Floor(s.tracker)
  }

  ghost predicate Laws(ids: set<SavepointId>, saves: map<SavepointId, Snapshot>, v: World, queued: set<Page>,
                       b: Births, floor: int)
  {
    forall i :: i in ids && i in saves ==> Remembers(saves[i], v, queued, b, floor)
  }

  /** The savepoints that can be restored now, or after a crash. */
  ghost function Known(s: State, v: World): set<SavepointId>
  {
    s.tracker.savepoints.Keys + v.rows.Keys
  }

  ghost predicate AllRemember(s: State, b: Births)
  {
    && (!s.w.halfRestored ==> Laws(Known(s, s.w.world), s.saves, s.w.world, s.w.queued, b, WriterFloor(s)))
    && (CanRollBack(s.phase) ==> Laws(Known(s, s.latest.world), s.saves, s.latest.world, {}, b, Floor(s.tracker)))
  }

  /** Pages are freed after their birth. */
  ghost predicate BornBefore(t: Table, b: Births)
  {
    forall e :: e in t ==> e.1 in b && b[e.1] < e.0
  }

  /** Allocations recorded by the newest transaction are births of pages in its tree. */
  ghost predicate Newest(v: World, id: Txn, b: Births)
  {
    forall e :: e in v.dataAlloc && e.0 == id ==> e.1 in b && b[e.1] == id && e.1 in v.data
  }

  ghost predicate Aged(s: State, b: Births)
  {
    && s.inUse <= b.Keys
    && (forall p :: p in s.inUse ==> if p in s.uncommitted then b[p] == s.w.id else b[p] <= s.latest.id)
    && (forall p :: p in s.w.queued && p in b ==> b[p] < s.w.id)
    && BornBefore(s.w.world.dataFreed, b)
    && (CanRollBack(s.phase) ==> BornBefore(s.latest.world.dataFreed, b))
    && (s.phase.Prepared? || s.phase.Processed? ==> Newest(s.w.world, s.w.id, b))
    && (!s.phase.Processed? ==> Newest(s.latest.world, s.latest.id, b))
  }

  /** A commit from which every stored savepoint can be restored without harm. */
  ghost predicate Survives(c: Commit, b: Births)
  {
    && Ordered(c) && BornBefore(c.world.dataFreed, b) && Newest(c.world, c.id, b)
    && (forall p :: p in Places(c.world, {}, {}) ==> p in b && b[p] <= c.id)
    && (forall i :: i in c.world.rows ==> Remembers(c.world.rows[i], c.world, {}, b, 0))
  }

  /** Births now, and births as they were at the last durable commit. */
  ghost predicate Sound(s: State, b: Births, d: Births)
  {
    && Core(s) && Aged(s, b) && AllRemember(s, b) && Survives(s.durable, d)
    && (s.w.halfRestored ==> s.phase.Active? && s.w.restored.Some?)
  }

  /** No transaction commits after a restore of its own has failed. */
  ghost predicate Careful(s: State, e: Event)
  {
    e.Prepare? ==> !s.w.halfRestored
  }

  // ----- the law of one savepoint -----

  lemma RemembersHigher(x: Snapshot, v: World, queued: set<Page>, b: Births, floor: int, higher: int)
    requires Remembers(x, v, queued, b, floor) && floor <= higher
    ensures Remembers(x, v, queued, b, higher)
  {
    hide Late;
  }

  /** The law looks at the data side only. */
  lemma RemembersAnySystem(x: Snapshot, v: World, u: World, queued: set<Page>, b: Births, floor: int)
    requires Remembers(x, v, queued, b, floor)
    requires u.data == v.data && u.dataFreed == v.dataFreed && u.dataAlloc == v.dataAlloc
    ensures Remembers(x, u, queued, b, floor)
  {
    assert Late(u, x.txn, queued) == Late(v, x.txn, queued);
    hide Late;
  }

  /** Births of pages that were not in use do not matter. */
  lemma RemembersBirths(x: Snapshot, v: World, queued: set<Page>, b: Births, floor: int, alloc: set<Page>, id: Txn)
    requires Remembers(x, v, queued, b, floor) && Late(v, x.txn, queued) !! alloc
    ensures Remembers(x, v, queued, Borne(b, alloc, id), floor)
  {
    hide Late;
  }

  lemma RemembersMutate(x: Snapshot, v: World, queued: set<Page>, b: Births, floor: int,
                        alloc: set<Page>, drop: set<Page>, gone: set<Page>, id: Txn)
    requires Remembers(x, v, queued, b, floor) && Late(v, x.txn, queued) !! alloc && x.txn < id
    requires drop <= v.data && gone <= drop && v.data !! Pages(v.dataFreed) && v.data !! queued
    requires forall p :: p in gone ==> p in b && b[p] == id
    requires forall e :: e in v.dataAlloc ==> e.0 < id
    ensures Remembers(x, v.(data := v.data - drop + alloc), queued + (drop - gone), Borne(b, alloc, id), floor)
  {
    SplitTable(v.dataFreed, x.txn);
    var u := v.(data := v.data - drop + alloc);
    var l, m := Late(v, x.txn, queued), Late(u, x.txn, queued + (drop - gone));
    assert m == l - gone + alloc by { hide Pages, Above, Remembers; }
    hide Late, Pages, Above;
  }

  /** A savepoint of the committed tree holds nothing but that tree. */
  lemma RemembersRoot(x: Snapshot, v: World, b: Births, floor: int)
    requires Dated(v, x.txn) && x.pages == v.data
    requires forall p :: p in v.data ==> p in b && b[p] <= x.txn
    ensures Remembers(x, v, {}, b, floor)
  {
    assert Above(v.dataFreed, x.txn) == {};
  }

  /** Entries of the newest transaction may be looked at again once it has a savepoint. */
  lemma RemembersLower(x: Snapshot, v: World, b: Births, id: Txn, floor: int)
    requires Remembers(x, v, {}, b, floor) && Newest(v, id, b) && Dated(v, id)
    ensures Remembers(x, v, {}, b, id)
  {
    hide Pages, Above;
  }

  /** What restoring a savepoint queues is in the data side and not the savepoint's. */
  lemma RemembersReplaceable(x: Snapshot, v: World, b: Births, floor: int)
    requires Remembers(x, v, {}, b, floor) && floor <= x.txn
    ensures Replaceable(x, v)
    ensures forall p :: p in Pages(Above(v.dataAlloc, x.txn)) ==>
      (exists e :: e in v.dataAlloc && e.1 == p && e.0 > x.txn) && p in b
    ensures forall e :: e in v.dataAlloc && e.0 > x.txn ==> e.1 in b && b[e.1] == e.0
  {
    hide Late;
  }

  /** An older savepoint keeps its law when a newer one is restored. */
  lemma RemembersRestore(y: Snapshot, x: Snapshot, v: World, rows: map<SavepointId, Snapshot>, b: Births, floor: int)
    requires Remembers(x, v, {}, b, floor) && Remembers(y, v, {}, b, floor) && y.txn <= x.txn && floor <= x.txn
    ensures Remembers(y, RestoredWorld(v, x, rows), Pages(Above(v.dataAlloc, x.txn)), b, floor)
  {
    var u, a := RestoredWorld(v, x, rows), Pages(Above(v.dataAlloc, x.txn));
    LateRestored(y, x, v, rows);
    RemembersReplaceable(x, v, b, floor);
    var l, k, m := Late(v, y.txn, {}), Late(v, x.txn, {}), Late(u, y.txn, a);
    forall e | e in v.dataAlloc && e.0 > y.txn && e.0 >= floor
      ensures e.1 in m
    {
      assert e.0 > x.txn ==> e in Above(v.dataAlloc, x.txn);
      hide Late, RestoredWorld, Above;
    }
    hide Late, RestoredWorld, Pages, Above, Replaceable;
  }

  /** What the restored tree keeps from before it, in terms of births it need not know. */
  lemma LateRestored(y: Snapshot, x: Snapshot, v: World, rows: map<SavepointId, Snapshot>)
    requires y.txn <= x.txn
    ensures var u, a := RestoredWorld(v, x, rows), Pages(Above(v.dataAlloc, x.txn));
      && (forall p :: p in Late(v, y.txn, {}) ==> p in Late(v, x.txn, {}) || p in Late(u, y.txn, a))
      && (forall p :: p in Late(u, y.txn, a) ==> p in x.pages || p in Late(v, y.txn, {}) || p in a)
      && x.pages <= Late(u, y.txn, a) && a <= Late(u, y.txn, a)
      && Late(v, x.txn, {}) <= Late(v, y.txn, {})
  {
    Between(v.dataFreed, y.txn, x.txn);
    hide Pages, Above, UpTo;
  }

  /** Writing the tables moves no page across a savepoint. */
  lemma RemembersPrepare(x: Snapshot, s: State, b: Births)
    requires Remembers(x, s.w.world, s.w.queued, b, Floor(s.tracker)) && x.txn < s.w.id
    requires forall p :: p in s.w.tracked ==> p in s.w.world.data && p in b && b[p] == s.w.id
    ensures Remembers(x, DoPrepare(s).w.world, {}, b, 0)
  {
    var v, u := s.w.world, DoPrepare(s).w.world;
    assert Late(u, x.txn, {}) == Late(v, x.txn, s.w.queued) by {
      AddEntries(v.dataFreed, s.w.id, s.w.queued, x.txn);
      hide Pages, Above, Entries, Purge, Remembers;
    }
    forall e | e in u.dataAlloc
      ensures (e in v.dataAlloc && e.0 >= Floor(s.tracker)) || (e.0 == s.w.id && e.1 in s.w.tracked)
    {
      hide Late, Remembers;
    }
    assert v.data <= Late(v, x.txn, s.w.queued);
    hide Late, Pages, Above, Entries, Purge, Floor, DoPrepare;
  }

  lemma RemembersProcess(x: Snapshot, v: World, b: Births, floor: int, until: int)
    requires Remembers(x, v, {}, b, floor) && UpTo(v.dataFreed, until) <= UpTo(v.dataFreed, x.txn)
    ensures Remembers(x, v.(dataFreed := Above(v.dataFreed, until), sysFreed := Above(v.sysFreed, until)), {}, b, floor)
  {
    assert Above(Above(v.dataFreed, until), x.txn) == Above(v.dataFreed, x.txn) by {
      forall e | e in v.dataFreed && e.0 <= until
        ensures e.0 <= x.txn
      {
        assert e in UpTo(v.dataFreed, until);
      }
    }
    hide Pages, Above, UpTo;
  }

  /** Reclaimed entries are older than every allocation entry that still counts. */
  lemma RemembersReclaim(x: Snapshot, v: World, b: Births, floor: int, d: Table, y: Table)
    requires Remembers(x, v, {}, b, floor) && BornBefore(v.dataFreed, b) && d <= v.dataFreed
    requires forall e :: e in d ==> e.0 < floor
    requires d <= UpTo(v.dataFreed, x.txn) || x.pages !! Pages(d)
    ensures Remembers(x, v.(dataFreed := v.dataFreed - d, sysFreed := v.sysFreed - y), {}, b, floor)
  {
    var u := v.(dataFreed := v.dataFreed - d, sysFreed := v.sysFreed - y);
    assert forall p :: p in Late(u, x.txn, {}) ==> p in Late(v, x.txn, {}) by { hide Remembers; }
    forall p | p in Late(v, x.txn, {}) && p !in Late(u, x.txn, {})
      ensures p in b ==> p !in x.pages && b[p] < floor
    {
      var e :| e in Above(v.dataFreed, x.txn) && e.1 == p;
      assert e !in d ==> e in Above(u.dataFreed, x.txn);
      assert e in d ==> e.1 in Pages(d);
    }
    hide Late, Pages, Above, UpTo;
  }

  // ----- floors -----

  lemma FloorAtMost(s: State, i: SavepointId)
    requires Ids(s) && i in s.tracker.savepoints
    ensures 0 <= Floor(s.tracker) <= s.saves[i].txn
  {
    OldestIsLowest(s, i);
  }

  /** Fewer savepoints, or a later time, drop no more than they did. */
  lemma FloorRises(s: State, t: TrackerState)
    requires Ids(s) && s.tracker.nextTxn <= t.nextTxn
    requires forall i :: i in s.saves ==> s.saves[i].txn <= s.tracker.nextTxn
    requires forall i :: i in t.savepoints ==> i in s.tracker.savepoints && t.savepoints[i] == s.tracker.savepoints[i]
    ensures Floor(s.tracker) <= Floor(t)
  {
    if t.OldestSavepoint().Some? {
      var i :| i in t.savepoints && t.savepoints[i] == t.OldestSavepoint().value;
      OldestIsLowest(s, i);
    } else if s.tracker.OldestSavepoint().Some? {
      var i :| i in s.tracker.savepoints && s.tracker.savepoints[i] == s.tracker.OldestSavepoint().value;
      assert s.saves[i].txn <= s.tracker.nextTxn;
    }
    hide StoredRows;
  }

  lemma LawsHigher(ids: set<SavepointId>, fewer: set<SavepointId>, saves: map<SavepointId, Snapshot>,
                   left: map<SavepointId, Snapshot>,
                   v: World, queued: set<Page>, b: Births, floor: int, higher: int)
    requires Laws(ids, saves, v, queued, b, floor) && floor <= higher
    requires forall i :: i in fewer && i in left ==> i in ids && i in saves && left[i] == saves[i]
    ensures Laws(fewer, left, v, queued, b, higher)
  {
    forall i | i in fewer && i in left
      ensures Remembers(left[i], v, queued, b, higher)
    {
      RemembersHigher(saves[i], v, queued, b, floor, higher);
    }
    hide Remembers;
  }

  lemma LawsAnySystem(ids: set<SavepointId>, saves: map<SavepointId, Snapshot>, v: World, u: World, queued: set<Page>,
                      b: Births, floor: int)
    requires Laws(ids, saves, v, queued, b, floor)
    requires u.data == v.data && u.dataFreed == v.dataFreed && u.dataAlloc == v.dataAlloc
    ensures Laws(ids, saves, u, queued, b, floor)
  {
    forall i | i in ids && i in saves
      ensures Remembers(saves[i], u, queued, b, floor)
    {
      RemembersAnySystem(saves[i], v, u, queued, b, floor);
    }
    hide Remembers;
  }

  lemma LawsBirths(ids: set<SavepointId>, saves: map<SavepointId, Snapshot>, v: World, queued: set<Page>, b: Births,
                   floor: int,
                   alloc: set<Page>, id: Txn, sysQueued: set<Page>, post: set<Page>, inUse: set<Page>)
    requires Laws(ids, saves, v, queued, b, floor) && Within(v, queued, sysQueued, post, inUse) && alloc !! inUse
    ensures Laws(ids, saves, v, queued, Borne(b, alloc, id), floor)
  {
    forall i | i in ids && i in saves
      ensures Remembers(saves[i], v, queued, Borne(b, alloc, id), floor)
    {
      LateInUse(v, saves[i].txn, queued, sysQueued, post, inUse);
      hide Borne, Remembers, Within, Late;
      RemembersBirths(saves[i], v, queued, b, floor, alloc, id);
    }
    hide Remembers, Within, Borne;
  }

  lemma LateInUse(v: World, t: Txn, queued: set<Page>, sysQueued: set<Page>, post: set<Page>, inUse: set<Page>)
    requires Within(v, queued, sysQueued, post, inUse)
    ensures Late(v, t, queued) <= inUse
  {
    SplitTable(v.dataFreed, t);
    hide Pages, Above, UpTo, Once;
  }

  // ----- steps that leave worlds and pages alone -----

  /** The pieces a step has to keep besides what `Core` says. */
  ghost predicate Kept(s: State, b: Births, d: Births)
  {
    Aged(s, b) && AllRemember(s, b) && Survives(s.durable, d)
      && (s.w.halfRestored ==> s.phase.Active? && s.w.restored.Some?)
  }

  lemma SavesBefore(s: State)
    requires Core(s)
    ensures forall i :: i in s.saves ==> s.saves[i].txn <= s.latest.id
    ensures s.latest.id <= s.tracker.nextTxn
  {
    assert AllHeld(s) by { HeldOf(s); hide Core, AllHeld; }
    assert s.latest.id <= s.tracker.nextTxn by { TimesOf(s); hide Core, AllHeld, Dated; }
    hide Core;
    SavesCommitted(s);
  }

  /** Readers, table handles and the durability of the writer are none of a savepoint's business. */
  lemma KeptQuietly(s: State, r: State, b: Births, d: Births)
    requires Kept(s, b, d) && (s.phase.Active? || r.w == s.w)
    requires r == s.(readers := r.readers, tracker := r.tracker,
                     w := s.w.(dirty := r.w.dirty, tablesOpen := r.w.tablesOpen, durable := r.w.durable,
                               tracking := r.w.tracking, tracked := r.w.tracked))
    requires r.tracker.savepoints == s.tracker.savepoints && r.tracker.nextTxn == s.tracker.nextTxn
    ensures Kept(r, b, d)
  {
    assert Floor(r.tracker) == Floor(s.tracker);
    hide Laws, Survives, BornBefore, Newest, Floor;
  }

  lemma SoundQuietly(s: State, e: Event, r: State, b: Births, d: Births)
    requires Sound(s, b, d) && Enabled(s, e) && Live(s) && r == Step(s, e)
    requires e.BeginRead? || e.EndRead? || e.OpenTable? || e.SetDurability?
    ensures Sound(r, b, d)
  {
    hide Core, Aged, AllRemember, Survives;
    KeptQuietly(s, r, b, d);
    hide Exact, Kept, DoOpenTable;
    match e
    case BeginRead(h) => CoreBeginRead(s, h);
    case EndRead(h) => CoreEndRead(s, h);
    case OpenTable => CoreOpenTable(s);
    case SetDurability(immediate) => CoreSetDurability(s, immediate);
  }

  lemma NothingBegun(s: State, b: Births, d: Births)
    requires Sound(s, b, d) && s.phase.Idle?
    ensures s.w == IdleWriter(s.latest) && s.uncommitted == {}
  {
    hide Core, Aged, AllRemember, Survives;
    FreshOf(s);
  }

  lemma AgedBeginWrite(s: State, b: Births)
    requires Aged(s, b) && s.phase.Idle? && s.w == IdleWriter(s.latest) && s.uncommitted == {}
    ensures Aged(DoBeginWrite(s), b)
  {
    hide BornBefore, Newest;
  }

  lemma SoundBeginWrite(s: State, b: Births, d: Births)
    requires Sound(s, b, d) && s.phase.Idle?
    ensures Sound(DoBeginWrite(s), b, d)
  {
    hide Core, Aged, Survives, Laws, Floor, Exact, Ids;
    var r := DoBeginWrite(s);
    NothingBegun(s, b, d);
    AgedBeginWrite(s, b);
    CoreBeginWrite(s);
    SavesBefore(s);
    IdsOf(s);
    FloorRises(s, r.tracker);
    var ids := Known(s, s.latest.world);
    LawsHigher(ids, ids, s.saves, s.saves, s.latest.world, {}, b, Floor(s.tracker), Floor(r.tracker));
  }

  // ----- editing the trees -----

  lemma AgedMutating(s: State, r: State, b: Births, alloc: set<Page>, gone: set<Page>)
    requires Aged(s, b) && alloc !! s.inUse && gone <= s.uncommitted && s.uncommitted <= s.inUse
      && s.w.queued <= s.inUse
    requires Pages(s.w.world.dataFreed) <= s.inUse
      && (CanRollBack(s.phase) ==> Pages(s.latest.world.dataFreed) <= s.inUse)
    requires r.inUse == s.inUse - gone + alloc && r.uncommitted == s.uncommitted - gone + alloc && r.w.id == s.w.id
    requires r.latest == s.latest && r.phase == s.phase && r.w.queued <= s.w.queued + (s.inUse - s.uncommitted)
    requires r.w.world.dataFreed == s.w.world.dataFreed && r.w.world.dataAlloc == s.w.world.dataAlloc
    requires s.latest.id < s.w.id && s.latest.world.data <= s.inUse
    requires s.phase.Prepared? || s.phase.Processed? ==> r.w.world.data == s.w.world.data && s.w.world.data <= s.inUse
    requires s.phase.Active? || s.phase.Prepared? || s.phase.Processed?
    ensures Aged(r, Borne(b, alloc, s.w.id))
  {
    var c := Borne(b, alloc, s.w.id);
    assert forall p :: p in s.inUse ==> p in c && c[p] == b[p];
    assert forall p :: p in alloc ==> p in c && c[p] == s.w.id;
    assert r.inUse <= c.Keys;
    hide Borne;
    forall e | e in s.w.world.dataFreed
      ensures e.1 in s.inUse
    {
      assert e.1 in Pages(s.w.world.dataFreed);
    }
    assert BornBefore(s.w.world.dataFreed, c);
    if CanRollBack(s.phase) {
      forall e | e in s.latest.world.dataFreed
        ensures e.1 in s.inUse
      {
        assert e.1 in Pages(s.latest.world.dataFreed);
      }
      assert BornBefore(s.latest.world.dataFreed, c);
    }
    hide Pages, BornBefore;
  }

  lemma LawsMutate(s: State, b: Births, alloc: set<Page>, drop: set<Page>)
    requires Laws(Known(s, s.w.world), s.saves, s.w.world, s.w.queued, b, WriterFloor(s))
      && Enabled(s, Mutate(alloc, drop))
    requires Within(s.w.world, s.w.queued, s.w.sysQueued, s.post, s.inUse) && s.uncommitted <= s.inUse && Aged(s, b)
    requires Dated(s.w.world, s.latest.id) && s.latest.id < s.w.id && forall i :: i in s.saves ==>
      s.saves[i].txn <= s.latest.id
    ensures var r := DoMutate(s, alloc, drop);
      Laws(Known(r, r.w.world), r.saves, r.w.world, r.w.queued, Borne(b, alloc, s.w.id), WriterFloor(r))
  {
    var r, gone := DoMutate(s, alloc, drop), drop * s.uncommitted;
    assert forall p :: p in gone ==> p in b && b[p] == s.w.id by { hide Laws, Within, BornBefore, Newest; }
    assert s.w.world.data !! Pages(s.w.world.dataFreed) && s.w.world.data !! s.w.queued by { hide Laws, Pages, Once; }
    hide Aged;
    forall i | i in Known(r, r.w.world) && i in r.saves
      ensures Remembers(r.saves[i], r.w.world, r.w.queued, Borne(b, alloc, s.w.id), WriterFloor(r))
    {
      LateInUse(s.w.world, s.saves[i].txn, s.w.queued, s.w.sysQueued, s.post, s.inUse);
      hide Remembers, Within, Late, Floor, Pages, Borne;
      RemembersMutate(s.saves[i], s.w.world, s.w.queued, b, WriterFloor(s), alloc, drop, gone, s.w.id);
    }
    hide Remembers, Within, Floor, Pages, Borne, Dated;
  }

  /** What the edit lemmas ask of the state. */
  lemma Editable(s: State)
    requires Core(s) && (s.phase.Active? || s.phase.Prepared? || s.phase.Processed?)
    ensures s.uncommitted <= s.inUse && s.w.queued <= s.inUse && s.latest.id < s.w.id
      && s.latest.world.data <= s.inUse && s.w.world.data <= s.inUse
    ensures Pages(s.w.world.dataFreed) <= s.inUse
      && (CanRollBack(s.phase) ==> Pages(s.latest.world.dataFreed) <= s.inUse)
    ensures s.phase.Active? ==> Dated(s.w.world, s.latest.id)
  {
    assert s.uncommitted <= s.w.world.data + s.w.world.sys by { FreshOf(s); hide Core; }
    assert s.latest.id < s.w.id && (s.phase.Active? ==> Dated(s.w.world, s.latest.id))
      by { TimesOf(s); hide Core, Dated; }
    assert s.latest.world.data <= s.inUse by { HeldOf(s); hide Core, Pages, UpTo, Persisted; }
    WithinOf(s);
    hide Core, Pages, Once, Dated;
  }

  lemma SoundMutate(s: State, alloc: set<Page>, drop: set<Page>, b: Births, d: Births)
    requires Sound(s, b, d) && Enabled(s, Mutate(alloc, drop))
    ensures Sound(DoMutate(s, alloc, drop), Borne(b, alloc, s.w.id), d)
  {
    hide Core, Aged, Survives, Laws, Floor, Borne;
    var r := DoMutate(s, alloc, drop);
    CoreMutate(s, alloc, drop);
    Editable(s);
    SavesBefore(s);
    WithinOf(s);
    hide Within, Exact, Pages, Dated;
    AgedMutating(s, r, b, alloc, drop * s.uncommitted);
    if !s.w.halfRestored {
      LawsMutate(s, b, alloc, drop);
    }
    LawsBirths(Known(s, s.latest.world), s.saves, s.latest.world, {}, b, Floor(s.tracker), alloc, s.w.id, {},
               s.uncommitted, s.inUse);
  }

  lemma SoundMutateSystem(s: State, alloc: set<Page>, drop: set<Page>, b: Births, d: Births)
    requires Sound(s, b, d) && Enabled(s, MutateSystem(alloc, drop))
    ensures Sound(DoMutateSystem(s, alloc, drop), Borne(b, alloc, s.w.id), d)
  {
    hide Core, Aged, Survives, Laws, Floor, Borne;
    var r := DoMutateSystem(s, alloc, drop);
    CoreMutateSystem(s, alloc, drop);
    Editable(s);
    WithinOf(s);
    hide Within, Exact, Pages, Dated;
    AgedMutating(s, r, b, alloc, drop * s.uncommitted);
    if !s.w.halfRestored {
      LawsBirths(Known(s, s.w.world), s.saves, s.w.world, s.w.queued, b, WriterFloor(s), alloc, s.w.id, s.w.sysQueued,
                 s.post, s.inUse);
      LawsAnySystem(Known(s, s.w.world), s.saves, s.w.world, r.w.world, s.w.queued, Borne(b, alloc, s.w.id),
                    WriterFloor(s));
    }
    if CanRollBack(s.phase) {
      LawsBirths(Known(s, s.latest.world), s.saves, s.latest.world, {}, b, Floor(s.tracker), alloc, s.w.id, {},
                 s.uncommitted, s.inUse);
    }
  }

  // ----- savepoints -----

  /** A new savepoint is the newest, so the oldest stays, or it is the only one. */
  lemma OldestIs(t: TrackerState, i: SavepointId)
    requires i in t.savepoints && forall j :: j in t.savepoints ==> i <= j
    ensures Floor(t) == t.savepoints[i]
  {
    assert t.OldestSavepoint().Some?;
    var k: SavepointId :| k in t.savepoints && t.savepoints[k] == t.OldestSavepoint().value &&
                          forall j :: j in t.savepoints ==> k <= j;
    assert k == i;
  }

  lemma Oldest(t: TrackerState) returns (i: SavepointId)
    requires t.savepoints != map[]
    ensures i in t.savepoints && (forall j :: j in t.savepoints ==> i <= j) && Floor(t) == t.savepoints[i]
  {
    i :| i in t.savepoints && t.savepoints[i] == t.OldestSavepoint().value && forall j :: j in t.savepoints ==> i <= j;
  }

  lemma FloorOfNewSave(s: State, ephemeral: set<SavepointId>)
    requires Ids(s)
    ensures var t := WithSave(s, ephemeral).tracker;
      Floor(t) == if s.tracker.savepoints == map[] then s.latest.id else Floor(s.tracker)
  {
    var t, id := WithSave(s, ephemeral).tracker, s.tracker.nextSavepoint + 1;
    assert t.savepoints == s.tracker.savepoints[id := s.latest.id];
    assert forall i :: i in s.tracker.savepoints ==> i < id by { hide StoredRows; }
    hide WithSave, Ids, Floor;
    if s.tracker.savepoints != map[] {
      var i := Oldest(s.tracker);
      OldestIs(t, i);
    } else {
      OldestIs(t, id);
    }
  }

  lemma LawsNewSave(s: State, ephemeral: set<SavepointId>, v: World, b: Births)
    requires Laws(Known(s, v), s.saves, v, {}, b, Floor(s.tracker)) && Ids(s)
    requires Newest(v, s.latest.id, b) && Dated(v, s.latest.id) && v.data == s.latest.world.data
    requires forall p :: p in v.data ==> p in b && b[p] <= s.latest.id
    ensures var r := WithSave(s, ephemeral); Laws(Known(r, v), r.saves, v, {}, b, Floor(r.tracker))
  {
    var r, id := WithSave(s, ephemeral), s.tracker.nextSavepoint + 1;
    FloorOfNewSave(s, ephemeral);
    assert forall i :: i in v.rows && i in s.saves ==> i != id;
    hide Ids;
    forall i | i in Known(r, v) && i in r.saves
      ensures Remembers(r.saves[i], v, {}, b, Floor(r.tracker))
    {
      hide Floor, Remembers, Newest, Dated;
      if i == id {
        RemembersRoot(Root(s.latest), v, b, Floor(r.tracker));
      } else if s.tracker.savepoints == map[] {
        RemembersLower(s.saves[i], v, b, s.latest.id, Floor(s.tracker));
      }
    }
    hide Remembers;
  }

  /** The state of a writer that has not changed anything. */
  lemma CleanWriter(s: State, b: Births)
    requires Core(s) && Aged(s, b) && s.phase.Active? && !s.w.dirty
    ensures s.w.queued == {} && s.w.world.data == s.latest.world.data
    ensures Newest(s.latest.world, s.latest.id, b) && Dated(s.latest.world, s.latest.id)
    ensures Newest(s.w.world, s.latest.id, b) && Dated(s.w.world, s.latest.id)
    ensures forall p :: p in s.latest.world.data ==> p in b && b[p] <= s.latest.id
  {
    FreshOf(s);
    assert Dated(s.latest.world, s.latest.id) && Dated(s.w.world, s.latest.id)
      by { TimesOf(s); hide Core, Dated, Aged; }
    assert s.latest.world.data <= s.inUse && s.latest.world.data !! s.uncommitted by {
      HeldOf(s);
      hide Core, Aged, Pages, UpTo, Persisted;
    }
    assert s.w.world.dataAlloc == s.latest.world.dataAlloc by { hide Core, Aged; }
    hide Core, Dated, BornBefore;
  }

  lemma AgedNewSave(s: State, ephemeral: set<SavepointId>, b: Births)
    requires Aged(s, b)
    ensures Aged(WithSave(s, ephemeral), b)
  {
    hide BornBefore, Newest;
  }

  lemma KeptNewSave(s: State, ephemeral: set<SavepointId>, b: Births, d: Births)
    requires Sound(s, b, d) && s.phase.Active? && !s.w.dirty
    ensures Kept(WithSave(s, ephemeral), b, d)
  {
    var r := WithSave(s, ephemeral);
    hide Core, Aged, Survives, Laws, Floor, Newest, Dated, Ids;
    AgedNewSave(s, ephemeral, b);
    CleanWriter(s, b);
    IdsOf(s);
    if !s.w.halfRestored {
      LawsNewSave(s, ephemeral, s.w.world, b);
    }
    LawsNewSave(s, ephemeral, s.latest.world, b);
  }

  lemma SoundCreateEphemeral(s: State, b: Births, d: Births)
    requires Sound(s, b, d) && Enabled(s, CreateEphemeral)
    ensures Sound(DoCreateEphemeral(s), b, d)
  {
    hide Core, Aged, AllRemember, Survives, Exact;
    CoreCreateEphemeral(s);
    KeptNewSave(s, s.ephemeral + {s.tracker.nextSavepoint + 1}, b, d);
  }

  lemma KeptRows(s: State, r: State, b: Births, d: Births)
    requires Kept(s, b, d) && r == s.(w := s.w.(world :=
        s.w.world.(rows := r.w.world.rows, nextRow := r.w.world.nextRow),
                                                created := r.w.created, deleted := r.w.deleted, dirty := true))
    requires Known(r, r.w.world) <= Known(s, s.w.world)
    ensures Kept(r, b, d)
  {
    assert Aged(r, b) by { hide AllRemember, Survives, BornBefore; }
    hide Aged, Survives, Laws, Floor, Known;
    if !s.w.halfRestored {
      LawsAnySystem(Known(s, s.w.world), s.saves, s.w.world, r.w.world, s.w.queued, b, WriterFloor(s));
      LawsHigher(Known(s, s.w.world), Known(r, r.w.world), s.saves, s.saves, r.w.world, s.w.queued, b, WriterFloor(s),
                 WriterFloor(s));
    }
    assert Known(r, r.latest.world) == Known(s, s.latest.world) by { KnownSame(s, r, s.latest.world); }
  }

  lemma KnownSame(s: State, r: State, v: World)
    requires s.tracker.savepoints == r.tracker.savepoints
    ensures Known(s, v) == Known(r, v)
  {
  }

  lemma SoundCreatePersistent(s: State, b: Births, d: Births)
    requires Sound(s, b, d) && Enabled(s, CreatePersistent)
    ensures Sound(DoCreatePersistent(s), b, d)
  {
    hide Core, Aged, AllRemember, Survives, Exact;
    CoreCreatePersistent(s);
    KeptNewSave(s, s.ephemeral, b, d);
    KeptRows(WithSave(s, s.ephemeral), DoCreatePersistent(s), b, d);
  }

  lemma SoundDeletePersistent(s: State, id: SavepointId, b: Births, d: Births)
    requires Sound(s, b, d) && Enabled(s, DeletePersistent(id))
    ensures Sound(DoDeletePersistent(s, id), b, d)
  {
    hide Core, Aged, AllRemember, Survives, Exact;
    CoreDeletePersistent(s, id);
    KeptRows(s, DoDeletePersistent(s, id), b, d);
  }

  /** Fewer registered savepoints, and no others. */
  lemma KeptFewer(s: State, r: State, b: Births, d: Births)
    requires Kept(s, b, d) && Ids(s) && s.latest.id <= s.tracker.nextTxn && forall i :: i in s.saves ==>
      s.saves[i].txn <= s.latest.id
    requires r == s.(tracker := r.tracker, saves := r.saves, ephemeral := r.ephemeral)
      && r.tracker.nextTxn == s.tracker.nextTxn
    requires forall i :: i in r.tracker.savepoints ==>
      i in s.tracker.savepoints && r.tracker.savepoints[i] == s.tracker.savepoints[i]
    requires forall i :: i in r.saves ==> i in s.saves && r.saves[i] == s.saves[i]
    ensures Kept(r, b, d)
  {
    assert Aged(r, b) by { hide AllRemember, Survives, BornBefore, Ids; }
    FloorRises(s, r.tracker);
    hide Aged, Survives, Laws, Floor, Ids;
    if !s.w.halfRestored {
      LawsHigher(Known(s, s.w.world), Known(r, r.w.world), s.saves, r.saves, s.w.world, s.w.queued, b, WriterFloor(s),
                 WriterFloor(r));
    }
    if CanRollBack(s.phase) {
      LawsHigher(Known(s, s.latest.world), Known(r, r.latest.world), s.saves, r.saves, s.latest.world, {}, b,
                 Floor(s.tracker), Floor(r.tracker));
    }
  }

  lemma SoundDropEphemeral(s: State, id: SavepointId, b: Births, d: Births)
    requires Sound(s, b, d) && Enabled(s, DropEphemeral(id))
    ensures id in s.saves && s.tracker.Refs(s.saves[id].txn) > 0 && Sound(DoDropEphemeral(s, id), b, d)
  {
    hide Core, Aged, AllRemember, Survives, Exact;
    CoreDropEphemeral(s, id);
    IdsOf(s);
    SavesBefore(s);
    var r := DoDropEphemeral(s, id);
    assert forall i :: i in r.saves ==> i in s.saves && r.saves[i] == s.saves[i];
    hide Ids;
    KeptFewer(s, r, b, d);
  }

  // ----- restoring a savepoint -----

  /** The oldest savepoint survives any restore. */
  lemma FloorRestored(s: State, id: SavepointId)
    requires id in s.tracker.savepoints && id in s.saves
    ensures Floor(DoRestore(s, id).tracker) == Floor(s.tracker)
  {
    var t := DoRestore(s, id).tracker;
    assert forall i :: i in t.savepoints <==> i in s.tracker.savepoints && i <= id;
    assert forall i :: i in t.savepoints ==> t.savepoints[i] == s.tracker.savepoints[i];
    hide DoRestore, Floor;
    var i := Oldest(s.tracker);
    OldestIs(t, i);
  }

  lemma AgedRewound(s: State, id: SavepointId, rows: map<SavepointId, Snapshot>, deleted: set<SavepointId>,
                    half: bool, b: Births)
    requires Aged(s, b) && id in s.saves && s.w.queued == {} && s.phase.Active? && s.latest.id < s.w.id
      && Dated(s.w.world, s.latest.id)
    requires forall e :: e in s.w.world.dataAlloc && e.0 > s.saves[id].txn ==> e.1 in b && b[e.1] == e.0
    ensures Aged(Rewound(s, id, rows, deleted, half), b)
  {
    var r, x := Rewound(s, id, rows, deleted, half), s.saves[id];
    forall p | p in r.w.queued
      ensures p in b && b[p] < s.w.id
    {
      var e :| e in Above(s.w.world.dataAlloc, x.txn) && e.1 == p;
    }
    assert BornBefore(r.w.world.dataFreed, b);
    hide BornBefore, Newest, Pages, Dated;
  }

  lemma LawsRestored(s: State, id: SavepointId, rows: map<SavepointId, Snapshot>, deleted: set<SavepointId>, b: Births)
    requires Laws(Known(s, s.w.world), s.saves, s.w.world, {}, b, Floor(s.tracker)) && Restoring(s, id) && id in s.saves
    requires Floor(s.tracker) <= s.saves[id].txn && s.w.queued == {}
    requires forall i :: i in s.saves && i <= id ==> s.saves[i].txn <= s.saves[id].txn
    requires forall i :: i in rows ==> i in s.w.world.rows && i <= id
    ensures var r := Rewound(s, id, rows, deleted, false);
      Laws(Known(r, r.w.world), r.saves, r.w.world, r.w.queued, b, Floor(s.tracker))
  {
    var r, x, v := Rewound(s, id, rows, deleted, false), s.saves[id], s.w.world;
    assert r.w.queued == Pages(Above(v.dataAlloc, x.txn)) && r.w.world == RestoredWorld(v, x, rows);
    assert id in Known(s, v);
    forall i | i in Known(r, r.w.world) && i in r.saves
      ensures Remembers(r.saves[i], r.w.world, r.w.queued, b, Floor(s.tracker))
    {
      assert i in Known(s, v) && i <= id;
      hide Remembers, Floor, Pages, Above, RestoredWorld;
      RemembersRestore(s.saves[i], x, v, rows, b, Floor(s.tracker));
    }
    hide Remembers;
  }

  lemma RestoreBegins(s: State, id: SavepointId)
    requires Core(s) && Restoring(s, id)
    ensures id in s.saves && s.w.queued == {} && Floor(s.tracker) <= s.saves[id].txn
    ensures forall i :: i in s.saves && i <= id ==> s.saves[i].txn <= s.saves[id].txn
  {
    assert s.w.queued == {} by { FreshOf(s); hide Core; }
    IdsOf(s);
    assert id in s.saves && (forall i :: i in s.saves && i <= id ==> s.saves[i].txn <= s.saves[id].txn) by {
      hide Core, StoredRows;
    }
    hide Core, Ids, Floor;
    FloorAtMost(s, id);
  }

  /** What restoring a registered savepoint finds. */
  lemma RestoreFinds(s: State, id: SavepointId, b: Births, d: Births)
    requires Sound(s, b, d) && Restoring(s, id) && id in s.saves && s.w.queued == {}
      && Floor(s.tracker) <= s.saves[id].txn
    ensures !s.w.halfRestored && Replaceable(s.saves[id], s.w.world)
    ensures forall e :: e in s.w.world.dataAlloc && e.0 > s.saves[id].txn ==> e.1 in b && b[e.1] == e.0
  {
    hide Core, Aged, Survives, Floor, Replaceable, Remembers;
    assert id in Known(s, s.w.world);
    assert Remembers(s.saves[id], s.w.world, {}, b, Floor(s.tracker));
    hide Laws;
    RemembersReplaceable(s.saves[id], s.w.world, b, Floor(s.tracker));
  }

  lemma RewoundShape(s: State, id: SavepointId, rows: map<SavepointId, Snapshot>, deleted: set<SavepointId>, half: bool)
    requires id in s.tracker.savepoints && id in s.saves
    ensures var r := Rewound(s, id, rows, deleted, half);
      && r.phase == s.phase && r.latest == s.latest && r.durable == s.durable && r.saves == s.saves
      && r.w.halfRestored == half && r.w.restored.Some? && Floor(r.tracker) == Floor(s.tracker)
      && Known(r, s.latest.world) <= Known(s, s.latest.world)
  {
    FloorRestored(s, id);
    hide Floor, RestoredWorld, Pages, Above, UpTo;
  }

  lemma SoundRewound(s: State, id: SavepointId, rows: map<SavepointId, Snapshot>, deleted: set<SavepointId>,
                     half: bool, b: Births, d: Births)
    requires Sound(s, b, d) && Restoring(s, id) && id in s.saves && Core(Rewound(s, id, rows, deleted, half))
    requires half || forall i :: i in rows ==> i in s.w.world.rows && i <= id
    ensures Sound(Rewound(s, id, rows, deleted, half), b, d)
  {
    hide Core, Aged, Survives, Laws, Floor, Dated, Rewound, Replaceable, Pages;
    RestoreBegins(s, id);
    RestoreFinds(s, id, b, d);
    var r := Rewound(s, id, rows, deleted, half);
    RewoundShape(s, id, rows, deleted, half);
    Editable(s);
    AgedRewound(s, id, rows, deleted, half, b);
    if !half {
      LawsRestored(s, id, rows, deleted, b);
    }
    LawsHigher(Known(s, s.latest.world), Known(r, s.latest.world), s.saves, s.saves, s.latest.world, {}, b,
               Floor(s.tracker), Floor(s.tracker));
  }

  lemma SoundRestore(s: State, id: SavepointId, b: Births, d: Births)
    requires Sound(s, b, d) && Enabled(s, Restore(id))
    ensures id in s.saves && Sound(DoRestore(s, id), b, d)
  {
    RestoreBegins(s, id);
    RestoreFinds(s, id, b, d);
    RestoresAreRewound(s, id);
    hide Core, Aged, AllRemember, Survives, Exact, Rewound, DoRestore, Replaceable, Gathered, Floor;
    CoreRestore(s, id);
    var later := set i | i in s.w.world.rows && i > id;
    SoundRewound(s, id, RowsUpTo(s.w.world.rows, id), s.w.deleted + later, false, b, d);
  }

  lemma SoundRestoreFails(s: State, id: SavepointId, b: Births, d: Births)
    requires Sound(s, b, d) && Enabled(s, RestoreFails(id))
    ensures id in s.saves && Sound(DoRestoreFails(s, id), b, d)
  {
    RestoreBegins(s, id);
    RestoreFinds(s, id, b, d);
    RestoresAreRewound(s, id);
    hide Core, Aged, AllRemember, Survives, Exact, Rewound, DoRestoreFails, Replaceable, Floor;
    CoreRestoreFails(s, id);
    SoundRewound(s, id, s.w.world.rows, s.w.deleted, true, b, d);
  }

  // ----- ending a write transaction -----

  lemma AgedAborted(s: State, b: Births)
    requires Aged(s, b) && s.phase.Active?
    ensures Aged(DoAbort(s), b)
  {
    hide BornBefore, Newest;
  }

  lemma SoundAbort(s: State, b: Births, d: Births)
    requires Sound(s, b, d) && s.phase.Active?
    ensures Sound(DoAbort(s), b, d)
  {
    hide Core, Aged, Survives, Laws, Exact;
    CoreAbort(s);
    AgedAborted(s, b);
    assert Floor(DoAbort(s).tracker) == Floor(s.tracker);
    hide Floor;
  }

  lemma AgedPrepared(s: State, b: Births)
    requires Aged(s, b) && s.phase.Active? && s.w.queued <= s.inUse && Dated(s.w.world, s.latest.id)
      && s.latest.id < s.w.id
    requires forall p :: p in s.w.tracked ==> p in s.w.world.data && p in b && b[p] == s.w.id
    ensures Aged(DoPrepare(s), b)
  {
    var r := DoPrepare(s);
    assert BornBefore(r.w.world.dataFreed, b);
    assert Newest(r.w.world, s.w.id, b) by { hide BornBefore; }
    hide BornBefore, Newest, Entries, Purge;
  }

  lemma TrackedBorn(s: State, b: Births)
    requires Core(s) && Aged(s, b) && s.phase.Active?
    ensures forall p :: p in s.w.tracked ==> p in s.w.world.data && p in b && b[p] == s.w.id
  {
    FreshOf(s);
    Editable(s);
    hide Core, BornBefore, Newest, Dated, Pages;
  }

  lemma LawsPrepared(s: State, b: Births)
    requires Laws(Known(s, s.w.world), s.saves, s.w.world, s.w.queued, b, Floor(s.tracker))
    requires forall i :: i in s.saves ==> s.saves[i].txn < s.w.id
    requires forall p :: p in s.w.tracked ==> p in s.w.world.data && p in b && b[p] == s.w.id
    ensures var r := DoPrepare(s); Laws(Known(r, r.w.world), r.saves, r.w.world, {}, b, 0)
  {
    var r := DoPrepare(s);
    forall i | i in Known(r, r.w.world) && i in r.saves
      ensures Remembers(r.saves[i], r.w.world, {}, b, 0)
    {
      assert i in Known(s, s.w.world) by { hide Purge, Entries; }
      hide Remembers, Floor, DoPrepare;
      RemembersPrepare(s.saves[i], s, b);
    }
    hide Remembers;
  }

  lemma FloorNatural(t: TrackerState)
    ensures 0 <= Floor(t)
  {
  }

  lemma SoundPrepare(s: State, b: Births, d: Births)
    requires Sound(s, b, d) && s.phase.Active? && !s.w.halfRestored
    ensures Sound(DoPrepare(s), b, d)
  {
    var r := DoPrepare(s);
    assert r.phase.Prepared? && r.latest == s.latest && r.tracker == s.tracker && r.saves == s.saves
      && r.durable == s.durable;
    assert r.w.halfRestored == s.w.halfRestored && r.w.queued == {};
    hide Core, Aged, Survives, Laws, Floor, Exact, Dated, Pages, DoPrepare;
    CorePrepare(s);
    Editable(s);
    TrackedBorn(s, b);
    SavesBefore(s);
    AgedPrepared(s, b);
    LawsPrepared(s, b);
    FloorNatural(s.tracker);
    LawsHigher(Known(r, r.w.world), Known(r, r.w.world), r.saves, r.saves, r.w.world, {}, b, 0, WriterFloor(r));
    KnownSame(s, r, s.latest.world);
  }

  /** Freeing pages keeps births, and drops entries only. */
  lemma AgedProcessed(s: State, r: State, b: Births)
    requires Aged(s, b) && s.phase.Prepared? && r.phase.Processed? && r.inUse <= s.inUse
      && r.uncommitted == s.uncommitted
    requires r.latest == s.latest && r.w == s.w.(world :=
        s.w.world.(dataFreed := r.w.world.dataFreed, sysFreed := r.w.world.sysFreed))
    requires r.w.world.dataFreed <= s.w.world.dataFreed
    ensures Aged(r, b)
  {
    assert BornBefore(r.w.world.dataFreed, b);
    assert Newest(r.w.world, r.w.id, b);
    hide BornBefore, Newest;
  }

  lemma ProcessedOne(s: State, x: Snapshot, b: Births, floor: int)
    requires Remembers(x, s.w.world, {}, b, floor) && Committers(s) && Watched(s, x.txn)
    ensures Remembers(x, DoProcessDurable(s).w.world, {}, b, floor)
  {
    forall e | e in UpTo(s.w.world.dataFreed, FreeUntil(s) - 1)
      ensures e in UpTo(s.w.world.dataFreed, x.txn)
    {
      hide Remembers, FreeUntil, Committers, Watched;
      FreedBeforeWatched(s, x.txn, e);
    }
    hide Remembers, FreeUntil, Committers, Watched;
    RemembersProcess(x, s.w.world, b, floor, FreeUntil(s) - 1);
  }

  lemma LawsProcessed(s: State, b: Births, floor: int)
    requires Laws(Known(s, s.w.world), s.saves, s.w.world, {}, b, floor) && Committers(s)
    ensures var r := DoProcessDurable(s); Laws(Known(r, r.w.world), r.saves, r.w.world, {}, b, floor)
  {
    var r := DoProcessDurable(s);
    assert r.saves == s.saves && Known(r, r.w.world) == Known(s, s.w.world) by { hide Committers, FreeUntil, Laws; }
    assert forall i :: i in s.saves ==> Watched(s, s.saves[i].txn) by { HoldersWatched(s); hide Laws, Watched; }
    hide Remembers, Committers, Watched, DoProcessDurable, Known;
    forall i | i in Known(r, r.w.world) && i in r.saves
      ensures Remembers(r.saves[i], r.w.world, {}, b, floor)
    {
      ProcessedOne(s, s.saves[i], b, floor);
    }
  }

  lemma SoundProcessDurable(s: State, b: Births, d: Births)
    requires Sound(s, b, d) && s.phase.Prepared? && s.w.durable
    ensures Sound(DoProcessDurable(s), b, d)
  {
    var r := DoProcessDurable(s);
    PreparedFacts(s);
    hide Core, Aged, Survives, Laws, Floor, Exact, Committers, FreeUntil, Pages;
    CoreProcessDurable(s);
    AgedProcessed(s, r, b);
    LawsProcessed(s, b, WriterFloor(s));
  }

  /** A non-durable commit reclaims nothing that an allocation entry worth keeping could be about. */
  lemma ReclaimedBelowFloor(s: State, e: (Txn, Page))
    requires Committers(s) && e in ReclaimedData(s)
    ensures e.0 < Floor(s.tracker)
  {
    ReclaimedBounds(s);
    hide Counted, Dated;
  }

  lemma LawsReclaimed(s: State, b: Births)
    requires Laws(Known(s, s.w.world), s.saves, s.w.world, {}, b, Floor(s.tracker)) && Committers(s) && AllHeld(s)
    requires BornBefore(s.w.world.dataFreed, b)
    ensures var r := DoProcessNonDurable(s); Laws(Known(r, r.w.world), r.saves, r.w.world, {}, b, Floor(s.tracker))
  {
    ReclaimShape(s);
    ReclaimedBounds(s);
    HoldersWatched(s);
    var r, t := DoProcessNonDurable(s), ReclaimedData(s);
    hide DoProcessNonDurable, ReclaimedData, ReclaimedSystem;
    forall e | e in t
      ensures e.0 < Floor(s.tracker)
    {
      hide Laws, Committers, AllHeld;
      ReclaimedBelowFloor(s, e);
    }
    forall i | i in Known(r, r.w.world) && i in r.saves
      ensures Remembers(r.saves[i], r.w.world, {}, b, Floor(s.tracker))
    {
      assert t <= UpTo(s.w.world.dataFreed, s.saves[i].txn) || s.saves[i].pages !! Pages(t) by {
        hide Laws, Floor;
        UntouchedByReclaim(s, i);
      }
      hide Remembers, Committers, AllHeld, Floor, Pages, BornBefore;
      RemembersReclaim(s.saves[i], s.w.world, b, Floor(s.tracker), t, ReclaimedSystem(s));
    }
    hide Remembers, Committers, AllHeld, Floor, Pages, BornBefore;
  }

  lemma UntouchedByReclaim(s: State, i: SavepointId)
    requires Committers(s) && AllHeld(s) && i in s.saves && Watched(s, s.saves[i].txn)
    ensures ReclaimedData(s) <= UpTo(s.w.world.dataFreed, s.saves[i].txn) || s.saves[i].pages !! Pages(ReclaimedData(s))
  {
    var x := s.saves[i];
    ReclaimedBounds(s);
    assert Persisted(x, s.tracker.pending, s.unpersisted) by { hide Committers, Safe, ReclaimedData, Persisted; }
    if x.txn in s.tracker.pending {
      assert x.txn == s.latest.id || s.tracker.Refs(x.txn) > 0 by { hide AllHeld, Dated, DatedOrNow, Counted; }
      forall e | e in ReclaimedData(s)
        ensures e in UpTo(s.w.world.dataFreed, x.txn)
      {
        hide AllHeld, Committers, FreeUntilNonDurable;
        ReclaimedBefore(s, x.txn, e);
      }
    }
    hide Committers, AllHeld, ReclaimedData, Pages, UpTo;
  }

  lemma SoundProcessNonDurable(s: State, b: Births, d: Births)
    requires Sound(s, b, d) && s.phase.Prepared? && !s.w.durable
    ensures Sound(DoProcessNonDurable(s), b, d)
  {
    var r := DoProcessNonDurable(s);
    PreparedFacts(s);
    ReclaimShape(s);
    ReclaimedBounds(s);
    assert BornBefore(s.w.world.dataFreed, b) by { hide Core, AllRemember, Survives, BornBefore, Newest; }
    assert Floor(r.tracker) == Floor(s.tracker) by { hide DoProcessNonDurable; }
    hide DoProcessNonDurable, ReclaimedData, ReclaimedSystem, FreeUntilNonDurable;
    hide Core, Aged, Survives, Laws, Floor, Exact, Committers, Pages, AllHeld, BornBefore;
    HeldOf(s);
    CoreProcessNonDurable(s);
    AgedProcessed(s, r, b);
    LawsReclaimed(s, b);
  }

  // ----- publishing the new roots -----

  lemma AgedCommitted(s: State, quick: bool, b: Births)
    requires Aged(s, b) && s.phase.Processed? && s.latest.id < s.w.id && s.w.queued == {}
    ensures Aged(DoCommit(s, quick), b)
  {
    CommitShape(s, quick);
    var r := DoCommit(s, quick);
    assert Newest(r.latest.world, r.latest.id, b) by { hide DoCommit, Stored, BornBefore; }
    hide DoCommit, Stored, BornBefore, Newest;
  }

  lemma StoredLaws(s: State, b: Births)
    requires Ids(s) && AllRemember(s, b) && s.phase.Processed? && s.w.durable && !s.w.halfRestored && s.w.queued == {}
    ensures forall i :: i in s.w.world.rows ==> Remembers(s.w.world.rows[i], s.w.world, {}, b, 0)
    ensures forall i :: i in s.w.world.rows ==> s.w.world.rows[i].pages <= Late(s.w.world, s.w.world.rows[i].txn, {})
  {
    forall i | i in s.w.world.rows
      ensures Remembers(s.w.world.rows[i], s.w.world, {}, b, 0)
      ensures s.w.world.rows[i].pages <= Late(s.w.world, s.w.world.rows[i].txn, {})
    {
      assert i in Known(s, s.w.world);
      assert Remembers(s.w.world.rows[i], s.w.world, {}, b, 0) by { hide Remembers; }
      hide Late, Ids, Laws;
    }
    hide Remembers, Late;
  }

  lemma CommitAges(s: State, quick: bool, b: Births)
    requires Core(s) && Aged(s, b) && s.phase.Processed? && s.w.durable
    ensures var c := DoCommit(s, quick).durable;
      && BornBefore(c.world.dataFreed, b) && Newest(c.world, c.id, b)
      && (forall p :: p in Places(c.world, {}, {}) ==> p in b && b[p] <= c.id)
  {
    CommitShape(s, quick);
    ProcessedFacts(s);
    var r := DoCommit(s, quick);
    hide DoCommit, Stored, Published, Core;
    assert Aged(r, b) by { hide Aged; AgedCommitted(s, quick, b); }
    assert Places(r.durable.world, {}, {}) <= r.inUse by {
      CoreCommit(s, quick);
      WithinOf(r);
      FreshOf(r);
      hide Exact, Aged, Apart, Places;
    }
    hide BornBefore, Newest, Places;
  }

  lemma CommitWorld(s: State, quick: bool)
    requires s.w.durable
    ensures var v := DoCommit(s, quick).durable.world;
      v.data == s.w.world.data && v.dataFreed == s.w.world.dataFreed && v.dataAlloc == s.w.world.dataAlloc
        && v.rows == s.w.world.rows
  {
    CommitShape(s, quick);
    hide DoCommit, Stored;
  }

  /** After a durable commit the stored savepoints are as safe as they were before it. */
  lemma CommitSurvives(s: State, quick: bool, b: Births)
    requires Core(s) && Aged(s, b) && AllRemember(s, b) && !s.w.halfRestored && s.phase.Processed? && s.w.durable
    ensures Survives(DoCommit(s, quick).durable, b)
  {
    var c := DoCommit(s, quick).durable;
    hide DoCommit, Core, Aged, AllRemember, Ids, Ordered, Places, BornBefore, Newest, Remembers, Late;
    ProcessedFacts(s);
    IdsOf(s);
    StoredLaws(s, b);
    CommitOrdered(s, quick);
    CommitAges(s, quick, b);
    CommitWorld(s, quick);
    forall i | i in c.world.rows
      ensures Remembers(c.world.rows[i], c.world, {}, b, 0)
    {
      RemembersAnySystem(s.w.world.rows[i], s.w.world, c.world, {}, b, 0);
    }
  }

  lemma CommitRegisters(s: State, quick: bool)
    ensures var r := DoCommit(s, quick);
      && r.phase.Committed? && r.saves == s.saves && r.w.queued == s.w.queued && r.w.halfRestored == s.w.halfRestored
      && r.w.world.data == s.w.world.data && r.w.world.dataFreed == s.w.world.dataFreed
      && r.w.world.dataAlloc == s.w.world.dataAlloc
      && Known(r, r.w.world) == Known(s, s.w.world) && Floor(r.tracker) == Floor(s.tracker)
      && (!s.w.durable ==> r.durable == s.durable)
  {
    CommitShape(s, quick);
    hide DoCommit, Stored;
  }

  lemma RememberCommitted(s: State, quick: bool, b: Births)
    requires AllRemember(s, b) && s.phase.Processed? && s.w.queued == {} && !s.w.halfRestored
    ensures AllRemember(DoCommit(s, quick), b)
  {
    hide DoCommit, Laws, Floor, Known;
    var r := DoCommit(s, quick);
    CommitRegisters(s, quick);
    FloorNatural(s.tracker);
    var ids := Known(s, s.w.world);
    LawsHigher(ids, ids, s.saves, s.saves, s.w.world, {}, b, WriterFloor(s), WriterFloor(r));
    LawsAnySystem(ids, s.saves, s.w.world, r.w.world, {}, b, WriterFloor(r));
  }

  lemma SoundCommit(s: State, quick: bool, b: Births, d: Births)
    requires Sound(s, b, d) && s.phase.Processed?
    ensures Sound(DoCommit(s, quick), b, if s.w.durable then b else d)
  {
    hide DoCommit, Core, Exact, Aged, AllRemember, Survives, Known, Floor;
    assert !s.w.halfRestored;
    ProcessedFacts(s);
    if s.w.durable {
      CommitSurvives(s, quick, b);
    }
    CommitRegisters(s, quick);
    CoreCommit(s, quick);
    AgedCommitted(s, quick, b);
    RememberCommitted(s, quick, b);
  }

  // ----- finishing -----

  lemma AgedFinished(s: State, b: Births)
    requires Aged(s, b) && s.phase.Committed? && s.w.world == s.latest.world && s.uncommitted == {}
    ensures Aged(DoFinish(s), b)
  {
    hide BornBefore, Newest, ReleaseAll, Txns;
  }

  lemma FinishLeaves(s: State)
    ensures var r := DoFinish(s);
      && r.phase.Idle? && r.w == IdleWriter(s.latest) && r.latest == s.latest && r.durable == s.durable
      && r.saves == s.saves - s.w.deleted && r.tracker.nextTxn == s.tracker.nextTxn
      && r.tracker.savepoints == s.tracker.savepoints - s.w.deleted
  {
    FinishTracker(s);
    hide ReleaseAll, Txns;
  }

  lemma CommittedWriter(s: State)
    requires Core(s) && s.phase.Committed?
    ensures s.w.world == s.latest.world && s.w.queued == {} && s.uncommitted == {}
  {
    FreshOf(s);
    hide Core;
  }

  lemma RememberFinished(s: State, b: Births)
    requires AllRemember(s, b) && s.phase.Committed? && s.w.world == s.latest.world && s.w.queued == {}
    requires !s.w.halfRestored && Ids(s) && s.latest.id <= s.tracker.nextTxn
    requires forall i :: i in s.saves ==> s.saves[i].txn <= s.latest.id
    ensures AllRemember(DoFinish(s), b)
  {
    hide Laws, Floor, DoFinish, Ids;
    var r := DoFinish(s);
    FinishLeaves(s);
    FloorRises(s, r.tracker);
    LawsHigher(Known(s, s.w.world), Known(r, r.w.world), s.saves, r.saves, s.w.world, {}, b, Floor(s.tracker),
               Floor(r.tracker));
  }

  lemma SoundFinish(s: State, b: Births, d: Births)
    requires Sound(s, b, d) && s.phase.Committed?
    ensures Sound(DoFinish(s), b, d)
  {
    hide Core, Exact, Aged, AllRemember, Survives, DoFinish, Ids;
    CommittedWriter(s);
    FinishLeaves(s);
    CoreFinish(s);
    AgedFinished(s, b);
    IdsOf(s);
    SavesBefore(s);
    RememberFinished(s, b);
  }

  // ----- crash and reopening -----

  lemma ReopenedShape(c: Commit, repaired: bool)
    ensures var r := Reopened(c, repaired);
      && r.phase.Idle? && r.w == IdleWriter(r.latest) && r.latest == r.durable && r.latest.world == c.world
        && r.saves == c.world.rows
      && c.id <= r.latest.id && (r.latest.id == c.id || r.latest.id == c.id + 1)
      && r.tracker.savepoints.Keys == c.world.rows.Keys && r.inUse == Places(c.world, {}, {}) && r.uncommitted == {}
  {
    hide Count, Places;
  }

  lemma AgedReopened(c: Commit, repaired: bool, d: Births)
    requires Survives(c, d)
    ensures Aged(Reopened(c, repaired), d) && Survives(Reopened(c, repaired).durable, d)
  {
    var r := Reopened(c, repaired);
    ReopenedShape(c, repaired);
    hide Reopened, Places, Remembers, BornBefore;
    assert Newest(c.world, r.latest.id, d) by { hide Apart, Late; }
    assert Ordered(r.durable) by { hide Newest, Apart, Late; DatedLater(c.world, c.id, r.durable.id); hide Dated; }
    hide Newest, Ordered;
  }

  lemma SoundCrash(c: Commit, repaired: bool, d: Births)
    requires Survives(c, d)
    ensures Sound(Reopened(c, repaired), d, d)
  {
    var r := Reopened(c, repaired);
    ReopenedShape(c, repaired);
    FloorNatural(r.tracker);
    assert Ordered(c) by { hide Ordered, Remembers, BornBefore, Newest, Places; }
    assert Laws(c.world.rows.Keys, c.world.rows, c.world, {}, d, 0)
      by { hide Ordered, Remembers, BornBefore, Newest, Places; }
    hide Reopened, Core, Aged, Survives, Laws, Floor, Exact, Ordered, Places;
    CoreCrash(c, repaired);
    AgedReopened(c, repaired, d);
    LawsHigher(c.world.rows.Keys, Known(r, r.w.world), c.world.rows, r.saves, c.world, {}, d, 0, Floor(r.tracker));
  }
}
