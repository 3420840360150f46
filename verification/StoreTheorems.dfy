/**
 What holds in every state of every run. Kinds of runs are told apart by what becomes of stored
 savepoints: in an orderly run the tracker never forgets one; in a careful run it may, but no
 transaction commits after a restore of its own has failed; in a traced run, besides, every restore
 finds an allocation entry for each page it supersedes.
 */
module StoreTheorems {
  import opened Tracker
  import opened Store
  import opened StoreInv
  import opened StoreProof
  import opened StoreCommit
  import opened StoreExact
  import opened StoreSafety

  function Initial(id: Txn): State
  {
    Reopened(Commit(id, EmptyWorld()), false)
  }

  /** A run from a new database: each state follows from the one before by an enabled step. */
  ghost predicate Run(ss: seq<State>, es: seq<Event>)
  {
    && |ss| == |es| + 1
    && (exists id :: ss[0] == Initial(id))
    && forall k :: 0 <= k < |es| ==> Follows(ss[k], es[k], ss[k + 1])
  }

  /** Where a reference to give back were missing the code would stop; such a state has no successor to speak of. */
  ghost predicate Follows(s: State, e: Event, r: State)
  {
    Enabled(s, e) && (Live(s) ==> r == Step(s, e))
  }

  ghost predicate OrderlyRun(ss: seq<State>, es: seq<Event>)
  {
    Run(ss, es) && forall k :: 0 <= k < |es| ==> Orderly(ss[k], es[k])
  }

  ghost predicate CarefulRun(ss: seq<State>, es: seq<Event>)
  {
    Run(ss, es) && forall k :: 0 <= k < |es| ==> Careful(ss[k], es[k])
  }

  lemma CoreLive(s: State)
    requires Core(s)
    ensures Live(s)
  {
    hide Disjoint, Fresh, AllHeld, DurableSystem, Times;
    forall h | h in s.readers
      ensures s.tracker.Refs(s.readers[h].txn) > 0
    {
      CountPositive(Txns(s.readers), h);
    }
    forall i | i in s.saves
      ensures s.tracker.Refs(s.saves[i].txn) > 0
    {
      CountPositive(Txns(s.saves), i);
    }
  }

  // ----- orderly steps keep the exact invariant -----

  lemma InvParts(s: State)
    requires Inv(s)
    ensures Core(s) && Live(s) && Reopenable(s.durable)
  {
    hide Core, Exact, AllRestorable, Reopenable, Live, Registered;
    CoreLive(s);
  }

  lemma KeepSharing(s: State, e: Event)
    requires Inv(s) && Enabled(s, e) && (e.BeginRead? || e.EndRead? || e.DropEphemeral? || e.Crash?)
    ensures Live(s) && Inv(Step(s, e))
  {
    hide Inv, Core, Live, Reopenable, DoBeginRead, DoEndRead, DoDropEphemeral, Reopened;
    InvParts(s);
    match e
    case BeginRead(h) => KeepBeginRead(s, h);
    case EndRead(h) => KeepEndRead(s, h);
    case DropEphemeral(id) => KeepDropEphemeral(s, id);
    case Crash(repaired) => KeepCrash(s, repaired);
  }

  lemma KeepWriting(s: State, e: Event)
    requires Inv(s) && Enabled(s, e) && (e.BeginWrite? || e.OpenTable? || e.Mutate? || e.MutateSystem?
        || e.SetDurability?)
    ensures Live(s) && Inv(Step(s, e))
  {
    hide Inv, Core, Live, Reopenable, DoBeginWrite, DoOpenTable, DoMutate, DoMutateSystem;
    InvParts(s);
    match e
    case BeginWrite => KeepBeginWrite(s);
    case OpenTable => KeepOpenTable(s);
    case Mutate(alloc, drop) => KeepMutate(s, alloc, drop);
    case MutateSystem(alloc, drop) => KeepMutateSystem(s, alloc, drop);
    case SetDurability(immediate) => KeepSetDurability(s, immediate);
  }

  lemma KeepSaving(s: State, e: Event)
    requires Inv(s) && Enabled(s, e) && (e.CreateEphemeral? || e.CreatePersistent? || e.DeletePersistent? || e.Restore?)
    ensures Live(s) && Inv(Step(s, e))
  {
    hide Inv, Core, Live, Reopenable, DoCreateEphemeral, DoCreatePersistent, DoDeletePersistent, DoRestore;
    InvParts(s);
    match e
    case CreateEphemeral => KeepCreateEphemeral(s);
    case CreatePersistent => KeepCreatePersistent(s);
    case DeletePersistent(id) => KeepDeletePersistent(s, id);
    case Restore(id) => KeepRestore(s, id);
  }

  lemma KeepEnding(s: State, e: Event)
    requires Inv(s) && Enabled(s, e) && Orderly(s, e)
      && (e.Abort? || e.Prepare? || e.Process? || e.CommitMemory? || e.Finish?)
    ensures Live(s) && Inv(Step(s, e))
  {
    hide Inv, Core, Live, Reopenable, DoAbort, DoPrepare, DoProcessDurable, DoProcessNonDurable;
    hide DoCommitDurable, DoCommitNonDurable, DoFinish;
    InvParts(s);
    match e
    case Abort => KeepAbort(s);
    case Prepare => KeepPrepare(s);
    case Process =>
      if s.w.durable { KeepProcessDurable(s); } else { KeepProcessNonDurable(s); }
    case CommitMemory(quick) => KeepCommit(s, quick);
    case Finish => KeepFinish(s);
  }

  lemma KeepStep(s: State, e: Event)
    requires Inv(s) && Enabled(s, e) && Orderly(s, e)
    ensures Live(s) && Inv(Step(s, e))
  {
    assert !e.RestoreFails?;
    hide *;
    if e.BeginRead? || e.EndRead? || e.DropEphemeral? || e.Crash? {
      KeepSharing(s, e);
    } else if e.BeginWrite? || e.OpenTable? || e.Mutate? || e.MutateSystem? || e.SetDurability? {
      KeepWriting(s, e);
    } else if e.CreateEphemeral? || e.CreatePersistent? || e.DeletePersistent? || e.Restore? {
      KeepSaving(s, e);
    } else {
      KeepEnding(s, e);
    }
  }

  lemma InitialInv(id: Txn)
    ensures Inv(Initial(id))
  {
    var c := Commit(id, EmptyWorld());
    assert Reopenable(c);
    var s := Reopened(c, false);
    hide Inv, Reopenable;
    KeepCrash(s, false);
  }

  lemma {:induction false} RunInv(ss: seq<State>, es: seq<Event>, k: nat)
    requires OrderlyRun(ss, es) && k < |ss|
    ensures Inv(ss[k]) && Live(ss[k])
  {
    hide Inv, Live, Step, Enabled, Orderly;
    if k == 0 {
      var id :| ss[0] == Initial(id);
      hide Initial;
      InitialInv(id);
    } else {
      RunInv(ss, es, k - 1);
      assert Follows(ss[k - 1], es[k - 1], ss[k]);
      KeepStep(ss[k - 1], es[k - 1]);
    }
    InvParts(ss[k]);
  }

  // ----- careful steps keep savepoints safe -----

  lemma SoundParts(s: State, b: Births, d: Births)
    requires Sound(s, b, d)
    ensures Core(s) && Live(s) && Survives(s.durable, d)
  {
    hide Core, Aged, AllRemember, Survives, Live;
    CoreLive(s);
  }

  /** The births after a step, now and at the last durable commit. */
  ghost function BirthsAfter(s: State, e: Event, b: Births, d: Births): Births
  {
    match e
    case Mutate(alloc, drop) => Borne(b, alloc, s.w.id)
    case MutateSystem(alloc, drop) => Borne(b, alloc, s.w.id)
    case Crash(repaired) => d
    case _ => b
  }

  ghost function DurableBirthsAfter(s: State, e: Event, b: Births, d: Births): Births
  {
    if e.CommitMemory? && s.w.durable then b else d
  }

  lemma SoundSharing(s: State, e: Event, b: Births, d: Births)
    requires Sound(s, b, d) && Enabled(s, e) && (e.BeginRead? || e.EndRead? || e.DropEphemeral? || e.Crash?)
    ensures Live(s) && Sound(Step(s, e), BirthsAfter(s, e, b, d), d)
  {
    hide Sound, Core, Live, Survives, DoBeginRead, DoEndRead, DoDropEphemeral, Reopened;
    SoundParts(s, b, d);
    match e
    case BeginRead(h) => SoundQuietly(s, e, Step(s, e), b, d);
    case EndRead(h) => SoundQuietly(s, e, Step(s, e), b, d);
    case DropEphemeral(id) => SoundDropEphemeral(s, id, b, d);
    case Crash(repaired) => SoundCrash(s.durable, repaired, d);
  }

  lemma SoundWriting(s: State, e: Event, b: Births, d: Births)
    requires Sound(s, b, d) && Enabled(s, e)
    requires e.BeginWrite? || e.OpenTable? || e.Mutate? || e.MutateSystem? || e.SetDurability?
    ensures Live(s) && Sound(Step(s, e), BirthsAfter(s, e, b, d), d)
  {
    hide Sound, Core, Live, Survives, DoBeginWrite, DoOpenTable, DoMutate, DoMutateSystem, Borne;
    SoundParts(s, b, d);
    match e
    case BeginWrite => SoundBeginWrite(s, b, d);
    case OpenTable => SoundQuietly(s, e, Step(s, e), b, d);
    case Mutate(alloc, drop) => SoundMutate(s, alloc, drop, b, d);
    case MutateSystem(alloc, drop) => SoundMutateSystem(s, alloc, drop, b, d);
    case SetDurability(immediate) => SoundQuietly(s, e, Step(s, e), b, d);
  }

  lemma SoundSaving(s: State, e: Event, b: Births, d: Births)
    requires Sound(s, b, d) && Enabled(s, e)
    requires e.CreateEphemeral? || e.CreatePersistent? || e.DeletePersistent? || e.Restore? || e.RestoreFails?
    ensures Live(s) && Sound(Step(s, e), b, d)
  {
    hide Sound, Core, Live, Survives, DoCreateEphemeral, DoCreatePersistent, DoDeletePersistent, DoRestore,
         DoRestoreFails;
    SoundParts(s, b, d);
    match e
    case CreateEphemeral => SoundCreateEphemeral(s, b, d);
    case CreatePersistent => SoundCreatePersistent(s, b, d);
    case DeletePersistent(id) => SoundDeletePersistent(s, id, b, d);
    case Restore(id) => SoundRestore(s, id, b, d);
    case RestoreFails(id) => SoundRestoreFails(s, id, b, d);
  }

  lemma SoundEnding(s: State, e: Event, b: Births, d: Births)
    requires Sound(s, b, d) && Enabled(s, e) && Careful(s, e)
    requires e.Abort? || e.Prepare? || e.Process? || e.CommitMemory? || e.Finish?
    ensures Live(s) && Sound(Step(s, e), b, DurableBirthsAfter(s, e, b, d))
  {
    hide Sound, Core, Live, Survives;
    hide DoAbort, DoPrepare, DoProcessDurable, DoProcessNonDurable;
    hide DoCommitDurable, DoCommitNonDurable, DoFinish;
    SoundParts(s, b, d);
    match e
    case Abort => SoundAbort(s, b, d);
    case Prepare => SoundPrepare(s, b, d);
    case Process =>
      if s.w.durable { SoundProcessDurable(s, b, d); } else { SoundProcessNonDurable(s, b, d); }
    case CommitMemory(quick) => SoundCommit(s, quick, b, d);
    case Finish => SoundFinish(s, b, d);
  }

  lemma BirthsKept(s: State, e: Event, b: Births, d: Births)
    ensures !e.Mutate? && !e.MutateSystem? && !e.Crash? ==> BirthsAfter(s, e, b, d) == b
    ensures !e.CommitMemory? ==> DurableBirthsAfter(s, e, b, d) == d
  {
  }

  lemma SoundStep(s: State, e: Event, b: Births, d: Births)
    requires Sound(s, b, d) && Enabled(s, e) && Careful(s, e)
    ensures Live(s) && Sound(Step(s, e), BirthsAfter(s, e, b, d), DurableBirthsAfter(s, e, b, d))
  {
    hide *;
    BirthsKept(s, e, b, d);
    if e.BeginRead? || e.EndRead? || e.DropEphemeral? || e.Crash? {
      SoundSharing(s, e, b, d);
    } else if e.BeginWrite? || e.OpenTable? || e.Mutate? || e.MutateSystem? || e.SetDurability? {
      SoundWriting(s, e, b, d);
    } else if e.CreateEphemeral? || e.CreatePersistent? || e.DeletePersistent? || e.Restore? || e.RestoreFails? {
      SoundSaving(s, e, b, d);
    } else {
      SoundEnding(s, e, b, d);
    }
  }

  lemma InitialSound(id: Txn)
    ensures Sound(Initial(id), map[], map[])
  {
    var c := Commit(id, EmptyWorld());
    assert Survives(c, map[]);
    hide Sound, Survives;
    SoundCrash(c, false, map[]);
  }

  lemma {:induction false} RunSound(ss: seq<State>, es: seq<Event>, k: nat) returns (b: Births, d: Births)
    requires CarefulRun(ss, es) && k < |ss|
    ensures Sound(ss[k], b, d) && Core(ss[k]) && Live(ss[k])
  {
    hide Sound, Core, Live, Step, Enabled, Careful;
    if k == 0 {
      var id :| ss[0] == Initial(id);
      hide Initial;
      InitialSound(id);
      b, d := map[], map[];
    } else {
      var b0, d0 := RunSound(ss, es, k - 1);
      var s, e := ss[k - 1], es[k - 1];
      assert Follows(s, e, ss[k]);
      SoundStep(s, e, b0, d0);
      b, d := BirthsAfter(s, e, b0, d0), DurableBirthsAfter(s, e, b0, d0);
    }
    SoundParts(ss[k], b, d);
  }

  /** An orderly run is careful: in it no restore fails. */
  lemma OrderlyIsCareful(ss: seq<State>, es: seq<Event>)
    requires OrderlyRun(ss, es)
    ensures CarefulRun(ss, es)
  {
    forall k | 0 <= k < |es|
      ensures Careful(ss[k], es[k])
    {
      assert !ss[k].w.halfRestored by {
        RunInv(ss, es, k);
        hide Core, Exact, AllRestorable, Reopenable, Live, Run, OrderlyRun;
      }
    }
  }

  // ----- exact accounting -----

  /** A restore, finished or not, finds an allocation entry for every page it supersedes. */
  ghost predicate Traced(s: State, e: Event)
  {
    (e.Restore? || e.RestoreFails?) && e.id in s.saves ==>
      Superseded(s, s.saves[e.id]) <= Pages(Above(s.w.world.dataAlloc, s.saves[e.id].txn))
  }

  ghost predicate TracedRun(ss: seq<State>, es: seq<Event>)
  {
    CarefulRun(ss, es) && forall k :: 0 <= k < |es| ==> Traced(ss[k], es[k])
  }

  lemma ExactSharing(s: State, e: Event)
    requires Core(s) && Exact(s) && Ordered(s.durable) && Enabled(s, e)
    requires e.BeginRead? || e.EndRead? || e.DropEphemeral? || e.Crash?
    ensures Live(s) && Exact(Step(s, e))
  {
    hide Core, Exact, Live, Ordered, DoBeginRead, DoEndRead, DoDropEphemeral, Reopened;
    CoreLive(s);
    match e
    case BeginRead(h) => CoreBeginRead(s, h);
    case EndRead(h) => CoreEndRead(s, h);
    case DropEphemeral(id) => CoreDropEphemeral(s, id);
    case Crash(repaired) => CoreCrash(s.durable, repaired);
  }

  lemma ExactWriting(s: State, e: Event)
    requires Core(s) && Exact(s) && Enabled(s, e)
    requires e.BeginWrite? || e.OpenTable? || e.Mutate? || e.MutateSystem? || e.SetDurability?
    ensures Live(s) && Exact(Step(s, e))
  {
    hide Core, Exact, Live, DoBeginWrite, DoOpenTable, DoMutate, DoMutateSystem;
    CoreLive(s);
    match e
    case BeginWrite => CoreBeginWrite(s);
    case OpenTable => CoreOpenTable(s);
    case Mutate(alloc, drop) => CoreMutate(s, alloc, drop);
    case MutateSystem(alloc, drop) => CoreMutateSystem(s, alloc, drop);
    case SetDurability(immediate) => CoreSetDurability(s, immediate);
  }

  lemma ExactSaving(s: State, e: Event)
    requires Core(s) && Exact(s) && Enabled(s, e)
    requires e.CreateEphemeral? || e.CreatePersistent? || e.DeletePersistent?
    ensures Live(s) && Exact(Step(s, e))
  {
    hide Core, Exact, Live, DoCreateEphemeral, DoCreatePersistent, DoDeletePersistent;
    CoreLive(s);
    match e
    case CreateEphemeral => CoreCreateEphemeral(s);
    case CreatePersistent => CoreCreatePersistent(s);
    case DeletePersistent(id) => CoreDeletePersistent(s, id);
  }

  lemma ExactRestoring(s: State, e: Event, b: Births, d: Births)
    requires Sound(s, b, d) && Exact(s) && Enabled(s, e) && Traced(s, e) && (e.Restore? || e.RestoreFails?)
    ensures Live(s) && Exact(Step(s, e))
  {
    hide Sound, Core, Exact, Live, Survives, DoRestore, DoRestoreFails, Superseded, Gathered, Replaceable, Floor;
    SoundParts(s, b, d);
    RestoreBegins(s, e.id);
    RestoreFinds(s, e.id, b, d);
    GatheredIff(s, s.saves[e.id]);
    match e
    case Restore(id) => CoreRestore(s, id);
    case RestoreFails(id) => CoreRestoreFails(s, id);
  }

  lemma ExactEnding(s: State, e: Event)
    requires Core(s) && Exact(s) && Enabled(s, e)
    requires e.Abort? || e.Prepare? || e.Process? || e.CommitMemory? || e.Finish?
    ensures Live(s) && Exact(Step(s, e))
  {
    hide Core, Exact, Live, DoAbort, DoPrepare, DoProcessDurable, DoProcessNonDurable;
    hide DoCommitDurable, DoCommitNonDurable, DoFinish;
    CoreLive(s);
    match e
    case Abort => CoreAbort(s);
    case Prepare => CorePrepare(s);
    case Process =>
      if s.w.durable { CoreProcessDurable(s); } else { CoreProcessNonDurable(s); }
    case CommitMemory(quick) => CoreCommit(s, quick);
    case Finish => CoreFinish(s);
  }

  lemma SurvivesOrdered(c: Commit, d: Births)
    requires Survives(c, d)
    ensures Ordered(c)
  {
    hide Ordered, BornBefore, Newest, Remembers, Places;
  }

  /** A step loses no page, an abort that forgets stored savepoints included, except a restore that is not traced. */
  lemma ExactStep(s: State, e: Event, b: Births, d: Births)
    requires Sound(s, b, d) && Exact(s) && Enabled(s, e) && Traced(s, e)
    ensures Live(s) && Exact(Step(s, e))
  {
    hide *;
    SoundParts(s, b, d);
    SurvivesOrdered(s.durable, d);
    if e.BeginRead? || e.EndRead? || e.DropEphemeral? || e.Crash? {
      ExactSharing(s, e);
    } else if e.BeginWrite? || e.OpenTable? || e.Mutate? || e.MutateSystem? || e.SetDurability? {
      ExactWriting(s, e);
    } else if e.CreateEphemeral? || e.CreatePersistent? || e.DeletePersistent? {
      ExactSaving(s, e);
    } else if e.Restore? || e.RestoreFails? {
      ExactRestoring(s, e, b, d);
    } else {
      ExactEnding(s, e);
    }
  }

  lemma TracedAt(ss: seq<State>, es: seq<Event>, k: nat)
    requires TracedRun(ss, es) && k < |es|
    ensures |ss| == |es| + 1 && CarefulRun(ss, es) && Enabled(ss[k], es[k]) && Traced(ss[k], es[k])
    ensures Live(ss[k]) ==> ss[k + 1] == Step(ss[k], es[k])
  {
    hide Enabled, Careful, Traced, Live, Step, Initial;
    assert Follows(ss[k], es[k], ss[k + 1]);
  }

  lemma {:induction false} RunExact(ss: seq<State>, es: seq<Event>, k: nat)
    requires TracedRun(ss, es) && k < |ss|
    ensures Exact(ss[k])
  {
    hide Exact, Sound, Core, Live, Step, Enabled, Follows, Careful, Traced, Initial;
    if k == 0 {
      var id :| ss[0] == Initial(id);
      InitialExact(id);
    } else {
      TracedAt(ss, es, k - 1);
      hide TracedRun, CarefulRun;
      RunExact(ss, es, k - 1);
      var b, d := RunSound(ss, es, k - 1);
      ExactStep(ss[k - 1], es[k - 1], b, d);
    }
  }

  lemma InitialExact(id: Txn)
    ensures Exact(Initial(id))
  {
    hide Core, Exact, AllRestorable, Reopenable, Registered, Initial;
    InitialInv(id);
  }

  /**
   Every page in use is in exactly one place, whatever is aborted or fails, as long as each restore
   finds an allocation entry for every page it supersedes.
   */
  lemma EveryPageInOnePlace(ss: seq<State>, es: seq<Event>, k: nat)
    requires TracedRun(ss, es) && k < |ss|
    ensures var s := ss[k]; var v := s.w.world;
      && (v.data !! v.sys !! Pages(v.dataFreed) !! Pages(v.sysFreed) !! s.w.queued !! s.w.sysQueued !! s.post)
      && s.inUse == v.data + v.sys + Pages(v.dataFreed) + Pages(v.sysFreed) + s.w.queued + s.w.sysQueued + s.post
      && Once(v.dataFreed) && Once(v.sysFreed)
  {
    RunExact(ss, es, k);
    hide TracedRun, Pages, Once, CanRollBack;
  }

  lemma InvAccounted(s: State)
    requires Inv(s)
    ensures Accounted(s.w.world, s.w.queued, s.w.sysQueued, s.post, s.inUse)
  {
    hide Core, Accounted, AllRestorable, Reopenable, Registered;
  }

  /** So in every orderly run: its restores are traced. */
  lemma OrderlyIsTraced(ss: seq<State>, es: seq<Event>)
    requires OrderlyRun(ss, es)
    ensures TracedRun(ss, es)
  {
    OrderlyIsCareful(ss, es);
    forall k | 0 <= k < |es|
      ensures Traced(ss[k], es[k])
    {
      RunInv(ss, es, k);
      assert Follows(ss[k], es[k], ss[k + 1]) && Orderly(ss[k], es[k]);
      hide Inv, Live, OrderlyRun, CarefulRun, Traced;
      if es[k].Restore? {
        RestoreTraced(ss[k], es[k].id);
      } else {
        NotRestored(ss[k], es[k]);
      }
    }
  }

  lemma RestoreTraced(s: State, id: SavepointId)
    requires Inv(s) && Enabled(s, Restore(id))
    ensures Traced(s, Restore(id))
  {
    hide Inv, Restorable, Replaceable, Gathered, Superseded;
    RestoreReady(s, id);
    RestorableMeans(s.saves[id], s.w.world);
    GatheredIff(s, s.saves[id]);
  }

  lemma NotRestored(s: State, e: Event)
    requires !e.Restore? && Orderly(s, e)
    ensures Traced(s, e)
  {
  }

  // ----- every state of every careful run -----

  /** The places are disjoint and in use, though a page may be in use and in none of them. */
  lemma NoPageInTwoPlaces(ss: seq<State>, es: seq<Event>, k: nat)
    requires CarefulRun(ss, es) && k < |ss|
    ensures var s := ss[k]; var v := s.w.world;
      && (v.data !! v.sys !! Pages(v.dataFreed) !! Pages(v.sysFreed) !! s.w.queued !! s.w.sysQueued !! s.post)
      && v.data + v.sys + Pages(v.dataFreed) + Pages(v.sysFreed) + s.w.queued + s.w.sysQueued + s.post <= s.inUse
      && Once(v.dataFreed) && Once(v.sysFreed)
  {
    var b, d := RunSound(ss, es, k);
    WithinOf(ss[k]);
    hide Sound, Core, Live, Run, Pages, Once;
  }

  /** What a reader or a savepoint or a crash may still need is in use, and no entry that could free it is due. */
  lemma NothingNeededIsFree(ss: seq<State>, es: seq<Event>, k: nat)
    requires CarefulRun(ss, es) && k < |ss|
    ensures var s := ss[k];
      && (forall h :: h in s.readers ==> s.readers[h].pages <= s.inUse)
      && (forall i :: i in s.saves ==> s.saves[i].pages <= s.inUse)
      && s.latest.world.data <= s.inUse
      && s.durable.world.data <= s.inUse && s.durable.world.sys <= s.inUse
  {
    var b, d := RunSound(ss, es, k);
    HeldOf(ss[k]);
    hide Sound, Core, Live, Run, Pages, UpTo, Persisted;
  }

  /** A step hands out only pages that were not in use. */
  ghost function Handed(e: Event): set<Page>
  {
    match e
    case Mutate(alloc, drop) => alloc
    case MutateSystem(alloc, drop) => alloc
    case _ => {}
  }

  lemma ReaderUnmoved(s: State, e: Event, h: nat)
    requires Enabled(s, e) && Live(s) && h in s.readers && h in Step(s, e).readers
    ensures Step(s, e).readers[h] == s.readers[h]
  {
    hide ReleaseAll, Pages, Above, UpTo, FreeUntil, FreeUntilNonDurable, Reclaimable, Purge, Entries, Live, Txns;
  }

  lemma SaveUnmoved(s: State, e: Event, i: SavepointId)
    requires Enabled(s, e) && Live(s) && Ids(s) && i in s.saves && i in Step(s, e).saves
    ensures Step(s, e).saves[i] == s.saves[i]
  {
    hide ReleaseAll, Pages, Above, UpTo, FreeUntil, FreeUntilNonDurable, Reclaimable, Purge, Entries, Live, Txns,
         Count, Places;
  }

  lemma RunStep(ss: seq<State>, es: seq<Event>, k: nat)
    requires CarefulRun(ss, es) && k < |es|
    ensures Enabled(ss[k], es[k]) && Live(ss[k]) && ss[k + 1] == Step(ss[k], es[k])
    ensures Handed(es[k]) !! ss[k].inUse
  {
    var b, d := RunSound(ss, es, k);
    hide Sound, Core, Live, Step, MayDeleteLaterRows;
    assert Follows(ss[k], es[k], ss[k + 1]);
  }

  /** A reader sees one snapshot for as long as it lives, and none of its pages is freed or reused meanwhile. */
  lemma {:induction false} SnapshotIsolation(ss: seq<State>, es: seq<Event>, i: nat, j: nat, h: nat)
    requires CarefulRun(ss, es) && i <= j < |ss|
    requires forall k :: i <= k <= j ==> h in ss[k].readers
    ensures ss[j].readers[h] == ss[i].readers[h]
    ensures ss[i].readers[h].pages <= ss[j].inUse
    ensures forall k :: i <= k < j ==> Handed(es[k]) !! ss[i].readers[h].pages
    decreases j - i
  {
    assert |ss| == |es| + 1;
    hide CarefulRun, Core, Step, Live, Enabled, Handed;
    NothingNeededIsFree(ss, es, j);
    if i < j {
      SnapshotIsolation(ss, es, i, j - 1, h);
      RunStep(ss, es, j - 1);
      ReaderUnmoved(ss[j - 1], es[j - 1], h);
    }
  }

  lemma RunIds(ss: seq<State>, es: seq<Event>, k: nat)
    requires CarefulRun(ss, es) && k < |ss|
    ensures Ids(ss[k])
  {
    hide CarefulRun, Core, Sound, Live, Ids;
    var b, d := RunSound(ss, es, k);
    IdsOf(ss[k]);
  }

  ghost predicate SavedThroughout(ss: seq<State>, i: nat, j: nat, id: SavepointId)
    requires j < |ss|
  {
    forall k :: i <= k <= j ==> id in ss[k].saves
  }

  ghost predicate NotHandedOut(es: seq<Event>, i: nat, j: nat, pages: set<Page>)
    requires j <= |es|
  {
    forall k :: i <= k < j ==> Handed(es[k]) !! pages
  }

  lemma SavedBefore(ss: seq<State>, i: nat, j: nat, id: SavepointId)
    requires i < j < |ss| && SavedThroughout(ss, i, j, id)
    ensures SavedThroughout(ss, i, j - 1, id) && id in ss[j - 1].saves && id in ss[j].saves && id in ss[i].saves
  {
  }

  lemma NotHandedNext(es: seq<Event>, i: nat, j: nat, pages: set<Page>)
    requires i < j <= |es| && NotHandedOut(es, i, j - 1, pages) && Handed(es[j - 1]) !! pages
    ensures NotHandedOut(es, i, j, pages)
  {
    hide Handed;
  }

  /** So does a savepoint, through commits, aborts and crashes, for as long as it exists. */
  lemma {:induction false} SavepointIsolation(ss: seq<State>, es: seq<Event>, i: nat, j: nat, id: SavepointId)
    requires CarefulRun(ss, es) && i <= j < |ss| && j <= |es| && SavedThroughout(ss, i, j, id)
    ensures id in ss[i].saves && id in ss[j].saves && ss[j].saves[id] == ss[i].saves[id]
    ensures ss[i].saves[id].pages <= ss[j].inUse
    ensures NotHandedOut(es, i, j, ss[i].saves[id].pages)
    decreases j - i
  {
    assert |ss| == |es| + 1;
    if i == j {
      hide CarefulRun, Handed;
      SavesInUse(ss, es, j);
    } else {
      hide CarefulRun, Step, Live, Enabled, Handed, SavedThroughout, NotHandedOut;
      SavedBefore(ss, i, j, id);
      SavepointIsolation(ss, es, i, j - 1, id);
      SaveStep(ss, es, j - 1, id);
      NotHandedNext(es, i, j, ss[i].saves[id].pages);
    }
  }

  lemma SaveStep(ss: seq<State>, es: seq<Event>, k: nat, id: SavepointId)
    requires CarefulRun(ss, es) && k < |es| && k + 1 < |ss| && id in ss[k].saves && id in ss[k + 1].saves
    ensures ss[k + 1].saves[id] == ss[k].saves[id] && ss[k + 1].saves[id].pages <= ss[k + 1].inUse
    ensures Handed(es[k]) !! ss[k].saves[id].pages
  {
    hide CarefulRun, Step, Live, Enabled, Handed;
    RunStep(ss, es, k);
    SaveStays(ss, es, k, id);
    SavesInUse(ss, es, k);
    SavesInUse(ss, es, k + 1);
  }

  lemma SavesInUse(ss: seq<State>, es: seq<Event>, k: nat)
    requires CarefulRun(ss, es) && k < |ss|
    ensures forall i :: i in ss[k].saves ==> ss[k].saves[i].pages <= ss[k].inUse
  {
    hide CarefulRun;
    NothingNeededIsFree(ss, es, k);
  }

  lemma SaveStays(ss: seq<State>, es: seq<Event>, k: nat, id: SavepointId)
    requires CarefulRun(ss, es) && k < |es| && k + 1 < |ss| && id in ss[k].saves && id in ss[k + 1].saves
    ensures ss[k + 1].saves[id] == ss[k].saves[id]
  {
    hide CarefulRun, Step, Live, Enabled, Handed, Ids;
    RunStep(ss, es, k);
    RunIds(ss, es, k);
    SaveUnmoved(ss[k], es[k], id);
  }

  /** Until the next durable commit, no page of the last one is freed or reused: a crash finds it whole. */
  lemma {:induction false} DurableCommitSurvives(ss: seq<State>, es: seq<Event>, i: nat, j: nat)
    requires CarefulRun(ss, es) && i <= j < |ss|
    requires forall k :: i <= k <= j ==> ss[k].durable == ss[i].durable
    ensures var v := ss[i].durable.world;
      && v.data <= ss[j].inUse && v.sys <= ss[j].inUse
      && (forall k :: i <= k < j ==> Handed(es[k]) !! v.data && Handed(es[k]) !! v.sys)
    decreases j - i
  {
    assert |ss| == |es| + 1;
    hide CarefulRun, Core, Step, Live, Enabled, Handed;
    NothingNeededIsFree(ss, es, j);
    if i < j {
      DurableCommitSurvives(ss, es, i, j - 1);
      RunStep(ss, es, j - 1);
    }
  }

  /**
   After a crash exactly the last durable commit is there again, with every page of it in one place
   and every stored savepoint registered with all its pages.
   */
  lemma CrashRecovers(ss: seq<State>, es: seq<Event>, k: nat)
    requires CarefulRun(ss, es) && k < |es| && es[k].Crash?
    ensures var v, r := ss[k].durable.world, ss[k + 1];
      && r.latest.world == v && r.durable.world == v && r.phase == Idle
      && r.saves == v.rows && r.tracker.savepoints.Keys == v.rows.Keys
      && (forall i :: i in v.rows ==> v.rows[i].pages <= r.inUse)
      && r.inUse == v.data + v.sys + Pages(v.dataFreed) + Pages(v.sysFreed)
      && (v.data !! v.sys !! Pages(v.dataFreed) !! Pages(v.sysFreed))
  {
    RunStep(ss, es, k);
    NoPageInTwoPlaces(ss, es, k + 1);
    NothingNeededIsFree(ss, es, k + 1);
    hide CarefulRun, Pages, Count, Live, Once;
  }

  // ----- runs put together from steps -----

  /** A run in which no reference to give back is ever missing. */
  ghost predicate LiveRun(ss: seq<State>, es: seq<Event>)
  {
    Run(ss, es) && forall k :: 0 <= k < |ss| ==> Live(ss[k])
  }

  ghost predicate Path(ss: seq<State>, es: seq<Event>)
  {
    |ss| == |es| + 1 && forall k :: 0 <= k < |es| ==> Follows(ss[k], es[k], ss[k + 1]) && Live(ss[k])
  }

  ghost predicate Reaches(s: State, r: State)
  {
    exists ss, es :: Path(ss, es) && ss[0] == s && ss[|es|] == r
  }

  lemma ReachesStep(s: State, e: Event)
    requires Enabled(s, e) && Live(s)
    ensures Reaches(s, Step(s, e))
  {
    var ss, es := [s, Step(s, e)], [e];
    hide Step, Enabled, Live;
    assert Path(ss, es);
  }

  lemma Joined(ss: seq<State>, es: seq<Event>, tt: seq<State>, fs: seq<Event>, k: nat)
    requires Path(ss, es) && Path(tt, fs) && ss[|es|] == tt[0] && k < |es| + |fs|
    ensures var uu, gs := ss + tt[1..], es + fs;
      Follows(uu[k], gs[k], uu[k + 1]) && Live(uu[k])
  {
    hide Follows, Live;
    if k < |es| {
      assert Follows(ss[k], es[k], ss[k + 1]) && Live(ss[k]);
    } else {
      var j := k - |es|;
      assert Follows(tt[j], fs[j], tt[j + 1]) && Live(tt[j]);
      assert (ss + tt[1..])[k] == tt[j] && (ss + tt[1..])[k + 1] == tt[j + 1];
    }
  }

  lemma ReachesOn(a: State, b: State, c: State)
    requires Reaches(a, b) && Reaches(b, c)
    ensures Reaches(a, c)
  {
    hide Follows, Live;
    var ss, es :| Path(ss, es) && ss[0] == a && ss[|es|] == b;
    var tt, fs :| Path(tt, fs) && tt[0] == b && tt[|fs|] == c;
    var uu, gs := ss + tt[1..], es + fs;
    forall k | 0 <= k < |gs|
      ensures Follows(uu[k], gs[k], uu[k + 1]) && Live(uu[k])
    {
      Joined(ss, es, tt, fs, k);
    }
    assert Path(uu, gs) && uu[0] == a && uu[|gs|] == c;
  }

  lemma ReachedByRun(id: Txn, r: State)
    requires Reaches(Initial(id), r) && Live(r)
    ensures exists ss, es :: LiveRun(ss, es) && ss[|es|] == r
  {
    hide Follows, Initial, Live;
    var ss, es :| Path(ss, es) && ss[0] == Initial(id) && ss[|es|] == r;
    assert Run(ss, es);
    assert LiveRun(ss, es);
  }
}
