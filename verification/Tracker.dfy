/**
 The in-memory tracker of live transactions: which committed transactions are still referenced,
 which savepoints are valid, and which non-durable commits wait for a durable one.
 */
module Tracker {
  import opened Bits

  type Txn = nat
  type SavepointId = nat

  /** The number of keys mapped to `t`. */
  function Count(m: map<nat, Txn>, t: Txn): nat
  {
    |Mapped(m, t)|
  }

  function Mapped(m: map<nat, Txn>, t: Txn): set<nat>
  {
    set k | k in m && m[k] == t
  }

  lemma MappedAdd(m: map<nat, Txn>, k: nat, v: Txn, t: Txn)
    requires k !in m
    ensures k !in Mapped(m, t) && Mapped(m[k := v], t) == Mapped(m, t) + (if t == v then {k} else {})
  {
  }

  lemma CountAdd(m: map<nat, Txn>, k: nat, v: Txn)
    requires k !in m
    ensures forall t :: Count(m[k := v], t) == Count(m, t) + (if t == v then 1 else 0)
  {
    forall t
      ensures Count(m[k := v], t) == Count(m, t) + (if t == v then 1 else 0)
    {
      MappedAdd(m, k, v, t);
      hide Mapped;
    }
  }

  lemma CountRemove(m: map<nat, Txn>, k: nat)
    requires k in m
    ensures forall t :: Count(m - {k}, t) == Count(m, t) - (if t == m[k] then 1 else 0)
  {
    forall t
      ensures Count(m - {k}, t) == Count(m, t) - (if t == m[k] then 1 else 0)
    {
      assert Mapped(m - {k}, t) == Mapped(m, t) - (if t == m[k] then {k} else {});
    }
  }

  lemma CountPositive(m: map<nat, Txn>, k: nat)
    requires k in m
    ensures Count(m, m[k]) > 0
  {
    assert k in Mapped(m, m[k]);
  }

  lemma CountEmpty(t: Txn)
    ensures Count(map[], t) == 0
  {
    assert Mapped(map[], t) == {};
  }

  datatype TrackerState = TrackerState(
    nextSavepoint: SavepointId,
    liveReads: map<Txn, nat>,
    nextTxn: Txn,
    liveWrite: Option<Txn>,
    savepoints: map<SavepointId, Txn>,
    pending: map<Txn, Txn>,
    unprocessed: set<Txn>)
  {
    /** The number of references held on a transaction. */
    function Refs(t: Txn): nat {
      if t in liveReads then liveReads[t] else 0
    }

    /** A transaction nobody references has no entry. */
    ghost predicate Valid() {
      forall t :: t in liveReads ==> liveReads[t] > 0
    }

    /** The oldest transaction still referenced by a reader, a savepoint or a pending non-durable commit. */
    function OldestLiveRead(): (r: Option<Txn>)
      ensures r.None? <==> liveReads == map[]
      ensures r.Some? ==> r.value in liveReads && forall t :: t in liveReads ==> r.value <= t
    {
      if liveReads.Keys == {} then
        assert liveReads == map[];
        None
      else Some(Least(liveReads.Keys))
    }

    /** The oldest referenced transaction that is itself a pending non-durable commit. */
    function OldestLiveReadNonDurable(): (r: Option<Txn>)
      ensures r.None? ==> forall t :: t in liveReads ==> t !in pending
      ensures r.Some? ==> r.value in liveReads && r.value in pending
      ensures r.Some? ==> forall t :: t in liveReads && t in pending ==> r.value <= t
    {
      var both := liveReads.Keys * pending.Keys;
      assert forall t :: t in liveReads && t in pending ==> t in both;
      if both == {} then None else Some(Least(both))
    }

    /** The transaction of the savepoint with the lowest id. */
    function OldestSavepoint(): (r: Option<Txn>)
      ensures r.None? <==> savepoints == map[]
      ensures r.Some? ==> exists i :: i in savepoints && savepoints[i] == r.value && forall j :: j in savepoints ==>
        i <= j
    {
      if savepoints.Keys == {} then
        assert savepoints == map[];
        None
      else Some(savepoints[Least(savepoints.Keys)])
    }
  }

  function New(nextTxn: Txn): TrackerState
  {
    TrackerState(0, map[], nextTxn, None, map[], map[], {})
  }

  function Acquire(s: TrackerState, t: Txn): TrackerState
  {
    s.(liveReads := s.liveReads[t := s.Refs(t) + 1])
  }

  function Release(s: TrackerState, t: Txn): TrackerState
    requires s.Refs(t) > 0
  {
    if s.Refs(t) == 1 then s.(liveReads := s.liveReads - {t})
    else s.(liveReads := s.liveReads[t := s.Refs(t) - 1])
  }

  lemma AcquireRefs(s: TrackerState, t: Txn)
    requires s.Valid()
    ensures Acquire(s, t).Valid()
    ensures forall u :: Acquire(s, t).Refs(u) == s.Refs(u) + (if u == t then 1 else 0)
  {
  }

  lemma ReleaseRefs(s: TrackerState, t: Txn)
    requires s.Valid() && s.Refs(t) > 0
    ensures Release(s, t).Valid()
    ensures forall u :: Release(s, t).Refs(u) == s.Refs(u) - (if u == t then 1 else 0)
  {
  }

  /** One reference less on `m[k]` for every key `k`. */
  function ReleaseAll(s: TrackerState, m: map<nat, Txn>): (r: TrackerState)
  {
    s.(liveReads := map t | t in s.liveReads && s.liveReads[t] > Count(m, t) :: s.liveReads[t] - Count(m, t))
  }

  lemma ReleaseAllRefs(s: TrackerState, m: map<nat, Txn>)
    requires s.Valid() && forall t :: Count(m, t) <= s.Refs(t)
    ensures ReleaseAll(s, m).Valid()
    ensures forall t :: ReleaseAll(s, m).Refs(t) == s.Refs(t) - Count(m, t)
  {
    forall t
      ensures ReleaseAll(s, m).Refs(t) == s.Refs(t) - Count(m, t)
    {
      assert Count(m, t) <= s.Refs(t);
    }
  }

  /** Reference counts determine the map they are kept in. */
  lemma SameRefs(a: TrackerState, b: TrackerState)
    requires a.Valid() && b.Valid() && forall t :: a.Refs(t) == b.Refs(t)
    ensures a.liveReads == b.liveReads
  {
    forall t
      ensures t in a.liveReads <==> t in b.liveReads
      ensures t in a.liveReads ==> a.liveReads[t] == b.liveReads[t]
    {
      assert a.Refs(t) == b.Refs(t);
    }
  }

  class TransactionTracker {
    var nextSavepoint: SavepointId
    var liveReads: map<Txn, nat>
    var nextTxn: Txn
    var liveWrite: Option<Txn>
    var savepoints: map<SavepointId, Txn>
    var pending: map<Txn, Txn>
    var unprocessed: set<Txn>

    ghost function Value(): TrackerState
      reads this
    {
      TrackerState(nextSavepoint, liveReads, nextTxn, liveWrite, savepoints, pending, unprocessed)
    }

    constructor (next: Txn)
      ensures Value() == New(next)
    {
      nextSavepoint, liveReads, nextTxn, liveWrite := 0, map[], next, None;
      savepoints, pending, unprocessed := map[], map[], {};
    }

    /** Takes one reference on the transaction for each call. */
    method AcquireRead(t: Txn)
      modifies this`liveReads
      ensures Value() == Acquire(old(Value()), t)
    {
      if t in liveReads {
        liveReads := liveReads[t := liveReads[t] + 1];
      } else {
        liveReads := liveReads[t := 1];
      }
    }

    method DeallocateReadTransaction(t: Txn)
      requires Value().Refs(t) > 0
      modifies this`liveReads
      ensures Value() == Release(old(Value()), t)
    {
      liveReads := liveReads[t := liveReads[t] - 1];
      if liveReads[t] == 0 {
        liveReads := liveReads - {t};
        assert liveReads == old(liveReads) - {t};
      }
    }

    /** Drops the reference every pending non-durable commit holds on its durable ancestor. */
    method ClearPendingNonDurableCommits()
      requires Value().Valid()
      requires forall t :: Count(pending, t) <= Value().Refs(t)
      modifies this`liveReads, this`pending
      ensures Value() == ReleaseAll(old(Value()), old(pending)).(pending := map[])
    {
      var ids := pending;
      pending := map[];
      while ids != map[]
        invariant Value().Valid() && pending == map[]
        invariant Value() == old(Value()).(liveReads := liveReads, pending := map[])
        invariant forall t {:trigger Count(ids, t)} ::
          Value().Refs(t) == old(Value()).Refs(t) - Count(old(pending), t) + Count(ids, t)
        decreases |ids|
      {
        var k :| k in ids;
        CountPositive(ids, k);
        CountRemove(ids, k);
        ReleaseRefs(Value(), ids[k]);
        DeallocateReadTransaction(ids[k]);
        ids := ids - {k};
      }
      ReleaseAllRefs(old(Value()), old(pending));
      forall t
        ensures Value().Refs(t) == ReleaseAll(old(Value()), old(pending)).Refs(t)
      {
        CountEmpty(t);
        assert Count(ids, t) == 0;
      }
      SameRefs(Value(), ReleaseAll(old(Value()), old(pending)));
    }

    method RegisterNonDurableCommit(id: Txn, ancestor: Txn)
      modifies this`liveReads, this`pending, this`unprocessed
      ensures Value() == Acquire(old(Value()), ancestor).(pending := old(pending)[id := ancestor],
                                                          unprocessed := old(unprocessed) + {id})
    {
      AcquireRead(ancestor);
      pending := pending[id := ancestor];
      unprocessed := unprocessed + {id};
    }

    method RegisterPersistentSavepoint(id: SavepointId, t: Txn)
      modifies this`liveReads, this`savepoints
      ensures Value() == Acquire(old(Value()), t).(savepoints := old(savepoints)[id := t])
    {
      AcquireRead(t);
      savepoints := savepoints[id := t];
    }

    /** Removes the savepoint and the reference it holds. */
    method DeallocateSavepoint(id: SavepointId, t: Txn)
      requires Value().Refs(t) > 0
      modifies this`liveReads, this`savepoints
      ensures Value() == Release(old(Value()), t).(savepoints := old(savepoints) - {id})
    {
      savepoints := savepoints - {id};
      DeallocateReadTransaction(t);
    }
  }
}
