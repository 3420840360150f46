/**
 Histories of commits, crashes and openings of the file. Opening is itself a sequence of header
 writes, any of which a further crash may interrupt: the header is rewritten with the picked slot as
 primary, marked clean once its trees have verified, committed again in two phases, and armed.
 */
module HeaderRuns {
  import opened Bits
  import opened Header

  // ----- what an opening may find, and what it may give -----

  /** The same trees under an id at least as high. */
  predicate SameRoots(a: Commit, b: Commit)
  {
    a.user == b.user && a.sys == b.sys && a.txn >= b.txn
  }

  /** What was on disk when the file was left: the last commit, one in flight, and the trees that verify. */
  datatype Left = Left(last: Commit, flight: Option<Commit>, ok: set<Tree>)
  {
    predicate Allows(c: Commit) {
      SameRoots(c, last) || (flight.Some? && SameRoots(c, flight.value))
    }

    predicate Good(c: Commit) {
      Allows(c) && Verifies(c, ok)
    }

    /** Sealed or not, this slot is never taken for the newest commit unless it may be. */
    predicate Tame(c: Commit, primary: bool) {
      Allows(c) || !Verifies(c, ok) || (if primary then c.txn < last.txn else c.txn <= last.txn)
    }
  }

  function PrimarySlot(i: Image): Slot
  {
    if i.god.swapped then i.slot1 else i.slot0
  }

  function SecondarySlot(i: Image): Slot
  {
    if i.god.swapped then i.slot0 else i.slot1
  }

  /**
   The primary of a clean or two-phase header is whole; else one slot is the last commit and the
   other torn or tame.
   */
  ghost predicate Found(i: Image, left: Left)
  {
    var p, s := PrimarySlot(i), SecondarySlot(i);
    && Verifies(left.last, left.ok)
    && if !i.god.recovery || i.god.twoPhase then !Corrupted(p) && left.Good(p.body)
       else
         || (p == Seal(left.last) && (Corrupted(s) || left.Tame(s.body, false)))
         || (s == Seal(left.last) && (Corrupted(p) || left.Tame(p.body, true)))
  }

  /** The same without the excuse that a slot is torn: what rewriting the header relies on. */
  ghost predicate Settled(i: Image, left: Left)
  {
    var p, s := PrimarySlot(i), SecondarySlot(i);
    i.god.recovery && !i.god.twoPhase ==>
      || (p == Seal(left.last) && left.Tame(s.body, false))
      || (s == Seal(left.last) && left.Tame(p.body, true))
  }

  lemma FoundOpens(i: Image, left: Left, quick: bool)
    requires Found(i, left)
    ensures Open(i, left.ok, quick).Ok? && left.Good(Open(i, left.ok, quick).value.Primary())
  {
  }

  /** Every crash of a commit leaves such a file. */
  lemma CrashFound(m: Machine, stage: Stage, i: Image, ok: set<Tree>)
    requires At(m, stage) && AfterCrash(i, m.Versions()) && m.Intact(ok)
    ensures Found(i, Left(m.last, m.flight, ok)) && i.god.recovery
  {
    CrashSlots(m, stage, i);
    hide AfterCrash;
  }

  /** The header an opening starts from. */
  function Picked(i: Image): Result<Header>
  {
    if i.god.recovery then Pick(FromImage(i), PrimaryCorrupted(i), SecondaryCorrupted(i)) else Ok(FromImage(i))
  }

  ghost predicate Survives(i: Image, left: Left)
  {
    forall quick :: var r := Open(i, left.ok, quick); r.Ok? && left.Good(r.value.Primary())
  }

  /** Rewriting the header seals a torn slot. A crash meanwhile is harmless exactly when that slot is tame. */
  lemma RewriteSafeIff(i: Image, left: Left)
    requires Found(i, left) && i.god.recovery
    ensures Picked(i).Ok?
    ensures (forall n :: AfterCrash(n, [i, Picked(i).value.ToImage()]) ==> Survives(n, left)) <==> Settled(i, left)
  {
    if Settled(i, left) {
      forall n | AfterCrash(n, [i, Picked(i).value.ToImage()])
        ensures Survives(n, left)
      {
        RewriteFound(i, left, n);
        forall quick {
          FoundOpens(n, left, quick);
        }
      }
    } else {
      RewriteRevives(i, left);
    }
  }

  lemma RewriteFound(i: Image, left: Left, n: Image)
    requires Found(i, left) && i.god.recovery && Settled(i, left)
    requires Picked(i).Ok? && AfterCrash(n, [i, Picked(i).value.ToImage()])
    ensures Found(n, left) && n.god.recovery
  {
    var h := Picked(i).value;
    Rewritten(i, h, n);
    hide AfterCrash;
  }

  /** A slot rewritten with a fresh checksum keeps its content; a whole one stays whole. */
  lemma Rewritten(i: Image, h: Header, n: Image)
    requires AfterCrash(n, [i, h.ToImage()]) && h.slot0 == i.slot0.body && h.slot1 == i.slot1.body
    ensures n.slot0.body == i.slot0.body && n.slot1.body == i.slot1.body
    ensures !Corrupted(i.slot0) ==> n.slot0 == i.slot0
    ensures !Corrupted(i.slot1) ==> n.slot1 == i.slot1
    ensures n.god == i.god || n.god == h.god
  {
    var vs := [i, h.ToImage()];
    assert Slots0(vs) == [i.slot0, Seal(h.slot0)];
    assert Slots1(vs) == [i.slot1, Seal(h.slot1)];
  }

  /** The crash that brings a torn slot back: all of it is sealed, and the byte naming the primary is the old one. */
  lemma RewriteRevives(i: Image, left: Left)
    requires Found(i, left) && i.god.recovery && !Settled(i, left)
    ensures Picked(i).Ok? && exists n :: AfterCrash(n, [i, Picked(i).value.ToImage()]) && !Survives(n, left)
  {
    var h := Picked(i).value;
    var n := h.ToImage().(god := i.god);
    var vs := [i, h.ToImage()];
    assert Slots0(vs) == [i.slot0, Seal(h.slot0)];
    assert Slots1(vs) == [i.slot1, Seal(h.slot1)];
    assert vs[0].god == n.god && Slots0(vs)[1] == n.slot0 && Slots1(vs)[1] == n.slot1;
    assert AfterCrash(n, vs);
    assert !left.Good(Open(n, left.ok, false).value.Primary());
  }

  // ----- the steps of an opening -----

  datatype Step = Rewriting | Chosen | Marking | Marked | Storing | Stored | Switching | Switched | Arming

  /** The image read, the one flushed since, the versions written over it, and the header in memory. */
  datatype Recovery = Recovery(left: Left, found: Image, base: Image, unsynced: seq<Image>, h: Header, step: Step)
  {
    function Versions(): seq<Image> {
      [base] + unsynced
    }
  }

  /** The recovered roots are committed again under the next id. */
  function Again(c: Commit): Commit
  {
    Commit(c.txn + 1, c.user, c.sys)
  }

  function Clean(h: Header): Header
  {
    h.(god := h.god.(recovery := false))
  }

  function Armed(h: Header): Header
  {
    h.(god := h.god.(recovery := true))
  }

  function Turned(h: Header): Header
  {
    h.Swap().(god := God(!h.god.swapped, h.god.recovery, true))
  }

  ghost predicate Opened(r: Recovery)
  {
    Found(r.found, r.left) && Picked(r.found) == Ok(r.h)
  }

  /** The header read, on disk again unless it was clean. */
  ghost predicate Settling(r: Recovery)
  {
    Opened(r) && r.base == if r.found.god.recovery then r.h.ToImage() else r.found
  }

  ghost predicate Verified(r: Recovery)
  {
    && Verifies(r.left.last, r.left.ok)
    && !r.h.god.recovery && r.left.Good(r.h.Primary()) && r.base == r.h.ToImage()
  }

  ghost predicate AtStep(r: Recovery)
  {
    match r.step
    case Rewriting => Opened(r) && r.found.god.recovery && r.base == r.found && r.unsynced == [r.h.ToImage()]
    case Chosen => Settling(r) && r.unsynced == []
    case Marking => Settling(r) && Repair(r.h, r.left.ok).Ok?
      && r.unsynced == [Clean(Repair(r.h, r.left.ok).value).ToImage()]
    case Marked => Verified(r) && r.unsynced == []
    case Storing => Verified(r) && r.unsynced == [r.h.WithSecondary(Again(r.h.Primary())).ToImage()]
    case Stored => Verified(r) && r.h.Secondary() == Again(r.h.Primary()) && r.unsynced == []
    case Switching => Verified(r) && r.h.Secondary() == Again(r.h.Primary()) && r.unsynced == [Turned(r.h).ToImage()]
    case Switched => Verified(r) && r.h.god.twoPhase && r.unsynced == []
    case Arming =>
      && Verifies(r.left.last, r.left.ok)
      && r.h.god.recovery && r.h.god.twoPhase && r.left.Good(r.h.Primary()) && r.unsynced == [r.h.ToImage()]
      && Clean(FromImage(r.base)) == Clean(r.h) && !Corrupted(PrimarySlot(r.base))
  }

  /** Until the header is marked clean, a crash is safe only where rewriting it was. */
  ghost predicate MayCrash(r: Recovery)
  {
    r.step.Rewriting? || r.step.Chosen? || r.step.Marking? ==> Settled(r.found, r.left)
  }

  /** Whatever step an opening has come to, a crash leaves a file that can be opened again. */
  lemma CrashWhileOpening(r: Recovery, n: Image)
    requires AtStep(r) && MayCrash(r) && AfterCrash(n, r.Versions())
    ensures Found(n, r.left)
  {
    match r.step
    case Rewriting =>
      assert r.Versions() == [r.found, r.h.ToImage()];
      RewriteFound(r.found, r.left, n);
    case Chosen => ChosenFound(r, n);
    case Marking => MarkingFound(r, n);
    case Storing => StoringFound(r, n);
    case Switching =>
      assert r.Versions() == [r.base, Turned(r.h).ToImage()];
      Rewritten(r.base, Turned(r.h), n);
    case Arming =>
      assert r.Versions() == [r.base, r.h.ToImage()];
      Rewritten(r.base, r.h, n);
    case _ =>
      assert r.Versions() == [r.base];
      OneVersion(r.base, n);
  }

  lemma OneVersion(i: Image, n: Image)
    requires AfterCrash(n, [i])
    ensures FromImage(n) == FromImage(i) && (!Corrupted(i.slot0) ==> n.slot0 == i.slot0)
      && (!Corrupted(i.slot1) ==> n.slot1 == i.slot1)
  {
    assert Slots0([i]) == [i.slot0] && Slots1([i]) == [i.slot1];
  }

  lemma ChosenFound(r: Recovery, n: Image)
    requires AtStep(r) && r.step.Chosen? && Settled(r.found, r.left) && AfterCrash(n, r.Versions())
    ensures Found(n, r.left)
  {
    assert r.Versions() == [r.base];
    OneVersion(r.base, n);
    hide AfterCrash;
  }

  lemma MarkingFound(r: Recovery, n: Image)
    requires AtStep(r) && r.step.Marking? && Settled(r.found, r.left) && AfterCrash(n, r.Versions())
    ensures Found(n, r.left)
  {
    var c := Clean(Repair(r.h, r.left.ok).value);
    assert r.Versions() == [r.base, c.ToImage()];
    Rewritten(r.base, c, n);
    hide AfterCrash;
  }

  /** While the secondary is overwritten, the clean header names a primary that stays whole. */
  lemma StoringFound(r: Recovery, n: Image)
    requires AtStep(r) && r.step.Storing? && AfterCrash(n, r.Versions())
    ensures Found(n, r.left)
  {
    var h, k := r.h, r.h.WithSecondary(Again(r.h.Primary()));
    var vs := r.Versions();
    assert vs == [h.ToImage(), k.ToImage()];
    assert Slots0(vs) == [Seal(h.slot0), Seal(k.slot0)] && Slots1(vs) == [Seal(h.slot1), Seal(k.slot1)];
    assert n.god == h.god;
    if h.god.swapped {
      SameSlot(n.slot1, Slots1(vs), h.slot1);
    } else {
      SameSlot(n.slot0, Slots0(vs), h.slot0);
    }
    hide AfterCrash;
  }

  // ----- whole runs -----

  datatype Status = Running(m: Machine, stage: Stage) | Opening(r: Recovery)

  datatype Event =
    | Start(c: Commit, twoPhase: bool)
    | Flush
    | Exchange
    | Finish
    | Advance(quick: bool)
    | Crash(i: Image, ok: set<Tree>)

  ghost predicate Holds(s: Status)
  {
    match s
    case Running(m, stage) => At(m, stage)
    case Opening(r) => AtStep(r)
  }

  /** Nothing verifies, or stops verifying, while the file is being opened: no page is written then. */
  ghost predicate Enabled(s: Status, e: Event)
  {
    match s
    case Running(m, stage) =>
      (match e
       case Start(c, twoPhase) => stage.Rest? && MayStart(m.header, c, twoPhase)
       case Flush => stage.Written? && m.twoPhase
       case Exchange => if m.twoPhase then stage.Flushed? else stage.Written?
       case Finish => stage.Swapped?
       case Advance(quick) => false
       case Crash(i, ok) => AfterCrash(i, m.Versions()) && m.Intact(ok))
    case Opening(r) =>
      e.Advance? || (e.Crash? && e.ok == r.left.ok && AfterCrash(e.i, r.Versions()) && MayCrash(r))
  }

  /** Reading the header, and picking the slot to go on with. */
  function Begin(i: Image, left: Left): Result<Status>
  {
    var p := Picked(i);
    if p.Corrupt? then Corrupt
    else if i.god.recovery then Ok(Opening(Recovery(left, i, i, [p.value.ToImage()], p.value, Rewriting)))
    else Ok(Opening(Recovery(left, i, i, [], p.value, Chosen)))
  }

  function Written(r: Recovery, h: Header, step: Step): Status
  {
    Opening(r.(unsynced := [h.ToImage()], step := step))
  }

  function Flushed(r: Recovery, h: Header, step: Step): Status
  {
    Opening(r.(base := h.ToImage(), unsynced := [], h := h, step := step))
  }

  /** `quick` says that the primary's tree holds a usable allocator state, so that no repair is done. */
  function NextStep(r: Recovery, quick: bool): Result<Status>
  {
    match r.step
    case Rewriting => Ok(Flushed(r, r.h, Chosen))
    case Chosen =>
      if r.h.god.twoPhase && quick then Ok(Written(r.(h := Armed(r.h)), Armed(r.h), Arming))
      else if Repair(r.h, r.left.ok).Corrupt? then Corrupt
      else Ok(Written(r, Clean(Repair(r.h, r.left.ok).value), Marking))
    case Marking =>
      if Repair(r.h, r.left.ok).Corrupt? then Corrupt else Ok(Flushed(r, Clean(Repair(r.h, r.left.ok).value), Marked))
    case Marked => Ok(Written(r, r.h.WithSecondary(Again(r.h.Primary())), Storing))
    case Storing => Ok(Flushed(r, r.h.WithSecondary(Again(r.h.Primary())), Stored))
    case Stored => Ok(Written(r, Turned(r.h), Switching))
    case Switching => Ok(Flushed(r, Turned(r.h), Switched))
    case Switched => Ok(Written(r.(h := Armed(r.h)), Armed(r.h), Arming))
    case Arming => Ok(Running(Machine(r.h, [], r.h.Primary(), None, false, false), Rest))
  }

  ghost function Next(s: Status, e: Event): Result<Status>
    requires Enabled(s, e) && Holds(s)
  {
    match s
    case Running(m, stage) =>
      (match e
       case Start(c, twoPhase) =>
         Ok(Running(m.(flight := Some(c), twoPhase := twoPhase, unsynced := [m.header.WithSecondary(c).ToImage()]),
                    Stage.Written))
       case Flush => Ok(Running(m.(header := m.header.WithSecondary(m.flight.value), unsynced := [], synced := true),
                                Stage.Flushed))
       case Exchange => Ok(Running(m.(unsynced := m.unsynced + [Target(m).ToImage()]), Swapped))
       case Finish =>
         Ok(Running(m.(header := Target(m), unsynced := [], last := m.flight.value, flight := None, synced := false),
                    Rest))
       case Crash(i, ok) => Begin(i, Left(m.last, m.flight, ok))
       case Advance(quick) => Ok(s))
    case Opening(r) => if e.Crash? then Begin(e.i, r.left) else NextStep(r, e.quick)
  }

  /** What a step leaves: the same last commit, the one just finished, or, after a crash, one of the two, unmixed. */
  ghost predicate Continues(s: Status, e: Event, n: Status)
  {
    match s
    case Running(m, stage) =>
      if e.Crash? then n.Opening? && n.r.left == Left(m.last, m.flight, e.ok)
      else n.Running? && if e.Finish? then m.flight == Some(n.m.last) else n.m.last == m.last
    case Opening(r) => if n.Running? then r.left.Good(n.m.last) else n.r.left == r.left
  }

  /** No step, of a commit or of an opening, ever finds the file unusable, loses the last commit or mixes two. */
  lemma StepSafe(s: Status, e: Event)
    requires Holds(s) && Enabled(s, e)
    ensures var n := Next(s, e); n.Ok? && Holds(n.value) && Continues(s, e, n.value)
  {
    if s.Opening? {
      if e.Crash? {
        CrashWhileOpening(s.r, e.i);
        BeginSafe(e.i, s.r.left);
      } else {
        AdvanceSafe(s.r, e.quick);
      }
    } else if e.Crash? {
      CrashFound(s.m, s.stage, e.i, e.ok);
      BeginSafe(e.i, Left(s.m.last, s.m.flight, e.ok));
    } else {
      hide AfterCrash;
    }
  }

  lemma BeginSafe(i: Image, left: Left)
    requires Found(i, left)
    ensures var n := Begin(i, left); n.Ok? && Holds(n.value) && n.value.Opening? && n.value.r.left == left
  {
  }

  lemma AdvanceSafe(r: Recovery, quick: bool)
    requires AtStep(r)
    ensures var n := NextStep(r, quick); n.Ok? && Holds(n.value) && Continues(Opening(r), Advance(quick), n.value)
  {
    if r.step.Chosen? || r.step.Marking? {
      FoundOpens(r.found, r.left, quick);
      FoundOpens(r.found, r.left, false);
    }
  }

  ghost predicate Run(ss: seq<Status>, es: seq<Event>)
  {
    && |ss| == |es| + 1
    && Holds(ss[0])
    && forall k :: 0 <= k < |es| ==> Enabled(ss[k], es[k]) && (Holds(ss[k]) ==> Next(ss[k], es[k]) == Ok(ss[k + 1]))
  }

  /**
   Over any history of one- and two-phase commits, openings, and crashes in either: never unusable,
   never a mixture.
   */
  lemma {:induction false} RunSafe(ss: seq<Status>, es: seq<Event>, k: nat)
    requires Run(ss, es) && k < |ss|
    ensures Holds(ss[k])
    ensures k < |es| ==> Next(ss[k], es[k]) == Ok(ss[k + 1]) && Continues(ss[k], es[k], ss[k + 1])
  {
    hide Holds, Enabled, Next, Continues;
    if k > 0 {
      RunSafe(ss, es, k - 1);
      StepSafe(ss[k - 1], es[k - 1]);
    }
    if k < |es| {
      StepSafe(ss[k], es[k]);
    }
  }

  lemma RunContinues(ss: seq<Status>, es: seq<Event>, k: nat)
    requires Run(ss, es) && k < |es|
    ensures Continues(ss[k], es[k], ss[k + 1])
  {
    assert |ss| == |es| + 1;
    hide Run, Holds, Next, Continues;
    RunSafe(ss, es, k);
  }

  /** From just after step `i` to just before step `j` the file is being opened. */
  ghost predicate Interrupted(ss: seq<Status>, i: nat, j: nat)
    requires j < |ss|
  {
    forall k :: i < k < j ==> ss[k].Opening?
  }

  lemma InterruptedBefore(ss: seq<Status>, i: nat, j: nat)
    requires i + 1 < j < |ss| && Interrupted(ss, i, j)
    ensures Interrupted(ss, i, j - 1) && ss[j - 1].Opening?
  {
  }

  /** What was there when the file was left is still what an opening goes for, or has led to. */
  ghost predicate Gives(s: Status, left: Left)
  {
    match s
    case Running(m, stage) => left.Allows(m.last)
    case Opening(r) => r.left == left
  }

  lemma CrashGives(s: Status, e: Event, n: Status)
    requires s.Running? && e.Crash? && Continues(s, e, n)
    ensures Gives(n, Left(s.m.last, s.m.flight, e.ok))
  {
  }

  lemma OpeningGives(s: Status, e: Event, n: Status, left: Left)
    requires s.Opening? && Continues(s, e, n) && Gives(s, left)
    ensures Gives(n, left)
  {
  }

  lemma {:induction false} StillGives(ss: seq<Status>, es: seq<Event>, i: nat, j: nat, left: Left)
    requires Run(ss, es) && i < j < |ss| && Interrupted(ss, i, j) && Gives(ss[i + 1], left)
    ensures Gives(ss[j], left)
  {
    if i + 1 < j {
      assert |ss| == |es| + 1;
      hide Run, Continues, Interrupted, Gives;
      InterruptedBefore(ss, i, j);
      StillGives(ss, es, i, j - 1, left);
      RunContinues(ss, es, j - 1);
      OpeningGives(ss[j - 1], es[j - 1], ss[j], left);
    }
  }

  /** However often opening is interrupted, what it gives in the end is what there was before the first crash. */
  lemma OpensToWhatWasThere(ss: seq<Status>, es: seq<Event>, i: nat, j: nat)
    requires Run(ss, es) && i < j < |ss| && i < |es|
    requires ss[i].Running? && es[i].Crash? && Interrupted(ss, i, j)
    ensures ss[j].Opening? ==> ss[j].r.left == Left(ss[i].m.last, ss[i].m.flight, es[i].ok)
    ensures ss[j].Running? ==>
      || SameRoots(ss[j].m.last, ss[i].m.last)
      || (ss[i].m.flight.Some? && SameRoots(ss[j].m.last, ss[i].m.flight.value))
  {
    hide Run, Continues, Interrupted;
    RunContinues(ss, es, i);
    CrashGives(ss[i], es[i], ss[i + 1]);
    StillGives(ss, es, i, j, Left(ss[i].m.last, ss[i].m.flight, es[i].ok));
  }

  function NewDatabase(): Machine
  {
    Machine(Header(God(false, true, true), Commit(0, 0, 0), Commit(0, 0, 0)), [], Commit(0, 0, 0), None, false, false)
  }

  lemma NewDatabaseHolds()
    ensures Holds(Running(NewDatabase(), Rest))
  {
  }

  /**
   Once the repaired header is marked clean, a crash at any moment of the commit that follows, its
   swap and the arming included, opens to the same trees.
   */
  lemma CleanHeaderSafe(h: Header, n: Image, ok: set<Tree>, quick: bool)
    requires !h.god.recovery && Verifies(h.Primary(), ok)
    requires
      var k := h.WithSecondary(Again(h.Primary()));
      var g := Turned(k);
      || AfterCrash(n, [h.ToImage(), k.ToImage()])
      || AfterCrash(n, [k.ToImage(), g.ToImage()])
      || AfterCrash(n, [g.ToImage(), Armed(g).ToImage()])
    ensures Open(n, ok, quick).Ok? && SameRoots(Open(n, ok, quick).value.Primary(), h.Primary())
  {
    var left := Left(h.Primary(), None, ok);
    var k := h.WithSecondary(Again(h.Primary()));
    var g := Turned(k);
    var r := Recovery(left, h.ToImage(), h.ToImage(), [], h, Marked);
    hide AfterCrash;
    if AfterCrash(n, [h.ToImage(), k.ToImage()]) {
      r := r.(unsynced := [k.ToImage()], step := Storing);
      assert r.Versions() == [h.ToImage(), k.ToImage()];
    } else if AfterCrash(n, [k.ToImage(), g.ToImage()]) {
      r := r.(base := k.ToImage(), h := k, unsynced := [g.ToImage()], step := Switching);
      assert r.Versions() == [k.ToImage(), g.ToImage()];
    } else {
      r := r.(base := g.ToImage(), h := Armed(g), unsynced := [Armed(g).ToImage()], step := Arming);
      assert r.Versions() == [g.ToImage(), Armed(g).ToImage()];
    }
    CrashWhileOpening(r, n);
    FoundOpens(n, left, quick);
  }

  // ----- an opening that brings back a torn slot -----

  /**
   After commit 5 a one-phase commit 6 is torn. Opening picks 5 and rewrites the header, the torn
   slot with it; a crash right then, and the next opening takes a commit that never was.
   */
  lemma TornSlotRevived()
    ensures
      var h := Header(God(false, true, false), Commit(5, 50, 51), Commit(4, 40, 41));
      var m := OnePhase(h, Commit(6, 60, 61));
      var torn := Image(h.god, Seal(Commit(5, 50, 51)), Slot(Commit(6, 40, 61), Of(Commit(4, 40, 41))));
      var ok := {50, 51, 40, 61};
      var again := Header(h.god, Commit(5, 50, 51), Commit(6, 40, 61)).ToImage();
      && At(m, Swapped) && AfterCrash(torn, m.Versions()) && m.Intact(ok)
      && Open(torn, ok, false).Ok? && Open(torn, ok, false).value.Primary() == Commit(5, 50, 51)
      && Picked(torn).Ok? && again == Picked(torn).value.ToImage()
      && !Settled(torn, Left(m.last, m.flight, ok))
      && Open(again, ok, false).Ok? && Open(again, ok, false).value.Primary() == Commit(6, 40, 61)
  {
    var h := Header(God(false, true, false), Commit(5, 50, 51), Commit(4, 40, 41));
    var torn := Image(h.god, Seal(Commit(5, 50, 51)), Slot(Commit(6, 40, 61), Of(Commit(4, 40, 41))));
    var vs := OnePhase(h, Commit(6, 60, 61)).Versions();
    var s0, s1 := Slots0(vs), Slots1(vs);
    assert vs[0].god == torn.god;
    assert s0[0] == Seal(Commit(5, 50, 51)) && s1[0] == Seal(Commit(4, 40, 41)) && s1[1] == Seal(Commit(6, 60, 61));
    assert TornSlot(torn.slot0, s0) && TornSlot(torn.slot1, s1);
  }

  // ----- the code that opens a file -----

  /** One write or flush of an opening, and the moment it leads to. */
  ghost predicate Shows(mem: TransactionalMemory, r: Recovery)
    reads mem
  {
    AtStep(r) && mem.file == r.base && mem.unsynced == r.unsynced
  }

  method Store(mem: TransactionalMemory, h: Header, quick: bool, ghost r: Recovery) returns (ghost n: Recovery)
    requires Shows(mem, r) && mem.unsynced == []
    requires NextStep(r, quick).Ok? && NextStep(r, quick).value.Opening?
      && NextStep(r, quick).value.r.unsynced == [h.ToImage()]
    requires NextStep(r, quick).value.r.base == r.base
    modifies mem`unsynced
    ensures Shows(mem, n) && Opening(n) == NextStep(r, quick).value && n.left == r.left && mem.unsynced == [h.ToImage()]
  {
    AdvanceSafe(r, quick);
    n := NextStep(r, quick).value.r;
    mem.WriteHeader(h);
    hide AtStep;
  }

  method Sync(mem: TransactionalMemory, quick: bool, ghost r: Recovery) returns (ghost n: Recovery)
    requires Shows(mem, r) && |mem.unsynced| == 1
    requires NextStep(r, quick).Ok? && NextStep(r, quick).value.Opening? && NextStep(r, quick).value.r.unsynced == []
    requires NextStep(r, quick).value.r.base == r.unsynced[0]
    modifies mem`unsynced, mem`file
    ensures Shows(mem, n) && Opening(n) == NextStep(r, quick).value && n.left == r.left && mem.unsynced == []
  {
    AdvanceSafe(r, quick);
    n := NextStep(r, quick).value.r;
    mem.FlushFile();
    hide AtStep;
  }

  /** Commits the verified roots again, in two phases, while the header is clean. */
  method CommitAgain(mem: TransactionalMemory, ghost r: Recovery) returns (ghost moments: seq<Recovery>)
    requires Shows(mem, r) && r.step.Marked? && mem.header == r.h
    modifies mem
    ensures |moments| == 4 && moments[3].step.Switched? && Shows(mem, moments[3]) && mem.header == moments[3].h
    ensures forall k :: 0 <= k < |moments| ==> AtStep(moments[k]) && moments[k].left == r.left
  {
    hide Verifies;
    var h := mem.header.WithSecondary(Again(mem.header.Primary()));
    ghost var a := Store(mem, h, false, r);
    ghost var b := Sync(mem, false, a);
    h := Turned(h);
    ghost var c := Store(mem, h, false, b);
    ghost var d := Sync(mem, false, c);
    mem.header := h;
    moments := [a, b, c, d];
  }

  /** Reads the header, chooses a slot and writes the header back unless it was clean. */
  method ReadHeader(mem: TransactionalMemory, ghost left: Left) returns (ghost moments: seq<Recovery>)
    requires Found(mem.file, left) && mem.unsynced == []
    modifies mem
    ensures |moments| > 0 && moments[|moments| - 1].step.Chosen? && Shows(mem, moments[|moments| - 1])
    ensures mem.header == moments[|moments| - 1].h && mem.unsynced == []
    ensures forall k :: 0 <= k < |moments| ==> AtStep(moments[k]) && moments[k].left == left
  {
    ghost var i := mem.file;
    BeginSafe(i, left);
    mem.header := Picked(mem.file).value;
    ghost var m := Begin(i, left).value.r;
    moments := [m];
    if mem.file.god.recovery {
      mem.WriteHeader(mem.header);
      assert Shows(mem, m);
      m := Sync(mem, false, m);
      moments := moments + [m];
    }
    hide AtStep, Found, Picked;
  }

  /** Verifies the trees, marks the header clean and commits again. */
  method RepairAndCommit(mem: TransactionalMemory, ok: set<Tree>, ghost r: Recovery)
    returns (ghost moments: seq<Recovery>)
    requires Shows(mem, r) && r.step.Chosen? && mem.header == r.h && ok == r.left.ok && mem.unsynced == []
    modifies mem
    ensures |moments| > 0 && moments[|moments| - 1].step.Switched? && Shows(mem, moments[|moments| - 1])
    ensures mem.header == moments[|moments| - 1].h && mem.unsynced == []
    ensures forall k :: 0 <= k < |moments| ==> AtStep(moments[k]) && moments[k].left == r.left
  {
    AdvanceSafe(r, false);
    hide AtStep, Found, Picked;
    mem.header := Clean(Repair(mem.header, ok).value);
    ghost var a := Store(mem, mem.header, false, r);
    AdvanceSafe(a, false);
    ghost var b := Sync(mem, false, a);
    ghost var more := CommitAgain(mem, b);
    moments := [a, b] + more;
  }

  /** Opening a file: with a repair and a commit, or trusting the stored allocator state; then the header is armed. */
  method Recover(mem: TransactionalMemory, ok: set<Tree>, quick: bool, ghost left: Left)
    returns (r: Commit, ghost moments: seq<Recovery>)
    requires Found(mem.file, left) && mem.unsynced == [] && ok == left.ok
    modifies mem
    ensures left.Good(r)
    ensures mem.header.Primary() == r && mem.header.god.recovery && mem.header.god.twoPhase
    ensures mem.file == mem.header.ToImage() && mem.unsynced == []
    ensures forall k :: 0 <= k < |moments| ==> AtStep(moments[k]) && moments[k].left == left
    ensures |moments| > 0 && moments[|moments| - 1].step.Arming?
  {
    hide AtStep, Found, Picked;
    moments := ReadHeader(mem, left);
    var trusted := mem.header.god.twoPhase && quick;
    if !trusted {
      ghost var more := RepairAndCommit(mem, ok, moments[|moments| - 1]);
      moments := moments + more;
    }
    ghost var m := moments[|moments| - 1];
    AdvanceSafe(m, trusted);
    mem.header := Armed(mem.header);
    ghost var n := Store(mem, mem.header, trusted, m);
    moments := moments + [n];
    ArmingPrimary(n);
    mem.FlushFile();
    r := mem.header.Primary();
  }

  lemma ArmingPrimary(r: Recovery)
    requires AtStep(r) && r.step.Arming?
    ensures r.left.Good(r.h.Primary()) && r.h.god.recovery && r.h.god.twoPhase && r.unsynced == [r.h.ToImage()]
  {
  }
}
