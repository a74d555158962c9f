/** Between which moves of a callback a grab or a release has to fall for the wake lock to go wrong. */
module WakeLockWindows {
  import opened Common
  import opened WakeLock
  import opened WakeLockRace

  // ---------- What has happened in a run ----------

  /** A grab has set the pointer to this info since the callback under way last tested the pointer. */
  predicate PointedSinceTest(run: seq<Move>, id: nat)
    decreases run
  {
    run != [] && !run[|run| - 1].TestPointer?
    && (run[|run| - 1] == SectionPoint(id) || PointedSinceTest(run[..|run| - 1], id))
  }

  /** The pointer to this info was set between the test and the reset of some callback. */
  predicate Lost(run: seq<Move>, id: nat)
    decreases run
  {
    run != []
    && ((run[|run| - 1].ResetPointer? && PointedSinceTest(run[..|run| - 1], id)) || Lost(run[..|run| - 1], id))
  }

  /** Another grab has set the pointer since the callback under way read its userParam. */
  predicate GrabbedSinceRead(run: seq<Move>, id: nat)
    decreases run
  {
    run != [] && !run[|run| - 1].ReadParam?
    && ((run[|run| - 1].SectionPoint? && run[|run| - 1].id != id) || GrabbedSinceRead(run[..|run| - 1], id))
  }

  /** Another grab has set the pointer after the grab of this info did. */
  predicate GrabbedAfter(run: seq<Move>, id: nat)
    decreases run
  {
    run != []
    && ((run[|run| - 1].SectionPoint? && run[|run| - 1].id != id && SectionPoint(id) in run[..|run| - 1])
        || GrabbedAfter(run[..|run| - 1], id))
  }

  /** A callback has reset the pointer since the section under way tested it. */
  predicate ResetSinceTest(run: seq<Move>)
    decreases run
  {
    run != [] && !run[|run| - 1].SectionTest?
    && (run[|run| - 1].ResetPointer? || ResetSinceTest(run[..|run| - 1]))
  }

  /** The info has been freed since the section under way loaded the pointer. */
  predicate FreedSinceLoad(run: seq<Move>, id: nat)
    decreases run
  {
    run != [] && !run[|run| - 1].SectionLoad?
    && (run[|run| - 1] == FreeInfo(id) || FreedSinceLoad(run[..|run| - 1], id))
  }

  lemma OneMore(run: seq<Move>, m: Move)
    ensures (run + [m])[..|run|] == run && (run + [m])[|run|] == m
    ensures forall m' :: m' in run + [m] <==> m' == m || m' in run
  {
  }

  lemma {:induction false} LostWasPointed(run: seq<Move>, id: nat)
    ensures PointedSinceTest(run, id) ==> SectionPoint(id) in run
    ensures Lost(run, id) ==> SectionPoint(id) in run
    ensures GrabbedAfter(run, id) ==> SectionPoint(id) in run
    decreases run
  {
    if run != [] {
      OneMore(run[..|run| - 1], run[|run| - 1]);
      assert run == run[..|run| - 1] + [run[|run| - 1]];
      LostWasPointed(run[..|run| - 1], id);
    }
  }

  lemma {:induction false} MovesLast(r: Race, run: seq<Move>)
    requires run != [] && Moves(r, run).Some?
    ensures var before := Moves(r, run[..|run| - 1]);
      && before.Some? && CanMove(before.value, run[|run| - 1])
      && Moves(r, run) == Some(MoveTo(before.value, run[|run| - 1]))
    decreases run
  {
    if |run| == 1 {
      assert run[1..] == [] && run[..0] == [];
    } else {
      assert run[..|run| - 1][1..] == run[1..][..|run| - 2] && run[1..][|run| - 2] == run[|run| - 1];
      MovesLast(MoveTo(r, run[0]), run[1..]);
    }
  }

  // ---------- When the userParam of a timer is not set ----------

  ghost predicate Pointed(r: Race, run: seq<Move>) {
    forall id: nat :: SectionPoint(id) in run ==> id < r.s.issued && Grabbing(r.section) != Some(id)
  }

  ghost predicate LostIsGone(r: Race, run: seq<Move>) {
    forall id: nat :: Lost(run, id) ==> r.s.last != Some(id)
  }

  /** What a section under way will find the pointer to be. */
  predicate Finds(r: Race, run: seq<Move>) {
    && (r.stage.Forgetting? ==>
         r.s.last.Some? && (r.s.last.value == r.stage.info.id || PointedSinceTest(run, r.s.last.value)))
    && (r.section.Storing? ==> r.s.last in {None, r.section.target})
    && (r.section.Pointing? && r.s.last.Some? ==> r.s.last.value in r.s.cancelled)
  }

  /** A wake timer that would take the lock is the pointer's, or about to be, or was lost. */
  ghost predicate Uncancelled(r: Race, run: seq<Move>) {
    forall t :: Outstanding(r.s, t) && t.wake && t.id !in r.s.cancelled ==>
      r.s.last == Some(t.id) || Grabbing(r.section) == Some(t.id) || Lost(run, t.id)
  }

  lemma PointedAfter(r: Race, run: seq<Move>, m: Move)
    requires Locked(r) && Pointed(r, run) && CanMove(r, m)
    ensures Pointed(MoveTo(r, m), run + [m])
  {
    OneMore(run, m);
    var r' := MoveTo(r, m);
    assert r.s.issued <= r'.s.issued;
    forall id: nat | SectionPoint(id) in run + [m] ensures id < r'.s.issued && Grabbing(r'.section) != Some(id) {
      assert SectionPoint(id) == m || SectionPoint(id) in run;
    }
  }

  /** The pointer changes only to a grab's new info, or to null. */
  lemma LastAfter(r: Race, m: Move)
    requires CanMove(r, m)
    ensures MoveTo(r, m).s.last ==
      if m.SectionPoint? then Some(m.id) else if m.ResetPointer? then None else r.s.last
  {
  }

  lemma LostAfter(r: Race, run: seq<Move>, m: Move)
    requires Pointed(r, run) && LostIsGone(r, run) && CanMove(r, m)
    ensures LostIsGone(MoveTo(r, m), run + [m])
  {
    OneMore(run, m);
    LastAfter(r, m);
    if m.SectionPoint? {
      LostWasPointed(run, m.id);
    }
  }

  lemma FindsAfter(r: Race, run: seq<Move>, m: Move)
    requires RaceInv(r) && Finds(r, run) && CanMove(r, m)
    ensures Finds(MoveTo(r, m), run + [m])
  {
    OneMore(run, m);
  }

  lemma UncancelledAfter(r: Race, run: seq<Move>, m: Move)
    requires RaceInv(r) && Finds(r, run) && Uncancelled(r, run) && CanMove(r, m)
    ensures Uncancelled(MoveTo(r, m), run + [m])
  {
    OneMore(run, m);
    OutstandingAfter(r, m);
    LastAfter(r, m);
    var r' := MoveTo(r, m);
    assert r.s.cancelled <= r'.s.cancelled;
    forall t | Outstanding(r'.s, t) && t.wake && t.id !in r'.s.cancelled
      ensures r'.s.last == Some(t.id) || Grabbing(r'.section) == Some(t.id) || Lost(run + [m], t.id)
    {
      assert Outstanding(r.s, t) || (m.GrabRequest? && t == Requested(r, m));
    }
  }

  // ---------- Whose lock a callback takes ----------

  /** A callback about to take the lock has the latest grab's timer, or was read too early, or was lost. */
  predicate OwnOrLate(r: Race, run: seq<Move>) {
    Takes(r.stage) ==>
      var id := r.stage.info.id;
      || r.latest == Some(id) || GrabbedSinceRead(run, id) || Lost(run, id)
      || (Grabbing(r.section).Some? && Grabbing(r.section) != Some(id))
  }

  predicate OvertakenSinceRead(r: Race, run: seq<Move>) {
    r.stage.Called? && GrabbedSinceRead(run, r.stage.info.id) ==>
      r.latest.Some? && r.latest != Some(r.stage.info.id)
  }

  ghost predicate LatestIsAfter(r: Race, run: seq<Move>) {
    && (forall id: nat :: GrabbedAfter(run, id) ==> r.latest.Some? && r.latest != Some(id))
    && (forall id: nat :: SectionPoint(id) in run ==>
         r.latest == Some(id) || GrabbedAfter(run, id) || Grabbing(r.section).Some?)
  }

  lemma OwnOrLateAfter(r: Race, run: seq<Move>, m: Move)
    requires RaceInv(r) && Uncancelled(r, run) && OwnOrLate(r, run) && CanMove(r, m)
    ensures OwnOrLate(MoveTo(r, m), run + [m])
  {
    OneMore(run, m);
    if m.ReadParam? {
      assert Outstanding(r.s, r.s.pending[0]);
    }
  }

  /** The latest grab is the one under way, if there is one, and changes only to a new info. */
  lemma LatestChanges(r: Race, m: Move)
    requires SectionOk(r) && CanMove(r, m)
    ensures MoveTo(r, m).latest == if m.GrabRequest? then Some(r.s.issued) else r.latest
    ensures m.SectionPoint? ==> r.latest == Some(m.id)
    ensures Grabbing(MoveTo(r, m).section).Some? <==>
      m.GrabRequest? || (Grabbing(r.section).Some? && !m.SectionPoint?)
  {
  }

  lemma OvertakenAfter(r: Race, run: seq<Move>, m: Move)
    requires Scheduled(r) && SectionOk(r) && OvertakenSinceRead(r, run) && CanMove(r, m)
    ensures OvertakenSinceRead(MoveTo(r, m), run + [m])
  {
    OneMore(run, m);
    LatestChanges(r, m);
  }

  lemma LatestAfter(r: Race, run: seq<Move>, m: Move)
    requires SectionOk(r) && Pointed(r, run) && LatestIsAfter(r, run) && CanMove(r, m)
    ensures LatestIsAfter(MoveTo(r, m), run + [m])
  {
    OneMore(run, m);
    LatestChanges(r, m);
    forall id: nat | GrabbedAfter(run + [m], id)
      ensures MoveTo(r, m).latest.Some? && MoveTo(r, m).latest != Some(id)
    {
      LostWasPointed(run, id);
    }
  }

  // ---------- What a section finds at the pointer ----------

  ghost predicate InSection(r: Race, run: seq<Move>) {
    && (r.section.Loading? ==> (r.s.last == None <==> ResetSinceTest(run)))
    && (r.section.Storing? && r.section.target.Some? ==>
         (Live(r, r.section.target.value) <==> !FreedSinceLoad(run, r.section.target.value)))
  }

  lemma InSectionAfter(r: Race, run: seq<Move>, m: Move)
    requires RaceInv(r) && InSection(r, run) && CanMove(r, m)
    ensures InSection(MoveTo(r, m), run + [m])
  {
    OneMore(run, m);
    var r' := MoveTo(r, m);
    if r'.section.Storing? && r'.section.target.Some? {
      LiveAfter(r, m, r'.section.target.value);
    }
  }

  // ---------- Every run ----------

  ghost predicate Windows(r: Race, run: seq<Move>) {
    && Pointed(r, run) && LostIsGone(r, run) && Finds(r, run) && Uncancelled(r, run)
    && OwnOrLate(r, run) && OvertakenSinceRead(r, run) && LatestIsAfter(r, run) && InSection(r, run)
  }

  lemma WindowsAfter(r: Race, run: seq<Move>, m: Move)
    requires RaceInv(r) && Windows(r, run) && CanMove(r, m)
    ensures Windows(MoveTo(r, m), run + [m])
  {
    PointedAfter(r, run, m);
    LostAfter(r, run, m);
    FindsAfter(r, run, m);
    UncancelledAfter(r, run, m);
    OwnOrLateAfter(r, run, m);
    OvertakenAfter(r, run, m);
    LatestAfter(r, run, m);
    InSectionAfter(r, run, m);
  }

  lemma {:induction false} EveryRun(now: int, run: seq<Move>)
    requires Moves(Start(now), run).Some?
    ensures RaceInv(Moves(Start(now), run).value) && Windows(Moves(Start(now), run).value, run)
    decreases run
  {
    if run != [] {
      var before, m := run[..|run| - 1], run[|run| - 1];
      MovesLast(Start(now), run);
      EveryRun(now, before);
      MoveKeeps(Moves(Start(now), before).value, m);
      WindowsAfter(Moves(Start(now), before).value, before, m);
      assert run == before + [m];
    }
  }

  /**
   In every run, while no section is under way: an uncancelled wake timer is s_last_wake_timeout_info, and then that
   of the latest grab, if and only if it was not lost. So of two uncancelled ones at least one was lost.
   */
  lemma UncancelledExactly(now: int, run: seq<Move>, t: Info)
    requires Moves(Start(now), run).Some? && Moves(Start(now), run).value.section.NoSection?
    requires var s := Moves(Start(now), run).value.s; Outstanding(s, t) && t.wake && t.id !in s.cancelled
    ensures var r := Moves(Start(now), run).value;
      && (r.s.last == Some(t.id) <==> !Lost(run, t.id))
      && (r.s.last == Some(t.id) ==> r.latest == Some(t.id))
  {
    EveryRun(now, run);
  }

  /**
   In every run, a callback that takes the lock away takes that of another, later grab: if its own info was lost,
   exactly when another grab followed at all; otherwise exactly when one came after its userParam was read. When it
   takes the lock of its own grab, its pass has read the clock more than 200 ms after the latest grab.
   */
  lemma StealsExactly(now: int, run: seq<Move>)
    requires Moves(Start(now), run).Some?
    requires var r := Moves(Start(now), run).value; CanMove(r, RunBody) && r.s.held && !DoRunBody(r).s.held
    ensures var r := Moves(Start(now), run).value; var id := r.stage.info.id;
      && r.latest.Some? && r.s.grabbed.Some? && r.s.reading.Some?
      && (r.latest.value != id <==> if Lost(run, id) then GrabbedAfter(run, id) else GrabbedSinceRead(run, id))
      && (r.latest.value == id ==> r.s.reading.value > r.s.grabbed.value + WAKE_TIMEOUT)
  {
    EveryRun(now, run);
    LostWasPointed(run, Moves(Start(now), run).value.stage.info.id);
  }

  /** What a callback takes too early is the lock of a later grab, whose own timer is still waiting. */
  lemma EarlyReleaseExactly(now: int, run: seq<Move>)
    requires Moves(Start(now), run).Some?
    requires var r := Moves(Start(now), run).value; CanMove(r, RunBody) && r.s.held && !DoRunBody(r).s.held
    ensures var r := Moves(Start(now), run).value;
      && r.latest.Some? && r.s.grabbed.Some? && r.s.reading.Some?
      && var g := Info(r.latest.value, r.s.grabbed.value + WAKE_TIMEOUT, true);
         (r.s.reading.value <= r.s.grabbed.value + WAKE_TIMEOUT <==> g in r.s.timers && g.id != r.stage.info.id)
  {
    EveryRun(now, run);
  }

  /**
   In every run: a section that has found the pointer not null loads null if and only if a callback has reset the
   pointer since the test.
   */
  lemma LoadsNullExactly(now: int, run: seq<Move>)
    requires Moves(Start(now), run).Some? && CanMove(Moves(Start(now), run).value, SectionLoad)
    ensures Moves(Start(now), run).value.s.last == None <==> ResetSinceTest(run)
  {
    EveryRun(now, run);
  }

  /**
   In every run: the info a section is about to store into has been freed if and only if that happened since the
   section loaded the pointer.
   */
  lemma StoresIntoFreedExactly(now: int, run: seq<Move>)
    requires Moves(Start(now), run).Some? && CanMove(Moves(Start(now), run).value, SectionStore)
    ensures var r := Moves(Start(now), run).value;
      !Live(r, r.section.target.value) <==> FreedSinceLoad(run, r.section.target.value)
  {
    EveryRun(now, run);
  }

  // ---------- Runs in which no grab falls into a window ----------

  /** No grab is under way while a callback has read its userParam but not run, or has tested but not reset. */
  ghost predicate Apart(now: int, run: seq<Move>)
    requires Moves(Start(now), run).Some?
    decreases run
  {
    var r := Moves(Start(now), run).value;
    && (Grabbing(r.section).Some? ==> !r.stage.Called? && !r.stage.Forgetting?)
    && (run != [] ==> (MovesLast(Start(now), run); Apart(now, run[..|run| - 1])))
  }

  lemma {:induction false} ApartLosesNothing(now: int, run: seq<Move>, id: nat)
    requires Moves(Start(now), run).Some? && Apart(now, run)
    ensures !Lost(run, id)
    ensures Moves(Start(now), run).value.stage.Forgetting? ==> !PointedSinceTest(run, id)
    ensures Moves(Start(now), run).value.stage.Called? ==> !GrabbedSinceRead(run, id)
    decreases run
  {
    if run != [] {
      MovesLast(Start(now), run);
      ApartLosesNothing(now, run[..|run| - 1], id);
    }
  }

  /** Such runs keep what the whole sections and callbacks promise. */
  lemma ApartKeepsPromises(now: int, run: seq<Move>)
    requires Moves(Start(now), run).Some? && Apart(now, run)
    ensures var r := Moves(Start(now), run).value;
      && (r.section.NoSection? ==>
           forall t :: Outstanding(r.s, t) && t.wake && t.id !in r.s.cancelled ==>
             r.s.last == Some(t.id) && r.latest == Some(t.id))
      && (CanMove(r, RunBody) && r.s.held && !DoRunBody(r).s.held ==>
           && r.latest == Some(r.stage.info.id)
           && r.s.grabbed.Some? && r.s.reading.Some? && r.s.reading.value > r.s.grabbed.value + WAKE_TIMEOUT)
  {
    var r := Moves(Start(now), run).value;
    if r.section.NoSection? {
      forall t | Outstanding(r.s, t) && t.wake && t.id !in r.s.cancelled
        ensures r.s.last == Some(t.id) && r.latest == Some(t.id)
      {
        ApartLosesNothing(now, run, t.id);
        UncancelledExactly(now, run, t);
      }
    }
    if CanMove(r, RunBody) && r.s.held && !DoRunBody(r).s.held {
      ApartLosesNothing(now, run, r.stage.info.id);
      StealsExactly(now, run);
    }
  }
}
