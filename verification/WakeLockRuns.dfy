/** Runs in which a grab falls into one of the windows of a callback, and what it breaks. */
module WakeLockRuns {
  import opened Common
  import opened RilSchedule
  import opened WakeLock
  import opened WakeLockRace

  lemma {:induction false} MovesOneMore(r: Race, run: seq<Move>, m: Move)
    requires Moves(r, run).Some? && CanMove(Moves(r, run).value, m)
    ensures Moves(r, run + [m]) == Some(MoveTo(Moves(r, run).value, m))
    decreases run
  {
    if run == [] {
      assert [m][1..] == [];
    } else {
      assert (run + [m])[1..] == run[1..] + [m];
      MovesOneMore(MoveTo(r, run[0]), run[1..], m);
    }
  }

  lemma More(run: seq<Move>, r: Race, m: Move) returns (run': seq<Move>, r': Race)
    requires Moves(Start(0), run) == Some(r) && CanMove(r, m)
    ensures Moves(Start(0), run') == Some(r') && r' == MoveTo(r, m)
  {
    MovesOneMore(Start(0), run, m);
    run', r' := run + [m], MoveTo(r, m);
  }

  /** A grab that nothing comes in between. */
  lemma GrabNow(run: seq<Move>, r: Race) returns (run': seq<Move>, r': Race)
    requires Moves(Start(0), run) == Some(r) && r.section.NoSection?
    ensures Moves(Start(0), run') == Some(r') && r' == r.(s := DoGrab(r.s), latest := Some(r.s.issued))
  {
    UndisturbedSections(r);
    run', r' := More(run, r, GrabRequest);
    run', r' := More(run', r', SectionTest);
    if r'.section.Loading? {
      run', r' := More(run', r', SectionLoad);
      run', r' := More(run', r', SectionStore);
    }
    run', r' := More(run', r', SectionPoint(r.s.issued));
  }

  const FIRST: Info := Info(0, 200_000, true)
  const SECOND: Info := Info(1, 400_001, true)
  const THIRD: Info := Info(2, 500_000, true)

  /** One grab, and 200 ms later its timer is called and has read its userParam. */
  lemma FirstRead() returns (run: seq<Move>, r: Race)
    ensures Moves(Start(0), run) == Some(r)
    ensures r == Race(State(200_001, [], [], {}, 1, 1, true, Some(0), Some(200_001), Some(0), None),
                      Called(FIRST, true), NoSection, Some(0))
  {
    run, r := GrabNow([], Start(0));
    assert r.s.timers == [FIRST];
    run, r := More(run, r, Plain(Tick(200_001)));
    assert Ats(r.s.timers) == [200_000] && Ats(r.s.timers)[1..] == [];
    assert Leading(Ats(r.s.timers), 200_001) == 1;
    run, r := More(run, r, Plain(ProcessTimeouts));
    assert r.s.pending == [FIRST] && r.s.timers == [];
    run, r := More(run, r, ReadParam);
  }

  /** A grab between the read of userParam and the section of the callback loses its lock at once. */
  lemma GrabIsStolen() returns (run: seq<Move>, r: Race)
    ensures Moves(Start(0), run) == Some(r)
    ensures !r.s.held && r.s.timers == [SECOND] && SECOND.id !in r.s.cancelled
    ensures r.s.grabbed == Some(r.s.now) && r.s.reading == Some(r.s.now)
  {
    run, r := FirstRead();
    run, r := GrabNow(run, r);
    assert r.s.timers == [SECOND] && r.s.cancelled == {0};
    run, r := More(run, r, RunBody);
  }

  lemma FirstForgetting() returns (run: seq<Move>, r: Race)
    ensures Moves(Start(0), run) == Some(r)
    ensures r == Race(State(200_001, [], [], {}, 1, 0, false, Some(0), Some(200_001), Some(0), None),
                      Forgetting(FIRST), NoSection, Some(0))
  {
    run, r := FirstRead();
    run, r := More(run, r, RunBody);
    run, r := More(run, r, TestPointer);
  }

  lemma SecondLost() returns (run: seq<Move>, r: Race)
    ensures Moves(Start(0), run) == Some(r)
    ensures r == Race(State(200_001, [SECOND], [], {0}, 2, 1, true, None, None, Some(200_001), Some(200_001)),
                      Idle, NoSection, Some(1))
  {
    run, r := FirstForgetting();
    run, r := GrabNow(run, r);
    assert r.s.timers == [SECOND] && r.s.cancelled == {0};
    run, r := More(run, r, ResetPointer);
    run, r := More(run, r, FreeInfo(0));
    run, r := More(run, r, Plain(EndPass));
  }

  /** A grab between the test and the reset of the pointer is lost, and the next one cannot cancel its timer. */
  lemma ThirdGrabbed() returns (run: seq<Move>, r: Race)
    ensures Moves(Start(0), run) == Some(r)
    ensures r == Race(State(300_000, [SECOND, THIRD], [], {0}, 3, 2, true, Some(2), None, Some(300_000),
                            Some(200_001)),
                      Idle, NoSection, Some(2))
  {
    run, r := SecondLost();
    run, r := More(run, r, Plain(Tick(300_000)));
    assert Ats(r.s.timers) == [400_001] && Ats(r.s.timers)[1..] == [];
    assert Leading(Ats(r.s.timers), 500_000) == 1;
    run, r := GrabNow(run, r);
    assert r.s.timers == [SECOND, THIRD];
  }

  /** So two wake timers are uncancelled, and the older one takes the lock away 100 ms after the latest grab. */
  lemma OldTimerReleases() returns (run: seq<Move>, r: Race)
    ensures Moves(Start(0), run) == Some(r)
    ensures !r.s.held && r.s.timers == [THIRD] && THIRD.id !in r.s.cancelled
    ensures r.s.grabbed == Some(300_000) && r.s.reading == Some(400_002)
  {
    run, r := ThirdGrabbed();
    run, r := More(run, r, Plain(Tick(400_002)));
    assert Ats(r.s.timers) == [400_001, 500_000] && Ats(r.s.timers)[1..] == [500_000];
    assert Leading([500_000], 400_002) == 0;
    assert Leading(Ats(r.s.timers), 400_002) == 1;
    run, r := More(run, r, Plain(ProcessTimeouts));
    assert r.s.pending == [SECOND] && r.s.timers == [THIRD];
    run, r := More(run, r, ReadParam);
    run, r := More(run, r, RunBody);
  }

  /** A callback is about to reset the pointer when a grab finds that it is not null. */
  lemma FoundBeforeReset() returns (run: seq<Move>, r: Race)
    ensures Moves(Start(0), run) == Some(r)
    ensures r == Race(State(200_001, [SECOND], [], {}, 2, 1, true, Some(0), Some(200_001), Some(200_001), None),
                      Forgetting(FIRST), Loading(Some(1)), Some(1))
  {
    run, r := FirstForgetting();
    run, r := More(run, r, GrabRequest);
    assert r.s.timers == [SECOND];
    run, r := More(run, r, SectionTest);
  }

  /** With the reset next, what the grab loads is null, although it has just tested that it is not. */
  lemma NullAfterTest() returns (run: seq<Move>, r: Race)
    ensures Moves(Start(0), run) == Some(r)
    ensures r.section == Storing(Some(1), None)
  {
    run, r := FoundBeforeReset();
    run, r := More(run, r, ResetPointer);
    run, r := More(run, r, SectionLoad);
  }

  /** With the load next, and then the reset and the free, the grab sets the userParam of an info that is gone. */
  lemma FreedAfterLoad() returns (run: seq<Move>, r: Race)
    ensures Moves(Start(0), run) == Some(r)
    ensures CanMove(r, SectionStore) && r.section.target == Some(0) && !Live(r, 0)
  {
    run, r := FoundBeforeReset();
    run, r := More(run, r, SectionLoad);
    run, r := More(run, r, ResetPointer);
    run, r := More(run, r, FreeInfo(0));
  }
}
