/** What the runs of the wake lock add up to: the count of holders, and the timers. */
module WakeLockBalance {
  import opened Common
  import opened WakeLock
  import R = WakeLockRace

  // ---------- Holders ----------

  /** The first pending timer is a wake timer that has not been cancelled, so its callback takes the lock. */
  predicate TakesAll(s: State) {
    s.pending != [] && s.pending[0].wake && s.pending[0].id !in s.cancelled
  }

  /**
   The grabs of a run that no release has matched, starting from b of them: a release matches one, if there is one, and
   a timer that takes the lock matches all.
   */
  function Unmatched(s: State, run: seq<Action>, b: nat): nat
    decreases run
  {
    if run == [] || !Enabled(s, run[0]) then b
    else
      var b' := match run[0]
        case Grab => b + 1
        case Release => if b == 0 then 0 else b - 1
        case FireFirst => if TakesAll(s) then 0 else b
        case _ => b;
      Unmatched(Step(s, run[0]), run[1..], b')
  }

  lemma {:induction false} CountIsUnmatched(s: State, run: seq<Action>)
    requires Exec(s, run).Some?
    ensures Exec(s, run).value.count == Unmatched(s, run, s.count)
    decreases run
  {
    if run != [] {
      CountIsUnmatched(Step(s, run[0]), run[1..]);
    }
  }

  /**
   In every run the count is the number of grabs that no release or timer has matched; the lock is held exactly while
   there is one; and a release gives it up exactly if it matches the last one.
   */
  lemma CountExact(now: int, run: seq<Action>)
    requires Exec(Init(now), run).Some?
    ensures var s := Exec(Init(now), run).value; var b := Unmatched(Init(now), run, 0);
      && s.count == b && (s.held <==> b > 0)
      && (s.held && !Step(s, Release).held <==> b == 1)
  {
    CountIsUnmatched(Init(now), run);
    WakeLockInvariant(now, run);
    ExecKeeps(Init(now), run);
    ReleaseKeeps(Exec(Init(now), run).value);
  }

  /** The same with callbacks and sections taken apart; the lock is taken or given up in the middle of them. */
  function UnmatchedMoves(r: R.Race, run: seq<R.Move>, b: nat): nat
    decreases run
  {
    if run == [] || !R.CanMove(r, run[0]) then b
    else
      var b' := match run[0]
        case GrabRequest => b + 1
        case ReleaseCount => if b == 0 then 0 else b - 1
        case RunBody => if R.Takes(r.stage) then 0 else b
        case _ => b;
      UnmatchedMoves(R.MoveTo(r, run[0]), run[1..], b')
  }

  lemma {:induction false} CountIsUnmatchedMoves(r: R.Race, run: seq<R.Move>)
    requires R.Moves(r, run).Some?
    ensures R.Moves(r, run).value.s.count == UnmatchedMoves(r, run, r.s.count)
    decreases run
  {
    if run != [] {
      CountIsUnmatchedMoves(R.MoveTo(r, run[0]), run[1..]);
    }
  }

  lemma RaceCountExact(now: int, run: seq<R.Move>)
    requires R.Moves(R.Start(now), run).Some?
    ensures var r := R.Moves(R.Start(now), run).value; var b := UnmatchedMoves(R.Start(now), run, 0);
      && r.s.count == b && (r.s.held <==> b > 0)
      && (R.CanMove(r, R.ReleaseCount) ==> (r.s.held && !R.MoveTo(r, R.ReleaseCount).s.held <==> b == 1))
  {
    var r := R.Moves(R.Start(now), run).value;
    CountIsUnmatchedMoves(R.Start(now), run);
    R.MovesKeep(R.Start(now), run);
    if R.CanMove(r, R.ReleaseCount) {
      R.MoveLocks(r, R.ReleaseCount);
    }
  }

  // ---------- Timers ----------

  predicate Requests(a: Action) {
    a.Grab? || a.UserTimer?
  }

  function Requested(run: seq<Action>): nat
    decreases run
  {
    if run == [] then 0 else (if Requests(run[0]) then 1 else 0) + Requested(run[1..])
  }

  function Fired(run: seq<Action>): nat
    decreases run
  {
    if run == [] then 0 else (if run[0].FireFirst? then 1 else 0) + Fired(run[1..])
  }

  function Waiting(s: State): nat {
    |s.pending| + |s.timers|
  }

  lemma {:induction false} RunConserves(s: State, run: seq<Action>)
    requires Exec(s, run).Some?
    ensures var s' := Exec(s, run).value;
      Waiting(s') + Fired(run) == Waiting(s) + Requested(run) && s'.issued == s.issued + Requested(run)
    decreases run
  {
    if run != [] {
      RunConserves(Step(s, run[0]), run[1..]);
    }
  }

  /**
   In every run each timer requested, by a grab or by another caller, is waiting once, or it has been called once and
   is gone: they add up, and no two that wait are the same.
   */
  lemma EveryTimerOnce(now: int, run: seq<Action>)
    requires Exec(Init(now), run).Some?
    ensures var s := Exec(Init(now), run).value;
      && |s.pending| + |s.timers| + Fired(run) == Requested(run) == s.issued
      && forall i, j :: 0 <= i < j < |s.pending + s.timers| ==>
           (s.pending + s.timers)[i].id != (s.pending + s.timers)[j].id
  {
    RunConserves(Init(now), run);
    ExecKeeps(Init(now), run);
  }
}
