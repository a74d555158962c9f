/**
 The wake lock taken apart. A timer callback reads userParam, and tests, resets and frees without any mutex. The
 sections under s_wakeLockCountMutex test s_last_wake_timeout_info, load it and store through it one after the other.
 Everything that takes the mutex waits while one of them has it; all else comes in between.
 */
module WakeLockRace {
  import opened Common
  import opened RilSchedule
  import opened WakeLock

  /** Where the event loop is with the timer it has unlinked and is calling. */
  datatype Stage =
    | Idle
    | Called(info: Info, isNull: bool)   // userTimerCallback has read userParam
    | Returned(info: Info)               // the callback has returned
    | Forgetting(info: Info)             // the pointer was found to be this info, and is about to be reset
    | Freeing(info: Info)

  /** Where the thread is that has the mutex. In a grab, grab is the id of the info it has requested. */
  datatype Section =
    | NoSection
    | Testing(grab: Option<nat>)                         // about to test the pointer
    | Loading(grab: Option<nat>)                         // it was not null
    | Storing(grab: Option<nat>, target: Option<nat>)    // about to set the userParam of what was loaded
    | Pointing(id: nat)                                  // about to set the pointer

  /** latest is history: the timer of the latest grab. */
  datatype Race = Race(s: State, stage: Stage, section: Section, latest: Option<nat>)

  datatype Move =
    | Plain(a: Action)
    | GrabRequest
    | ReleaseCount
    | SectionTest
    | SectionLoad
    | SectionStore
    | SectionPoint(id: nat)
    | ReadParam
    | RunBody
    | TestPointer
    | ResetPointer
    | FreeInfo(id: nat)

  function Start(now: int): Race {
    Race(Init(now), Idle, NoSection, None)
  }

  /** The info that a grab under way has requested. */
  function Grabbing(c: Section): Option<nat> {
    match c
    case NoSection => None
    case Pointing(id) => Some(id)
    case _ => c.grab
  }

  /** The call that is about to run takes the lock away, under the mutex. */
  predicate Takes(stage: Stage) {
    stage.Called? && stage.isNull && stage.info.wake
  }

  predicate CanMove(r: Race, m: Move) {
    match m
    case Plain(a) =>
      Enabled(r.s, a) && !a.Grab? && !a.Release? && !a.FireFirst? && (a.EndPass? ==> r.stage.Idle?)
    case GrabRequest => r.section.NoSection?
    case ReleaseCount => r.section.NoSection?
    case SectionTest => r.section.Testing?
    case SectionLoad => r.section.Loading?
    case SectionStore => r.section.Storing? && r.section.target.Some?
    case SectionPoint(id) => r.section == Pointing(id)
    case ReadParam => r.stage.Idle? && r.s.reading.Some? && r.s.pending != []
    case RunBody => r.stage.Called? && (Takes(r.stage) ==> r.section.NoSection?)
    case TestPointer => r.stage.Returned?
    case ResetPointer => r.stage.Forgetting?
    case FreeInfo(id) => r.stage.Freeing? && r.stage.info.id == id
  }

  /** grabPartialWakeLock up to the test of the pointer. */
  function DoRequest(r: Race): Race {
    r.(s := Request(r.s, WAKE_TIMEOUT, true).(held := true, count := r.s.count + 1, grabbed := Some(r.s.now)),
       section := Testing(Some(r.s.issued)), latest := Some(r.s.issued))
  }

  /** releaseWakeLock up to the test of the pointer; the lock is released before that. */
  function DoCount(r: Race): Race {
    if r.s.count > 1 then r.(s := r.s.(count := r.s.count - 1))
    else r.(s := r.s.(count := 0, held := false), section := Testing(None))
  }

  /** What comes after the userParam of the former timer. */
  function Marked(grab: Option<nat>): Section {
    match grab
    case Some(id) => Pointing(id)
    case None => NoSection
  }

  function DoStore(r: Race): Race
    requires CanMove(r, SectionStore)
  {
    r.(s := r.s.(cancelled := r.s.cancelled + {r.section.target.value}), section := Marked(r.section.grab))
  }

  /** removeFromList of the first pending timer, and the argument of its callback. */
  function DoReadParam(r: Race): Race
    requires r.s.pending != []
  {
    var info := r.s.pending[0];
    r.(s := r.s.(pending := r.s.pending[1..]), stage := Called(info, info.id !in r.s.cancelled))
  }

  /** wakeTimeoutCallback, or a callback that does not matter here. */
  function DoRunBody(r: Race): Race
    requires r.stage.Called?
  {
    r.(s := if Takes(r.stage) then r.s.(count := 0, held := false) else r.s, stage := Returned(r.stage.info))
  }

  function MoveTo(r: Race, m: Move): Race
    requires CanMove(r, m)
  {
    match m
    case Plain(a) => r.(s := Step(r.s, a))
    case GrabRequest => DoRequest(r)
    case ReleaseCount => DoCount(r)
    case SectionTest => r.(section := if r.s.last.Some? then Loading(r.section.grab) else Marked(r.section.grab))
    case SectionLoad => r.(section := Storing(r.section.grab, r.s.last))
    case SectionStore => DoStore(r)
    case SectionPoint(id) => r.(s := r.s.(last := Some(id)), section := NoSection)
    case ReadParam => DoReadParam(r)
    case RunBody => DoRunBody(r)
    case TestPointer =>
      r.(stage := if r.s.last == Some(r.stage.info.id) then Forgetting(r.stage.info) else Freeing(r.stage.info))
    case ResetPointer => r.(s := r.s.(last := None), stage := Freeing(r.stage.info))
    case FreeInfo(_) => r.(stage := Idle)
  }

  function Moves(r: Race, run: seq<Move>): Option<Race>
    decreases run
  {
    if run == [] then Some(r)
    else if !CanMove(r, run[0]) then None
    else Moves(MoveTo(r, run[0]), run[1..])
  }

  // ---------- With nothing in between ----------

  /** A callback that nothing comes in between is the one step of the simpler machine. */
  lemma UndisturbedCallback(r: Race)
    requires CanMove(r, ReadParam) && r.section.NoSection?
    ensures var tested := MoveTo(MoveTo(MoveTo(r, ReadParam), RunBody), TestPointer);
      var freeing := if tested.stage.Forgetting? then MoveTo(tested, ResetPointer) else tested;
      MoveTo(freeing, FreeInfo(r.s.pending[0].id)) == r.(s := DoFire(r.s))
  {
  }

  /** The rest of a section that nothing comes in between. */
  function Through(r: Race): Race
    requires r.section.Testing?
  {
    var tested := MoveTo(r, SectionTest);
    var marked := if tested.section.Loading? then MoveTo(MoveTo(tested, SectionLoad), SectionStore) else tested;
    if marked.section.Pointing? then MoveTo(marked, SectionPoint(marked.section.id)) else marked
  }

  /** Nor does a section differ from the one step of the simpler machine. */
  lemma UndisturbedSections(r: Race)
    requires r.section.NoSection?
    ensures Through(DoRequest(r)) == r.(s := DoGrab(r.s), latest := Some(r.s.issued))
    ensures (if r.s.count > 1 then DoCount(r) else Through(DoCount(r))) == r.(s := DoRelease(r.s))
  {
  }

  // ---------- What every run keeps ----------

  /** t has not been freed. */
  predicate Alive(r: Race, t: Info) {
    Outstanding(r.s, t) || (!r.stage.Idle? && r.stage.info == t)
  }

  ghost predicate Live(r: Race, id: nat) {
    exists t :: Alive(r, t) && t.id == id
  }

  ghost predicate Scheduled(r: Race) {
    && Schedule(r.s) && (forall t :: Outstanding(r.s, t) ==> t.id < r.s.issued)
    && (!r.stage.Idle? ==>
         && r.s.reading.Some? && r.stage.info.at < r.s.reading.value && r.stage.info.id < r.s.issued
         && forall t :: Outstanding(r.s, t) ==> t.id != r.stage.info.id)
  }

  /** The timer of the latest grab will be called, or is about to release the lock. */
  ghost predicate Watched(r: Race) {
    && r.latest.Some? && r.s.grabbed.Some? && r.latest.value !in r.s.cancelled
    && var g := Info(r.latest.value, r.s.grabbed.value + WAKE_TIMEOUT, true);
       Outstanding(r.s, g) || r.stage == Called(g, true)
  }

  /** A grab under way is the latest, and has the lock; nothing reaches its info before it sets the pointer. */
  predicate SectionOk(r: Race) {
    && (Grabbing(r.section).Some? ==>
         r.s.held && r.latest == Grabbing(r.section) && r.s.last != r.latest
         && (r.section.Storing? ==> r.section.target != r.latest))
    && (!r.section.NoSection? && Grabbing(r.section).None? ==> !r.s.held)
    && (r.section.Storing? && r.section.target.Some? ==> r.section.target.value < r.s.issued)
  }

  ghost predicate Locked(r: Race) {
    && (r.s.held <==> r.s.count > 0)
    && (r.s.held ==> Watched(r))
    && SectionOk(r)
    && (forall i :: i in r.s.cancelled ==> i < r.s.issued)
    && (r.s.last.Some? ==> r.s.last.value < r.s.issued)
    && (r.latest.Some? ==> r.latest.value < r.s.issued)
    && (r.s.last.Some? && Grabbing(r.section).None? ==> r.s.last == r.latest)
  }

  ghost predicate PointerLives(r: Race) {
    && (r.s.last.Some? ==> Live(r, r.s.last.value))
    && (r.stage.Freeing? ==> r.s.last != Some(r.stage.info.id))
  }

  ghost predicate RaceInv(r: Race) {
    Scheduled(r) && Locked(r) && PointerLives(r) && Bounded(r.s)
  }

  /** The moves that request a timer. */
  predicate Adds(m: Move) {
    m.GrabRequest? || (m.Plain? && m.a.UserTimer?)
  }

  function Requested(r: Race, m: Move): Info
    requires Adds(m)
  {
    Info(r.s.issued, r.s.now + if m.Plain? then m.a.delay else WAKE_TIMEOUT, m.GrabRequest?)
  }

  lemma PlainOutstanding(r: Race, a: Action)
    requires Schedule(r.s) && CanMove(r, Plain(a))
    ensures Schedule(Step(r.s, a))
    ensures !a.UserTimer? ==>
      && Step(r.s, a).issued == r.s.issued
      && forall t :: Outstanding(Step(r.s, a), t) <==> Outstanding(r.s, t)
    ensures a.UserTimer? ==> Added(r.s, Step(r.s, a), Info(r.s.issued, r.s.now + a.delay, false))
  {
    if a.UserTimer? {
      RequestKeeps(r.s, a.delay, false);
    } else if a.ProcessTimeouts? {
      ProcessMoves(r.s);
    }
  }

  /** What is outstanding changes only by a request and by the start of a call. */
  lemma OutstandingAfter(r: Race, m: Move)
    requires Scheduled(r) && CanMove(r, m)
    ensures Schedule(MoveTo(r, m).s)
    ensures Adds(m) ==>
      && MoveTo(r, m).s.issued == r.s.issued + 1
      && (forall t :: Outstanding(MoveTo(r, m).s, t) <==> t == Requested(r, m) || Outstanding(r.s, t))
    ensures !Adds(m) ==> MoveTo(r, m).s.issued == r.s.issued
    ensures !Adds(m) && !m.ReadParam? ==> forall t :: Outstanding(MoveTo(r, m).s, t) <==> Outstanding(r.s, t)
    ensures m.ReadParam? ==>
      && Outstanding(r.s, r.s.pending[0])
      && forall t :: Outstanding(MoveTo(r, m).s, t) <==> Outstanding(r.s, t) && t.id != r.s.pending[0].id
  {
    match m
    case GrabRequest =>
      RequestKeeps(r.s, WAKE_TIMEOUT, true);
    case ReadParam => FireDrops(r.s);
    case Plain(a) => PlainOutstanding(r, a);
    case _ =>
  }

  lemma MoveSchedules(r: Race, m: Move)
    requires Scheduled(r) && CanMove(r, m)
    ensures Scheduled(MoveTo(r, m))
  {
    OutstandingAfter(r, m);
  }

  /** An id tells which outstanding info is meant. */
  lemma OnlyOne(s: State, t: Info)
    requires Schedule(s) && Outstanding(s, t)
    ensures forall u :: Outstanding(s, u) && u.id == t.id ==> u == t
  {
    var q := s.pending + s.timers;
    assert forall u :: Outstanding(s, u) <==> u in q;
  }

  /** An info lives from its request until it is freed. */
  lemma LiveAfter(r: Race, m: Move, id: nat)
    requires Scheduled(r) && CanMove(r, m)
    ensures Live(MoveTo(r, m), id) <==> (Live(r, id) && m != FreeInfo(id)) || (Adds(m) && id == r.s.issued)
  {
    OutstandingAfter(r, m);
    var r' := MoveTo(r, m);
    if m.ReadParam? {
      OnlyOne(r.s, r.s.pending[0]);
    }
    if Live(r, id) && m != FreeInfo(id) {
      var t :| Alive(r, t) && t.id == id;
      assert Alive(r', t);
    }
    if Live(r', id) {
      var t :| Alive(r', t) && t.id == id;
      assert Alive(r, t) || (Adds(m) && t.id == r.s.issued);
    }
    if Adds(m) && id == r.s.issued {
      assert Alive(r', Requested(r, m));
    }
  }

  /** If the timer that starts being called is the one watched for, it has read that it is not cancelled. */
  lemma WatchedWhenRead(r: Race)
    requires Scheduled(r) && Watched(r) && CanMove(r, ReadParam)
    ensures Watched(DoReadParam(r))
  {
    OutstandingAfter(r, ReadParam);
    OnlyOne(r.s, r.s.pending[0]);
  }

  lemma WatchedAfter(r: Race, m: Move)
    requires Scheduled(r) && Locked(r) && CanMove(r, m) && MoveTo(r, m).s.held
    ensures Watched(MoveTo(r, m))
  {
    if m.ReadParam? {
      WatchedWhenRead(r);
    } else {
      OutstandingAfter(r, m);
    }
  }

  lemma MoveSection(r: Race, m: Move)
    requires Locked(r) && CanMove(r, m)
    ensures SectionOk(MoveTo(r, m))
  {
  }

  lemma MoveLocks(r: Race, m: Move)
    requires Scheduled(r) && Locked(r) && CanMove(r, m)
    ensures Locked(MoveTo(r, m))
  {
    MoveSection(r, m);
    if MoveTo(r, m).s.held {
      WatchedAfter(r, m);
    }
  }

  /** The info of a grab that is about to set the pointer has not been freed. */
  lemma GrabbingLives(r: Race)
    requires Scheduled(r) && Locked(r) && Grabbing(r.section).Some?
    ensures Live(r, r.latest.value) && (r.stage.Freeing? ==> r.latest != Some(r.stage.info.id))
  {
    assert Alive(r, Info(r.latest.value, r.s.grabbed.value + WAKE_TIMEOUT, true));
  }

  lemma MovePointer(r: Race, m: Move)
    requires RaceInv(r) && CanMove(r, m)
    ensures PointerLives(MoveTo(r, m))
  {
    var r' := MoveTo(r, m);
    if m.SectionPoint? {
      GrabbingLives(r);
    }
    if r'.s.last.Some? {
      LiveAfter(r, m, r'.s.last.value);
    }
  }

  lemma EndPassBounds(r: Race)
    requires RaceInv(r) && CanMove(r, Plain(EndPass))
    ensures Bounded(Step(r.s, EndPass))
  {
    assert forall u :: Outstanding(r.s, u) <==> u in r.s.timers;
  }

  lemma OtherBounds(r: Race, m: Move)
    requires Bounded(r.s) && CanMove(r, m) && m != Plain(EndPass)
    ensures Bounded(MoveTo(r, m).s)
  {
  }

  lemma MoveBounds(r: Race, m: Move)
    requires RaceInv(r) && CanMove(r, m)
    ensures Bounded(MoveTo(r, m).s)
  {
    if m == Plain(EndPass) {
      EndPassBounds(r);
    } else {
      OtherBounds(r, m);
    }
  }

  lemma MoveKeeps(r: Race, m: Move)
    requires RaceInv(r) && CanMove(r, m)
    ensures RaceInv(MoveTo(r, m))
  {
    MoveSchedules(r, m);
    MoveLocks(r, m);
    MovePointer(r, m);
    MoveBounds(r, m);
  }

  lemma {:induction false} MovesKeep(r: Race, run: seq<Move>)
    requires RaceInv(r) && Moves(r, run).Some?
    ensures RaceInv(Moves(r, run).value)
    decreases run
  {
    if run != [] {
      MoveKeeps(r, run[0]);
      MovesKeep(MoveTo(r, run[0]), run[1..]);
    }
  }

  // ---------- What survives ----------

  /**
   However everything interleaves: the lock is held exactly while the count is positive, the pointer is null or
   points to an info that has not been freed, and once a pass has ended whose reading of the clock is more than
   200 ms after the latest grab, the lock is not held.
   */
  lemma RaceStaysBounded(now: int, run: seq<Move>)
    requires Moves(Start(now), run).Some?
    ensures var r := Moves(Start(now), run).value;
      && (r.s.held <==> r.s.count > 0)
      && (r.s.last.Some? ==> Live(r, r.s.last.value))
      && (r.s.passed.Some? && r.s.grabbed.Some? && r.s.passed.value > r.s.grabbed.value + WAKE_TIMEOUT ==> !r.s.held)
  {
    MovesKeep(Start(now), run);
  }
}
