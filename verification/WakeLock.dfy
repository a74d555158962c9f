/**
 The counted wake lock of ril.cpp (version 13 and later) on the timers of ril_event.cpp. A section
 under s_wakeLockCountMutex is one step, and so is a timer callback. Times are in microseconds.
 */
module WakeLock {
  import opened Common
  import opened RilSchedule

  /** ANDROID_WAKE_LOCK_SECS and ANDROID_WAKE_LOCK_USECS */
  const WAKE_TIMEOUT: int := 200_000

  /** A UserCallbackInfo: wake tells whether its callback is wakeTimeoutCallback. */
  datatype Info = Info(id: nat, at: int, wake: bool)

  datatype State = State(
    now: int,
    timers: seq<Info>,
    pending: seq<Info>,
    // the infos whose userParam is 1
    cancelled: set<nat>,
    issued: nat,
    count: nat,
    held: bool,
    last: Option<nat>,
    // what processTimeouts read, while the pass lasts
    reading: Option<int>,
    // history: the clock at the most recent grab, and the reading of the latest pass that ended
    grabbed: Option<int>,
    passed: Option<int>)

  datatype Action =
    | Tick(now: int)
    | Grab
    | Release
    | UserTimer(delay: int)
    | ProcessTimeouts
    | FireFirst
    | EndPass

  function Init(now: int): State {
    State(now, [], [], {}, 0, 0, false, None, None, None, None)
  }

  function Ats(q: seq<Info>): (ts: seq<int>)
    ensures |ts| == |q| && forall i :: 0 <= i < |q| ==> ts[i] == q[i].at
  {
    seq(|q|, i requires 0 <= i < |q| => q[i].at)
  }

  /** t is still waiting, or about to be called; it has not been freed. */
  predicate Outstanding(s: State, t: Info) {
    t in s.pending || t in s.timers
  }

  predicate Enabled(s: State, a: Action) {
    match a
    case Tick(now) => s.now <= now
    case Grab => true
    case Release => true
    case UserTimer(_) => true
    case ProcessTimeouts => s.reading == None
    case FireFirst => s.reading.Some? && s.pending != []
    case EndPass => s.reading.Some? && s.pending == []
  }

  /** internalRequestTimedCallback, with the place that ril_timer_add finds. */
  function Request(s: State, delay: int, wake: bool): State {
    var p := Leading(Ats(s.timers), s.now + delay);
    s.(timers := s.timers[..p] + [Info(s.issued, s.now + delay, wake)] + s.timers[p..], issued := s.issued + 1)
  }

  function Cancel(s: State): set<nat> {
    if s.last.Some? then s.cancelled + {s.last.value} else s.cancelled
  }

  /** grabPartialWakeLock */
  function DoGrab(s: State): State {
    Request(s, WAKE_TIMEOUT, true)
      .(held := true, count := s.count + 1, cancelled := Cancel(s), last := Some(s.issued), grabbed := Some(s.now))
  }

  /** releaseWakeLock */
  function DoRelease(s: State): State {
    if s.count > 1 then s.(count := s.count - 1)
    else s.(count := 0, held := false, cancelled := Cancel(s))
  }

  /** firePending and userTimerCallback for the first pending timer, with wakeTimeoutCallback. */
  function DoFire(s: State): State
    requires s.pending != []
  {
    var info := s.pending[0];
    var called := if info.wake && info.id !in s.cancelled then s.(count := 0, held := false) else s;
    called.(pending := s.pending[1..], last := if s.last == Some(info.id) then None else s.last)
  }

  /** processTimeouts */
  function DoProcess(s: State): State {
    var n := Leading(Ats(s.timers), s.now);
    s.(pending := s.pending + s.timers[..n], timers := s.timers[n..], reading := Some(s.now))
  }

  function Step(s: State, a: Action): State
    requires Enabled(s, a)
  {
    match a
    case Tick(now) => s.(now := now)
    case Grab => DoGrab(s)
    case Release => DoRelease(s)
    case UserTimer(delay) => Request(s, delay, false)
    case ProcessTimeouts => DoProcess(s)
    case FireFirst => DoFire(s)
    case EndPass => s.(reading := None, passed := s.reading)
  }

  function Exec(s: State, run: seq<Action>): Option<State>
    decreases run
  {
    if run == [] then Some(s)
    else if !Enabled(s, run[0]) then None
    else Exec(Step(s, run[0]), run[1..])
  }

  // ---------- What every run keeps ----------

  ghost predicate FreshIds(q: seq<Info>, issued: nat) {
    && (forall i :: 0 <= i < |q| ==> q[i].id < issued)
    && forall i, j :: 0 <= i < j < |q| ==> q[i].id != q[j].id
  }

  /** The timers are sorted, and a pass has moved every timer before its reading. */
  ghost predicate Schedule(s: State) {
    && Sorted(Ats(s.timers)) && FreshIds(s.pending + s.timers, s.issued)
    && match s.reading
       case None => s.pending == []
       case Some(r) =>
         && r <= s.now && (forall t :: t in s.pending ==> t.at < r)
         && forall t :: t in s.timers && t.wake ==> r <= t.at
  }

  /** The wake timer of the latest grab is outstanding. */
  ghost predicate Guarded(s: State) {
    && s.last.Some? && s.grabbed.Some? && s.last.value !in s.cancelled
    && Outstanding(s, Info(s.last.value, s.grabbed.value + WAKE_TIMEOUT, true))
  }

  ghost predicate LastLives(s: State) {
    s.last.Some? ==> exists t :: Outstanding(s, t) && t.wake && t.id == s.last.value
  }

  ghost predicate Locking(s: State) {
    && (s.held <==> s.count > 0)
    && (s.held ==> Guarded(s))
    && (forall t :: Outstanding(s, t) && t.wake && t.id !in s.cancelled ==> s.held && s.last == Some(t.id))
    && LastLives(s)
    && (forall i :: i in s.cancelled ==> i < s.issued)
    && (forall t :: Outstanding(s, t) ==> t.id < s.issued)
  }

  ghost predicate Bounded(s: State) {
    && (s.grabbed.Some? ==> s.grabbed.value <= s.now)
    && (s.passed.Some? ==> s.passed.value <= s.now)
    && (s.held && s.passed.Some? ==> s.grabbed.Some? && s.passed.value <= s.grabbed.value + WAKE_TIMEOUT)
  }

  ghost predicate Inv(s: State) {
    Schedule(s) && Locking(s) && Bounded(s)
  }

  lemma FreshInsert(q: seq<Info>, k: nat, t: Info)
    requires k <= |q| && FreshIds(q, t.id)
    ensures FreshIds(q[..k] + [t] + q[k..], t.id + 1)
  {
    var q' := q[..k] + [t] + q[k..];
    assert forall i :: 0 <= i < |q'| ==> q'[i] == if i < k then q[i] else if i == k then t else q[i - 1];
  }

  lemma InsertIn<T>(a: seq<T>, b: seq<T>, k: nat, t: T)
    requires k <= |b|
    ensures a + (b[..k] + [t] + b[k..]) == (a + b)[..|a| + k] + [t] + (a + b)[|a| + k..]
    ensures forall u :: u in b[..k] + [t] + b[k..] <==> u == t || u in b
  {
    assert b == b[..k] + b[k..];
  }

  lemma MoveOver<T>(a: seq<T>, b: seq<T>, k: nat)
    requires k <= |b|
    ensures (a + b[..k]) + b[k..] == a + b
    ensures forall u :: u in b <==> u in b[..k] || u in b[k..]
  {
    assert b == b[..k] + b[k..];
  }

  lemma DropFirst(q: seq<Info>, issued: nat)
    requires FreshIds(q, issued) && q != []
    ensures FreshIds(q[1..], issued)
    ensures forall u :: u in q[1..] <==> u in q && u.id != q[0].id
  {
    assert q == [q[0]] + q[1..];
    assert forall i :: 0 <= i < |q[1..]| ==> q[1..][i] == q[i + 1];
  }

  /** s' is s with the new timer t, among the waiting ones. */
  ghost predicate Added(s: State, s': State, t: Info) {
    && s'.pending == s.pending && s'.reading == s.reading && s'.now == s.now
    && t.id == s.issued && s'.issued == s.issued + 1
    && (forall u :: u in s'.timers <==> u == t || u in s.timers)
  }

  lemma AtsInsert(q: seq<Info>, p: nat, t: Info)
    requires p == Leading(Ats(q), t.at)
    ensures Ats(q[..p] + [t] + q[p..]) == Insert(Ats(q), t.at)
  {
    var q' := q[..p] + [t] + q[p..];
    assert forall i :: 0 <= i < |q'| ==> q'[i] == if i < p then q[i] else if i == p then t else q[i - 1];
  }

  lemma RequestAdds(s: State, delay: int, wake: bool)
    requires FreshIds(s.pending + s.timers, s.issued)
    ensures var s' := Request(s, delay, wake);
      FreshIds(s'.pending + s'.timers, s'.issued) && Added(s, s', Info(s.issued, s.now + delay, wake))
  {
    var t := Info(s.issued, s.now + delay, wake);
    var p := Leading(Ats(s.timers), t.at);
    var q := s.timers[..p] + [t] + s.timers[p..];
    InsertIn(s.pending, s.timers, p, t);
    FreshInsert(s.pending + s.timers, |s.pending| + p, t);
    assert Request(s, delay, wake).timers == q;
  }

  lemma RequestSorts(s: State, delay: int, wake: bool)
    requires Sorted(Ats(s.timers))
    ensures Sorted(Ats(Request(s, delay, wake).timers))
  {
    var t := Info(s.issued, s.now + delay, wake);
    var p := Leading(Ats(s.timers), t.at);
    AtsInsert(s.timers, p, t);
    InsertKeepsSorted(Ats(s.timers), t.at);
    assert Request(s, delay, wake).timers == s.timers[..p] + [t] + s.timers[p..];
  }

  /** A new timer lands in its place and leaves the others in order. */
  lemma RequestKeeps(s: State, delay: int, wake: bool)
    requires Schedule(s) && (wake ==> 0 <= delay)
    ensures var s' := Request(s, delay, wake);
      Schedule(s') && Added(s, s', Info(s.issued, s.now + delay, wake))
  {
    RequestAdds(s, delay, wake);
    RequestSorts(s, delay, wake);
  }

  lemma LastIsOlder(s: State)
    requires Locking(s) && s.last.Some?
    ensures s.last.value < s.issued
  {
    var t :| Outstanding(s, t) && t.wake && t.id == s.last.value;
  }

  lemma GrabKeeps(s: State)
    requires Inv(s)
    ensures Inv(DoGrab(s))
  {
    RequestKeeps(s, WAKE_TIMEOUT, true);
    var s', t := DoGrab(s), Info(s.issued, s.now + WAKE_TIMEOUT, true);
    if s.last.Some? {
      LastIsOlder(s);
    }
    assert forall u :: Outstanding(s', u) <==> u == t || Outstanding(s, u);
    assert Outstanding(s', t);
  }

  lemma ReleaseKeeps(s: State)
    requires Inv(s)
    ensures Inv(DoRelease(s))
  {
    var s' := DoRelease(s);
    if s.last.Some? {
      LastIsOlder(s);
    }
    assert forall u :: Outstanding(s', u) <==> Outstanding(s, u);
  }

  /** processTimeouts moves the timers before its reading, and keeps the queue as a whole. */
  lemma ProcessMoves(s: State)
    requires Schedule(s) && s.reading == None
    ensures Schedule(DoProcess(s)) && forall u :: Outstanding(DoProcess(s), u) <==> Outstanding(s, u)
  {
    var s', ts := DoProcess(s), Ats(s.timers);
    var n := Leading(ts, s.now);
    LeadingSplits(ts, s.now);
    MoveOver(s.pending, s.timers, n);
    assert Ats(s'.timers) == ts[n..];
    forall t | t in s'.pending ensures t.at < s.now {
      var i :| 0 <= i < n && s.timers[i] == t;
      assert ts[i] == t.at;
    }
    forall t | t in s'.timers ensures s.now <= t.at {
      var i :| n <= i < |s.timers| && s.timers[i] == t;
      assert ts[i] == t.at;
    }
  }

  /** A step that leaves the lock and the outstanding wake timers alone. */
  lemma LockingUntouched(s: State, s': State)
    requires Locking(s) && s.issued <= s'.issued
    requires forall u: Info :: u.wake ==> (Outstanding(s', u) <==> Outstanding(s, u))
    requires forall u :: Outstanding(s', u) ==> u.id < s'.issued
    requires s'.held == s.held && s'.count == s.count && s'.last == s.last && s'.cancelled == s.cancelled
    requires s'.grabbed == s.grabbed
    ensures Locking(s')
  {
    if s.last.Some? {
      var t :| Outstanding(s, t) && t.wake && t.id == s.last.value;
      assert Outstanding(s', t);
    }
  }

  lemma UserTimerKeeps(s: State, delay: int)
    requires Inv(s)
    ensures Inv(Request(s, delay, false))
  {
    RequestKeeps(s, delay, false);
    LockingUntouched(s, Request(s, delay, false));
  }

  lemma ProcessKeeps(s: State)
    requires Inv(s) && s.reading == None
    ensures Inv(DoProcess(s))
  {
    ProcessMoves(s);
    LockingUntouched(s, DoProcess(s));
  }

  /** The first pending timer leaves, and no other one does. */
  lemma FireDrops(s: State)
    requires Schedule(s) && s.pending != []
    ensures Schedule(DoFire(s))
    ensures forall u :: Outstanding(DoFire(s), u) <==> Outstanding(s, u) && u.id != s.pending[0].id
  {
    var s', q := DoFire(s), s.pending + s.timers;
    assert s'.pending + s'.timers == q[1..];
    DropFirst(q, s.issued);
    assert forall u :: Outstanding(s', u) <==> u in q[1..];
    assert forall u :: Outstanding(s, u) <==> u in q;
  }

  lemma FireKeeps(s: State)
    requires Inv(s) && s.reading.Some? && s.pending != []
    ensures Inv(DoFire(s))
  {
    FireDrops(s);
    var s' := DoFire(s);
    assert Outstanding(s, s.pending[0]);
    if s'.last.Some? {
      var t :| Outstanding(s, t) && t.wake && t.id == s.last.value;
      assert Outstanding(s', t);
    }
  }

  lemma EndPassKeeps(s: State)
    requires Inv(s) && Enabled(s, EndPass)
    ensures Inv(Step(s, EndPass))
  {
    assert forall u :: Outstanding(s, u) <==> u in s.timers;
  }

  lemma StepKeeps(s: State, a: Action)
    requires Inv(s) && Enabled(s, a)
    ensures Inv(Step(s, a))
  {
    match a
    case Tick(now) => assert forall u :: Outstanding(Step(s, a), u) <==> Outstanding(s, u);
    case Grab => GrabKeeps(s);
    case Release => ReleaseKeeps(s);
    case UserTimer(delay) => UserTimerKeeps(s, delay);
    case ProcessTimeouts => ProcessKeeps(s);
    case FireFirst => FireKeeps(s);
    case EndPass => EndPassKeeps(s);
  }

  lemma {:induction false} ExecKeeps(s: State, run: seq<Action>)
    requires Inv(s) && Exec(s, run).Some?
    ensures Inv(Exec(s, run).value)
    decreases run
  {
    if run != [] {
      StepKeeps(s, run[0]);
      ExecKeeps(Step(s, run[0]), run[1..]);
    }
  }

  // ---------- The main results ----------

  /**
   In every state of every run: the lock is held exactly while its count is positive; while it is held the timer
   of the latest grab, 200 ms after it, is the one uncancelled wake timer; otherwise there is none. The pointer to
   the latest wake timer is null or points to a timer not yet called. WakeLockWindows says what is left of this when
   sections and callbacks are taken apart.
   */
  lemma WakeLockInvariant(now: int, run: seq<Action>)
    requires Exec(Init(now), run).Some?
    ensures var s := Exec(Init(now), run).value;
      && (s.held <==> s.count > 0)
      && (s.held ==> Guarded(s))
      && (forall t :: Outstanding(s, t) && t.wake ==> (t.id !in s.cancelled <==> s.held && s.last == Some(t.id)))
      && (s.last.Some? ==> exists t :: Outstanding(s, t) && t.wake && t.id == s.last.value)
  {
    ExecKeeps(Init(now), run);
  }

  /**
   However grabs, releases and timers interleave, once a pass of the event loop has ended whose reading of the
   clock is more than 200 ms after the latest grab, the lock is not held.
   */
  lemma WakeLockBounded(now: int, run: seq<Action>)
    requires Exec(Init(now), run).Some?
    ensures var s := Exec(Init(now), run).value;
      s.passed.Some? && s.grabbed.Some? && s.passed.value > s.grabbed.value + 200_000 ==> !s.held
  {
    ExecKeeps(Init(now), run);
  }

  /** A timer takes the lock away only if the reading of its pass is more than 200 ms after the latest grab. */
  lemma NeverTimesOutEarly(now: int, run: seq<Action>)
    requires Exec(Init(now), run).Some? && Enabled(Exec(Init(now), run).value, FireFirst)
    ensures var s := Exec(Init(now), run).value;
      s.held && !Step(s, FireFirst).held ==>
        s.grabbed.Some? && s.reading.value > s.grabbed.value + 200_000
  {
    ExecKeeps(Init(now), run);
    var s := Exec(Init(now), run).value;
    FireDrops(s);
  }
}
