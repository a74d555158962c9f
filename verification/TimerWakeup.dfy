/** No lost wake-up: the timer service can never sleep past the head of a heap. */
module TimerWakeup {
  import opened Common
  import opened TimerTime
  import opened HeapTree
  import opened TimerContainer
  import opened TimerService

  /** An Expire of container k is on its way: on the poll thread, queued, or being handled. */
  predicate InFlight(s: State, k: Kind) {
    || (exists i :: 0 <= i < |s.poll| && s.poll[i].k == k)
    || MsgExpire(k) in s.queue
    || ((s.msg.Popped? || s.msg.Stopping? || s.msg.Calling? || s.msg.Scanning?) && s.msg.k == k)
  }

  /** The kernel timer of k is set to the head's deadline and polled. */
  predicate Watched(s: State, k: Kind) {
    s.heaps.Get(k).Node? && s.devs.Get(k) == Device(Some(s.heaps.Get(k).data.at), true)
  }

  /** The message thread is about to make the kernel watch the head of k. */
  predicate Updating(s: State, k: Kind) {
    || (s.msg.Registering? && s.msg.k == k)
    || (s.msg.Setting? && s.msg.k == k && s.devs.Get(k).polled)
  }

  ghost predicate Covered(s: State, k: Kind) {
    s.heaps.Get(k).Node? ==> InFlight(s, k) || Watched(s, k) || Updating(s, k)
  }

  /** What the message thread is about to tell the kernel is the deadline of the head. */
  predicate TellsHead(s: State) {
    s.msg.Registering? || s.msg.Setting? ==>
      s.heaps.Get(s.msg.k).Node? && s.msg.u == Arm(s.heaps.Get(s.msg.k).data.at)
  }

  ghost predicate Inv(s: State) {
    && WellFormed(s.heaps.sw) && WellFormed(s.heaps.hw)
    && TellsHead(s)
    && Covered(s, Sw) && Covered(s, Hw)
  }

  /** Steps of client threads and of the clock only add messages to the queue. */
  predicate OnlySends(s: State, s': State) {
    && s'.heaps == s.heaps && s'.devs == s.devs && s'.msg == s.msg && s'.poll == s.poll
    && s.queue <= s'.queue
  }

  lemma SendingKeeps(s: State, s': State)
    requires Inv(s) && OnlySends(s, s')
    ensures Inv(s')
  {
    forall k ensures Covered(s', k) {
      assert Covered(s, k);
      if MsgExpire(k) in s.queue {
        var i :| 0 <= i < |s.queue| && s.queue[i] == MsgExpire(k);
        assert s'.queue[i] == MsgExpire(k);
      }
    }
  }

  function Other(k: Kind): Kind {
    if k == Sw then Hw else Sw
  }

  /** A step of the message thread for one container leaves the other one covered. */
  lemma OtherStaysCovered(s: State, s': State, k: Kind)
    requires Covered(s, k) && s'.heaps.Get(k) == s.heaps.Get(k) && s'.devs == s.devs && s'.poll == s.poll
    requires MsgExpire(k) in s.queue ==> MsgExpire(k) in s'.queue
    requires s.msg == Waiting || (s.msg.Scanning? && s.msg.k == Other(k))
    ensures Covered(s', k)
  {
  }

  /** A Push or Remove of container k: the heap becomes h and the decision u is followed. */
  lemma HandlingKeeps(s: State, s': State, k: Kind, h: Tree<Timer>, u: Update, doomed: Option<Timer>)
    requires Inv(s) && s.msg == Waiting && s.queue != [] && !s.queue[0].MsgExpire?
    requires WellFormed(h) && Suits(u, h, Top(s.heaps.Get(k)))
    requires s' == s.(queue := s.queue[1..], heaps := s.heaps.Set(k, h), msg := Follow(k, u, doomed))
    ensures Inv(s')
  {
    assert Covered(s, k) && Covered(s, Other(k));
    assert forall k' :: MsgExpire(k') in s.queue ==> MsgExpire(k') in s'.queue;
    OtherStaysCovered(s, s', Other(k));
    assert Covered(s', k);
  }

  lemma TakePushKeeps(s: State, t: Timer)
    requires Inv(s) && Enabled(s, TakeMsg) && s.queue[0] == MsgPush(t)
    ensures Inv(DoTake(s))
  {
    var h := s.heaps.Get(t.kind);
    var h' := Push(h, t, OutRanks);
    PushTimer(h, t);
    PushDecision(h, t);
    HandlingKeeps(s, DoTake(s), t.kind, h', Decide(Top(h'), Top(h)), None);
  }

  lemma TakeRemoveKeeps(s: State, t: Timer)
    requires Inv(s) && Enabled(s, TakeMsg) && s.queue[0] == MsgRemove(t)
    ensures Inv(DoTake(s))
  {
    var h := s.heaps.Get(t.kind);
    var (h', removed) := Apply(h, DoRemove(t), OutRanks);
    RemoveTimer(h, t);
    RemoveDecision(h, t);
    var u := if Top(h) == removed then Decide(Top(h'), None) else Keep;
    HandlingKeeps(s, DoTake(s), t.kind, h', u, Some(t));
  }

  lemma TakeExpireKeeps(s: State, k: Kind)
    requires Inv(s) && Enabled(s, TakeMsg) && s.queue[0] == MsgExpire(k)
    ensures Inv(DoTake(s))
  {
    var s' := DoTake(s);
    if s.heaps.Get(k).Node? {
      PopTimer(s.heaps.Get(k));
    }
    assert Covered(s, k) && Covered(s, Other(k));
    assert MsgExpire(Other(k)) in s.queue ==> MsgExpire(Other(k)) in s'.queue;
    OtherStaysCovered(s, s', Other(k));
    assert Covered(s', k);
  }

  lemma ScanKeeps(s: State)
    requires Inv(s) && Enabled(s, Scan)
    ensures Inv(DoScan(s))
  {
    var s' := DoScan(s);
    var k := s.msg.k;
    if HeadDue(s.heaps.Get(k), s.msg.now) {
      PopTimer(s.heaps.Get(k));
    } else {
      ExpireDecision(s.heaps.Get(k));
    }
    assert Covered(s, Other(k));
    OtherStaysCovered(s, s', Other(k));
    assert Covered(s', k);
  }

  lemma PollKeeps(s: State)
    requires Inv(s) && Enabled(s, PollStep)
    ensures Inv(DoPoll(s))
  {
    var s' := DoPoll(s);
    var first := s.poll[0].k;
    assert InFlight(s', first) by {
      if s.poll[0].stage == ToSend {
        assert s'.queue[|s.queue|] == MsgExpire(first);
      } else {
        assert s'.poll[0].k == first;
      }
    }
    forall k | k != first && InFlight(s, k) ensures InFlight(s', k) {
      if i :| 0 <= i < |s.poll| && s.poll[i].k == k {
        assert if s.poll[0].stage == ToSend then s'.poll[i - 1] == s.poll[i] else s'.poll[i] == s.poll[i];
      } else if MsgExpire(k) in s.queue {
        var i :| 0 <= i < |s.queue| && s.queue[i] == MsgExpire(k);
        assert s'.queue[i] == MsgExpire(k);
      }
    }
  }

  /** Client threads and the clock. */
  lemma ClientStepKeeps(s: State, a: Action)
    requires Inv(s) && Enabled(s, a)
    requires a.Tick? || a.NewClient? || a.Start? || a.Stop? || a.DestroyStop? || a.DestroyDrop?
    ensures Inv(Step(s, a))
  {
    SendingKeeps(s, Step(s, a));
  }

  /** The message thread between two messages, and the poll thread when it wakes. */
  lemma KernelStepKeeps(s: State, a: Action)
    requires Inv(s) && Enabled(s, a) && (a.Register? || a.SetTime? || a.Delete? || a.EpollWait?)
    ensures Inv(Step(s, a))
  {
  }

  lemma StepKeeps(s: State, a: Action)
    requires Inv(s) && Enabled(s, a)
    ensures Inv(Step(s, a))
  {
    match a
    case TakeMsg =>
      match s.queue[0] {
        case MsgPush(t) => TakePushKeeps(s, t);
        case MsgRemove(t) => TakeRemoveKeeps(s, t);
        case MsgExpire(k) => TakeExpireKeeps(s, k);
      }
    case ReadClient =>
    case StopClient => SendingKeeps(s, DoStop(s, s.msg.c, ByExpiry));
    case Callback =>
    case Scan => ScanKeeps(s);
    case PollStep => PollKeeps(s);
    case _ =>
      if a.Register? || a.SetTime? || a.Delete? || a.EpollWait? {
        KernelStepKeeps(s, a);
      } else {
        ClientStepKeeps(s, a);
      }
  }

  lemma {:induction false} ExecKeeps(s: State, run: seq<Action>)
    requires Inv(s) && Exec(s, run).Some?
    ensures Inv(Exec(s, run).value)
    decreases run
  {
    if run != [] {
      StepKeeps(s, run[0]);
      ExecKeeps(Step(s, run[0]), run[1..]);
    }
  }

  /**
   In every state of every run, a container with timers has its kernel timer set to exactly the
   head's deadline and polled, or the message thread is just doing that, or an Expire is in flight.
   */
  lemma NoLostWakeup(now: Deadline, run: seq<Action>, k: Kind)
    requires Exec(Init(now), run).Some?
    ensures var s := Exec(Init(now), run).value;
      s.heaps.Get(k).Node? ==> InFlight(s, k) || Watched(s, k) || Updating(s, k)
  {
    ExecKeeps(Init(now), run);
    assert Covered(Exec(Init(now), run).value, k);
  }

  /** With nothing left to do, a head whose deadline has come lets the poll thread go on. */
  lemma NeverSleepsPastHead(now: Deadline, run: seq<Action>, k: Kind)
    requires Exec(Init(now), run).Some?
    ensures var s := Exec(Init(now), run).value;
      s.queue == [] && s.msg == Waiting && s.poll == [] && s.heaps.Get(k).Node? ==>
        && s.devs.Get(k) == Device(Some(s.heaps.Get(k).data.at), true)
        && (Due(s.heaps.Get(k).data, s.now) <==> Enabled(s, EpollWait([k])))
  {
    NoLostWakeup(now, run, k);
    assert [k][0] == k;
  }

  // ---------- What becomes of an armed kernel timer ----------

  lemma OthersArmNothing(s: State, a: Action, k: Kind)
    requires Enabled(s, a) && !a.SetTime? && !a.PollStep?
    ensures Step(s, a).devs.Get(k).armed == s.devs.Get(k).armed
  {
  }

  lemma StepArms(s: State, a: Action, k: Kind)
    requires TellsHead(s) && Enabled(s, a)
    ensures Step(s, a).devs.Get(k).armed.Some? <==>
      || (a.SetTime? && s.msg.k == k)
      || (s.devs.Get(k).armed.Some? && !(a.PollStep? && s.poll[0] == PollItem(k, ToDisarm)))
  {
    if !a.SetTime? && !a.PollStep? {
      OthersArmNothing(s, a, k);
    }
  }

  lemma TakenRemove(s: State, t: Timer)
    requires WellFormed(s.heaps.Get(t.kind)) && Enabled(s, TakeMsg) && s.queue[0] == MsgRemove(t)
    ensures var h := s.heaps.Get(t.kind); var h' := Without(h, t);
      DoTake(s) == s.(queue := s.queue[1..], heaps := s.heaps.Set(t.kind, h'),
                      msg := if Top(h) == Some(t) && h'.Node? then Registering(t.kind, Arm(h'.data.at), Some(t))
                             else Deleting(Some(t)))
  {
    RemovedIsTop(s.heaps.Get(t.kind), t);
  }

  /**
   In every run a kernel timer is armed after a step if and only if the message thread has just set it, or it was
   armed and this is not the poll thread's disarming; the message thread never disarms it.
   */
  lemma OnlyPollDisarms(now: Deadline, run: seq<Action>, a: Action, k: Kind)
    requires Exec(Init(now), run).Some? && Enabled(Exec(Init(now), run).value, a)
    ensures var s := Exec(Init(now), run).value;
      Step(s, a).devs.Get(k).armed.Some? <==>
        || (a.SetTime? && s.msg.k == k)
        || (s.devs.Get(k).armed.Some? && !(a.PollStep? && s.poll[0] == PollItem(k, ToDisarm)))
  {
    ExecKeeps(Init(now), run);
    StepArms(Exec(Init(now), run).value, a, k);
  }

  /** In this run, a SetTime for container k has come after the last disarming of its kernel timer. */
  predicate SetSinceDisarm(now: Deadline, run: seq<Action>, k: Kind)
    requires Exec(Init(now), run).Some?
    decreases run
  {
    run != []
    && (ExecLast(Init(now), run);
        var before, a := run[..|run| - 1], run[|run| - 1];
        var s := Exec(Init(now), before).value;
        || (a.SetTime? && s.msg.k == k)
        || (SetSinceDisarm(now, before, k) && !(a.PollStep? && s.poll[0] == PollItem(k, ToDisarm))))
  }

  /** In every run: a kernel timer is armed if and only if the message thread set it after the last disarming. */
  lemma {:induction false} ArmedExactly(now: Deadline, run: seq<Action>, k: Kind)
    requires Exec(Init(now), run).Some?
    ensures Exec(Init(now), run).value.devs.Get(k).armed.Some? <==> SetSinceDisarm(now, run, k)
    decreases run
  {
    if run != [] {
      ExecLast(Init(now), run);
      ArmedExactly(now, run[..|run| - 1], k);
      OnlyPollDisarms(now, run[..|run| - 1], run[|run| - 1], k);
    }
  }

  lemma DeleteLeavesDevices(s: State)
    requires Enabled(s, Delete)
    ensures Step(s, Delete).devs == s.devs
  {
  }

  /**
   In every run a Remove goes to the kernel if and only if the head went and another timer is left; a Remove that
   empties the heap goes straight to its delete, so an armed timer stays armed.
   */
  lemma RemoveTellsKernel(now: Deadline, run: seq<Action>, t: Timer)
    requires Exec(Init(now), run).Some?
    requires var s := Exec(Init(now), run).value; Enabled(s, TakeMsg) && s.queue[0] == MsgRemove(t)
    ensures var s := Exec(Init(now), run).value; var s' := Step(s, TakeMsg); var k := t.kind;
      && s'.devs == s.devs
      && (s'.msg.Registering? <==> Top(s.heaps.Get(k)) == Some(t) && s'.heaps.Get(k).Node?)
      && (!s'.msg.Registering? ==> s'.msg == Deleting(Some(t)) && Step(s', Delete).devs == s.devs)
  {
    ExecKeeps(Init(now), run);
    var s := Exec(Init(now), run).value;
    TakenRemove(s, t);
    if Step(s, TakeMsg).msg.Deleting? {
      DeleteLeavesDevices(Step(s, TakeMsg));
    }
  }
}
