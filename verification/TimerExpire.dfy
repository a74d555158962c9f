/**
 An Expire message handled step by step, with other threads running in between, pops what the
 undisturbed loop of TimerContainer pops; and, since its first pop is unconditional, it can
 fire a timer before its deadline.
 */
module TimerExpire {
  import opened Common
  import opened TimerTime
  import opened HeapTree
  import opened TimerContainer
  import opened TimerService

  predicate Expiring(s: State) {
    s.msg.Popped? || s.msg.Stopping? || s.msg.Calling? || s.msg.Scanning?
  }

  /** The run goes on only while the Expire message is being handled. */
  predicate Within(s: State, run: seq<Action>)
    decreases run
  {
    run != [] ==> Expiring(s) && Enabled(s, run[0]) && Within(Step(s, run[0]), run[1..])
  }

  /** The timers on which the run calls expire(), in order. */
  function Expired(s: State, run: seq<Action>): seq<Timer>
    decreases run
  {
    if run == [] || !Enabled(s, run[0]) then []
    else (if run[0].ReadClient? then [s.msg.t] else []) + Expired(Step(s, run[0]), run[1..])
  }

  /** What is still to be expired, and the heap that will be left. */
  function Remaining(s: State): (seq<Timer>, Tree<Timer>)
    requires Expiring(s)
  {
    Resume(if s.msg.Popped? then [s.msg.t] else [], s.heaps.Get(s.msg.k), s.msg.now)
  }

  lemma ScanRemaining(s: State)
    requires Enabled(s, Scan)
    ensures var s' := DoScan(s);
      if Expiring(s') then s'.msg.k == s.msg.k && Remaining(s') == Remaining(s)
      else Remaining(s) == ([], s'.heaps.Get(s.msg.k))
  {
    var h := s.heaps.Get(s.msg.k);
    ResumePops([], h, s.msg.now);
    if HeadDue(h, s.msg.now) {
      assert [] + [h.data] == [h.data];
    }
  }

  lemma ReadRemaining(s: State)
    requires Enabled(s, ReadClient)
    ensures var s' := DoRead(s);
      && Expiring(s') && s'.msg.k == s.msg.k
      && Remaining(s) == ([s.msg.t] + Remaining(s').0, Remaining(s').1)
  {
    var more := PopDue(s.heaps.Get(s.msg.k), s.msg.now).0;
    assert [s.msg.t] + more == [s.msg.t] + ([] + more);
  }

  /** The other steps leave the heaps, and the message thread where it is as far as this is concerned. */
  lemma OtherRemaining(s: State, a: Action)
    requires Expiring(s) && Enabled(s, a) && !a.Scan? && !a.ReadClient?
    ensures var s' := Step(s, a);
      && Expiring(s') && s'.heaps == s.heaps && s'.msg.k == s.msg.k && s'.msg.now == s.msg.now
      && (s.msg.Popped? ==> s'.msg == s.msg) && (s'.msg.Popped? ==> s.msg.Popped?)
  {
  }

  lemma StepRemaining(s: State, a: Action)
    requires Expiring(s) && Enabled(s, a)
    ensures var s' := Step(s, a);
      if Expiring(s') then
        && s'.msg.k == s.msg.k
        && Remaining(s) == ((if a.ReadClient? then [s.msg.t] else []) + Remaining(s').0, Remaining(s').1)
      else
        Remaining(s) == ([], s'.heaps.Get(s.msg.k)) && !a.ReadClient?
  {
    if a.Scan? {
      ScanRemaining(s);
    } else if a.ReadClient? {
      ReadRemaining(s);
    } else {
      OtherRemaining(s, a);
    }
    if Expiring(Step(s, a)) {
      assert [] + Remaining(Step(s, a)).0 == Remaining(Step(s, a)).0;
    }
  }

  lemma {:induction false} RunRemaining(s: State, run: seq<Action>)
    requires Expiring(s) && Within(s, run) && Exec(s, run).Some? && !Expiring(Exec(s, run).value)
    ensures (Expired(s, run), Exec(s, run).value.heaps.Get(s.msg.k)) == Remaining(s)
    decreases run
  {
    var s' := Step(s, run[0]);
    StepRemaining(s, run[0]);
    if Expiring(s') {
      RunRemaining(s', run[1..]);
    } else {
      assert Within(s', run[1..]);
    }
  }

  /**
   From the step that takes an Expire message to the step that ends its loop, whatever the other
   threads do in between, the timers expired and the heap left are those of Batch at the clock
   reading the message took.
   */
  lemma InterleavedExpireIsBatch(s: State, k: Kind, run: seq<Action>)
    requires Enabled(s, TakeMsg) && s.queue[0] == MsgExpire(k)
    requires var s' := Step(s, TakeMsg);
      Within(s', run) && Exec(s', run).Some? && !Expiring(Exec(s', run).value)
    ensures var s' := Step(s, TakeMsg);
      (Expired(s', run), Exec(s', run).value.heaps.Get(k)) == Batch(s.heaps.Get(k), s.now)
  {
    var s' := Step(s, TakeMsg);
    if Expiring(s') {
      RunRemaining(s', run);
    }
  }

  // ---------- Timers can fire early ----------

  const BOOT: Deadline := TimeSpec(1, 0)
  const LATER: Deadline := TimeSpec(2, 0)

  lemma More(run: seq<Action>, s: State, a: Action) returns (run': seq<Action>, s': State)
    requires Exec(Init(BOOT), run) == Some(s) && Enabled(s, a)
    ensures run' == run + [a] && s' == Step(s, a) && Exec(Init(BOOT), run') == Some(s')
  {
    run', s' := run + [a], Step(s, a);
    ExecOneMore(Init(BOOT), run, a);
  }

  const FIRST: Timer := Timer(0, 0, Sw, BOOT)
  const SECOND: Timer := Timer(1, 0, Sw, LATER)
  const RUNNING: Delegate := Delegate(Some(0), true, NotEnded, 0, 0, 0)
  const IDLE: Device := Device(None, false)

  /** The states of a run with one client and software timers only. */
  function At(heap: Tree<Timer>, dev: Device, queue: seq<Msg>, msg: Phase, poll: seq<PollItem>,
              current: Timer, refs: int, delegates: map<Timer, Delegate>): State {
    State(BOOT, PerKind(heap, Empty), PerKind(dev, IDLE), queue, msg, poll,
          map[0 := Client(Some(current), Live, refs, 0)], delegates)
  }

  lemma StartFirst(s: State)
    requires s.now == BOOT && s.clients == map[0 := Client(None, Live, 1, 0)] && s.delegates == map[]
    ensures Enabled(s, Start(0, 0, Sw, 0))
    ensures Step(s, Start(0, 0, Sw, 0)) == s.(clients := map[0 := Client(Some(FIRST), Live, 2, 0)],
      delegates := map[FIRST := RUNNING], queue := s.queue + [MsgPush(FIRST)])
  {
    assert FutureTime(BOOT, 0) == BOOT;
    assert s.delegates[FIRST := RUNNING] == map[FIRST := RUNNING];
  }

  lemma FirstStarted() returns (run: seq<Action>, s: State)
    ensures Exec(Init(BOOT), run) == Some(s)
    ensures s == At(Empty, IDLE, [MsgPush(FIRST)], Waiting, [], FIRST, 2, map[FIRST := RUNNING])
  {
    run, s := [], Init(BOOT);
    run, s := More(run, s, NewClient(0));
    StartFirst(s);
    run, s := More(run, s, Start(0, 0, Sw, 0));
  }

  lemma FirstWatched() returns (run: seq<Action>, s: State)
    ensures Exec(Init(BOOT), run) == Some(s)
    ensures s == At(Single(FIRST), Device(Some(BOOT), true), [], Waiting, [], FIRST, 2, map[FIRST := RUNNING])
  {
    run, s := FirstStarted();
    run, s := More(run, s, TakeMsg);
    run, s := More(run, s, Register);
    run, s := More(run, s, SetTime);
  }

  /** The first timer is due, and the poll thread is about to send the Expire. */
  lemma FirstDue() returns (run: seq<Action>, s: State)
    ensures Exec(Init(BOOT), run) == Some(s)
    ensures s == At(Single(FIRST), IDLE, [], Waiting, [PollItem(Sw, ToSend)], FIRST, 2, map[FIRST := RUNNING])
  {
    run, s := FirstWatched();
    assert [Sw][0] == Sw;
    run, s := More(run, s, EpollWait([Sw]));
    assert s.poll == [PollItem(Sw, ToDisarm)];
    run, s := More(run, s, PollStep);
    run, s := More(run, s, PollStep);
  }

  const STOPPED: Delegate := Delegate(None, false, ByClient, 1, 0, 0)

  lemma FirstStopped() returns (run: seq<Action>, s: State)
    ensures Exec(Init(BOOT), run) == Some(s)
    ensures s == State(BOOT, PerKind(Single(FIRST), Empty), PerKind(IDLE, IDLE), [MsgRemove(FIRST)], Waiting,
                       [PollItem(Sw, ToSend)], map[0 := Client(None, Live, 2, 0)], map[FIRST := STOPPED])
  {
    run, s := FirstDue();
    run, s := More(run, s, Stop(0));
  }

  lemma StartSecond(s: State)
    requires s.now == BOOT && s.clients == map[0 := Client(None, Live, 2, 0)] && s.delegates == map[FIRST := STOPPED]
    ensures Enabled(s, Start(0, 1000, Sw, 1))
    ensures Step(s, Start(0, 1000, Sw, 1)) == s.(clients := map[0 := Client(Some(SECOND), Live, 3, 0)],
      delegates := map[FIRST := STOPPED, SECOND := RUNNING], queue := s.queue + [MsgPush(SECOND)])
  {
    assert FutureTime(BOOT, 1000) == LATER;
    assert s.delegates[SECOND := RUNNING] == map[FIRST := STOPPED, SECOND := RUNNING];
  }

  /** The client stops its timer and starts another one before the Expire is sent. */
  lemma SecondStarted() returns (run: seq<Action>, s: State)
    ensures Exec(Init(BOOT), run) == Some(s)
    ensures s == At(Single(FIRST), IDLE, [MsgRemove(FIRST), MsgPush(SECOND), MsgExpire(Sw)], Waiting, [], SECOND, 3,
                    map[FIRST := STOPPED, SECOND := RUNNING])
  {
    run, s := FirstStopped();
    StartSecond(s);
    run, s := More(run, s, Start(0, 1000, Sw, 1));
    assert s.queue == [MsgRemove(FIRST), MsgPush(SECOND)];
    run, s := More(run, s, PollStep);
  }

  lemma FirstRemoved() returns (run: seq<Action>, s: State)
    ensures Exec(Init(BOOT), run) == Some(s)
    ensures s == At(Empty, IDLE, [MsgPush(SECOND), MsgExpire(Sw)], Deleting(Some(FIRST)), [], SECOND, 3,
                    map[FIRST := STOPPED, SECOND := RUNNING])
  {
    run, s := SecondStarted();
    run, s := More(run, s, TakeMsg);
    assert s.msg == Deleting(Some(FIRST)) && s.heaps.sw == Empty;
  }

  const DELETED: Delegate := Delegate(None, false, ByClient, 1, 0, 1)

  lemma FirstDeleted() returns (run: seq<Action>, s: State)
    ensures Exec(Init(BOOT), run) == Some(s)
    ensures s == At(Empty, IDLE, [MsgPush(SECOND), MsgExpire(Sw)], Waiting, [], SECOND, 2,
                    map[FIRST := DELETED, SECOND := RUNNING])
  {
    run, s := FirstRemoved();
    assert s.delegates[FIRST := DELETED] == map[FIRST := DELETED, SECOND := RUNNING];
    run, s := More(run, s, Delete);
  }

  /** The Expire that was meant for the first timer pops the second one. */
  lemma SecondPopped() returns (run: seq<Action>, s: State)
    ensures Exec(Init(BOOT), run) == Some(s)
    ensures s == At(Empty, Device(Some(LATER), true), [], Popped(Sw, BOOT, SECOND), [], SECOND, 2,
                    map[FIRST := DELETED, SECOND := RUNNING])
  {
    run, s := FirstDeleted();
    run, s := More(run, s, TakeMsg);
    assert s.heaps.sw == Single(SECOND) && s.queue == [MsgExpire(Sw)];
    run, s := More(run, s, Register);
    run, s := More(run, s, SetTime);
    run, s := More(run, s, TakeMsg);
  }

  /** "Never fires early" is false of the code: the Expire pops its first timer whether it is due or not. */
  lemma CanFireEarly() returns (run: seq<Action>, s: State, t: Timer)
    ensures Exec(Init(BOOT), run) == Some(s)
    ensures t in s.delegates && s.delegates[t].callbacks == 1 && Nanos(s.now) < Nanos(t.at)
  {
    run, s := SecondPopped();
    t := SECOND;
    run, s := More(run, s, ReadClient);
    run, s := More(run, s, StopClient);
    run, s := More(run, s, Callback);
  }

  lemma FirstBeingStopped() returns (run: seq<Action>, s: State)
    ensures Exec(Init(BOOT), run) == Some(s)
    ensures s == At(Empty, IDLE, [], Stopping(Sw, BOOT, FIRST, 0), [], FIRST, 2, map[FIRST := RUNNING])
  {
    run, s := FirstDue();
    run, s := More(run, s, PollStep);
    assert s.queue == [MsgExpire(Sw)];
    run, s := More(run, s, TakeMsg);
    run, s := More(run, s, ReadClient);
  }

  lemma RestartedWhileInUse() returns (run: seq<Action>, s: State)
    ensures Exec(Init(BOOT), run) == Some(s)
    ensures s == At(Empty, IDLE, [MsgRemove(FIRST), MsgPush(SECOND)], Stopping(Sw, BOOT, FIRST, 0), [], SECOND, 3,
                    map[FIRST := STOPPED, SECOND := RUNNING])
  {
    run, s := FirstBeingStopped();
    run, s := More(run, s, Stop(0));
    assert s.clients == map[0 := Client(None, Live, 2, 0)] && s.delegates == map[FIRST := STOPPED];
    StartSecond(s);
    run, s := More(run, s, Start(0, 1000, Sw, 1));
  }

  /**
   The second way: a due timer is popped and its client read, the client stops and starts again, and it is the new
   start that is ended and called back, while its Push is still queued.
   */
  lemma CanFireEarlyAfterRestart() returns (run: seq<Action>, s: State, t: Timer)
    ensures Exec(Init(BOOT), run) == Some(s)
    ensures t in s.delegates && s.delegates[t].callbacks == 1 && Nanos(s.now) < Nanos(t.at)
    ensures MsgPush(t) in s.queue && AllDue(Batch(Single(FIRST), BOOT).0, BOOT)
    ensures FIRST in s.delegates && s.delegates[FIRST].ended == ByClient
  {
    run, s := RestartedWhileInUse();
    t := SECOND;
    run, s := More(run, s, StopClient);
    assert s.queue[1] == MsgPush(SECOND);
    run, s := More(run, s, Callback);
  }

  // ---------- A client can go away under expire() ----------

  /** expire() has read mClient; before it calls stop(), another thread deletes the client. */
  lemma CanCallGoneClient() returns (run: seq<Action>, s: State)
    ensures Exec(Init(BOOT), run) == Some(s)
    ensures Enabled(s, StopClient) && s.msg.c in s.clients && s.clients[s.msg.c].life == Gone
  {
    run, s := FirstBeingStopped();
    run, s := More(run, s, DestroyStop(0));
    run, s := More(run, s, DestroyDrop(0));
  }

  /** stop() has returned; before the callback is made, another thread deletes the client. */
  lemma CanCallBackGoneClient() returns (run: seq<Action>, s: State)
    ensures Exec(Init(BOOT), run) == Some(s)
    ensures Enabled(s, Callback) && s.msg.c in s.clients && s.clients[s.msg.c].life == Gone
  {
    run, s := FirstBeingStopped();
    run, s := More(run, s, StopClient);
    run, s := More(run, s, DestroyStop(0));
    run, s := More(run, s, DestroyDrop(0));
  }

  // ---------- An empty heap can leave its kernel timer armed ----------

  const WATCHED: Device := Device(Some(LATER), true)

  lemma AheadStarted() returns (run: seq<Action>, s: State)
    ensures Exec(Init(BOOT), run) == Some(s)
    ensures s == At(Empty, IDLE, [MsgPush(SECOND)], Waiting, [], SECOND, 2, map[SECOND := RUNNING])
  {
    assert FutureTime(BOOT, 1000) == LATER;
    run, s := [], Init(BOOT);
    run, s := More(run, s, NewClient(0));
    run, s := More(run, s, Start(0, 1000, Sw, 1));
  }

  lemma AheadWatched() returns (run: seq<Action>, s: State)
    ensures Exec(Init(BOOT), run) == Some(s)
    ensures s == At(Single(SECOND), WATCHED, [], Waiting, [], SECOND, 2, map[SECOND := RUNNING])
  {
    run, s := AheadStarted();
    run, s := More(run, s, TakeMsg);
    run, s := More(run, s, Register);
    run, s := More(run, s, SetTime);
  }

  lemma NoneReady(s: State, ks: seq<Kind>)
    requires !Ready(s.devs.sw, s.now) && !Ready(s.devs.hw, s.now)
    ensures !Enabled(s, EpollWait(ks))
  {
    if ks != [] {
      assert !Ready(s.devs.Get(ks[0]), s.now);
    }
  }

  /** Neither the message thread nor the poll thread can take a step. */
  ghost predicate AtRest(s: State) {
    forall a :: Enabled(s, a) ==> a.Tick? || a.NewClient? || a.Start? || a.Stop? || a.DestroyStop? || a.DestroyDrop?
  }

  /** The heap is empty and nothing is left to do, but the kernel timer is set, to the future, and polled. */
  lemma CanStayArmed() returns (run: seq<Action>, s: State)
    ensures Exec(Init(BOOT), run) == Some(s)
    ensures AtRest(s) && s.heaps.sw == Empty
    ensures s.devs.sw == WATCHED && Nanos(s.now) < Nanos(LATER)
  {
    run, s := AheadWatched();
    run, s := More(run, s, Stop(0));
    assert s.queue == [MsgRemove(SECOND)];
    run, s := More(run, s, TakeMsg);
    assert s.msg == Deleting(Some(SECOND)) && s.heaps.sw == Empty;
    run, s := More(run, s, Delete);
    forall ks ensures !Enabled(s, EpollWait(ks)) {
      NoneReady(s, ks);
    }
  }
}
