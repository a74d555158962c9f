/** For which start expire() makes its callback, and exactly when that is too early. */
module TimerCallback {
  import opened Common
  import opened TimerTime
  import opened HeapTree
  import opened TimerContainer
  import opened TimerService
  import opened TimerExpire
  import L = TimerLifetime

  /** Client c has started the timer of this id since expire() last read mClient. */
  predicate StartedSinceRead(run: seq<Action>, c: nat, id: nat)
    decreases run
  {
    run != [] && !run[|run| - 1].ReadClient?
    && ((run[|run| - 1].Start? && run[|run| - 1].c == c && run[|run| - 1].id == id)
        || StartedSinceRead(run[..|run| - 1], c, id))
  }

  // ---------- Which start is ended ----------

  /** What stop() will find, or has found: the popped timer, or one started since the read. */
  predicate Target(s: State, run: seq<Action>) {
    match s.msg
    case Stopping(_, _, t, c) =>
      && t in s.delegates && !StartedSinceRead(run, c, t.id)
      && c in s.clients
      && (s.clients[c].timer.Some? ==>
           var u := s.clients[c].timer.value;
           u in s.delegates && (u == t || StartedSinceRead(run, c, u.id)))
    case Calling(_, _, t, c, u) =>
      t in s.delegates && u in s.delegates && (u == t <==> !StartedSinceRead(run, c, u.id))
    case _ => true
  }

  lemma OneMore(run: seq<Action>, a: Action, c: nat, id: nat)
    ensures StartedSinceRead(run + [a], c, id) <==>
      !a.ReadClient? && ((a.Start? && a.c == c && a.id == id) || StartedSinceRead(run, c, id))
  {
    assert (run + [a])[..|run|] == run;
  }

  lemma ReadTarget(s: State, run: seq<Action>)
    requires L.Inv(s) && Enabled(s, ReadClient)
    ensures Target(Step(s, ReadClient), run + [ReadClient])
  {
    var s', t := Step(s, ReadClient), s.msg.t;
    if s'.msg.Stopping? {
      L.ReadIsLive(s);
      OneMore(run, ReadClient, s'.msg.c, t.id);
    }
  }

  lemma StartTarget(s: State, run: seq<Action>, a: Action)
    requires L.Inv(s) && Target(s, run) && a.Start? && Enabled(s, a)
    ensures Target(Step(s, a), run + [a])
  {
    var s' := Step(s, a);
    if s.msg.Stopping? {
      OneMore(run, a, s.msg.c, s.msg.t.id);
      if s'.clients[s.msg.c].timer.Some? {
        OneMore(run, a, s.msg.c, s'.clients[s.msg.c].timer.value.id);
      }
    } else if s.msg.Calling? {
      OneMore(run, a, s.msg.c, s.msg.owed.id);
    }
  }

  lemma StopTarget(s: State, run: seq<Action>)
    requires L.Inv(s) && Target(s, run) && Enabled(s, StopClient)
    ensures Target(Step(s, StopClient), run + [StopClient])
  {
    if Running(s, s.msg.c) {
      OneMore(run, StopClient, s.msg.c, s.clients[s.msg.c].timer.value.id);
    }
  }

  /** The other steps start nothing, and at most stop, while the message thread is about to stop or call back. */
  lemma OnlyStops(s: State, a: Action)
    requires Enabled(s, a) && !a.ReadClient? && !a.Start? && !a.StopClient? && !a.Callback?
    requires s.msg.Stopping? || s.msg.Calling?
    ensures Step(s, a).msg == s.msg && Step(s, a).delegates.Keys == s.delegates.Keys
    ensures s.msg.c in s.clients ==>
      && s.msg.c in Step(s, a).clients
      && Step(s, a).clients[s.msg.c].timer in {None, s.clients[s.msg.c].timer}
  {
  }

  lemma ComesIntoUse(s: State, a: Action)
    requires Enabled(s, a) && !a.ReadClient? && !(s.msg.Stopping? || s.msg.Calling?)
    ensures !(Step(s, a).msg.Stopping? || Step(s, a).msg.Calling?)
  {
  }

  lemma OtherTarget(s: State, run: seq<Action>, a: Action)
    requires L.Inv(s) && Target(s, run) && Enabled(s, a)
    requires !a.ReadClient? && !a.Start? && !a.StopClient? && !a.Callback?
    ensures Target(Step(s, a), run + [a])
  {
    if s.msg.Stopping? {
      OnlyStops(s, a);
      OneMore(run, a, s.msg.c, s.msg.t.id);
      if s.clients[s.msg.c].timer.Some? {
        OneMore(run, a, s.msg.c, s.clients[s.msg.c].timer.value.id);
      }
    } else if s.msg.Calling? {
      OnlyStops(s, a);
      OneMore(run, a, s.msg.c, s.msg.owed.id);
    } else {
      ComesIntoUse(s, a);
    }
  }

  lemma StepTarget(s: State, run: seq<Action>, a: Action)
    requires L.Inv(s) && Target(s, run) && Enabled(s, a)
    ensures Target(Step(s, a), run + [a])
  {
    match a
    case ReadClient => ReadTarget(s, run);
    case Start(_, _, _, _) => StartTarget(s, run, a);
    case StopClient => StopTarget(s, run);
    case Callback =>
    case _ => OtherTarget(s, run, a);
  }

  lemma {:induction false} ExecTarget(now: Deadline, run: seq<Action>)
    requires Exec(Init(now), run).Some?
    ensures Target(Exec(Init(now), run).value, run)
    decreases run
  {
    if run != [] {
      var r, a := run[..|run| - 1], run[|run| - 1];
      assert run == r + [a];
      ExecLast(Init(now), run);
      L.InitOk(now);
      L.ExecKeeps(Init(now), r);
      ExecTarget(now, r);
      StepTarget(Exec(Init(now), r).value, r, a);
    }
  }

  /**
   In every run: the start that an expiry ends and calls back is that of the popped timer, unless the client stopped
   it and started this one after expire() had read mClient.
   */
  lemma CallbackTarget(now: Deadline, run: seq<Action>)
    requires Exec(Init(now), run).Some? && Exec(Init(now), run).value.msg.Calling?
    ensures var s := Exec(Init(now), run).value;
      && s.msg.owed in s.delegates && s.delegates[s.msg.owed].ended == ByExpiry && s.msg.owed.owner == s.msg.c
      && (s.msg.owed == s.msg.t <==> !StartedSinceRead(run, s.msg.c, s.msg.owed.id))
  {
    L.InitOk(now);
    L.ExecKeeps(Init(now), run);
    ExecTarget(now, run);
  }

  // ---------- Whether the popped timer was due ----------

  /** While an Expire is handled: its reading, and a popped timer that is due unless nothing was when it began. */
  ghost predicate DueAsTaken(s: State, k: Kind, now: Deadline, quiet: bool) {
    Expiring(s) ==>
      && s.msg.k == k && s.msg.now == now && Nanos(now) <= Nanos(s.now)
      && (quiet ==> NoneDue(Elems(s.heaps.Get(k)), now))
      && (!s.msg.Scanning? ==> (Due(s.msg.t, now) <==> !quiet))
  }

  /** The head is due exactly if something is, and what is left when it is popped was there before. */
  lemma PoppedFirst(h: Tree<Timer>, now: Deadline)
    requires WellFormed(h) && h.Node?
    ensures Due(h.data, now) <==> !NoneDue(Elems(h), now)
    ensures NoneDue(Elems(h), now) ==> NoneDue(Elems(Pop(h, OutRanks)), now)
  {
    HeadIsEarliest(h);
    PopTimer(h);
    assert h.data in Elems(h);
    assert forall x :: x in Elems(Pop(h, OutRanks)) ==> x in Elems(h);
  }

  lemma TakenDue(s: State, k: Kind)
    requires WellFormed(s.heaps.Get(k)) && Enabled(s, TakeMsg) && s.queue[0] == MsgExpire(k)
    ensures DueAsTaken(Step(s, TakeMsg), k, s.now, NoneDue(Elems(s.heaps.Get(k)), s.now))
  {
    var h := s.heaps.Get(k);
    if h.Node? {
      PoppedFirst(h, s.now);
      assert Step(s, TakeMsg).msg == Popped(k, s.now, h.data);
      assert Step(s, TakeMsg).heaps.Get(k) == Pop(h, OutRanks);
    }
  }

  lemma ScanDue(s: State, k: Kind, now: Deadline, quiet: bool)
    requires WellFormed(s.heaps.Get(k)) && Enabled(s, Scan) && DueAsTaken(s, k, now, quiet)
    ensures DueAsTaken(Step(s, Scan), k, now, quiet)
  {
    var h := s.heaps.Get(k);
    if HeadDue(h, now) {
      RanksIsEarlier(now, h.data.at);
      PoppedFirst(h, now);
      assert Step(s, Scan).msg == Popped(k, now, h.data);
    }
  }

  /** The other steps of an Expire leave the heap, the popped timer and the reading of the clock. */
  lemma OtherDue(s: State, a: Action)
    requires Expiring(s) && Enabled(s, a) && !a.Scan?
    ensures var s' := Step(s, a);
      && Expiring(s') && s'.heaps == s.heaps && s'.msg.k == s.msg.k && s'.msg.now == s.msg.now
      && Nanos(s.now) <= Nanos(s'.now) && (!s'.msg.Scanning? ==> !s.msg.Scanning? && s'.msg.t == s.msg.t)
  {
  }

  lemma StepDue(s: State, a: Action, k: Kind, now: Deadline, quiet: bool)
    requires WellFormed(s.heaps.Get(k)) && Expiring(s) && Enabled(s, a) && DueAsTaken(s, k, now, quiet)
    ensures DueAsTaken(Step(s, a), k, now, quiet)
  {
    if a.Scan? {
      ScanDue(s, k, now, quiet);
    } else {
      OtherDue(s, a);
    }
  }

  lemma {:induction false} WithinDue(s: State, run: seq<Action>, k: Kind, now: Deadline, quiet: bool)
    requires L.Inv(s) && DueAsTaken(s, k, now, quiet) && Within(s, run) && Exec(s, run).Some?
    ensures DueAsTaken(Exec(s, run).value, k, now, quiet)
    decreases run
  {
    if run != [] {
      StepDue(s, run[0], k, now, quiet);
      L.StepKeeps(s, run[0]);
      WithinDue(Step(s, run[0]), run[1..], k, now, quiet);
    }
  }

  lemma {:induction false} ExecJoin(s: State, a: seq<Action>, b: seq<Action>)
    requires Exec(s, a).Some?
    ensures Exec(s, a + b) == Exec(Exec(s, a).value, b)
    decreases a
  {
    if a == [] {
      assert a + b == b;
    } else {
      assert (a + b)[0] == a[0] && (a + b)[1..] == a[1..] + b;
      ExecJoin(Step(s, a[0]), a[1..], b);
    }
  }

  // ---------- Whether a restarted timer was ---------

  /** A start with no delay at all made the timer of this id, while the clock had not moved past now. */
  predicate StartedAtOnce(s: State, run: seq<Action>, now: Deadline, id: nat)
    decreases run
  {
    && run != [] && Enabled(s, run[0])
    && ((run[0].Start? && run[0].id == id && run[0].timeOutInMs == 0 && s.clients[run[0].c].timer.None?
         && Nanos(s.now) <= Nanos(now))
        || StartedAtOnce(Step(s, run[0]), run[1..], now, id))
  }

  lemma StepCreates(s: State, a: Action)
    requires Enabled(s, a)
    ensures s.delegates.Keys <= Step(s, a).delegates.Keys && Nanos(s.now) <= Nanos(Step(s, a).now)
    ensures forall u :: u in Step(s, a).delegates && u !in s.delegates ==>
      a.Start? && s.clients[a.c].timer.None? && u.id == a.id && u.at == FutureTime(s.now, a.timeOutInMs)
    ensures a.Start? && s.clients[a.c].timer.None? ==>
      exists u :: u in Step(s, a).delegates && u.id == a.id
  {
    if a.Start? && s.clients[a.c].timer.None? {
      FutureTimeExact(s.now, a.timeOutInMs);
      assert Timer(a.id, a.c, a.kind, FutureTime(s.now, a.timeOutInMs)) in Step(s, a).delegates;
    }
  }

  /** An id that is taken is not given to another timer. */
  lemma {:induction false} NotAgain(s: State, run: seq<Action>, now: Deadline, t: Timer, u: Timer)
    requires t in s.delegates && t.id == u.id && Exec(s, run).Some?
    ensures !StartedAtOnce(s, run, now, u.id)
    ensures u in Exec(s, run).value.delegates ==> u in s.delegates
    decreases run
  {
    if run != [] {
      StepCreates(s, run[0]);
      NotAgain(Step(s, run[0]), run[1..], now, t, u);
    }
  }

  /** A timer made during the run is due at an earlier reading of the clock only if it was started at once. */
  lemma {:induction false} NewIsDueExactly(s: State, run: seq<Action>, now: Deadline, u: Timer)
    requires Exec(s, run).Some? && Nanos(now) <= Nanos(s.now)
    requires u !in s.delegates && u in Exec(s, run).value.delegates
    ensures Due(u, now) <==> StartedAtOnce(s, run, now, u.id)
    decreases run
  {
    var s', a := Step(s, run[0]), run[0];
    StepCreates(s, a);
    if a.Start? && a.id == u.id && s.clients[a.c].timer.None? {
      var t :| t in s'.delegates && t.id == u.id;
      NotAgain(s', run[1..], now, t, u);
      FutureTimeExact(s.now, a.timeOutInMs);
    } else {
      NewIsDueExactly(s', run[1..], now, u);
    }
  }

  lemma {:induction false} FreshBefore(s: State, run: seq<Action>, i: nat)
    requires Exec(s, run).Some? && i < |run| && run[i].Start?
    ensures FreshId(s, run[i].id)
    decreases run
  {
    if i > 0 {
      StepCreates(s, run[0]);
      FreshBefore(Step(s, run[0]), run[1..], i - 1);
    }
  }

  /** expire() has to read mClient before it has a client to call. */
  lemma {:induction false} MustRead(s: State, run: seq<Action>)
    requires Exec(s, run).Some? && Exec(s, run).value.msg.Calling? && !s.msg.Calling? && !s.msg.Stopping?
    ensures ReadClient in run
    decreases run
  {
    if run[0] != ReadClient {
      ComesIntoUse(s, run[0]);
      MustRead(Step(s, run[0]), run[1..]);
    }
  }

  lemma {:induction false} SinceReadIn(before: seq<Action>, run: seq<Action>, c: nat, id: nat) returns (i: nat)
    requires ReadClient in run && StartedSinceRead(before + run, c, id)
    ensures i < |run| && run[i].Start? && run[i].id == id
    decreases run
  {
    var n := |run| - 1;
    assert (before + run)[..|before + run| - 1] == before + run[..n];
    if run[n].Start? && run[n].id == id {
      i := n;
    } else {
      i := SinceReadIn(before, run[..n], c, id);
    }
  }

  /** A timer that the client started after the read did not exist when the Expire was taken. */
  lemma RestartedIsNew(before: seq<Action>, s: State, run: seq<Action>, c: nat, u: Timer)
    requires Exec(s, run).Some? && Exec(s, run).value.msg.Calling? && !s.msg.Calling? && !s.msg.Stopping?
    requires StartedSinceRead(before + run, c, u.id)
    ensures u !in s.delegates
  {
    MustRead(s, run);
    var i := SinceReadIn(before, run, c, u.id);
    FreshBefore(s, run, i);
  }

  // ---------- Exactly when a callback is early ----------

  /** An Expire of container k, taken after the run before and handled, in run, up to a callback. */
  predicate CallsBack(start: Deadline, before: seq<Action>, k: Kind, run: seq<Action>) {
    && Exec(Init(start), before).Some?
    && var s0 := Exec(Init(start), before).value;
       && Enabled(s0, TakeMsg) && s0.queue[0] == MsgExpire(k)
       && Within(Step(s0, TakeMsg), run) && Exec(Step(s0, TakeMsg), run).Some?
       && Exec(Step(s0, TakeMsg), run).value.msg.Calling?
  }

  lemma PoppedWasDue(start: Deadline, before: seq<Action>, k: Kind, run: seq<Action>)
    requires CallsBack(start, before, k, run)
    ensures var s0 := Exec(Init(start), before).value; var s := Exec(Step(s0, TakeMsg), run).value;
      && Nanos(s0.now) <= Nanos(s.now)
      && (Due(s.msg.t, s0.now) <==> !NoneDue(Elems(s0.heaps.Get(k)), s0.now))
  {
    var s0 := Exec(Init(start), before).value;
    L.InitOk(start);
    L.ExecKeeps(Init(start), before);
    L.StepKeeps(s0, TakeMsg);
    TakenDue(s0, k);
    WithinDue(Step(s0, TakeMsg), run, k, s0.now, NoneDue(Elems(s0.heaps.Get(k)), s0.now));
  }

  lemma OwedIsTarget(start: Deadline, before: seq<Action>, k: Kind, run: seq<Action>)
    requires CallsBack(start, before, k, run)
    ensures var s := Exec(Step(Exec(Init(start), before).value, TakeMsg), run).value;
      && s.msg.owed in s.delegates
      && (s.msg.owed == s.msg.t <==> !StartedSinceRead(before + [TakeMsg] + run, s.msg.c, s.msg.owed.id))
  {
    ExecOneMore(Init(start), before, TakeMsg);
    ExecJoin(Init(start), before + [TakeMsg], run);
    CallbackTarget(start, before + [TakeMsg] + run);
  }

  /**
   After any run, an Expire of container k is taken and handled up to a callback, whatever the other threads do in
   between. The start that is called back has a deadline after the clock reading the Expire took, if and only if
   nothing at all was due in the heap then or, when the client restarted since expire() read mClient, unless that
   start had no delay and the clock had not moved. What is still early when it is called back is one of these.
   */
  lemma EarlyCallbackExactly(start: Deadline, before: seq<Action>, k: Kind, run: seq<Action>)
    requires CallsBack(start, before, k, run)
    ensures var s0 := Exec(Init(start), before).value; var s1 := Step(s0, TakeMsg);
      var s := Exec(s1, run).value; var Calling(_, _, t, c, u) := s.msg;
      var restarted := StartedSinceRead(before + [TakeMsg] + run, c, u.id);
      var quiet := NoneDue(Elems(s0.heaps.Get(k)), s0.now);
      && (restarted <==> u != t) && (quiet <==> !Due(t, s0.now))
      && (!Due(u, s0.now) <==> if restarted then !StartedAtOnce(s1, run, s0.now, u.id) else quiet)
      && (!Due(u, s.now) ==> restarted || quiet)
  {
    var s0 := Exec(Init(start), before).value;
    var s1 := Step(s0, TakeMsg);
    var s := Exec(s1, run).value;
    PoppedWasDue(start, before, k, run);
    OwedIsTarget(start, before, k, run);
    if s.msg.owed != s.msg.t {
      RestartedIsNew(before + [TakeMsg], s1, run, s.msg.c, s.msg.owed);
      NewIsDueExactly(s1, run, s0.now, s.msg.owed);
    }
  }

  lemma {:induction false} DelaysAreLater(s: State, run: seq<Action>, now: Deadline, id: nat)
    requires forall i :: 0 <= i < |run| && run[i].Start? ==> run[i].timeOutInMs > 0
    ensures !StartedAtOnce(s, run, now, id)
    decreases run
  {
    if run != [] && Enabled(s, run[0]) {
      DelaysAreLater(Step(s, run[0]), run[1..], now, id);
    }
  }

  /** If every start asks for a delay: early exactly after a restart, or when nothing was due. */
  lemma EarlyWithDelays(start: Deadline, before: seq<Action>, k: Kind, run: seq<Action>)
    requires CallsBack(start, before, k, run)
    requires forall i :: 0 <= i < |run| && run[i].Start? ==> run[i].timeOutInMs > 0
    ensures var s0 := Exec(Init(start), before).value; var s := Exec(Step(s0, TakeMsg), run).value;
      !Due(s.msg.owed, s0.now) <==>
        || StartedSinceRead(before + [TakeMsg] + run, s.msg.c, s.msg.owed.id)
        || NoneDue(Elems(s0.heaps.Get(k)), s0.now)
  {
    var s0 := Exec(Init(start), before).value;
    var s := Exec(Step(s0, TakeMsg), run).value;
    EarlyCallbackExactly(start, before, k, run);
    DelaysAreLater(Step(s0, TakeMsg), run, s0.now, s.msg.owed.id);
  }
}
