/** The poll thread: what it expires when it wakes, and what it listens to. */
module TimerPoll {
  import opened Common
  import opened TimerTime
  import opened TimerContainer
  import opened TimerService
  import W = TimerWakeup

  // ---------- What a wake-up expires ----------

  /** How many wake-ups of the poll thread returned the event of container k. */
  function Woken(run: seq<Action>, k: Kind): nat
    decreases run
  {
    if run == [] then 0 else (if run[0].EpollWait? && k in run[0].ks then 1 else 0) + Woken(run[1..], k)
  }

  /** How many Expire messages of container k the message thread takes. */
  function ExpiresTaken(s: State, run: seq<Action>, k: Kind): nat
    decreases run
  {
    if run == [] || !Enabled(s, run[0]) then 0
    else
      var taken := if run[0].TakeMsg? && s.queue[0] == MsgExpire(k) then 1 else 0;
      taken + ExpiresTaken(Step(s, run[0]), run[1..], k)
  }

  /** How many containers of kind k the poll thread has yet to send an Expire for. */
  function Polling(poll: seq<PollItem>, k: Kind): nat
    decreases poll
  {
    if poll == [] then 0 else (if poll[0].k == k then 1 else 0) + Polling(poll[1..], k)
  }

  function Underway(s: State, k: Kind): nat {
    Polling(s.poll, k) + multiset(s.queue)[MsgExpire(k)]
  }

  lemma SendsNoExpire(q: seq<Msg>, m: Msg)
    ensures forall k ::
      multiset(q + [m])[MsgExpire(k)] == multiset(q)[MsgExpire(k)] + if m == MsgExpire(k) then 1 else 0
  {
  }

  lemma TakesFirst(q: seq<Msg>, k: Kind)
    requires q != []
    ensures multiset(q)[MsgExpire(k)] == multiset(q[1..])[MsgExpire(k)] + if q[0] == MsgExpire(k) then 1 else 0
  {
    assert q == [q[0]] + q[1..];
  }

  lemma PollingFirst(item: PollItem, rest: seq<PollItem>, k: Kind)
    ensures Polling([item] + rest, k) == (if item.k == k then 1 else 0) + Polling(rest, k)
  {
    assert ([item] + rest)[1..] == rest;
  }

  lemma PollUnderway(s: State, k: Kind)
    requires Enabled(s, PollStep)
    ensures Underway(DoPoll(s), k) == Underway(s, k)
  {
    var first, rest := s.poll[0], s.poll[1..];
    SendsNoExpire(s.queue, MsgExpire(first.k));
    if first.stage != ToSend {
      var next := PollItem(first.k, if first.stage == ToDisarm then ToUnpoll else ToSend);
      PollingFirst(next, rest, k);
      assert DoPoll(s).poll == [next] + rest;
    }
  }

  lemma WakeUnderway(s: State, ks: seq<Kind>, k: Kind)
    requires Enabled(s, EpollWait(ks))
    ensures Underway(Step(s, EpollWait(ks)), k) == Underway(s, k) + if k in ks then 1 else 0
  {
    var poll := Step(s, EpollWait(ks)).poll;
    PollingFirst(PollItem(ks[0], ToDisarm), poll[1..], k);
    assert poll == [PollItem(ks[0], ToDisarm)] + poll[1..];
    if |ks| == 2 {
      PollingFirst(PollItem(ks[1], ToDisarm), [], k);
      assert poll[1..] == [PollItem(ks[1], ToDisarm)] + [];
      assert k in ks <==> k == ks[0] || k == ks[1];
    }
  }

  lemma TakeUnderway(s: State, k: Kind)
    requires Enabled(s, TakeMsg)
    ensures Underway(DoTake(s), k) + (if s.queue[0] == MsgExpire(k) then 1 else 0) == Underway(s, k)
  {
    TakesFirst(s.queue, k);
  }

  lemma OthersUnderway(s: State, a: Action, k: Kind)
    requires Enabled(s, a) && !a.TakeMsg? && !a.EpollWait? && !a.PollStep?
    ensures Underway(Step(s, a), k) == Underway(s, k)
  {
  }

  lemma StepUnderway(s: State, a: Action, k: Kind)
    requires Enabled(s, a)
    ensures Underway(Step(s, a), k) + (if a.TakeMsg? && s.queue[0] == MsgExpire(k) then 1 else 0)
         == Underway(s, k) + if a.EpollWait? && k in a.ks then 1 else 0
  {
    if a.TakeMsg? {
      TakeUnderway(s, k);
    } else if a.EpollWait? {
      WakeUnderway(s, a.ks, k);
    } else if a.PollStep? {
      PollUnderway(s, k);
    } else {
      OthersUnderway(s, a, k);
    }
  }

  lemma {:induction false} RunUnderway(s: State, run: seq<Action>, k: Kind)
    requires Exec(s, run).Some?
    ensures Underway(Exec(s, run).value, k) + ExpiresTaken(s, run, k) == Underway(s, k) + Woken(run, k)
    decreases run
  {
    if run != [] {
      StepUnderway(s, run[0], k);
      RunUnderway(Step(s, run[0]), run[1..], k);
    }
  }

  /**
   In every run, each container that a wake-up of the poll thread returned is expired once, and no other one: its
   Expire has been taken, or is queued, or the poll thread is at it.
   */
  lemma EveryWakeExpires(now: Deadline, run: seq<Action>, k: Kind)
    requires Exec(Init(now), run).Some?
    ensures var s := Exec(Init(now), run).value;
      Polling(s.poll, k) + multiset(s.queue)[MsgExpire(k)] + ExpiresTaken(Init(now), run, k) == Woken(run, k)
  {
    RunUnderway(Init(now), run, k);
  }

  // ---------- What the poll thread listens to ----------

  lemma StepPolls(s: State, a: Action, k: Kind)
    requires W.TellsHead(s) && Enabled(s, a)
    ensures Step(s, a).devs.Get(k).polled <==>
      || (a.Register? && s.msg.k == k)
      || (s.devs.Get(k).polled && !(a.PollStep? && s.poll[0] == PollItem(k, ToUnpoll)))
  {
    if !a.Register? && !a.PollStep? {
      assert Step(s, a).devs.Get(k).polled == s.devs.Get(k).polled;
    }
  }

  /** In this run, container k has been registered with epoll after it was last taken out. */
  predicate RegisteredSinceUnpoll(now: Deadline, run: seq<Action>, k: Kind)
    requires Exec(Init(now), run).Some?
    decreases run
  {
    run != []
    && (ExecLast(Init(now), run);
        var before, a := run[..|run| - 1], run[|run| - 1];
        var s := Exec(Init(now), before).value;
        || (a.Register? && s.msg.k == k)
        || (RegisteredSinceUnpoll(now, before, k) && !(a.PollStep? && s.poll[0] == PollItem(k, ToUnpoll))))
  }

  /** In every run: a kernel timer is polled if and only if it was registered after it was last taken out. */
  lemma {:induction false} PolledExactly(now: Deadline, run: seq<Action>, k: Kind)
    requires Exec(Init(now), run).Some?
    ensures Exec(Init(now), run).value.devs.Get(k).polled <==> RegisteredSinceUnpoll(now, run, k)
    decreases run
  {
    if run != [] {
      ExecLast(Init(now), run);
      var before := run[..|run| - 1];
      PolledExactly(now, before, k);
      W.ExecKeeps(Init(now), before);
      StepPolls(Exec(Init(now), before).value, run[|run| - 1], k);
    }
  }
}
