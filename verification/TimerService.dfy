/**
 The timer service of LocTimer.cpp as a machine of interleaved steps: any number of client
 threads, the message thread that owns the heaps, and the poll thread. A critical section under
 a client's lock is one step; so is one system call. Everything the message thread does between
 two of its system calls or lock operations is one step.
 */
module TimerService {
  import opened Common
  import opened TimerTime
  import opened HeapTree
  import opened TimerContainer

  datatype PerKind<T> = PerKind(sw: T, hw: T) {
    function Get(k: Kind): T {
      match k case Sw => sw case Hw => hw
    }

    function Set(k: Kind, x: T): PerKind<T> {
      match k case Sw => PerKind(x, hw) case Hw => PerKind(sw, x)
    }
  }

  datatype Msg = MsgPush(t: Timer) | MsgRemove(t: Timer) | MsgExpire(k: Kind)

  /** Closing: the destructor has called stop() and has yet to drop the lock. */
  datatype Life = Live | Closing | Gone

  /** A LocTimer and the LocSharedLock it made: mTimer, mRef, and how often the lock was freed. */
  datatype Client = Client(timer: Option<Timer>, life: Life, refs: int, frees: nat)

  datatype Ended = NotEnded | ByClient | ByExpiry

  /**
   A LocTimerDelegate: mClient, whether mContainer is set, and a history of its start: what ended
   it, successful stops, callbacks made for it, and deletes.
   */
  datatype Delegate = Delegate(client: Option<nat>, linked: bool,
                               ended: Ended, stops: nat, callbacks: nat, deletes: nat)

  /** Where the message thread is. */
  datatype Phase =
    | Waiting
    | Popped(k: Kind, now: Deadline, t: Timer)              // expire() is about to read mClient
    | Stopping(k: Kind, now: Deadline, t: Timer, c: nat)    // expire() is about to call stop() on c
    // about to call back c, which is owed it for the start that stop() has just ended
    | Calling(k: Kind, now: Deadline, t: Timer, c: nat, owed: Timer)
    | Scanning(k: Kind, now: Deadline)                      // about to call popIfOutRanks
    | Registering(k: Kind, u: Update, doomed: Option<Timer>)  // about to call epoll_ctl
    | Setting(k: Kind, u: Update, doomed: Option<Timer>)      // about to call timerfd_settime
    | Deleting(doomed: Option<Timer>)                         // about to delete the delegate

  /** The steps of LocTimerContainer::expire on the poll thread. */
  datatype Stage = ToDisarm | ToUnpoll | ToSend

  datatype PollItem = PollItem(k: Kind, stage: Stage)

  datatype State = State(
    now: Deadline,
    heaps: PerKind<Tree<Timer>>,
    devs: PerKind<Device>,
    queue: seq<Msg>,
    msg: Phase,
    poll: seq<PollItem>,
    clients: map<nat, Client>,
    delegates: map<Timer, Delegate>)

  datatype Action =
    | Tick(now: Deadline)
    | NewClient(c: nat)
    | Start(c: nat, timeOutInMs: nat, kind: Kind, id: nat)
    | Stop(c: nat)
    | DestroyStop(c: nat)
    | DestroyDrop(c: nat)
    | TakeMsg
    | ReadClient
    | StopClient
    | Callback
    | Scan
    | Register
    | SetTime
    | Delete
    | EpollWait(ks: seq<Kind>)
    | PollStep

  function Init(now: Deadline): State {
    State(now, PerKind(Empty, Empty), PerKind(Device(None, false), Device(None, false)),
          [], Waiting, [], map[], map[])
  }

  // ---------- When a step can be taken ----------

  predicate Ready(dev: Device, now: Deadline) {
    dev.polled && dev.armed.Some? && Nanos(dev.armed.value) <= Nanos(now)
  }

  predicate IsLive(s: State, c: nat) {
    c in s.clients && s.clients[c].life == Live
  }

  predicate FreshId(s: State, id: nat) {
    forall t :: t in s.delegates ==> t.id != id
  }

  predicate Enabled(s: State, a: Action) {
    match a
    case Tick(now) => Nanos(s.now) <= Nanos(now)
    case NewClient(c) => c !in s.clients
    case Start(c, ms, k, id) =>
      IsLive(s, c) && FutureTime(s.now, ms).sec < INT32_LIMIT && FreshId(s, id)
    case Stop(c) => IsLive(s, c)
    case DestroyStop(c) => IsLive(s, c)
    case DestroyDrop(c) => c in s.clients && s.clients[c].life == Closing
    case TakeMsg => s.msg == Waiting && s.queue != []
    case ReadClient => s.msg.Popped?
    case StopClient => s.msg.Stopping?
    case Callback => s.msg.Calling?
    case Scan => s.msg.Scanning?
    case Register => s.msg.Registering?
    case SetTime => s.msg.Setting?
    case Delete => s.msg.Deleting?
    case EpollWait(ks) =>
      && s.poll == [] && 1 <= |ks| <= 2 && (|ks| == 2 ==> ks[0] != ks[1])
      && forall i :: 0 <= i < |ks| ==> Ready(s.devs.Get(ks[i]), s.now)
    case PollStep => s.poll != []
  }

  // ---------- What a step does ----------

  /** A client whose start() made t, and the new delegate. */
  function Begun(cl: Client, t: Timer): Client {
    cl.(timer := Some(t), refs := cl.refs + 1)
  }

  function NewDelegate(c: nat): Delegate {
    Delegate(Some(c), true, NotEnded, 0, 0, 0)
  }

  /** LocTimerDelegate::destroyLocked */
  function Destroyed(d: Delegate, how: Ended): Delegate {
    d.(client := None, linked := false, ended := how, stops := d.stops + 1)
  }

  /** A client with one user of its lock less. */
  function Dropped(cl: Client): Client {
    cl.(refs := cl.refs - 1, frees := cl.frees + if cl.refs == 1 then 1 else 0)
  }

  /** LocTimer::start, inside the lock. */
  function DoStart(s: State, c: nat, timeOutInMs: nat, k: Kind, id: nat): State
    requires IsLive(s, c) && FutureTime(s.now, timeOutInMs).sec < INT32_LIMIT
  {
    var cl := s.clients[c];
    if cl.timer.Some? then s
    else
      FutureTimeExact(s.now, timeOutInMs);
      var t := Timer(id, c, k, FutureTime(s.now, timeOutInMs));
      s.(clients := s.clients[c := Begun(cl, t)], delegates := s.delegates[t := NewDelegate(c)],
         queue := s.queue + [MsgPush(t)])
  }

  /** Whether stop() finds a running timer. */
  predicate Running(s: State, c: nat) {
    c in s.clients && s.clients[c].timer.Some? && s.clients[c].timer.value in s.delegates
  }

  /** LocTimer::stop, inside the lock, with LocTimerDelegate::destroyLocked. */
  function DoStop(s: State, c: nat, how: Ended): State {
    if !Running(s, c) then s
    else
      var t := s.clients[c].timer.value;
      var d := s.delegates[t];
      s.(clients := s.clients[c := s.clients[c].(timer := None)], delegates := s.delegates[t := Destroyed(d, how)],
         queue := if d.linked then s.queue + [MsgRemove(t)] else s.queue)
  }

  /** LocSharedLock::drop by one of those who share the lock of c. */
  function DoDrop(s: State, c: nat): State {
    if c !in s.clients then s
    else s.(clients := s.clients[c := Dropped(s.clients[c])])
  }

  /** delete of a LocTimerDelegate, whose destructor drops the lock. */
  function DoDelete(s: State, t: Timer): State {
    if t !in s.delegates then s
    else
      var d := s.delegates[t];
      DoDrop(s.(delegates := s.delegates[t := d.(deletes := d.deletes + 1)]), t.owner)
  }

  /** The rest of updateSoonestTime, and of the message it is part of, once it has decided. */
  function Follow(k: Kind, u: Update, doomed: Option<Timer>): Phase {
    if u != Keep then Registering(k, u, doomed) else if doomed.Some? then Deleting(doomed) else Waiting
  }

  /** The head of the heap is popped and its expire() is next. */
  function PopNext(s: State, k: Kind, now: Deadline): State
    requires s.heaps.Get(k).Node?
  {
    var h := s.heaps.Get(k);
    s.(heaps := s.heaps.Set(k, Pop(h, OutRanks)), msg := Popped(k, now, h.data))
  }

  function DoTake(s: State): State
    requires s.queue != []
  {
    var rest := s.(queue := s.queue[1..]);
    match s.queue[0]
    case MsgPush(t) =>
      var h := s.heaps.Get(t.kind);
      var h' := Push(h, t, OutRanks);
      rest.(heaps := s.heaps.Set(t.kind, h'), msg := Follow(t.kind, Decide(Top(h'), Top(h)), None))
    case MsgRemove(t) =>
      var h := s.heaps.Get(t.kind);
      var (h', removed) := Apply(h, DoRemove(t), OutRanks);
      var u := if Top(h) == removed then Decide(Top(h'), None) else Keep;
      rest.(heaps := s.heaps.Set(t.kind, h'), msg := Follow(t.kind, u, Some(t)))
    case MsgExpire(k) =>
      if s.heaps.Get(k).Empty? then rest.(msg := Follow(k, Decide(None, None), None))
      else PopNext(rest, k, s.now)
  }

  function DoRead(s: State): State
    requires s.msg.Popped?
  {
    var Popped(k, now, t) := s.msg;
    if t in s.delegates && s.delegates[t].client.Some?
    then s.(msg := Stopping(k, now, t, s.delegates[t].client.value))
    else s.(msg := Scanning(k, now))
  }

  /** The stop() of expire(); its result decides about the callback. */
  function DoStopClient(s: State): State
    requires s.msg.Stopping?
  {
    var Stopping(k, now, t, c) := s.msg;
    DoStop(s, c, ByExpiry).(msg := if Running(s, c) then Calling(k, now, t, c, s.clients[c].timer.value)
                                   else Scanning(k, now))
  }

  /** timeOutCallback(), outside the lock; it is booked for the start that stop() ended. */
  function DoCallback(s: State): State
    requires s.msg.Calling?
  {
    var Calling(k, now, _, _, u) := s.msg;
    var s' := s.(msg := Scanning(k, now));
    if u !in s.delegates then s'
    else s'.(delegates := s.delegates[u := s.delegates[u].(callbacks := s.delegates[u].callbacks + 1)])
  }

  function DoScan(s: State): State
    requires s.msg.Scanning?
  {
    var Scanning(k, now) := s.msg;
    var h := s.heaps.Get(k);
    if HeadDue(h, now) then PopNext(s, k, now)
    else s.(msg := Follow(k, Decide(Top(h), None), None))
  }

  function DoRegister(s: State): State
    requires s.msg.Registering?
  {
    var Registering(k, u, doomed) := s.msg;
    s.(devs := s.devs.Set(k, s.devs.Get(k).(polled := u.Arm?)), msg := Setting(k, u, doomed))
  }

  function DoSetTime(s: State): State
    requires s.msg.Setting?
  {
    var Setting(k, u, doomed) := s.msg;
    s.(devs := s.devs.Set(k, s.devs.Get(k).(armed := if u.Arm? then Some(u.at) else None)),
       msg := Follow(k, Keep, doomed))
  }

  /** One step of LocTimerContainer::expire for the first container epoll_wait returned. */
  function DoPoll(s: State): State
    requires s.poll != []
  {
    var PollItem(k, stage) := s.poll[0];
    match stage
    case ToDisarm =>
      s.(devs := s.devs.Set(k, s.devs.Get(k).(armed := None)), poll := s.poll[0 := PollItem(k, ToUnpoll)])
    case ToUnpoll =>
      s.(devs := s.devs.Set(k, s.devs.Get(k).(polled := false)), poll := s.poll[0 := PollItem(k, ToSend)])
    case ToSend =>
      s.(queue := s.queue + [MsgExpire(k)], poll := s.poll[1..])
  }

  function Step(s: State, a: Action): State
    requires Enabled(s, a)
  {
    match a
    case Tick(now) => s.(now := now)
    case NewClient(c) => s.(clients := s.clients[c := Client(None, Live, 1, 0)])
    case Start(c, ms, k, id) => DoStart(s, c, ms, k, id)
    case Stop(c) => DoStop(s, c, ByClient)
    case DestroyStop(c) =>
      var s' := DoStop(s, c, ByClient);
      s'.(clients := s'.clients[c := s'.clients[c].(life := Closing)])
    case DestroyDrop(c) => DoDrop(s.(clients := s.clients[c := s.clients[c].(life := Gone)]), c)
    case TakeMsg => DoTake(s)
    case ReadClient => DoRead(s)
    case StopClient => DoStopClient(s)
    case Callback => DoCallback(s)
    case Scan => DoScan(s)
    case Register => DoRegister(s)
    case SetTime => DoSetTime(s)
    case Delete => (if s.msg.doomed.Some? then DoDelete(s, s.msg.doomed.value) else s).(msg := Waiting)
    case EpollWait(ks) => s.(poll := seq(|ks|, i requires 0 <= i < |ks| => PollItem(ks[i], ToDisarm)))
    case PollStep => DoPoll(s)
  }

  /** The state after a run, or None when one of its steps could not be taken. */
  function Exec(s: State, run: seq<Action>): Option<State>
    decreases run
  {
    if run == [] then Some(s)
    else if !Enabled(s, run[0]) then None
    else Exec(Step(s, run[0]), run[1..])
  }

  /** expire() has read mClient and has yet to call stop() or timeOutCallback() on it. */
  predicate InUse(s: State, c: nat) {
    (s.msg.Stopping? || s.msg.Calling?) && s.msg.c == c
  }

  /** expire() uses mClient outside the lock. A run is polite when no client is destroyed while it is in use. */
  predicate Polite(s: State, run: seq<Action>)
    decreases run
  {
    run != [] && Enabled(s, run[0]) ==>
      && !(run[0].DestroyStop? && InUse(s, run[0].c))
      && Polite(Step(s, run[0]), run[1..])
  }

  /** A run can be built one step at a time. */
  lemma {:induction false} ExecOneMore(s: State, run: seq<Action>, a: Action)
    requires Exec(s, run).Some? && Enabled(Exec(s, run).value, a)
    ensures Exec(s, run + [a]) == Some(Step(Exec(s, run).value, a))
    decreases run
  {
    if run == [] {
      assert [a][1..] == [];
    } else {
      assert (run + [a])[1..] == run[1..] + [a];
      ExecOneMore(Step(s, run[0]), run[1..], a);
    }
  }

  /** A run can be taken apart at its last step. */
  lemma {:induction false} ExecLast(s: State, run: seq<Action>)
    requires run != [] && Exec(s, run).Some?
    ensures var r, a := run[..|run| - 1], run[|run| - 1];
      Exec(s, r).Some? && Enabled(Exec(s, r).value, a) && Exec(s, run) == Some(Step(Exec(s, r).value, a))
    decreases run
  {
    var n := |run| - 1;
    if n == 0 {
      assert run[..0] == [] && Exec(Step(s, run[0]), run[1..]) == Some(Step(s, run[0]));
    } else {
      ExecLast(Step(s, run[0]), run[1..]);
      assert run[1..][..n - 1] == run[..n][1..] && run[..n][0] == run[0];
    }
  }
}
