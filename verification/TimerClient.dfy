/**
 The objects of LocTimer.cpp and LocSharedLock.h that clients and the message thread share. Each method, undisturbed,
 takes the objects through the step that TimerService takes for it.
 */
module TimerClient {
  import opened Common
  import opened TimerTime
  import opened TimerContainer
  import S = TimerService

  class SharedLock {
    var mRef: int
    // history
    ghost var frees: nat

    constructor ()
      ensures mRef == 1 && frees == 0
    {
      mRef, frees := 1, 0;
    }

    /** It is freed by the drop that takes the count to 0. */
    ghost predicate Valid()
      reads this
    {
      0 <= mRef && frees == if mRef == 0 then 1 else 0
    }

    method Share()
      requires Valid() && mRef > 0
      modifies this
      ensures Valid() && mRef == old(mRef) + 1 && frees == old(frees)
    {
      mRef := mRef + 1;
    }

    /** What the machine does to the lock of a client when one of its users drops it. */
    method Drop()
      requires Valid() && mRef > 0
      modifies this
      ensures Valid() && mRef == old(mRef) - 1 && (frees == old(frees) + 1 <==> old(mRef) == 1)
      ensures S.Dropped(S.Client(None, S.Live, old(mRef), old(frees))) == S.Client(None, S.Live, mRef, frees)
    {
      mRef := mRef - 1;
      if mRef + 1 == 1 {
        frees := frees + 1;
      }
    }
  }

  datatype Message = Push(timer: TimerDelegate) | Remove(timer: TimerDelegate) | Expire(kind: Kind)

  function MsgOf(m: Message): S.Msg {
    match m
    case Push(t) => S.MsgPush(t.timer)
    case Remove(t) => S.MsgRemove(t.timer)
    case Expire(k) => S.MsgExpire(k)
  }

  function Msgs(queue: seq<Message>): (q: seq<S.Msg>)
    ensures |q| == |queue| && forall i :: 0 <= i < |q| ==> q[i] == MsgOf(queue[i])
  {
    seq(|queue|, i requires 0 <= i < |queue| => MsgOf(queue[i]))
  }

  lemma MsgsAppend(queue: seq<Message>, m: Message)
    ensures Msgs(queue + [m]) == Msgs(queue) + [MsgOf(m)]
  {
  }

  class MsgTask {
    var queue: seq<Message>

    constructor ()
      ensures queue == []
    {
      queue := [];
    }

    method SendMsg(m: Message)
      modifies this
      ensures queue == old(queue) + [m] && Msgs(queue) == Msgs(old(queue)) + [MsgOf(m)]
    {
      MsgsAppend(queue, m);
      queue := queue + [m];
    }
  }

  class TimerDelegate {
    var mClient: LocTimer?
    var mLock: SharedLock?
    // the container, as the task that owns its heap
    var mContainer: MsgTask?
    // mFutureTime, the kind of container and the owner, with an id
    const timer: Timer
    // history, as the machine keeps it
    ghost var d: S.Delegate

    /** It shares the client's lock and sends its own Push message. */
    constructor (client: LocTimer, timer: Timer)
      requires client.mLock.Valid() && client.mLock.mRef > 0
      modifies client.mLock, client.task
      ensures client.mLock.Valid() && client.mLock.mRef == old(client.mLock.mRef) + 1
      ensures client.mLock.frees == old(client.mLock.frees)
      ensures client.task.queue == old(client.task.queue) + [Push(this)]
      ensures Msgs(client.task.queue) == Msgs(old(client.task.queue)) + [S.MsgPush(timer)]
      ensures Valid() && mClient == client && mLock == client.mLock && mContainer == client.task
      ensures this.timer == timer && d == S.NewDelegate(client.id)
    {
      mClient, mLock, this.timer, mContainer := client, client.mLock, timer, client.task;
      d := S.NewDelegate(client.id);
      new;
      client.mLock.Share();
      client.task.SendMsg(Push(this));
    }

    ghost predicate Valid()
      reads this
    {
      && d.client == (if mClient == null then None else Some(mClient.id))
      && d.linked == (mContainer != null)
    }

    /** destroyLocked: the client is forgotten, and the Remove message is sent once. */
    method DestroyLocked(ghost how: S.Ended)
      requires Valid()
      modifies this`mClient, this`mContainer, this`d, mContainer
      ensures Valid() && mClient == null && mContainer == null && d == S.Destroyed(old(d), how)
      ensures old(mContainer) != null ==>
        && old(mContainer).queue == old(mContainer.queue) + [Remove(this)]
        && Msgs(old(mContainer).queue) == Msgs(old(mContainer.queue)) + [S.MsgRemove(timer)]
    {
      mClient := null;
      if mContainer != null {
        var container := mContainer;
        mContainer := null;
        container.SendMsg(Remove(this));
      }
      d := S.Destroyed(d, how);
    }

    /** The destructor. */
    method Delete()
      requires mLock != null ==> mLock.Valid() && mLock.mRef > 0
      modifies this`mLock, mLock
      ensures mLock == null
      ensures old(mLock) != null ==>
        && old(mLock).Valid() && old(mLock).mRef == old(mLock.mRef) - 1
        && (old(mLock).frees == old(mLock.frees) + 1 <==> old(mLock.mRef) == 1)
    {
      if mLock != null {
        mLock.Drop();
        mLock := null;
      }
    }

    /**
     expire, for a client that is not destroyed meanwhile: whatever timer runs is stopped, and for that one the
     callback is made.
     */
    method Expire(ghost s: S.State) returns (called: bool)
      requires mClient != null ==>
        && mClient.Valid() && mClient.Represents(s)
        && s.msg.Stopping? && s.msg.c == mClient.id
      modifies if mClient == null then {} else {mClient} + mClient.Frame()
      ensures called <==> old(mClient) != null && old(mClient.mTimer) != null
      ensures old(mClient) != null ==>
        && old(mClient).Valid() && old(mClient).mTimer == null
        && old(mClient).Represents(if called then S.DoCallback(S.DoStopClient(s)) else S.DoStopClient(s))
        && old(mClient).callbacks == old(mClient.callbacks) + if called then 1 else 0
      ensures called ==>
        && old(mClient.mTimer).mClient == null
        && old(mClient.mTimer).timer in S.DoCallback(S.DoStopClient(s)).delegates
        && old(mClient.mTimer).d == S.DoCallback(S.DoStopClient(s)).delegates[old(mClient.mTimer).timer]
        && old(mClient).task.queue == old(mClient.task.queue) + [Remove(old(mClient.mTimer))]
    {
      var client := mClient;
      called := false;
      if client != null {
        ghost var ended := client.mTimer;
        called := client.Stop(s, S.ByExpiry);
        if called {
          client.TimeOutCallback();
          ended.d := ended.d.(callbacks := ended.d.callbacks + 1);
        }
      }
    }
  }

  class LocTimer {
    var mTimer: TimerDelegate?
    const mLock: SharedLock
    const task: MsgTask
    const id: nat
    // history
    ghost var life: S.Life
    var callbacks: nat

    constructor (task: MsgTask, id: nat)
      ensures Valid() && View() == S.Client(None, S.Live, 1, 0) && fresh(mLock) && callbacks == 0
      ensures this.task == task && this.id == id
    {
      mTimer, this.task, this.id, life, callbacks := null, task, id, S.Live, 0;
      mLock := new SharedLock();
    }

    /** The timer that runs is the client's own, linked and not destroyed, and shares its lock. */
    ghost predicate Valid()
      reads this, mLock, mTimer
    {
      && mLock.Valid() && mLock.mRef > 0 && life == S.Live
      && (mTimer != null ==>
           && mTimer.Valid() && mTimer.timer.owner == id && mLock.mRef > 1
           && mTimer.mClient == this && mTimer.mLock == mLock && mTimer.mContainer == task)
    }

    ghost function View(): S.Client
      reads this, mLock
    {
      S.Client(if mTimer == null then None else Some(mTimer.timer), life, mLock.mRef, mLock.frees)
    }

    /** s is a state of the machine that has this client, its running timer and the queue as they are here. */
    ghost predicate Represents(s: S.State)
      reads this, mLock, mTimer, task
    {
      && id in s.clients && s.clients[id] == View() && s.queue == Msgs(task.queue)
      && (mTimer != null ==> mTimer.timer in s.delegates && s.delegates[mTimer.timer] == mTimer.d)
    }

    ghost function Frame(): set<object>
      reads this
    {
      if mTimer == null then {} else {mTimer, task}
    }

    /** start: refused while a timer runs; otherwise a new one, with one more user of the lock and a Push message. */
    method Start(ghost s: S.State, now: Deadline, timeOutInMs: nat, kind: Kind, newId: nat) returns (success: bool)
      requires Valid() && Represents(s) && s.now == now && S.Enabled(s, S.Start(id, timeOutInMs, kind, newId))
      modifies this`mTimer, mLock, task
      ensures Valid() && success == (old(mTimer) == null)
      ensures Represents(S.DoStart(s, id, timeOutInMs, kind, newId))
      ensures !success ==> mTimer == old(mTimer) && mLock.mRef == old(mLock.mRef) && task.queue == old(task.queue)
      ensures success ==>
        && mTimer != null && fresh(mTimer) && mTimer.timer.kind == kind
        && Nanos(mTimer.timer.at) == Nanos(now) + timeOutInMs * 1_000_000
        && mLock.mRef == old(mLock.mRef) + 1 && task.queue == old(task.queue) + [Push(mTimer)]
    {
      success := false;
      if mTimer == null {
        FutureTimeExact(now, timeOutInMs);
        mTimer := new TimerDelegate(this, Timer(newId, id, kind, FutureTime(now, timeOutInMs)));
        success := true;
      }
    }

    /** stop: true once for each start, with the one Remove message of its delegate. */
    method Stop(ghost s: S.State, ghost how: S.Ended) returns (success: bool)
      requires Valid() && Represents(s)
      modifies this`mTimer, Frame()
      ensures Valid() && success == (old(mTimer) != null) && mTimer == null
      ensures Represents(S.DoStop(s, id, how))
      ensures success ==>
        && old(mTimer).mClient == null && old(mTimer).mContainer == null
        && old(mTimer).timer in S.DoStop(s, id, how).delegates
        && old(mTimer).d == S.DoStop(s, id, how).delegates[old(mTimer).timer]
        && task.queue == old(task.queue) + [Remove(old(mTimer))]
      ensures mLock.mRef == old(mLock.mRef)
    {
      success := false;
      if mTimer != null {
        var timer := mTimer;
        mTimer := null;
        timer.DestroyLocked(how);
        success := true;
      }
    }

    /** What the client makes of its callback is left out; it is counted. */
    method TimeOutCallback()
      requires Valid()
      modifies this`callbacks
      ensures callbacks == old(callbacks) + 1
    {
      callbacks := callbacks + 1;
    }

    /** The destructor: the timer is stopped, and the client gives up its use of the lock. */
    method Destroy(ghost s: S.State)
      requires Valid() && Represents(s)
      modifies this`mTimer, this`life, Frame(), mLock
      ensures mTimer == null && mLock.Valid() && mLock.mRef == old(mLock.mRef) - 1
      ensures S.Enabled(s, S.DestroyStop(id)) && S.Enabled(S.Step(s, S.DestroyStop(id)), S.DestroyDrop(id))
      ensures Represents(S.Step(S.Step(s, S.DestroyStop(id)), S.DestroyDrop(id)))
      ensures old(mTimer) != null ==>
        old(mTimer).mClient == null && task.queue == old(task.queue) + [Remove(old(mTimer))]
    {
      var _ := Stop(s, S.ByClient);
      life := S.Closing;
      assert Represents(S.Step(s, S.DestroyStop(id)));
      mLock.Drop();
      life := S.Gone;
    }
  }
}
