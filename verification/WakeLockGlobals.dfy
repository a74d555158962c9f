/**
 The globals of the wake lock in ril.cpp and the functions that change them, proved to take the steps
 of WakeLock. The queue of timers is kept as that machine has it; RilEvents has its links.
 */
module WakeLockGlobals {
  import opened Common
  import opened WakeLock

  class UserCallbackInfo {
    ghost const id: nat
    // whether its callback is wakeTimeoutCallback, and whether userParam is (void *)1
    const wake: bool
    var userParam: bool

    constructor (ghost id: nat, wake: bool)
      ensures this.id == id && this.wake == wake && !userParam
    {
      this.id, this.wake, userParam := id, wake, false;
    }
  }

  /** A request does not look at the lock. */
  lemma RequestApart(s: State, delay: int, wake: bool)
    ensures Request(s.(held := true), delay, wake) == Request(s, delay, wake).(held := true)
  {
  }

  class Globals {
    var wakelockCount: int
    var held: bool
    var lastWakeTimeoutInfo: UserCallbackInfo?
    ghost var state: State
    // the infos that have not been freed, by id
    ghost var infos: map<nat, UserCallbackInfo>

    constructor (ghost now: int)
      ensures Valid() && state == Init(now)
    {
      wakelockCount, held, lastWakeTimeoutInfo, state, infos := 0, false, null, Init(now), map[];
    }

    ghost predicate Valid()
      reads this, infos.Values
    {
      && wakelockCount == state.count && held == state.held
      && (forall i :: i in infos ==>
           i < state.issued && infos[i].id == i && (infos[i].userParam <==> i in state.cancelled))
      && (forall i :: i in state.cancelled ==> i < state.issued)
      && (if lastWakeTimeoutInfo == null then state.last == None
          else state.last == Some(lastWakeTimeoutInfo.id) && state.last.value in infos
               && infos[state.last.value] == lastWakeTimeoutInfo)
    }

    /** internalRequestTimedCallback */
    method RequestTimedCallback(ghost delay: int, wake: bool) returns (info: UserCallbackInfo)
      requires Valid()
      modifies this`state, this`infos
      ensures Valid() && state == Request(old(state), delay, wake)
      ensures fresh(info) && infos == old(infos)[info.id := info] && info.id == old(state).issued
      ensures info.wake == wake && !info.userParam
    {
      info := new UserCallbackInfo(state.issued, wake);
      state := Request(state, delay, wake);
      infos := infos[info.id := info];
    }

    /** The assignment of 1 to the userParam of the latest wake timer. */
    method CancelLast()
      requires Valid()
      modifies this`state, lastWakeTimeoutInfo
      ensures Valid() && state == old(state).(cancelled := Cancel(old(state)))
    {
      if lastWakeTimeoutInfo != null {
        lastWakeTimeoutInfo.userParam := true;
        state := state.(cancelled := Cancel(state));
      }
    }

    /** grabPartialWakeLock before it looks at the pointer. */
    method TakeLock() returns (info: UserCallbackInfo)
      requires Valid()
      modifies this`wakelockCount, this`held, this`state, this`infos
      ensures Valid() && fresh(info) && info.id == old(state).issued && infos == old(infos)[info.id := info]
      ensures info.wake && !info.userParam && held && wakelockCount == old(wakelockCount) + 1
      ensures state == Request(old(state), WAKE_TIMEOUT, true).(held := true, count := old(state).count + 1)
    {
      RequestApart(state, WAKE_TIMEOUT, true);
      held := true;
      state := state.(held := true);
      info := RequestTimedCallback(WAKE_TIMEOUT, true);
      wakelockCount := wakelockCount + 1;
      state := state.(count := state.count + 1);
    }

    /** grabPartialWakeLock */
    method GrabPartialWakeLock()
      requires Valid()
      modifies this, lastWakeTimeoutInfo
      ensures Valid() && state == DoGrab(old(state))
      ensures held && wakelockCount == old(wakelockCount) + 1
      ensures lastWakeTimeoutInfo != null && fresh(lastWakeTimeoutInfo) && lastWakeTimeoutInfo.wake
      ensures !lastWakeTimeoutInfo.userParam
      ensures old(lastWakeTimeoutInfo) != null ==> old(lastWakeTimeoutInfo).userParam
    {
      var info := TakeLock();
      CancelLast();
      lastWakeTimeoutInfo := info;
      state := state.(last := Some(info.id), grabbed := Some(state.now));
    }

    /** releaseWakeLock */
    method ReleaseWakeLock()
      requires Valid()
      modifies this, lastWakeTimeoutInfo
      ensures Valid() && state == DoRelease(old(state)) && lastWakeTimeoutInfo == old(lastWakeTimeoutInfo)
      ensures wakelockCount == if old(wakelockCount) > 1 then old(wakelockCount) - 1 else 0
      ensures held == (old(held) && old(wakelockCount) > 1)
      ensures lastWakeTimeoutInfo != null ==>
        lastWakeTimeoutInfo.userParam == (old(lastWakeTimeoutInfo.userParam) || old(wakelockCount) <= 1)
    {
      if wakelockCount > 1 {
        wakelockCount := wakelockCount - 1;
        state := state.(count := state.count - 1);
      } else {
        wakelockCount := 0;
        held := false;
        state := state.(count := 0, held := false);
        CancelLast();
      }
    }

    /** userTimerCallback with wakeTimeoutCallback, for the first pending timer, which firePending has unlinked. */
    method UserTimerCallback(info: UserCallbackInfo)
      requires Valid() && state.pending != []
      requires info.id in infos && infos[info.id] == info
      requires state.pending[0].id == info.id && state.pending[0].wake == info.wake
      modifies this
      ensures Valid() && state == DoFire(old(state)) && infos == old(infos) - {info.id}
      ensures if info.wake && !old(info.userParam) then wakelockCount == 0 && !held
              else wakelockCount == old(wakelockCount) && held == old(held)
      ensures lastWakeTimeoutInfo == if old(lastWakeTimeoutInfo) == info then null else old(lastWakeTimeoutInfo)
    {
      if info.wake && !info.userParam {
        wakelockCount := 0;
        held := false;
      }
      if lastWakeTimeoutInfo != null && lastWakeTimeoutInfo == info {
        lastWakeTimeoutInfo := null;
      }
      infos := infos - {info.id};
      state := DoFire(state);
    }
  }
}
