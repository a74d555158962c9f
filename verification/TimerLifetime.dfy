/**
 Lifetime and accounting in the timer service: who may still touch a delegate, when it is
 deleted, what the shared lock counts, and how a start is ended.
 */
module TimerLifetime {
  import opened Common
  import opened TimerTime
  import opened HeapTree
  import opened TimerContainer
  import opened TimerService

  // ---------- The invariant ----------

  predicate InHeap(s: State, t: Timer) {
    t in Elems(s.heaps.sw) || t in Elems(s.heaps.hw)
  }

  predicate IsPopped(s: State, t: Timer) {
    s.msg.Popped? && s.msg.t == t
  }

  /** The message thread has taken the Remove of t and will delete it. */
  predicate AboutToDelete(s: State, t: Timer) {
    (s.msg.Registering? || s.msg.Setting? || s.msg.Deleting?) && s.msg.doomed == Some(t)
  }

  predicate Doomed(s: State, t: Timer) {
    MsgRemove(t) in s.queue || AboutToDelete(s, t)
  }

  predicate Alive(s: State, t: Timer) {
    t in s.delegates && s.delegates[t].deletes == 0
  }

  /** A client's mTimer and the mClient of the delegate name each other. */
  ghost predicate ClientsOk(s: State) {
    && (forall c :: c in s.clients && s.clients[c].timer.Some? ==>
        s.clients[c].life == Live && Linked(s, c, s.clients[c].timer.value))
    && (forall t :: t in s.delegates ==>
        t.owner in s.clients && (s.delegates[t].client.Some? ==> s.clients[t.owner].timer == Some(t)))
  }

  predicate Linked(s: State, c: nat, t: Timer) {
    t in s.delegates && s.delegates[t].client == Some(c)
  }

  /** The start that is owed a callback, if there is one. */
  function OwedOf(s: State): Option<Timer> {
    if s.msg.Calling? then Some(s.msg.owed) else None
  }

  /** Either the start of t is still running, or it was ended once and its Remove is or was sent. */
  predicate DelegateOk(s: State, t: Timer, owed: Option<Timer>)
    requires t in s.delegates
  {
    var d := s.delegates[t];
    if d.client.Some? then
      d == NewDelegate(t.owner) && !Doomed(s, t)
    else
      && !d.linked && d.ended != NotEnded && d.stops == 1
      && d.callbacks == (if d.ended == ByExpiry && owed != Some(t) then 1 else 0)
      && d.deletes == (if Doomed(s, t) then 0 else 1)
  }

  ghost predicate DelegatesOk(s: State, owed: Option<Timer>) {
    && (forall t :: t in s.delegates ==> DelegateOk(s, t, owed))
    && (forall t, u :: t in s.delegates && u in s.delegates && t.id == u.id ==> t == u)
  }

  /** A delegate is pushed once and removed once, in that order; nothing is queued twice. */
  ghost predicate QueueOk(s: State) {
    InTurn(s.queue) && forall m :: m in s.queue ==> MessageOk(s, m)
  }

  ghost predicate InTurn(q: seq<Msg>) {
    forall i, j :: 0 <= i < j < |q| ==> Fits(q[i], q[j])
  }

  predicate Fits(m: Msg, later: Msg) {
    && (m == later ==> m.MsgExpire?)
    && (m.MsgRemove? && later.MsgPush? ==> m.t != later.t)
  }

  predicate MessageOk(s: State, m: Msg) {
    match m
    case MsgPush(t) => Alive(s, t) && !InHeap(s, t) && !IsPopped(s, t) && !AboutToDelete(s, t)
    case MsgRemove(t) => Alive(s, t) && !AboutToDelete(s, t)
    case MsgExpire(_) => true
  }

  /** A heap holds living delegates of its kind, each once. */
  ghost predicate HeapOk(s: State, k: Kind) {
    && WellFormed(s.heaps.Get(k))
    && forall t :: t in Elems(s.heaps.Get(k)) ==>
        && t.kind == k && Elems(s.heaps.Get(k))[t] == 1
        && Alive(s, t) && !IsPopped(s, t) && !AboutToDelete(s, t)
  }

  ghost predicate PhaseOk(s: State) {
    && (s.msg.Popped? ==> s.msg.t.kind == s.msg.k && Alive(s, s.msg.t))
    && (s.msg.Stopping? || s.msg.Calling? ==> s.msg.c == s.msg.t.owner && s.msg.t in s.delegates)
    && (s.msg.Calling? ==>
         && s.msg.owed in s.delegates && s.msg.owed.owner == s.msg.c
         && s.delegates[s.msg.owed].client.None? && s.delegates[s.msg.owed].ended == ByExpiry)
    && (forall t :: AboutToDelete(s, t) ==> Alive(s, t))
  }

  /** A running timer is where its expiry can find it. */
  predicate Placed(s: State, t: Timer) {
    MsgPush(t) in s.queue || InHeap(s, t) || IsPopped(s, t) || (s.msg.Stopping? && s.msg.t == t)
  }

  ghost predicate RunningPlaced(s: State) {
    forall t :: t in s.delegates && s.delegates[t].client.Some? ==> Placed(s, t)
  }

  /** The delegates of client c that have not been deleted. */
  ghost function Undeleted(s: State, c: nat): set<Timer> {
    set t | t in s.delegates && t.owner == c && s.delegates[t].deletes == 0
  }

  ghost predicate LocksOk(s: State) {
    forall c :: c in s.clients ==> LockOk(s, c)
  }

  ghost predicate LockOk(s: State, c: nat)
    requires c in s.clients
  {
    && s.clients[c].refs == (if s.clients[c].life == Gone then 0 else 1) + |Undeleted(s, c)|
    && s.clients[c].frees == (if s.clients[c].refs == 0 then 1 else 0)
  }

  /** With the start that is owed a callback apart, since stop() ends a start before the phase says so. */
  ghost predicate InvOwing(s: State, owed: Option<Timer>) {
    && ClientsOk(s) && DelegatesOk(s, owed) && QueueOk(s) && HeapOk(s, Sw) && HeapOk(s, Hw)
    && PhaseOk(s) && RunningPlaced(s) && LocksOk(s)
  }

  ghost predicate Inv(s: State) {
    InvOwing(s, OwedOf(s))
  }

  // ---------- The queue ----------

  lemma Append(q: seq<Msg>, m: Msg)
    requires InTurn(q) && forall x :: x in q ==> Fits(x, m)
    ensures InTurn(q + [m])
    ensures forall x :: x in q + [m] <==> x in q || x == m
  {
  }

  lemma TakeFirst(q: seq<Msg>)
    requires InTurn(q) && q != []
    ensures InTurn(q[1..])
    ensures forall x :: x in q[1..] ==> x in q && Fits(q[0], x)
    ensures forall x :: x in q <==> x in q[1..] || x == q[0]
  {
    assert q == [q[0]] + q[1..];
  }

  // ---------- What several steps share ----------

  /** The heaps and the message thread stay where they are, and a start that was ended stays so. */
  predicate SameOwners(s: State, s': State) {
    && s'.heaps == s.heaps && s'.msg == s.msg
    && (s.msg.Stopping? || s.msg.Calling? ==> (s.msg.t in s.delegates ==> s.msg.t in s'.delegates))
    && (s.msg.Calling? && s.msg.owed in s.delegates && s.delegates[s.msg.owed].client.None? ==>
         s.msg.owed in s'.delegates && s'.delegates[s.msg.owed] == s.delegates[s.msg.owed])
  }

  lemma OwnersKeep(s: State, s': State)
    requires SameOwners(s, s') && forall x :: Alive(s, x) ==> Alive(s', x)
    requires HeapOk(s, Sw) && HeapOk(s, Hw) && PhaseOk(s)
    ensures HeapOk(s', Sw) && HeapOk(s', Hw) && PhaseOk(s')
  {
  }

  lemma MessagesKeep(s: State, s': State, q: seq<Msg>)
    requires forall x :: Alive(s, x) ==> Alive(s', x)
    requires SameOwners(s, s') && forall m :: m in q ==> MessageOk(s, m)
    ensures forall m :: m in q ==> MessageOk(s', m)
  {
    forall m | m in q ensures MessageOk(s', m) {
      assert MessageOk(s, m);
    }
  }

  lemma DelegatesKeep(s: State, s': State, owed: Option<Timer>)
    requires DelegatesOk(s, owed) && s'.delegates == s.delegates && forall t :: Doomed(s', t) <==> Doomed(s, t)
    ensures DelegatesOk(s', owed)
  {
    forall t | t in s.delegates ensures DelegateOk(s', t, owed) {
      assert DelegateOk(s, t, owed);
    }
  }

  lemma PlacedKeep(s: State, s': State)
    requires RunningPlaced(s) && s'.delegates == s.delegates
    requires forall t :: t in s.delegates && s.delegates[t].client.Some? && Placed(s, t) ==> Placed(s', t)
    ensures RunningPlaced(s')
  {
  }

  lemma BooksKeep(s: State, s': State)
    requires ClientsOk(s) && LocksOk(s) && s'.clients == s.clients && s'.delegates == s.delegates
    ensures ClientsOk(s') && LocksOk(s')
  {
    forall c | c in s.clients ensures LockOk(s', c) {
      assert LockOk(s, c) && Undeleted(s', c) == Undeleted(s, c);
    }
    forall c | c in s.clients && s.clients[c].timer.Some? ensures Linked(s', c, s.clients[c].timer.value) {
      assert Linked(s, c, s.clients[c].timer.value);
    }
  }

  /** Nothing the invariant speaks of changes, except that Expire messages may come and go. */
  lemma UnrelatedKeeps(s: State, s': State)
    requires Inv(s) && InTurn(s'.queue)
    requires s'.clients == s.clients && s'.delegates == s.delegates && s'.heaps == s.heaps && s'.msg == s.msg
    requires forall m: Msg :: m.MsgExpire? || (m in s.queue <==> m in s'.queue)
    ensures Inv(s')
  {
    BooksKeep(s, s');
    DelegatesKeep(s, s', OwedOf(s));
    PlacedKeep(s, s');
    OwnersKeep(s, s');
    MessagesKeep(s, s', s.queue);
    assert QueueOk(s');
  }

  // ---------- start ----------

  predicate Started(s: State, s': State, c: nat, t: Timer) {
    && c in s.clients && s.clients[c].timer == None && s.clients[c].life == Live && t.owner == c
    && FreshId(s, t.id)
    && s' == s.(clients := s.clients[c := Begun(s.clients[c], t)], delegates := s.delegates[t := NewDelegate(c)],
                queue := s.queue + [MsgPush(t)])
  }

  lemma StartedClients(s: State, s': State, c: nat, t: Timer)
    requires Started(s, s', c, t) && ClientsOk(s)
    ensures ClientsOk(s')
  {
    assert t !in s.delegates;
    forall x | x in s.clients && s.clients[x].timer.Some? ensures Linked(s', x, s.clients[x].timer.value) {
      assert Linked(s, x, s.clients[x].timer.value);
    }
  }

  lemma StartedQueue(s: State, s': State, c: nat, t: Timer)
    requires Started(s, s', c, t) && QueueOk(s)
    requires !InHeap(s, t) && !IsPopped(s, t) && !AboutToDelete(s, t)
    ensures QueueOk(s')
    ensures forall x :: Doomed(s', x) <==> Doomed(s, x)
    ensures !Doomed(s, t)
  {
    assert !Alive(s, t);
    MessagesKeep(s, s', s.queue);
    forall m | m in s.queue ensures Fits(m, MsgPush(t)) {
      assert MessageOk(s, m);
    }
    Append(s.queue, MsgPush(t));
    assert MessageOk(s', MsgPush(t));
    assert MsgRemove(t) in s.queue ==> MessageOk(s, MsgRemove(t));
  }

  lemma StartedDelegates(s: State, s': State, c: nat, t: Timer, owed: Option<Timer>)
    requires Started(s, s', c, t) && DelegatesOk(s, owed)
    requires forall x :: Doomed(s', x) <==> Doomed(s, x)
    requires !Doomed(s, t)
    ensures DelegatesOk(s', owed)
  {
    forall x | x in s.delegates ensures DelegateOk(s', x, owed) {
      assert DelegateOk(s, x, owed);
    }
  }

  lemma StartedPlaced(s: State, s': State, c: nat, t: Timer)
    requires Started(s, s', c, t) && RunningPlaced(s)
    ensures RunningPlaced(s')
  {
    assert s'.queue[|s.queue|] == MsgPush(t);
    forall x | x in s.delegates && s.delegates[x].client.Some? && x != t ensures Placed(s', x) {
      assert Placed(s, x);
      assert MsgPush(x) in s.queue ==> MsgPush(x) in s'.queue;
    }
  }

  lemma StartedUndeleted(s: State, s': State, c: nat, t: Timer, x: nat)
    requires Started(s, s', c, t)
    ensures Undeleted(s', x) == Undeleted(s, x) + (if x == c then {t} else {})
    ensures t !in Undeleted(s, x)
  {
    assert t !in s.delegates;
  }

  lemma StartedLocks(s: State, s': State, c: nat, t: Timer)
    requires Started(s, s', c, t) && LocksOk(s)
    ensures LocksOk(s')
  {
    forall x | x in s'.clients ensures LockOk(s', x) {
      assert LockOk(s, x);
      StartedUndeleted(s, s', c, t, x);
    }
  }

  lemma StartedOwners(s: State, s': State, c: nat, t: Timer)
    requires Started(s, s', c, t) && HeapOk(s, Sw) && HeapOk(s, Hw) && PhaseOk(s)
    ensures HeapOk(s', Sw) && HeapOk(s', Hw) && PhaseOk(s')
    ensures !InHeap(s, t) && !IsPopped(s, t) && !AboutToDelete(s, t)
  {
    assert !Alive(s, t);
    OwnersKeep(s, s');
  }

  lemma StartedKeeps(s: State, s': State, c: nat, t: Timer)
    requires Inv(s) && Started(s, s', c, t)
    ensures Inv(s')
  {
    StartedOwners(s, s', c, t);
    StartedClients(s, s', c, t);
    StartedQueue(s, s', c, t);
    StartedDelegates(s, s', c, t, OwedOf(s));
    StartedPlaced(s, s', c, t);
    StartedLocks(s, s', c, t);
  }

  lemma StartKeeps(s: State, c: nat, ms: nat, k: Kind, id: nat)
    requires Inv(s) && Enabled(s, Start(c, ms, k, id))
    ensures Inv(DoStart(s, c, ms, k, id))
  {
    if s.clients[c].timer.None? {
      FutureTimeExact(s.now, ms);
      StartedKeeps(s, DoStart(s, c, ms, k, id), c, Timer(id, c, k, FutureTime(s.now, ms)));
    }
  }

  // ---------- stop ----------

  predicate Stopped(s: State, s': State, c: nat, t: Timer, how: Ended) {
    && c in s.clients && s.clients[c].timer == Some(t) && t in s.delegates
    && s.delegates[t] == NewDelegate(c) && how != NotEnded
    && s' == s.(clients := s.clients[c := s.clients[c].(timer := None)],
                delegates := s.delegates[t := Delegate(None, false, how, 1, 0, 0)],
                queue := s.queue + [MsgRemove(t)])
  }

  lemma StoppedClients(s: State, s': State, c: nat, t: Timer, how: Ended)
    requires Stopped(s, s', c, t, how) && ClientsOk(s)
    ensures ClientsOk(s')
  {
    forall x | x in s.clients && x != c && s.clients[x].timer.Some?
      ensures Linked(s', x, s.clients[x].timer.value)
    {
      assert Linked(s, x, s.clients[x].timer.value);
    }
  }

  lemma StoppedQueue(s: State, s': State, c: nat, t: Timer, how: Ended)
    requires Stopped(s, s', c, t, how) && QueueOk(s) && !Doomed(s, t)
    ensures QueueOk(s')
    ensures forall x :: Doomed(s', x) <==> Doomed(s, x) || x == t
  {
    MessagesKeep(s, s', s.queue);
    Append(s.queue, MsgRemove(t));
  }

  lemma StoppedDelegates(s: State, s': State, c: nat, t: Timer, how: Ended, owed: Option<Timer>)
    requires Stopped(s, s', c, t, how) && DelegatesOk(s, owed) && (how == ByExpiry ==> owed == None)
    requires forall x :: Doomed(s', x) <==> Doomed(s, x) || x == t
    ensures DelegatesOk(s', if how == ByExpiry then Some(t) else owed)
  {
    forall x | x in s.delegates ensures DelegateOk(s', x, if how == ByExpiry then Some(t) else owed) {
      assert DelegateOk(s, x, owed);
    }
  }

  lemma StoppedPlaced(s: State, s': State, c: nat, t: Timer, how: Ended)
    requires Stopped(s, s', c, t, how) && RunningPlaced(s)
    ensures RunningPlaced(s')
  {
    forall x | x in s.delegates && s.delegates[x].client.Some? && x != t ensures Placed(s', x) {
      assert Placed(s, x);
      assert MsgPush(x) in s.queue ==> MsgPush(x) in s'.queue;
    }
  }

  lemma StoppedLocks(s: State, s': State, c: nat, t: Timer, how: Ended)
    requires Stopped(s, s', c, t, how) && LocksOk(s)
    ensures LocksOk(s')
  {
    forall x | x in s'.clients ensures LockOk(s', x) {
      assert LockOk(s, x) && Undeleted(s', x) == Undeleted(s, x);
    }
  }

  /** What is owed after a stop: a callback for the start that an expiry ended. */
  function OwedAfter(s: State, c: nat, how: Ended): Option<Timer> {
    if how == ByExpiry && Running(s, c) then s.clients[c].timer else OwedOf(s)
  }

  lemma StopIsStopped(s: State, c: nat, how: Ended)
    requires ClientsOk(s) && DelegatesOk(s, OwedOf(s)) && how != NotEnded && Running(s, c)
    ensures Stopped(s, DoStop(s, c, how), c, s.clients[c].timer.value, how)
    ensures !Doomed(s, s.clients[c].timer.value)
  {
    assert Linked(s, c, s.clients[c].timer.value) && DelegateOk(s, s.clients[c].timer.value, OwedOf(s));
  }

  lemma StoppedOwners(s: State, s': State, c: nat, t: Timer, how: Ended)
    requires Stopped(s, s', c, t, how) && HeapOk(s, Sw) && HeapOk(s, Hw) && PhaseOk(s)
    ensures HeapOk(s', Sw) && HeapOk(s', Hw) && PhaseOk(s')
  {
    OwnersKeep(s, s');
  }

  lemma StoppedKeeps(s: State, s': State, c: nat, t: Timer, how: Ended)
    requires Inv(s) && Stopped(s, s', c, t, how) && !Doomed(s, t) && (how == ByExpiry ==> OwedOf(s) == None)
    ensures InvOwing(s', if how == ByExpiry then Some(t) else OwedOf(s))
  {
    StoppedClients(s, s', c, t, how);
    StoppedQueue(s, s', c, t, how);
    StoppedOwners(s, s', c, t, how);
    StoppedDelegates(s, s', c, t, how, OwedOf(s));
    StoppedPlaced(s, s', c, t, how);
    StoppedLocks(s, s', c, t, how);
  }

  lemma StopKeeps(s: State, c: nat, how: Ended)
    requires Inv(s) && how != NotEnded && (how == ByExpiry ==> OwedOf(s) == None)
    ensures InvOwing(DoStop(s, c, how), OwedAfter(s, c, how))
    ensures c in s.clients ==> DoStop(s, c, how).clients[c] == s.clients[c].(timer := None)
  {
    if Running(s, c) {
      StopIsStopped(s, c, how);
      StoppedKeeps(s, DoStop(s, c, how), c, s.clients[c].timer.value, how);
    } else {
      assert c in s.clients && s.clients[c].timer.Some? ==> Linked(s, c, s.clients[c].timer.value);
    }
  }

  // ---------- Creating and destroying clients ----------

  /** A client without a timer changes its life, and what it holds of its lock with it. */
  predicate LifeChange(s: State, s': State, c: nat, cl: Client) {
    && s' == s.(clients := s.clients[c := cl])
    && cl.timer.None?
    && if c !in s.clients then cl == Client(None, Live, 1, 0)
       else
         && s.clients[c].timer.None?
         && cl.refs - s.clients[c].refs ==
              (if cl.life == Gone then 0 else 1) - (if s.clients[c].life == Gone then 0 else 1)
         && cl.frees == (if cl.refs == 0 then 1 else 0)
  }

  lemma LifeClients(s: State, s': State, c: nat, cl: Client)
    requires LifeChange(s, s', c, cl) && ClientsOk(s)
    ensures ClientsOk(s')
  {
    forall x | x in s.clients && x != c && s.clients[x].timer.Some?
      ensures Linked(s', x, s.clients[x].timer.value)
    {
      assert Linked(s, x, s.clients[x].timer.value);
    }
  }

  lemma LifeLocks(s: State, s': State, c: nat, cl: Client)
    requires LifeChange(s, s', c, cl) && LocksOk(s) && ClientsOk(s)
    ensures LocksOk(s')
  {
    forall x | x in s'.clients ensures LockOk(s', x) {
      assert Undeleted(s', x) == Undeleted(s, x);
      if x in s.clients {
        assert LockOk(s, x);
      } else {
        assert Undeleted(s, x) == {};
      }
    }
  }

  lemma LifeOwners(s: State, s': State, c: nat, cl: Client)
    requires LifeChange(s, s', c, cl) && HeapOk(s, Sw) && HeapOk(s, Hw) && PhaseOk(s) && QueueOk(s)
    ensures HeapOk(s', Sw) && HeapOk(s', Hw) && PhaseOk(s') && QueueOk(s')
  {
    MessagesKeep(s, s', s.queue);
    OwnersKeep(s, s');
  }

  lemma LifeKeeps(s: State, s': State, c: nat, cl: Client)
    requires Inv(s) && LifeChange(s, s', c, cl)
    ensures Inv(s')
  {
    LifeClients(s, s', c, cl);
    LifeLocks(s, s', c, cl);
    LifeOwners(s, s', c, cl);
    DelegatesKeep(s, s', OwedOf(s));
    PlacedKeep(s, s');
  }

  lemma DestroyStopKeeps(s: State, c: nat)
    requires Inv(s) && Enabled(s, DestroyStop(c))
    ensures Inv(Step(s, DestroyStop(c)))
  {
    StopKeeps(s, c, ByClient);
    var s' := DoStop(s, c, ByClient);
    assert LockOk(s', c);
    LifeKeeps(s', Step(s, DestroyStop(c)), c, s'.clients[c].(life := Closing));
  }

  lemma DestroyDropKeeps(s: State, c: nat)
    requires Inv(s) && Enabled(s, DestroyDrop(c))
    ensures Inv(Step(s, DestroyDrop(c)))
  {
    assert LockOk(s, c);
    var s' := Step(s, DestroyDrop(c));
    LifeKeeps(s, s', c, s'.clients[c]);
  }

  // ---------- The message thread ----------

  /** A heap changes and the message thread moves on; the delegates stay as they are. */
  predicate HeapMove(s: State, s': State, k: Kind, h: Tree<Timer>) {
    && s'.heaps == s.heaps.Set(k, h) && s'.delegates == s.delegates && s'.clients == s.clients
    && WellFormed(h)
  }

  lemma HeapMoveOk(s: State, s': State, k: Kind, h: Tree<Timer>)
    requires HeapMove(s, s', k, h) && HeapOk(s, Sw) && HeapOk(s, Hw)
    requires forall x :: x in Elems(h) ==> x.kind == k && Elems(h)[x] == 1 && Alive(s, x)
    requires forall x :: IsPopped(s', x) || AboutToDelete(s', x) ==> x !in Elems(h) && x.kind == k
    ensures HeapOk(s', Sw) && HeapOk(s', Hw)
    ensures forall x :: InHeap(s', x) <==> x in Elems(h) || (InHeap(s, x) && x.kind != k)
  {
    assert forall x :: Alive(s', x) == Alive(s, x);
  }

  /** The heap a delegate is in is the one of its kind. */
  lemma InItsHeap(s: State, k: Kind)
    requires HeapOk(s, Sw) && HeapOk(s, Hw)
    ensures forall x: Timer :: x.kind == k ==> (InHeap(s, x) <==> x in Elems(s.heaps.Get(k)))
    ensures forall x :: Elems(s.heaps.Get(k))[x] <= 1
  {
  }

  /** After the first message is taken, the others are still in turn. */
  lemma TakenQueue(s: State, s': State)
    requires QueueOk(s) && s.queue != [] && s'.queue == s.queue[1..]
    requires forall m :: m in s'.queue && Fits(s.queue[0], m) && MessageOk(s, m) ==> MessageOk(s', m)
    ensures QueueOk(s')
  {
    TakeFirst(s.queue);
    forall m | m in s'.queue ensures MessageOk(s', m) {
      assert MessageOk(s, m);
    }
  }

  lemma AddOne(m: multiset<Timer>, t: Timer)
    requires t !in m && forall x :: m[x] <= 1
    ensures forall x :: x in m + multiset{t} <==> x in m || x == t
    ensures forall x :: x in m + multiset{t} ==> (m + multiset{t})[x] == 1
  {
  }

  lemma TakeOne(m: multiset<Timer>, t: Timer)
    requires forall x :: m[x] <= 1
    ensures forall x :: x in m - multiset{t} <==> x in m && x != t
    ensures forall x :: x in m - multiset{t} ==> (m - multiset{t})[x] == 1
  {
  }

  // ----- Push -----

  predicate Pushed(s: State, s': State, t: Timer, h: Tree<Timer>, u: Update) {
    && s.queue != [] && s.queue[0] == MsgPush(t) && s.msg == Waiting
    && HeapMove(s, s', t.kind, h) && s'.queue == s.queue[1..] && s'.msg == Follow(t.kind, u, None)
    && Elems(h) == Elems(s.heaps.Get(t.kind)) + multiset{t}
  }

  lemma PushedHeaps(s: State, s': State, t: Timer, h: Tree<Timer>, u: Update)
    requires Pushed(s, s', t, h, u) && HeapOk(s, Sw) && HeapOk(s, Hw) && MessageOk(s, MsgPush(t))
    requires forall x :: !IsPopped(s', x) && !AboutToDelete(s', x)
    ensures HeapOk(s', Sw) && HeapOk(s', Hw)
    ensures forall x :: InHeap(s', x) <==> InHeap(s, x) || x == t
  {
    InItsHeap(s, t.kind);
    AddOne(Elems(s.heaps.Get(t.kind)), t);
    HeapMoveOk(s, s', t.kind, h);
  }

  lemma PushedPhase(s: State, s': State, t: Timer, h: Tree<Timer>, u: Update)
    requires Pushed(s, s', t, h, u)
    ensures PhaseOk(s') && forall x :: !IsPopped(s', x) && !AboutToDelete(s', x)
  {
  }

  lemma PushedQueue(s: State, s': State, t: Timer, h: Tree<Timer>, u: Update)
    requires Pushed(s, s', t, h, u) && QueueOk(s)
    requires forall x :: InHeap(s', x) <==> InHeap(s, x) || x == t
    requires forall x :: !IsPopped(s', x) && !AboutToDelete(s', x)
    ensures QueueOk(s') && forall x :: Doomed(s', x) <==> Doomed(s, x)
  {
    TakeFirst(s.queue);
    TakenQueue(s, s');
  }

  lemma PushedPlaced(s: State, s': State, t: Timer, h: Tree<Timer>, u: Update)
    requires Pushed(s, s', t, h, u) && InTurn(s.queue) && RunningPlaced(s)
    requires forall x :: InHeap(s', x) <==> InHeap(s, x) || x == t
    ensures RunningPlaced(s')
  {
    TakeFirst(s.queue);
    PlacedKeep(s, s');
  }

  lemma PushedKeeps(s: State, s': State, t: Timer, h: Tree<Timer>, u: Update)
    requires Inv(s) && Pushed(s, s', t, h, u)
    ensures Inv(s')
  {
    assert MessageOk(s, MsgPush(t));
    PushedPhase(s, s', t, h, u);
    PushedHeaps(s, s', t, h, u);
    PushedQueue(s, s', t, h, u);
    PushedPlaced(s, s', t, h, u);
    BooksKeep(s, s');
    DelegatesKeep(s, s', None);
  }

  lemma TakePushKeeps(s: State, t: Timer)
    requires Inv(s) && Enabled(s, TakeMsg) && s.queue[0] == MsgPush(t)
    ensures Inv(DoTake(s))
  {
    var h := s.heaps.Get(t.kind);
    var h' := Push(h, t, OutRanks);
    PushTimer(h, t);
    PushedKeeps(s, DoTake(s), t, h', Decide(Top(h'), Top(h)));
  }

  // ----- Remove -----

  predicate Removed(s: State, s': State, t: Timer, h: Tree<Timer>, u: Update) {
    && s.queue != [] && s.queue[0] == MsgRemove(t) && s.msg == Waiting
    && HeapMove(s, s', t.kind, h) && s'.queue == s.queue[1..] && s'.msg == Follow(t.kind, u, Some(t))
    && Elems(h) == Elems(s.heaps.Get(t.kind)) - multiset{t}
  }

  lemma RemovedHeaps(s: State, s': State, t: Timer, h: Tree<Timer>, u: Update)
    requires Removed(s, s', t, h, u) && HeapOk(s, Sw) && HeapOk(s, Hw)
    requires forall x :: !IsPopped(s', x) && (AboutToDelete(s', x) <==> x == t)
    ensures HeapOk(s', Sw) && HeapOk(s', Hw)
    ensures forall x :: InHeap(s', x) <==> InHeap(s, x) && x != t
  {
    InItsHeap(s, t.kind);
    TakeOne(Elems(s.heaps.Get(t.kind)), t);
    HeapMoveOk(s, s', t.kind, h);
  }

  lemma RemovedPhase(s: State, s': State, t: Timer, h: Tree<Timer>, u: Update)
    requires Removed(s, s', t, h, u) && Alive(s, t)
    ensures PhaseOk(s') && forall x :: !IsPopped(s', x) && (AboutToDelete(s', x) <==> x == t)
  {
  }

  lemma RemovedQueue(s: State, s': State, t: Timer, h: Tree<Timer>, u: Update)
    requires Removed(s, s', t, h, u) && QueueOk(s)
    requires forall x :: InHeap(s', x) <==> InHeap(s, x) && x != t
    requires forall x :: !IsPopped(s', x) && (AboutToDelete(s', x) <==> x == t)
    ensures QueueOk(s') && forall x :: Doomed(s', x) <==> Doomed(s, x)
  {
    TakeFirst(s.queue);
    TakenQueue(s, s');
  }

  lemma RemovedPlaced(s: State, s': State, t: Timer, h: Tree<Timer>, u: Update)
    requires Removed(s, s', t, h, u) && InTurn(s.queue) && RunningPlaced(s)
    requires t in s.delegates && s.delegates[t].client.None?
    requires forall x :: InHeap(s', x) <==> InHeap(s, x) && x != t
    ensures RunningPlaced(s')
  {
    TakeFirst(s.queue);
    PlacedKeep(s, s');
  }

  lemma RemovedKeeps(s: State, s': State, t: Timer, h: Tree<Timer>, u: Update)
    requires Inv(s) && Removed(s, s', t, h, u)
    ensures Inv(s')
  {
    assert MessageOk(s, MsgRemove(t));
    assert Doomed(s, t) && DelegateOk(s, t, None);
    RemovedPhase(s, s', t, h, u);
    RemovedHeaps(s, s', t, h, u);
    RemovedQueue(s, s', t, h, u);
    RemovedPlaced(s, s', t, h, u);
    BooksKeep(s, s');
    DelegatesKeep(s, s', None);
  }

  lemma TakeRemoveKeeps(s: State, t: Timer)
    requires Inv(s) && Enabled(s, TakeMsg) && s.queue[0] == MsgRemove(t)
    ensures Inv(DoTake(s))
  {
    var h := s.heaps.Get(t.kind);
    var (h', removed) := Apply(h, DoRemove(t), OutRanks);
    RemoveTimer(h, t);
    RemovedIsTop(h, t);
    RemovedKeeps(s, DoTake(s), t, h', if Top(h) == removed then Decide(Top(h'), None) else Keep);
  }

  // ----- Expire -----

  predicate NextPopped(s: State, s': State, t: Timer, h: Tree<Timer>, now: Deadline) {
    && (s.msg == Waiting || s.msg.Scanning?)
    && HeapMove(s, s', t.kind, h) && s'.queue == s.queue && s'.msg == Popped(t.kind, now, t)
    && t in Elems(s.heaps.Get(t.kind)) && Elems(h) == Elems(s.heaps.Get(t.kind)) - multiset{t}
  }

  /** No other timer is popped, and none is about to be deleted. */
  lemma OnlyPopped(s: State, s': State, t: Timer, h: Tree<Timer>, now: Deadline)
    requires NextPopped(s, s', t, h, now)
    ensures forall x :: (IsPopped(s', x) <==> x == t) && !AboutToDelete(s', x)
  {
  }

  lemma NextPoppedHeaps(s: State, s': State, t: Timer, h: Tree<Timer>, now: Deadline)
    requires NextPopped(s, s', t, h, now) && HeapOk(s, Sw) && HeapOk(s, Hw)
    ensures HeapOk(s', Sw) && HeapOk(s', Hw) && Alive(s, t)
    ensures forall x :: InHeap(s', x) || x == t <==> InHeap(s, x)
  {
    InItsHeap(s, t.kind);
    TakeOne(Elems(s.heaps.Get(t.kind)), t);
    OnlyPopped(s, s', t, h, now);
    HeapMoveOk(s, s', t.kind, h);
  }

  lemma NextPoppedQueue(s: State, s': State, t: Timer, h: Tree<Timer>, now: Deadline)
    requires NextPopped(s, s', t, h, now) && QueueOk(s)
    requires forall x :: InHeap(s', x) || x == t <==> InHeap(s, x)
    ensures QueueOk(s')
  {
    forall m | m in s.queue ensures MessageOk(s', m) { assert MessageOk(s, m); }
  }

  lemma NextPoppedPlaced(s: State, s': State, t: Timer, h: Tree<Timer>, now: Deadline)
    requires NextPopped(s, s', t, h, now) && RunningPlaced(s)
    requires forall x :: InHeap(s', x) || x == t <==> InHeap(s, x)
    ensures RunningPlaced(s')
  {
    PlacedKeep(s, s');
  }

  lemma NextPoppedPhase(s: State, s': State, t: Timer, h: Tree<Timer>, now: Deadline)
    requires NextPopped(s, s', t, h, now) && Alive(s, t)
    ensures PhaseOk(s') && forall x :: Doomed(s', x) <==> Doomed(s, x)
  {
  }

  lemma NextPoppedKeeps(s: State, s': State, t: Timer, h: Tree<Timer>, now: Deadline)
    requires Inv(s) && NextPopped(s, s', t, h, now)
    ensures Inv(s')
  {
    NextPoppedHeaps(s, s', t, h, now);
    NextPoppedPhase(s, s', t, h, now);
    NextPoppedQueue(s, s', t, h, now);
    NextPoppedPlaced(s, s', t, h, now);
    BooksKeep(s, s');
    DelegatesKeep(s, s', None);
  }

  lemma PopNextKeeps(s: State, k: Kind, now: Deadline)
    requires Inv(s) && (s.msg == Waiting || s.msg.Scanning?) && s.heaps.Get(k).Node?
    ensures Inv(PopNext(s, k, now))
  {
    var h := s.heaps.Get(k);
    PopTimer(h);
    InItsHeap(s, k);
    RestAfter(Elems(h), Elems(Pop(h, OutRanks)), h.data);
    NextPoppedKeeps(s, PopNext(s, k, now), h.data, Pop(h, OutRanks), now);
  }

  lemma TakeExpireKeeps(s: State, k: Kind)
    requires Inv(s) && Enabled(s, TakeMsg) && s.queue[0] == MsgExpire(k)
    ensures Inv(DoTake(s))
  {
    TakeFirst(s.queue);
    var rest := s.(queue := s.queue[1..]);
    UnrelatedKeeps(s, rest);
    if s.heaps.Get(k).Node? {
      PopNextKeeps(rest, k, s.now);
    }
  }

  // ----- The other phases -----

  /** The message thread moves on without touching the heaps; whom it is to delete stays the same. */
  lemma PhaseKeeps(s: State, s': State, owed: Option<Timer>)
    requires InvOwing(s, owed) && s' == s.(msg := s'.msg, devs := s'.devs)
    requires forall x :: !IsPopped(s', x) && (AboutToDelete(s', x) <==> AboutToDelete(s, x))
    requires PhaseOk(s')
    requires forall x :: x in s.delegates && s.delegates[x].client.Some? ==>
      (IsPopped(s, x) || (s.msg.Stopping? && s.msg.t == x) ==> s'.msg.Stopping? && s'.msg.t == x)
    ensures InvOwing(s', owed)
  {
    assert forall x :: Doomed(s', x) <==> Doomed(s, x);
    forall m | m in s.queue ensures MessageOk(s', m) { assert MessageOk(s, m); }
    assert QueueOk(s');
    assert HeapOk(s', Sw) && HeapOk(s', Hw);
    BooksKeep(s, s');
    DelegatesKeep(s, s', owed);
    PlacedKeep(s, s');
  }

  lemma ReadKeeps(s: State)
    requires Inv(s) && Enabled(s, ReadClient)
    ensures Inv(DoRead(s))
  {
    var t := s.msg.t;
    assert DelegateOk(s, t, None);
    if s.delegates[t].client.Some? {
      assert Linked(s, t.owner, t);
    }
    PhaseKeeps(s, DoRead(s), None);
  }

  lemma NoneRunning(s: State, c: nat)
    requires ClientsOk(s) && c in s.clients && s.clients[c].timer.None?
    ensures forall x :: x in s.delegates && s.delegates[x].client.Some? ==> x.owner != c
  {
  }

  /** stop() has ended a start, and its callback is what the message thread does next. */
  lemma CallingKeeps(s: State, s': State, u: Timer)
    requires InvOwing(s, Some(u)) && s.msg.Stopping?
    requires s' == s.(msg := Calling(s.msg.k, s.msg.now, s.msg.t, s.msg.c, u))
    requires u in s.delegates && u.owner == s.msg.c && s.delegates[u].client.None? && s.delegates[u].ended == ByExpiry
    requires forall x :: x in s.delegates && s.delegates[x].client.Some? ==> x.owner != s.msg.c
    ensures Inv(s')
  {
    PhaseKeeps(s, s', Some(u));
  }

  /** Nothing was running, and expire() returns. */
  lemma ScanningKeeps(s: State, s': State)
    requires Inv(s) && s.msg.Stopping? && s' == s.(msg := Scanning(s.msg.k, s.msg.now))
    requires forall x :: x in s.delegates && s.delegates[x].client.Some? ==> x.owner != s.msg.c
    ensures Inv(s')
  {
    PhaseKeeps(s, s', None);
  }

  lemma StopClientKeeps(s: State)
    requires Inv(s) && Enabled(s, StopClient)
    ensures Inv(DoStopClient(s))
  {
    var c := s.msg.c;
    var s1 := DoStop(s, c, ByExpiry);
    StopKeeps(s, c, ByExpiry);
    NoneRunning(s1, c);
    if Running(s, c) {
      var u := s.clients[c].timer.value;
      assert Linked(s, c, u) && DelegateOk(s, u, None);
      CallingKeeps(s1, DoStopClient(s), u);
    } else {
      ScanningKeeps(s1, DoStopClient(s));
    }
  }

  /** The owed callback is made. */
  predicate Called(s: State, s': State, u: Timer) {
    && s.msg.Calling? && s.msg.owed == u && u in s.delegates
    && s' == s.(msg := Scanning(s.msg.k, s.msg.now),
                delegates := s.delegates[u := s.delegates[u].(callbacks := s.delegates[u].callbacks + 1)])
  }

  lemma CalledDelegates(s: State, s': State, u: Timer)
    requires Called(s, s', u) && DelegatesOk(s, Some(u)) && PhaseOk(s)
    ensures DelegatesOk(s', None)
  {
    forall x | x in s.delegates ensures DelegateOk(s', x, None) {
      assert DelegateOk(s, x, Some(u));
    }
  }

  lemma CalledLocks(s: State, s': State, u: Timer)
    requires Called(s, s', u) && LocksOk(s)
    ensures LocksOk(s')
  {
    forall c | c in s.clients ensures LockOk(s', c) {
      assert LockOk(s, c) && Undeleted(s', c) == Undeleted(s, c);
    }
  }

  lemma CalledClients(s: State, s': State, u: Timer)
    requires Called(s, s', u) && ClientsOk(s)
    ensures ClientsOk(s')
  {
    forall c | c in s.clients && s.clients[c].timer.Some? ensures Linked(s', c, s.clients[c].timer.value) {
      assert Linked(s, c, s.clients[c].timer.value);
    }
  }

  lemma CalledQueue(s: State, s': State, u: Timer)
    requires Called(s, s', u) && QueueOk(s) && RunningPlaced(s)
    ensures QueueOk(s') && RunningPlaced(s') && PhaseOk(s')
  {
    forall m | m in s.queue ensures MessageOk(s', m) { assert MessageOk(s, m); }
    forall x | x in s'.delegates && s'.delegates[x].client.Some? ensures Placed(s', x) { assert Placed(s, x); }
  }

  lemma CalledHeap(s: State, s': State, u: Timer, k: Kind)
    requires Called(s, s', u) && HeapOk(s, k)
    ensures HeapOk(s', k)
  {
    assert forall x :: Alive(s', x) == Alive(s, x) && !IsPopped(s', x) && !AboutToDelete(s', x);
  }

  lemma CallbackIsCalled(s: State)
    requires PhaseOk(s) && Enabled(s, Callback)
    ensures Called(s, DoCallback(s), s.msg.owed)
  {
  }

  lemma CallbackKeeps(s: State)
    requires Inv(s) && Enabled(s, Callback)
    ensures Inv(DoCallback(s))
  {
    var u, s' := s.msg.owed, DoCallback(s);
    CallbackIsCalled(s);
    CalledDelegates(s, s', u);
    CalledClients(s, s', u);
    CalledLocks(s, s', u);
    CalledQueue(s, s', u);
    CalledHeap(s, s', u, Sw);
    CalledHeap(s, s', u, Hw);
  }

  lemma ScannedKeeps(s: State, s': State, k: Kind, u: Update)
    requires Inv(s) && s.msg.Scanning? && s' == s.(msg := Follow(k, u, None))
    ensures Inv(s')
  {
    PhaseKeeps(s, s', None);
  }

  lemma ScanKeeps(s: State)
    requires Inv(s) && Enabled(s, Scan)
    ensures Inv(DoScan(s))
  {
    var h := s.heaps.Get(s.msg.k);
    if HeadDue(h, s.msg.now) {
      PopNextKeeps(s, s.msg.k, s.msg.now);
    } else {
      ScannedKeeps(s, DoScan(s), s.msg.k, Decide(Top(h), None));
    }
  }

  // ----- delete -----

  predicate Deleted(s: State, s': State, t: Timer) {
    && s.msg == Deleting(Some(t)) && t in s.delegates && t.owner in s.clients
    && s' == s.(msg := Waiting, delegates := s.delegates[t := s.delegates[t].(deletes := s.delegates[t].deletes + 1)],
                clients := s.clients[t.owner := Dropped(s.clients[t.owner])])
  }

  lemma DeletedLocks(s: State, s': State, t: Timer)
    requires Deleted(s, s', t) && LocksOk(s) && Alive(s, t)
    ensures LocksOk(s')
  {
    assert Undeleted(s', t.owner) == Undeleted(s, t.owner) - {t} && t in Undeleted(s, t.owner);
    assert LockOk(s, t.owner);
    forall c | c in s.clients && c != t.owner ensures LockOk(s', c) {
      assert LockOk(s, c) && Undeleted(s', c) == Undeleted(s, c);
    }
  }

  lemma DeletedDelegates(s: State, s': State, t: Timer)
    requires Deleted(s, s', t) && DelegatesOk(s, None) && Alive(s, t)
    requires forall x :: Doomed(s', x) <==> Doomed(s, x) && x != t
    ensures DelegatesOk(s', None)
  {
    assert DelegateOk(s, t, None);
    forall x | x in s.delegates ensures DelegateOk(s', x, None) {
      assert DelegateOk(s, x, None);
    }
  }

  lemma DeletedPhase(s: State, s': State, t: Timer)
    requires Deleted(s, s', t)
    ensures PhaseOk(s')
    ensures forall x :: (AboutToDelete(s, x) <==> x == t) && !AboutToDelete(s', x) && !IsPopped(s', x)
    ensures forall x :: x != t ==> Alive(s', x) == Alive(s, x)
  {
  }

  lemma DeletedHeap(s: State, s': State, t: Timer, k: Kind)
    requires Deleted(s, s', t) && HeapOk(s, k)
    requires forall x :: (AboutToDelete(s, x) <==> x == t) && !AboutToDelete(s', x) && !IsPopped(s', x)
    requires forall x :: x != t ==> Alive(s', x) == Alive(s, x)
    ensures HeapOk(s', k)
  {
  }

  lemma DeletedQueue(s: State, s': State, t: Timer)
    requires Deleted(s, s', t) && QueueOk(s)
    requires forall x :: AboutToDelete(s, x) <==> x == t
    requires forall x :: x != t ==> Alive(s', x) == Alive(s, x)
    ensures QueueOk(s') && forall x :: Doomed(s', x) <==> Doomed(s, x) && x != t
  {
    forall m | m in s.queue ensures MessageOk(s', m) { assert MessageOk(s, m); }
    assert MsgRemove(t) in s.queue ==> MessageOk(s, MsgRemove(t));
  }

  lemma DeletedClients(s: State, s': State, t: Timer)
    requires Deleted(s, s', t) && ClientsOk(s)
    ensures ClientsOk(s')
  {
    forall c | c in s.clients && s.clients[c].timer.Some? ensures Linked(s', c, s.clients[c].timer.value) {
      assert Linked(s, c, s.clients[c].timer.value);
    }
  }

  lemma DeletedPlaced(s: State, s': State, t: Timer)
    requires Deleted(s, s', t) && RunningPlaced(s)
    ensures RunningPlaced(s')
  {
    forall x | x in s.delegates && s'.delegates[x].client.Some? ensures Placed(s', x) { assert Placed(s, x); }
  }

  lemma DeletedKeeps(s: State, s': State, t: Timer)
    requires Inv(s) && Deleted(s, s', t)
    ensures Inv(s')
  {
    assert AboutToDelete(s, t) && Alive(s, t);
    DeletedPhase(s, s', t);
    DeletedHeap(s, s', t, Sw);
    DeletedHeap(s, s', t, Hw);
    DeletedQueue(s, s', t);
    DeletedDelegates(s, s', t);
    DeletedClients(s, s', t);
    DeletedLocks(s, s', t);
    DeletedPlaced(s, s', t);
  }

  lemma DeleteStep(s: State, t: Timer)
    requires s.msg == Deleting(Some(t)) && t in s.delegates && t.owner in s.clients
    ensures Deleted(s, Step(s, Delete), t)
  {
  }

  lemma DeleteKeeps(s: State)
    requires Inv(s) && Enabled(s, Delete)
    ensures Inv(Step(s, Delete))
  {
    if s.msg.doomed.Some? {
      var t := s.msg.doomed.value;
      assert AboutToDelete(s, t);
      DeleteStep(s, t);
      DeletedKeeps(s, Step(s, Delete), t);
    } else {
      NothingToDelete(s, Step(s, Delete));
    }
  }

  lemma NothingToDelete(s: State, s': State)
    requires Inv(s) && s.msg == Deleting(None) && s' == s.(msg := Waiting)
    ensures Inv(s')
  {
    PhaseKeeps(s, s', None);
  }

  // ---------- Every run ----------

  lemma RegisterKeeps(s: State)
    requires Inv(s) && Enabled(s, Register)
    ensures Inv(DoRegister(s))
  {
    PhaseKeeps(s, DoRegister(s), None);
  }

  lemma SetTimeKeeps(s: State)
    requires Inv(s) && Enabled(s, SetTime)
    ensures Inv(DoSetTime(s))
  {
    PhaseKeeps(s, DoSetTime(s), None);
  }

  lemma PollKeeps(s: State)
    requires Inv(s) && Enabled(s, PollStep)
    ensures Inv(DoPoll(s))
  {
    if s.poll[0].stage == ToSend {
      Append(s.queue, MsgExpire(s.poll[0].k));
    }
    UnrelatedKeeps(s, DoPoll(s));
  }

  lemma TakeKeeps(s: State)
    requires Inv(s) && Enabled(s, TakeMsg)
    ensures Inv(DoTake(s))
  {
    match s.queue[0]
    case MsgPush(t) => TakePushKeeps(s, t);
    case MsgRemove(t) => TakeRemoveKeeps(s, t);
    case MsgExpire(k) => TakeExpireKeeps(s, k);
  }

  predicate OfClients(a: Action) {
    a.NewClient? || a.Start? || a.Stop? || a.DestroyStop? || a.DestroyDrop?
  }

  lemma ClientStepKeeps(s: State, a: Action)
    requires Inv(s) && Enabled(s, a) && OfClients(a)
    ensures Inv(Step(s, a))
  {
    match a
    case NewClient(c) => LifeKeeps(s, Step(s, a), c, Client(None, Live, 1, 0));
    case Start(c, ms, k, id) => StartKeeps(s, c, ms, k, id);
    case Stop(c) => StopKeeps(s, c, ByClient);
    case DestroyStop(c) => DestroyStopKeeps(s, c);
    case DestroyDrop(c) => DestroyDropKeeps(s, c);
  }

  lemma ServiceStepKeeps(s: State, a: Action)
    requires Inv(s) && Enabled(s, a) && !OfClients(a)
    ensures Inv(Step(s, a))
  {
    match a
    case Tick(now) => UnrelatedKeeps(s, Step(s, a));
    case TakeMsg => TakeKeeps(s);
    case ReadClient => ReadKeeps(s);
    case StopClient => StopClientKeeps(s);
    case Callback => CallbackKeeps(s);
    case Scan => ScanKeeps(s);
    case Register => RegisterKeeps(s);
    case SetTime => SetTimeKeeps(s);
    case Delete => DeleteKeeps(s);
    case EpollWait(ks) => UnrelatedKeeps(s, Step(s, a));
    case PollStep => PollKeeps(s);
  }

  lemma StepKeeps(s: State, a: Action)
    requires Inv(s) && Enabled(s, a)
    ensures Inv(Step(s, a))
  {
    if OfClients(a) {
      ClientStepKeeps(s, a);
    } else {
      ServiceStepKeeps(s, a);
    }
  }

  lemma {:induction false} ExecKeeps(s: State, run: seq<Action>)
    requires Inv(s) && Exec(s, run).Some?
    ensures Inv(Exec(s, run).value)
    decreases run
  {
    if run != [] {
      StepKeeps(s, run[0]);
      ExecKeeps(Step(s, run[0]), run[1..]);
    }
  }

  lemma InitOk(now: Deadline)
    ensures Inv(Init(now))
  {
  }

  /** The delegates whose memory a step reads or writes. */
  ghost function Touched(s: State, a: Action): set<Timer>
    requires Enabled(s, a)
  {
    match a
    case Stop(c) => OfClient(s, c)
    case DestroyStop(c) => OfClient(s, c)
    case StopClient => OfClient(s, s.msg.c)
    case TakeMsg =>
      (match s.queue[0]
       case MsgPush(t) => Stored(s, t.kind) + {t}
       case MsgRemove(t) => Stored(s, t.kind) + {t}
       case MsgExpire(k) => Stored(s, k))
    case ReadClient => {s.msg.t}
    case Scan => Stored(s, s.msg.k)
    case Delete => if s.msg.doomed.Some? then {s.msg.doomed.value} else {}
    case _ => {}
  }

  function OfClient(s: State, c: nat): set<Timer> {
    if c in s.clients && s.clients[c].timer.Some? then {s.clients[c].timer.value} else {}
  }

  ghost function Stored(s: State, k: Kind): set<Timer> {
    set t | t in Elems(s.heaps.Get(k))
  }

  lemma StoredAlive(s: State, k: Kind)
    requires HeapOk(s, k)
    ensures forall t :: t in Stored(s, k) ==> Alive(s, t)
  {
  }

  lemma ClientAlive(s: State, c: nat)
    requires ClientsOk(s) && DelegatesOk(s, OwedOf(s))
    ensures forall t :: t in OfClient(s, c) ==> Alive(s, t)
  {
    forall t | t in OfClient(s, c) ensures Alive(s, t) {
      assert Linked(s, c, t) && DelegateOk(s, t, OwedOf(s));
    }
  }

  lemma MessageAlive(s: State)
    requires HeapOk(s, Sw) && HeapOk(s, Hw) && QueueOk(s) && Enabled(s, TakeMsg)
    ensures forall t :: t in Touched(s, TakeMsg) ==> Alive(s, t)
  {
    var m := s.queue[0];
    assert MessageOk(s, m);
    StoredAlive(s, if m.MsgExpire? then m.k else m.t.kind);
  }

  lemma PhaseAlive(s: State, a: Action)
    requires PhaseOk(s) && Enabled(s, a) && (a.ReadClient? || a.Delete?)
    ensures forall t :: t in Touched(s, a) ==> Alive(s, t)
  {
    assert a.Delete? && s.msg.doomed.Some? ==> AboutToDelete(s, s.msg.doomed.value);
  }

  lemma TouchedAlive(s: State, a: Action)
    requires Inv(s) && Enabled(s, a)
    ensures forall t :: t in Touched(s, a) ==> Alive(s, t)
  {
    match a
    case Stop(c) => ClientAlive(s, c);
    case DestroyStop(c) => ClientAlive(s, c);
    case StopClient => ClientAlive(s, s.msg.c);
    case TakeMsg => MessageAlive(s);
    case ReadClient => PhaseAlive(s, a);
    case Scan => StoredAlive(s, s.msg.k);
    case Delete => PhaseAlive(s, a);
    case _ =>
  }

  // ---------- The client that expire() uses ----------

  /** The client has been destroyed since expire() last read mClient. */
  predicate DestroyedSinceRead(run: seq<Action>, c: nat)
    decreases run
  {
    run != [] && !run[|run| - 1].ReadClient?
    && (run[|run| - 1] == DestroyStop(c) || DestroyedSinceRead(run[..|run| - 1], c))
  }

  lemma StepLife(s: State, a: Action, c: nat)
    requires Enabled(s, a) && c in s.clients
    ensures c in Step(s, a).clients && (IsLive(Step(s, a), c) <==> IsLive(s, c) && a != DestroyStop(c))
  {
  }

  /** The client read from a delegate exists then, and this is its running timer. */
  lemma ReadIsLive(s: State)
    requires Inv(s) && Enabled(s, ReadClient) && DoRead(s).msg.Stopping?
    ensures IsLive(s, DoRead(s).msg.c) && s.clients[DoRead(s).msg.c].timer == Some(s.msg.t)
  {
    var t := s.msg.t;
    assert DelegateOk(s, t, None) && Linked(s, t.owner, t);
  }

  /** Only expire() itself brings a client into use, and it stays in use until the callback. */
  lemma StepInUse(s: State, a: Action, c: nat)
    requires Enabled(s, a) && InUse(Step(s, a), c) && !a.ReadClient?
    ensures InUse(s, c)
  {
  }

  predicate LiveExactly(s: State, run: seq<Action>) {
    s.msg.Stopping? || s.msg.Calling? ==>
      s.msg.c in s.clients && (IsLive(s, s.msg.c) <==> !DestroyedSinceRead(run, s.msg.c))
  }

  lemma StepLiveExactly(s: State, r: seq<Action>, a: Action)
    requires Inv(s) && LiveExactly(s, r) && Enabled(s, a)
    ensures LiveExactly(Step(s, a), r + [a])
  {
    var s', run := Step(s, a), r + [a];
    if s'.msg.Stopping? || s'.msg.Calling? {
      assert run[|run| - 1] == a && run[..|run| - 1] == r;
      if a.ReadClient? {
        ReadIsLive(s);
      } else {
        StepInUse(s, a, s'.msg.c);
        StepLife(s, a, s'.msg.c);
      }
    }
  }

  lemma {:induction false} ExecLiveExactly(now: Deadline, run: seq<Action>)
    requires Exec(Init(now), run).Some?
    ensures LiveExactly(Exec(Init(now), run).value, run)
    decreases run
  {
    if run != [] {
      ExecLast(Init(now), run);
      var r, a := run[..|run| - 1], run[|run| - 1];
      InitOk(now);
      ExecKeeps(Init(now), r);
      ExecLiveExactly(now, r);
      StepLiveExactly(Exec(Init(now), r).value, r, a);
      assert run == r + [a];
    }
  }

  /**
   In every run: a client that expire() is about to stop or to call back is still there if and only if it was
   not destroyed since expire() read mClient.
   */
  lemma OnlyDestructionHurts(now: Deadline, run: seq<Action>)
    requires Exec(Init(now), run).Some?
    requires var s := Exec(Init(now), run).value; Enabled(s, StopClient) || Enabled(s, Callback)
    ensures var s := Exec(Init(now), run).value;
      s.msg.c in s.clients && (IsLive(s, s.msg.c) <==> !DestroyedSinceRead(run, s.msg.c))
  {
    ExecLiveExactly(now, run);
  }

  lemma {:induction false} PoliteStaysLive(s: State, run: seq<Action>)
    requires Inv(s) && Exec(s, run).Some? && Polite(s, run)
    requires (s.msg.Stopping? || s.msg.Calling?) ==> IsLive(s, s.msg.c)
    ensures var s' := Exec(s, run).value; (s'.msg.Stopping? || s'.msg.Calling?) ==> IsLive(s', s'.msg.c)
    decreases run
  {
    if run != [] {
      var s' := Step(s, run[0]);
      if s'.msg.Stopping? || s'.msg.Calling? {
        if run[0].ReadClient? {
          ReadIsLive(s);
        } else {
          StepInUse(s, run[0], s'.msg.c);
          StepLife(s, run[0], s'.msg.c);
        }
      }
      StepKeeps(s, run[0]);
      PoliteStaysLive(s', run[1..]);
    }
  }

  // ---------- Who deletes a delegate ----------

  /** How many messages to remove t the message thread takes. */
  function RemovesTaken(s: State, run: seq<Action>, t: Timer): nat
    decreases run
  {
    if run == [] || !Enabled(s, run[0]) then 0
    else (if run[0].TakeMsg? && s.queue[0] == MsgRemove(t) then 1 else 0) + RemovesTaken(Step(s, run[0]), run[1..], t)
  }

  function DeletesOf(s: State, t: Timer): nat {
    if t in s.delegates then s.delegates[t].deletes else 0
  }

  /** The deletes of t, with the one the message thread is about to make. */
  function Deletions(s: State, t: Timer): nat {
    DeletesOf(s, t) + if AboutToDelete(s, t) then 1 else 0
  }

  lemma StepDeletes(s: State, a: Action, t: Timer)
    requires Enabled(s, a)
    ensures DeletesOf(Step(s, a), t) ==
      DeletesOf(s, t) + if a.Delete? && s.msg.doomed == Some(t) && t in s.delegates then 1 else 0
  {
  }

  lemma StepAbout(s: State, a: Action, t: Timer)
    requires Enabled(s, a)
    ensures AboutToDelete(Step(s, a), t) <==>
      (a.TakeMsg? && s.queue[0] == MsgRemove(t)) || (AboutToDelete(s, t) && !a.Delete?)
  {
  }

  lemma StepDeletions(s: State, a: Action, t: Timer)
    requires PhaseOk(s) && Enabled(s, a)
    ensures Deletions(Step(s, a), t) ==
      Deletions(s, t) + if a.TakeMsg? && s.queue[0] == MsgRemove(t) then 1 else 0
  {
    StepDeletes(s, a, t);
    StepAbout(s, a, t);
    assert AboutToDelete(s, t) ==> Alive(s, t);
  }

  lemma {:induction false} ExecDeletions(s: State, run: seq<Action>, t: Timer)
    requires Inv(s) && Exec(s, run).Some?
    ensures Deletions(Exec(s, run).value, t) == Deletions(s, t) + RemovesTaken(s, run, t)
    decreases run
  {
    if run != [] {
      StepDeletions(s, run[0], t);
      StepKeeps(s, run[0]);
      ExecDeletions(Step(s, run[0]), run[1..], t);
    }
  }

  // ---------- The main results ----------

  /**
   In every run, when a delegate is about to be deleted it has not been, its own Remove has been taken, exactly once,
   its start is ended, and it is in no heap and named by no queued message; so nothing can come upon it later.
   */
  lemma DeletedByOwnRemove(now: Deadline, run: seq<Action>, t: Timer)
    requires Exec(Init(now), run).Some?
    requires var s := Exec(Init(now), run).value; Enabled(s, Delete) && s.msg.doomed == Some(t)
    ensures var s := Exec(Init(now), run).value;
      && t in s.delegates && s.delegates[t].deletes == 0 && Step(s, Delete).delegates[t].deletes == 1
      && RemovesTaken(Init(now), run, t) == 1
      && s.delegates[t].client == None && s.delegates[t].ended != NotEnded
      && !InHeap(s, t) && (forall m :: m in s.queue ==> m.MsgExpire? || m.t != t)
  {
    InitOk(now);
    ExecKeeps(Init(now), run);
    ExecDeletions(Init(now), run, t);
    var s := Exec(Init(now), run).value;
    assert AboutToDelete(s, t) && DelegateOk(s, t, None);
    forall m | m in s.queue ensures m.MsgExpire? || m.t != t {
      assert MessageOk(s, m);
    }
  }

  /** In every run, the deletes of a delegate are the messages to remove it that were taken, at most one. */
  lemma DeletesAreRemoves(now: Deadline, run: seq<Action>, t: Timer)
    requires Exec(Init(now), run).Some? && t in Exec(Init(now), run).value.delegates
    ensures var s := Exec(Init(now), run).value;
      s.delegates[t].deletes + (if AboutToDelete(s, t) then 1 else 0) == RemovesTaken(Init(now), run, t) <= 1
  {
    InitOk(now);
    ExecKeeps(Init(now), run);
    ExecDeletions(Init(now), run, t);
    assert DelegateOk(Exec(Init(now), run).value, t, OwedOf(Exec(Init(now), run).value));
  }

  /**
   No step of a polite run touches a deleted delegate or a client that is gone, and no delegate is
   deleted twice.
   */
  lemma NoUseAfterDelete(now: Deadline, run: seq<Action>, a: Action)
    requires Exec(Init(now), run).Some? && Polite(Init(now), run)
    requires Enabled(Exec(Init(now), run).value, a)
    ensures var s := Exec(Init(now), run).value;
      && (forall t :: t in Touched(s, a) ==> t in s.delegates && s.delegates[t].deletes == 0)
      && (a.StopClient? || a.Callback? ==> IsLive(s, s.msg.c))
      && (forall t :: t in s.delegates ==> s.delegates[t].deletes <= 1)
  {
    InitOk(now);
    ExecKeeps(Init(now), run);
    PoliteStaysLive(Init(now), run);
    var s := Exec(Init(now), run).value;
    TouchedAlive(s, a);
    forall t | t in s.delegates ensures s.delegates[t].deletes <= 1 {
      assert DelegateOk(s, t, OwedOf(s));
    }
  }

  /**
   The count of a shared lock is the client, while it exists, and its undeleted delegates; the lock
   is freed once, exactly when none of them is left.
   */
  lemma LockCounts(now: Deadline, run: seq<Action>, c: nat)
    requires Exec(Init(now), run).Some?
    requires c in Exec(Init(now), run).value.clients
    ensures var s := Exec(Init(now), run).value;
      && s.clients[c].refs == (if s.clients[c].life == Gone then 0 else 1) + |Undeleted(s, c)|
      && s.clients[c].frees <= 1
      && (s.clients[c].frees == 1 <==> s.clients[c].life == Gone && Undeleted(s, c) == {})
  {
    InitOk(now);
    ExecKeeps(Init(now), run);
    var s := Exec(Init(now), run).value;
    assert LockOk(s, c);
    assert |Undeleted(s, c)| == 0 <==> Undeleted(s, c) == {};
  }

  /**
   A start is ended at most once. Once the callback it is owed has been made, it has run once if the expiry ended it
   and never if a client did; and until it is ended, it is on its way to its expiry.
   */
  lemma StartAccounting(now: Deadline, run: seq<Action>, t: Timer)
    requires Exec(Init(now), run).Some?
    requires t in Exec(Init(now), run).value.delegates
    ensures var s := Exec(Init(now), run).value; var d := s.delegates[t];
      && d.stops == (if d.ended == NotEnded then 0 else 1)
      && d.callbacks == (if d.ended == ByExpiry && OwedOf(s) != Some(t) then 1 else 0)
      && (OwedOf(s) == Some(t) ==> d.ended == ByExpiry)
      && (d.ended == NotEnded <==> t.owner in s.clients && s.clients[t.owner].timer == Some(t))
      && (d.ended == NotEnded ==> Placed(s, t) && d.deletes == 0)
      && (d.ended != NotEnded && d.deletes == 0 <==> Doomed(s, t))
  {
    InitOk(now);
    ExecKeeps(Init(now), run);
    var s := Exec(Init(now), run).value;
    assert DelegateOk(s, t, OwedOf(s));
    assert t.owner in s.clients && s.clients[t.owner].timer == Some(t) ==> Linked(s, t.owner, t);
  }
}
