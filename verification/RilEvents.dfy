/**
 The event loop of ril_event.cpp: the sorted list of timers, the list of pending events, and the
 table of watched file descriptors with the set and the bound given to select.
 */
module RilEvents {
  import opened Common
  import opened RilTime
  import opened RilList
  import opened RilSchedule
  import opened RilWatch

  /** items are timers, with ts their deadlines in microseconds. */
  ghost predicate Timed(items: seq<Event>, ts: seq<int>)
    reads items`fd, items`timeout
  {
    |ts| == |items| && forall i :: 0 <= i < |ts| ==> items[i].fd == -1 && Micros(items[i].timeout) == ts[i]
  }

  lemma TimedInserted(items: seq<Event>, ts: seq<int>, p: nat, ev: Event)
    requires Timed(items, ts) && ev.fd == -1 && p == Leading(ts, Micros(ev.timeout))
    ensures Timed(Inserted(items, p, ev), Insert(ts, Micros(ev.timeout)))
  {
  }

  // ---------- The walks over one or two lists ----------

  /** The walk of ril_timer_add to the first timer that is not before t, or to the head. */
  method FindPlace(head: Event, ghost items: seq<Event>, ghost ts: seq<int>, t: TimeVal)
    returns (list: Event, ghost p: nat)
    requires IsList(head, items) && Timed(items, ts)
    ensures p == Leading(ts, Micros(t)) && list == At(head, items, p + 1)
  {
    assert JoinedAt(head, items, 0);
    list, p := head.next, 0;
    while Before(list.timeout, t) && list != head
      invariant p <= |items| && list == At(head, items, p + 1)
      invariant forall i :: 0 <= i < p ==> ts[i] < Micros(t)
      decreases |items| - p
    {
      BeforeIsLess(list.timeout, t);
      assert p < |items| && list == items[p];
      assert JoinedAt(head, items, p + 1);
      list, p := list.next, p + 1;
    }
    BeforeIsLess(list.timeout, t);
    assert p < |items| ==> list == items[p];
    LeadingUnique(ts, Micros(t), p);
  }

  /** The first event of one list goes to the end of the other. */
  method MoveFirst(ev: Event, source: Event, target: Event, ghost left: seq<Event>, ghost moved: seq<Event>)
    returns (next: Event)
    requires IsList(source, left) && IsList(target, moved) && Apart(source, left, target, moved)
    requires left != [] && ev == left[0]
    modifies Nodes(source, left)`next, Nodes(source, left)`prev
    modifies Nodes(target, moved)`next, Nodes(target, moved)`prev
    ensures IsList(source, left[1..]) && IsList(target, moved + [ev])
    ensures Apart(source, left[1..], target, moved + [ev]) && next == At(source, left[1..], 1)
    ensures Nodes(source, left[1..]) + Nodes(target, moved + [ev]) == Nodes(source, left) + Nodes(target, moved)
  {
    assert ev in Nodes(source, left) && left == [ev] + left[1..];
    next := DropFirst(ev, source, left, target, moved);
    assert Nodes(target, moved + [ev]) == Nodes(target, moved) + {ev};
    assert Nodes(source, left) == Nodes(source, left[1..]) + {ev};
    Append(ev, target, moved, source, left[1..]);
  }

  lemma Advance<T>(items: seq<T>, tail: seq<T>, n: nat)
    requires n < |items|
    ensures items[n..] != [] && items[n..][0] == items[n] && items[n..][1..] == items[n + 1..]
    ensures (tail + items[..n]) + [items[n]] == tail + items[..n + 1]
  {
  }

  /** The loop of processTimeouts: from the front, timers strictly before now change lists. */
  method MoveDue(source: Event, target: Event, ghost items: seq<Event>, ghost ts: seq<int>, ghost tail: seq<Event>,
                 now: TimeVal)
    returns (ghost n: nat)
    requires Timed(items, ts)
    requires IsList(source, items) && IsList(target, tail) && Apart(source, items, target, tail)
    modifies Nodes(source, items)`next, Nodes(source, items)`prev
    modifies Nodes(target, tail)`next, Nodes(target, tail)`prev
    ensures n == Leading(ts, Micros(now))
    ensures IsList(source, items[n..]) && IsList(target, tail + items[..n])
    ensures Apart(source, items[n..], target, tail + items[..n])
  {
    n := 0;
    ghost var left, moved, all := items, tail, Nodes(source, items) + Nodes(target, tail);
    assert JoinedAt(source, items, 0) && tail + items[..0] == tail;
    var tev: Event := source.next;
    while tev != source && Before(tev.timeout, now)
      invariant n <= |items| && left == items[n..] && moved == tail + items[..n] && tev == At(source, left, 1)
      invariant IsList(source, left) && IsList(target, moved) && Apart(source, left, target, moved)
      invariant Nodes(source, left) + Nodes(target, moved) == all
      invariant forall i :: 0 <= i < n ==> ts[i] < Micros(now)
      decreases |left|
    {
      BeforeIsLess(tev.timeout, now);
      Advance(items, tail, n);
      var next := MoveFirst(tev, source, target, left, moved);
      left, moved := left[1..], moved + [tev];
      tev, n := next, n + 1;
    }
    BeforeIsLess(tev.timeout, now);
    assert n < |items| ==> tev == items[n];
    LeadingUnique(ts, Micros(now), n);
  }

  /** The timers, sorted, and the pending events are two lists without a node in common. */
  ghost predicate Lists(timerList: Event, timers: seq<Event>, times: seq<int>, pendingList: Event, pending: seq<Event>)
    reads timerList`next, timerList`prev, timers`next, timers`prev, timers`fd, timers`timeout
    reads pendingList`next, pendingList`prev, pending`next, pending`prev
  {
    && IsList(timerList, timers) && IsList(pendingList, pending)
    && Apart(timerList, timers, pendingList, pending)
    && Timed(timers, times) && Sorted(times)
  }

  /** processTimeouts on the two lists. */
  method Expire(source: Event, target: Event, ghost items: seq<Event>, ghost ts: seq<int>, ghost tail: seq<Event>,
                now: TimeVal)
    returns (ghost n: nat)
    requires Lists(source, items, ts, target, tail)
    modifies Nodes(source, items)`next, Nodes(source, items)`prev
    modifies Nodes(target, tail)`next, Nodes(target, tail)`prev
    ensures n == Leading(ts, Micros(now))
    ensures Lists(source, items[n..], ts[n..], target, tail + items[..n])
  {
    n := MoveDue(source, target, items, ts, tail, now);
    LeadingSplits(ts, Micros(now));
  }

  /** The body of ril_timer_add: ev goes in front of the first timer that is not before it. */
  method InsertTimer(ev: Event, head: Event, ghost items: seq<Event>, ghost ts: seq<int>,
                     ghost head': Event, ghost items': seq<Event>)
    returns (ghost p: nat)
    requires Lists(head, items, ts, head', items')
    requires ev !in Nodes(head, items) && ev !in Nodes(head', items') && ev.fd == -1
    modifies Nodes(head, items)`next, Nodes(head, items)`prev, ev`next, ev`prev
    ensures p == Leading(ts, Micros(ev.timeout))
    ensures Lists(head, Inserted(items, p, ev), Insert(ts, Micros(ev.timeout)), head', items')
  {
    var list;
    list, p := FindPlace(head, items, ts, ev.timeout);
    assert Nodes(head, items + [ev]) == Nodes(head, items) + {ev};
    TimedInserted(items, ts, p, ev);
    InsertKeepsSorted(ts, Micros(ev.timeout));
    AddBeside(ev, list, head, items, p, head', items');
  }

  lemma Joined3<T>(a: seq<T>, b: seq<T>, c: seq<T>)
    ensures (a + b) + c == a + (b + c)
  {
  }

  /** The slots was hold events with the descriptors fds, none of them twice. */
  ghost predicate Described(was: seq<Event?>, fds: seq<int>)
    reads was`fd
  {
    && |was| == |fds| == MAX_FD_EVENTS && NoneTwice(fds)
    && forall k :: 0 <= k < |was| ==> if was[k] == null then fds[k] == -1 else was[k].fd == fds[k] && 0 <= fds[k]
  }

  /** picks are the slots of was that are ready, and spent those of them that are cleared. */
  ghost predicate Chosen(rfds: set<int>, was: seq<Event?>, picks: set<int>, spent: set<int>)
    reads was`fd, was`persist
  {
    && spent <= picks
    && (forall k :: 0 <= k < |was| ==> (k in picks <==> was[k] != null && was[k].fd in rfds))
    && (forall k :: 0 <= k < |was| && k in picks ==> (k in spent <==> !was[k].persist))
  }

  /** The event of a slot is not pending before its turn: those that are have no descriptor, or came earlier. */
  lemma NotYetPicked(was: seq<Event?>, fds: seq<int>, picks: set<int>, i: nat, before: seq<Event>)
    requires i < |was| && Described(was, fds)
    requires forall e :: e in before ==> e.fd == -1
    ensures was[i] !in before + Picked(was[..i], picks)
  {
  }

  /** When the loop ends, every slot that is ready has been visited. */
  lemma SweptAll(rfds: set<int>, was: seq<Event?>, fds: seq<int>, picks: set<int>, spent: set<int>, i: nat)
    requires Described(was, fds) && Chosen(rfds, was, picks, spent)
    requires i <= |was| && (Left(rfds, fds, i) <= 0 || i == |was|)
    ensures Picked(was[..|was|], picks) == Picked(was[..i], picks) && Swept(was, spent, i) == Swept(was, spent, |was|)
  {
    assert was[..|was|] == was;
    var seen := LeftCounts(rfds, fds, i);
    CountedAll(rfds, Left(rfds, fds, i), fds, i, seen);
    PickedUpTo(was, picks, i);
    SweptUpTo(was, spent, i);
  }

  lemma PickedAreReady(was: seq<Event?>, rfds: set<int>, picks: set<int>)
    requires forall k :: 0 <= k < |was| ==> (k in picks <==> was[k] != null && was[k].fd in rfds)
    ensures forall e :: e in Picked(was, picks) <==> e in was && e.fd in rfds
  {
    forall e ensures e in Picked(was, picks) <==> e in was && e.fd in rfds {
      PickedExact(was, picks, e);
    }
  }

  class EventLoop {
    const timerList: Event
    const pendingList: Event
    ghost var timers: seq<Event>
    ghost var times: seq<int>
    ghost var pending: seq<Event>

    const watch: WatchTable

    /** ril_event_init */
    constructor ()
      ensures Coherent() && timers == [] && times == [] && pending == []
      ensures watch.readFds == {} && watch.nfds == 0
      ensures fresh(timerList) && fresh(pendingList) && fresh(watch) && fresh(watch.slots)
    {
      timerList := new Event(-1, false);
      pendingList := new Event(-1, false);
      timers, times, pending := [], [], [];
      watch := new WatchTable();
      new;
      InitList(timerList);
      assert Nodes(timerList, []) == {timerList} && Nodes(pendingList, []) == {pendingList};
      InitList(pendingList);
    }

    ghost predicate Coherent()
      reads this, timerList, pendingList, timers, pending, watch, watch.slots, watch.slots[..]
    {
      && ListsValid() && watch.Valid()
      && timerList.fd == -1 && pendingList.fd == -1
    }

    // ---------- The lists ----------

    ghost predicate ListsValid()
      reads this, timerList, pendingList, timers, pending
    {
      Lists(timerList, timers, times, pendingList, pending)
    }

    ghost function Linked(): set<object>
      reads this
    {
      Nodes(timerList, timers) + Nodes(pendingList, pending)
    }

    /** ril_event_add, for an event with a descriptor that is not watched yet. */
    method EventAdd(ev: Event)
      requires Coherent() && 0 <= ev.fd && ev.fd !in watch.readFds
      modifies watch, watch.slots, ev`index
      ensures Coherent()
      ensures var p := FirstFree(old(watch.slots[..]));
        if p == MAX_FD_EVENTS then watch.slots[..] == old(watch.slots[..]) && watch.readFds == old(watch.readFds)
        else watch.slots[..] == old(watch.slots[..])[p := ev] && watch.readFds == old(watch.readFds) + {ev.fd}
    {
      watch.Add(ev);
    }

    /** ril_event_del */
    method EventDel(ev: Event)
      requires Coherent() && (0 <= ev.index < MAX_FD_EVENTS ==> watch.slots[ev.index] == ev)
      modifies watch, watch.slots, ev`index
      ensures Coherent() && ev !in watch.slots[..]
      ensures if ev in old(watch.slots[..])
              then
                && watch.readFds == old(watch.readFds) - {ev.fd}
                && watch.slots[..] == old(watch.slots[..])[old(ev.index) := null]
              else watch.readFds == old(watch.readFds) && watch.slots[..] == old(watch.slots[..])
    {
      watch.Del(ev);
    }

    /** The walk of ril_timer_add and the insertion. */
    method Enqueue(ev: Event)
      requires Coherent() && ev !in Linked() && ev.fd == -1
      modifies this`timers, this`times, Nodes(timerList, timers)`next, Nodes(timerList, timers)`prev, ev`next, ev`prev
      ensures Coherent()
      ensures times == Insert(old(times), Micros(ev.timeout))
      ensures timers == Inserted(old(timers), Leading(old(times), Micros(ev.timeout)), ev)
    {
      ghost var items, ts, p := timers, times, Leading(times, Micros(ev.timeout));
      timers, times := Inserted(timers, p, ev), Insert(times, Micros(ev.timeout));
      p := InsertTimer(ev, timerList, items, ts, pendingList, pending);
    }

    /** ril_timer_add: the new timer goes in front of the first one that is not before it. */
    method TimerAdd(ev: Event, tv: Option<TimeVal>, now: TimeVal)
      requires Coherent() && ev !in Linked() && ev !in watch.slots[..]
      modifies this`timers, this`times, Linked(), ev
      ensures Coherent() && pending == old(pending)
      ensures tv.None? ==> timers == old(timers) && times == old(times)
      ensures tv.Some? ==>
        && ev.fd == -1 && ev.timeout == Add(now, tv.value)
        && times == Insert(old(times), Micros(Add(now, tv.value)))
        && timers == Inserted(old(timers), Leading(old(times), Micros(Add(now, tv.value))), ev)
    {
      if tv.Some? {
        ev.fd := -1;
        ev.timeout := Add(now, tv.value);
        Enqueue(ev);
      }
    }

    /** processTimeouts: the timers strictly before now become pending, in order. */
    method ProcessTimeouts(now: TimeVal)
      requires Coherent()
      modifies this`timers, this`times, this`pending
      modifies Nodes(timerList, timers)`next, Nodes(timerList, timers)`prev
      modifies Nodes(pendingList, pending)`next, Nodes(pendingList, pending)`prev
      ensures Coherent()
      ensures var n := Leading(old(times), Micros(now));
        && timers == old(timers)[n..] && times == old(times)[n..] && pending == old(pending) + old(timers)[..n]
        && (forall e :: e in old(timers)[..n] ==> Micros(e.timeout) < Micros(now))
        && (forall e :: e in timers ==> Micros(now) <= Micros(e.timeout))
    {
      ghost var items, ts, tail, n := timers, times, pending, Leading(times, Micros(now));
      timers, times, pending := timers[n..], times[n..], pending + timers[..n];
      n := Expire(timerList, pendingList, items, ts, tail, now);
    }

    /** firePending; called lists the events whose callback is called, in order. */
    method FirePending() returns (called: seq<Event>)
      requires Coherent()
      modifies this`pending, Nodes(pendingList, pending)`next, Nodes(pendingList, pending)`prev
      ensures Coherent() && timers == old(timers) && times == old(times)
      ensures called == old(pending) && pending == []
    {
      called := Drain(pendingList, pending, timerList, timers);
      pending := [];
    }

    /** addToList(rev, &pending_list) */
    method AddPending(rev: Event)
      requires ListsValid() && rev !in Linked()
      modifies this`pending, Nodes(pendingList, pending)`next, Nodes(pendingList, pending)`prev, rev`next, rev`prev
      ensures ListsValid() && pending == old(pending) + [rev]
    {
      assert Nodes(pendingList, pending + [rev]) == Nodes(pendingList, pending) + {rev};
      Append(rev, pendingList, pending, timerList, timers);
      assert Lists(timerList, timers, times, pendingList, pending + [rev]);
      pending := pending + [rev];
    }

    /** The body of the loop of processReadReadies for a slot that is ready. */
    method TakeReady(rev: Event, i: nat)
      requires Coherent() && i < MAX_FD_EVENTS && watch.slots[i] == rev && rev !in pending
      modifies this`pending, Nodes(pendingList, pending)`next, Nodes(pendingList, pending)`prev
      modifies watch, watch.slots, rev`next, rev`prev, rev`index
      ensures Coherent() && pending == old(pending) + [rev]
      ensures watch.slots[..] == if rev.persist then old(watch.slots[..]) else old(watch.slots[..])[i := null]
    {
      assert rev.fd != -1 && rev !in Linked();
      AddPending(rev);
      if rev.persist == false {
        watch.RemoveWatch(rev, i);
      }
    }

    /** One turn of the loop of processReadReadies. */
    method TakeSlot(i: nat, rfds: set<int>) returns (hit: bool)
      requires Coherent() && i < MAX_FD_EVENTS && watch.slots[i] !in pending
      modifies this`pending, Nodes(pendingList, pending)`next, Nodes(pendingList, pending)`prev
      modifies watch, watch.slots, watch.slots[..]`next, watch.slots[..]`prev, watch.slots[..]`index
      ensures Coherent() && hit == (old(watch.slots[i]) != null && old(watch.slots[i].fd) in rfds)
      ensures pending == old(pending) + if hit then [old(watch.slots[i])] else []
      ensures watch.slots[..]
           == if hit && !old(watch.slots[i].persist) then old(watch.slots[..])[i := null] else old(watch.slots[..])
    {
      var rev := watch.slots[i];
      hit := rev != null && rev.fd in rfds;
      if hit {
        TakeReady(rev, i);
      }
    }

    /** Slots below i have been visited, since was were the slots and before was pending. */
    ghost predicate Visited(i: nat, rfds: set<int>, was: seq<Event?>, picks: set<int>, spent: set<int>,
                            before: seq<Event>)
      reads this, timerList, pendingList, timers, pending, watch, watch.slots, watch.slots[..], was`fd, was`persist
    {
      && Coherent() && i <= |was| && Chosen(rfds, was, picks, spent)
      && pending == before + Picked(was[..i], picks) && watch.slots[..] == Swept(was, spent, i)
    }

    /** When the loop ends, every slot that is ready has been visited. */
    lemma VisitedAll(i: nat, rfds: set<int>, was: seq<Event?>, fds: seq<int>, picks: set<int>, spent: set<int>,
                     before: seq<Event>)
      requires Visited(i, rfds, was, picks, spent, before) && Described(was, fds)
      requires Left(rfds, fds, i) <= 0 || i == |was|
      ensures Visited(|was|, rfds, was, picks, spent, before)
    {
      SweptAll(rfds, was, fds, picks, spent, i);
    }

    /** One turn, in terms of what the slots were when the loop began and what was pending before. */
    method SweepSlot(i: nat, rfds: set<int>, ghost was: seq<Event?>, ghost fds: seq<int>, ghost picks: set<int>,
                     ghost spent: set<int>, ghost before: seq<Event>)
      returns (hit: bool)
      requires i < MAX_FD_EVENTS && Described(was, fds) && Visited(i, rfds, was, picks, spent, before)
      requires forall e :: e in before ==> e.fd == -1
      modifies this`pending, Nodes(pendingList, pending)`next, Nodes(pendingList, pending)`prev
      modifies watch, watch.slots, watch.slots[..]`next, watch.slots[..]`prev, watch.slots[..]`index
      ensures Visited(i + 1, rfds, was, picks, spent, before)
      ensures Left(rfds, fds, i + 1) == Left(rfds, fds, i) - if hit then 1 else 0
    {
      assert watch.slots[..][i] == was[i];
      NotYetPicked(was, fds, picks, i, before);
      hit := TakeSlot(i, rfds);
      SweptNext(was, spent, i);
      PickedNext(was, picks, i);
      Joined3(before, Picked(was[..i], picks), if hit then [was[i]] else []);
    }

    /** The loop of processReadReadies. */
    method Sweep(rfds: set<int>, ready: nat, ghost was: seq<Event?>, ghost fds: seq<int>, ghost picks: set<int>,
                 ghost spent: set<int>)
      requires Visited(0, rfds, was, picks, spent, pending) && Described(was, fds)
      requires ready == |rfds| && forall e :: e in pending ==> e.fd == -1
      modifies this`pending, Nodes(pendingList, pending)`next, Nodes(pendingList, pending)`prev
      modifies watch, watch.slots, watch.slots[..]`next, watch.slots[..]`prev, watch.slots[..]`index
      ensures Visited(|was|, rfds, was, picks, spent, old(pending))
    {
      ghost var before := pending;
      var n := ready;
      var i := 0;
      while i < MAX_FD_EVENTS && n > 0
        invariant i <= MAX_FD_EVENTS && Visited(i, rfds, was, picks, spent, before)
        invariant n == Left(rfds, fds, i)
      {
        var hit := SweepSlot(i, rfds, was, fds, picks, spent, before);
        if hit {
          n := n - 1;
        }
        i := i + 1;
      }
      VisitedAll(i, rfds, was, fds, picks, spent, before);
    }

    /** processReadReadies: the watched events that select reported become pending, in table order. */
    method ProcessReadReadies(rfds: set<int>, n: nat)
      requires Coherent() && n == |rfds| && forall e :: e in pending ==> e.fd == -1
      modifies this`pending, Nodes(pendingList, pending)`next, Nodes(pendingList, pending)`prev
      modifies watch, watch.slots, watch.slots[..]`next, watch.slots[..]`prev, watch.slots[..]`index
      ensures Coherent()
      ensures pending == old(pending) + Picked(old(watch.slots[..]), old(watch.Ready(rfds)))
      ensures watch.slots[..] == Swept(old(watch.slots[..]), old(watch.Spent(rfds)), MAX_FD_EVENTS)
      ensures forall e :: e in pending <==> e in old(pending) || (e in old(watch.slots[..]) && e.fd in rfds)
      ensures forall k :: 0 <= k < MAX_FD_EVENTS ==> var was := old(watch.slots[..])[k];
        watch.slots[k] == if was != null && was.fd in rfds && !was.persist then null else was
    {
      ghost var was := watch.slots[..];
      assert was[..0] == [] && pending + [] == pending && Swept(was, watch.Spent(rfds), 0) == was;
      ghost var picks, spent := watch.Ready(rfds), watch.Spent(rfds);
      Sweep(rfds, n, was, watch.fds, picks, spent);
      assert was[..|was|] == was;
      PickedAreReady(was, rfds, picks);
    }

    /** calcNextTimeout: what select may sleep, None for as long as it takes. */
    method CalcNextTimeout(now: TimeVal) returns (tv: Option<TimeVal>)
      requires ListsValid()
      ensures tv.None? <==> timers == []
      ensures tv.Some? ==>
        if exists e :: e in timers && !Before(now, e.timeout) then tv.value == TimeVal(0, 0)
        else (forall e :: e in timers ==> Micros(now) + Micros(tv.value) <= Micros(e.timeout))
             && exists e :: e in timers && Add(now, tv.value) == e.timeout
    {
      assert JoinedAt(timerList, timers, 0);
      var tev := timerList.next;
      if tev == timerList {
        return None;
      }
      BeforeIsLess(now, tev.timeout);
      AddSub(tev.timeout, now);
      assert tev in timers;
      assert forall i :: 0 <= i < |timers| ==> times[0] <= times[i];
      if Before(now, tev.timeout) {
        tv := Some(Sub(tev.timeout, now));
      } else {
        tv := Some(TimeVal(0, 0));
      }
    }

    /**
     What ril_event_loop does after select reported the ready descriptors rfds: every due timer, in the order
     of deadlines, and then every ready event, in table order, is called once.
     */
    method RunPass(now: TimeVal, rfds: set<int>) returns (called: seq<Event>)
      requires Coherent() && pending == []
      modifies this`timers, this`times, this`pending, pendingList`next, pendingList`prev
      modifies Nodes(timerList, timers)`next, Nodes(timerList, timers)`prev
      modifies watch, watch.slots, watch.slots[..]`next, watch.slots[..]`prev, watch.slots[..]`index
      ensures Coherent() && pending == []
      ensures var n := Leading(old(times), Micros(now));
        && called == old(timers)[..n] + Picked(old(watch.slots[..]), old(watch.Ready(rfds)))
        && timers == old(timers)[n..] && times == old(times)[n..]
      ensures Distinct(called)
      ensures watch.slots[..] == Swept(old(watch.slots[..]), old(watch.Spent(rfds)), MAX_FD_EVENTS)
    {
      ghost var slots, picks, spent := watch.slots[..], watch.Ready(rfds), watch.Spent(rfds);
      ProcessTimeouts(now);
      ghost var due := old(timers)[..Leading(old(times), Micros(now))];
      assert pending == due && watch.slots[..] == slots;
      assert watch.Ready(rfds) == picks;
      assert watch.Spent(rfds) == spent;
      ProcessReadReadies(rfds, |rfds|);
      assert pending == due + Picked(slots, picks);
      called := FirePending();
    }
  }
}
