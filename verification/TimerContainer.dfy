/**
 LocTimerContainer: a heap of timers plus the kernel timer that watches its head.
 The messages of the message thread are methods here; the interleaved service is in
 TimerService.dfy and takes the same decisions.
 */
module TimerContainer {
  import opened Common
  import opened TimerTime
  import opened HeapTree
  import Heap

  datatype Kind = Sw | Hw

  /** A LocTimerDelegate's immutable part; the id stands for its address. */
  datatype Timer = Timer(id: nat, owner: nat, kind: Kind, at: Deadline)

  function OutRanks(a: Timer, b: Timer): bool {
    Ranks(a.at, b.at) > 0
  }

  lemma OutRanksOrders()
    ensures StrictWeakOrder(OutRanks)
  {
    forall a: Timer, b: Timer ensures OutRanks(a, b) <==> Nanos(a.at) < Nanos(b.at) {
      RanksIsEarlier(a.at, b.at);
    }
  }

  // ---------- The kernel timer ----------

  /** The timerfd (armed) and its registration with epoll (polled). */
  datatype Device = Device(armed: Option<Deadline>, polled: bool)

  datatype Update = Keep | Clear | Arm(at: Deadline)

  function Top(t: Tree<Timer>): Option<Timer> {
    if t.Empty? then None else Some(t.data)
  }

  /** What updateSoonestTime(priorTop) decides to tell the kernel. */
  function Decide(curTop: Option<Timer>, priorTop: Option<Timer>): Update {
    if curTop == priorTop then Keep
    else if curTop.None? then Clear
    else if priorTop.None? || OutRanks(curTop.value, priorTop.value) then Arm(curTop.value.at)
    else Keep
  }

  function Perform(u: Update, dev: Device): Device {
    match u
    case Keep => dev
    case Clear => Device(None, false)
    case Arm(at) => Device(Some(at), true)
  }

  // ---------- What one Expire message pops ----------

  predicate HeadDue(t: Tree<Timer>, now: Deadline) {
    t.Node? && !(Ranks(now, t.data.at) > 0)
  }

  lemma {:induction false} PopCount(t: Tree<Timer>)
    requires t.Node?
    ensures Count(Pop(t, OutRanks)) == Count(t) - 1
  {
    if t.left.Node? { PopCount(t.left); }
    if t.right.Node? { PopCount(t.right); }
  }

  function PopDue(t: Tree<Timer>, now: Deadline): (seq<Timer>, Tree<Timer>)
    decreases Count(t)
  {
    if !HeadDue(t, now) then ([], t)
    else
      PopCount(t);
      var rest := PopDue(Pop(t, OutRanks), now);
      ([t.data] + rest.0, rest.1)
  }

  /** The first pop is unconditional, the others take only what is due. */
  function Batch(t: Tree<Timer>, now: Deadline): (seq<Timer>, Tree<Timer>) {
    if t.Empty? then ([], t)
    else
      var rest := PopDue(Pop(t, OutRanks), now);
      ([t.data] + rest.0, rest.1)
  }

  /** The batch that comes of having popped fired and still going. */
  function Resume(fired: seq<Timer>, t: Tree<Timer>, now: Deadline): (seq<Timer>, Tree<Timer>) {
    var (more, rest) := PopDue(t, now);
    (fired + more, rest)
  }

  lemma ResumePops(fired: seq<Timer>, t: Tree<Timer>, now: Deadline)
    ensures HeadDue(t, now) ==> Resume(fired + [t.data], Pop(t, OutRanks), now) == Resume(fired, t, now)
    ensures !HeadDue(t, now) ==> Resume(fired, t, now) == (fired, t)
  {
    if HeadDue(t, now) {
      var more := PopDue(Pop(t, OutRanks), now).0;
      assert fired + [t.data] + more == fired + ([t.data] + more);
    } else {
      assert fired + [] == fired;
    }
  }

  predicate Due(x: Timer, now: Deadline) {
    Nanos(x.at) <= Nanos(now)
  }

  ghost predicate AllDue(fired: seq<Timer>, now: Deadline) {
    forall i :: 0 <= i < |fired| ==> Due(fired[i], now)
  }

  ghost predicate InOrder(fired: seq<Timer>) {
    forall i, j :: 0 <= i < j < |fired| ==> Nanos(fired[i].at) <= Nanos(fired[j].at)
  }

  ghost predicate NoneBefore(m: multiset<Timer>, at: Deadline) {
    forall x :: x in m ==> Nanos(at) <= Nanos(x.at)
  }

  /** A well-formed heap of timers. */
  predicate WellFormed(t: Tree<Timer>) {
    Ordered(t, OutRanks) && Sized(t)
  }

  lemma HeadIsEarliest(t: Tree<Timer>)
    requires WellFormed(t) && t.Node?
    ensures NoneBefore(Elems(t), t.data.at)
  {
    OutRanksOrders();
    TopRanksHighest(t, OutRanks);
    forall x | x in Elems(t) ensures Nanos(t.data.at) <= Nanos(x.at) {
      RanksIsEarlier(x.at, t.data.at);
    }
  }

  lemma PopTimer(t: Tree<Timer>)
    requires WellFormed(t) && t.Node?
    ensures WellFormed(Pop(t, OutRanks)) && Elems(t) == Elems(Pop(t, OutRanks)) + multiset{t.data}
    ensures Count(Pop(t, OutRanks)) < Count(t)
  {
    OutRanksOrders();
    PopKeeps(t, OutRanks);
  }

  lemma PushTimer(t: Tree<Timer>, x: Timer)
    requires WellFormed(t)
    ensures var u := Push(t, x, OutRanks);
      && WellFormed(u) && Elems(u) == Elems(t) + multiset{x}
      && Top(u) == Some(if t.Empty? || OutRanks(x, t.data) then x else t.data)
  {
    OutRanksOrders();
    PushKeeps(t, x, OutRanks);
  }

  /** The heap after remove(), whether or not it holds x. */
  function Without(t: Tree<Timer>, x: Timer): Tree<Timer> {
    match Remove(t, x, OutRanks)
    case None => t
    case Some(u) => u
  }

  lemma RemoveTimer(t: Tree<Timer>, x: Timer)
    requires WellFormed(t)
    ensures WellFormed(Without(t, x)) && Elems(Without(t, x)) == Elems(t) - multiset{x}
    ensures Remove(t, x, OutRanks).Some? <==> x in Elems(t)
    ensures Top(t) != Some(x) ==> Top(Without(t, x)) == Top(t)
  {
    assert Remove(t, x, OutRanks).Some? <==> x in Elems(t) by {
      OutRanksOrders();
      RemoveKeeps(t, x, OutRanks);
    }
    if x in Elems(t) {
      var u := Remove(t, x, OutRanks).value;
      assert WellFormed(u) && Elems(t) == Elems(u) + multiset{x} && (t.data != x ==> Top(u) == Top(t)) by {
        OutRanksOrders();
        RemoveKeeps(t, x, OutRanks);
      }
      RestAfter(Elems(t), Elems(u), x);
    } else {
      assert Elems(t) - multiset{x} == Elems(t);
    }
  }

  ghost predicate NoneDue(m: multiset<Timer>, now: Deadline) {
    forall x :: x in m ==> !Due(x, now)
  }

  lemma {:induction false} PopDueRest(t: Tree<Timer>, now: Deadline)
    requires WellFormed(t)
    ensures var (fired, rest) := PopDue(t, now);
      WellFormed(rest) && AllDue(fired, now) && NoneDue(Elems(rest), now)
    decreases Count(t)
  {
    if t.Node? {
      RanksIsEarlier(now, t.data.at);
      if HeadDue(t, now) {
        PopTimer(t);
        PopDueRest(Pop(t, OutRanks), now);
      } else {
        HeadIsEarliest(t);
      }
    }
  }

  lemma PutInFront(x: Timer, fired: seq<Timer>, rest: multiset<Timer>, left: multiset<Timer>, all: multiset<Timer>)
    requires multiset(fired) + left == rest && all == rest + multiset{x}
    ensures multiset([x] + fired) + left == all
  {
  }

  lemma {:induction false} PopDueConserves(t: Tree<Timer>, now: Deadline)
    requires WellFormed(t)
    ensures multiset(PopDue(t, now).0) + Elems(PopDue(t, now).1) == Elems(t)
    decreases Count(t)
  {
    if HeadDue(t, now) {
      var u := Pop(t, OutRanks);
      PopTimer(t);
      PopDueConserves(u, now);
      PutInFront(t.data, PopDue(u, now).0, Elems(u), Elems(PopDue(u, now).1), Elems(t));
    }
  }

  /** The heap after remove(), and the comparison MsgTimerRemove makes with what it returned. */
  lemma RemovedIsTop(t: Tree<Timer>, x: Timer)
    requires WellFormed(t)
    ensures var (u, removed) := Apply(t, DoRemove(x), OutRanks);
      && u == Without(t, x) && WellFormed(u)
      && (Top(t) == removed <==> Top(t) == Some(x) || t.Empty?)
      && (Top(t) != Some(x) ==> Top(u) == Top(t))
      && (t.Empty? ==> u.Empty?)
  {
    RemoveTimer(t, x);
  }

  /** A decision that leaves the kernel watching the head, given that it was watching prior. */
  predicate Suits(u: Update, t: Tree<Timer>, prior: Option<Timer>) {
    match u
    case Keep => t.Empty? || Top(t) == prior
    case Clear => false
    case Arm(at) => t.Node? && at == t.data.at
  }

  /** The branch that disarms the timer of an empty heap is out of reach of its three callers. */
  lemma PushDecision(t: Tree<Timer>, x: Timer)
    requires WellFormed(t)
    ensures Suits(Decide(Top(Push(t, x, OutRanks)), Top(t)), Push(t, x, OutRanks), Top(t))
  {
    PushTimer(t, x);
  }

  lemma ExpireDecision(t: Tree<Timer>)
    ensures Suits(Decide(Top(t), None), t, None)
  {
  }

  lemma RemoveDecision(t: Tree<Timer>, x: Timer)
    requires WellFormed(t)
    ensures var (t', removed) := Apply(t, DoRemove(x), OutRanks);
      && t' == Without(t, x)
      && Suits(if Top(t) == removed then Decide(Top(t'), None) else Keep, t', Top(t))
  {
    RemovedIsTop(t, x);
  }

  /** Putting the earliest timer in front keeps a batch in order. */
  lemma EarliestFirst(x: Timer, fired: seq<Timer>, left: multiset<Timer>, all: multiset<Timer>)
    requires InOrder(fired) && NoneBefore(all, x.at) && multiset([x] + fired) + left == all
    ensures InOrder([x] + fired)
  {
    forall i | 0 <= i < |fired| ensures Nanos(x.at) <= Nanos(fired[i].at) {
      assert fired[i] == ([x] + fired)[i + 1];
      assert fired[i] in multiset([x] + fired);
    }
  }

  lemma {:induction false} PopDueInOrder(t: Tree<Timer>, now: Deadline)
    requires WellFormed(t)
    ensures InOrder(PopDue(t, now).0)
    decreases Count(t)
  {
    if HeadDue(t, now) {
      var u := Pop(t, OutRanks);
      PopTimer(t);
      PopDueInOrder(u, now);
      PopDueConserves(t, now);
      HeadIsEarliest(t);
      EarliestFirst(t.data, PopDue(u, now).0, Elems(PopDue(t, now).1), Elems(t));
    }
  }

  /**
   An Expire message conserves the timers, pops in deadline order, and leaves only timers of
   the future. What it pops is exactly what is due when anything is; otherwise just the head.
   */
  lemma BatchExact(t: Tree<Timer>, now: Deadline)
    requires WellFormed(t)
    ensures var (fired, rest) := Batch(t, now);
      && WellFormed(rest)
      && multiset(fired) + Elems(rest) == Elems(t)
      && InOrder(fired) && NoneDue(Elems(rest), now)
      && (AllDue(fired, now) <==> t.Empty? || !NoneDue(Elems(t), now))
      && (!AllDue(fired, now) ==> fired == [t.data])
  {
    if t.Node? {
      var u := Pop(t, OutRanks);
      var (later, rest) := PopDue(u, now);
      PopTimer(t);
      HeadIsEarliest(t);
      PopDueRest(u, now);
      PopDueInOrder(u, now);
      PopDueConserves(u, now);
      PutInFront(t.data, later, Elems(u), Elems(rest), Elems(t));
      EarliestFirst(t.data, later, Elems(rest), Elems(t));
      BatchDue(t.data, later, Elems(rest), Elems(t), now);
    }
  }

  lemma BatchDue(x: Timer, later: seq<Timer>, rest: multiset<Timer>, all: multiset<Timer>, now: Deadline)
    requires NoneBefore(all, x.at) && AllDue(later, now)
    requires multiset([x] + later) + rest == all
    ensures AllDue([x] + later, now) <==> Due(x, now)
    ensures Due(x, now) <==> !NoneDue(all, now)
    ensures !Due(x, now) ==> later == []
  {
    var fired := [x] + later;
    assert fired[0] == x && fired[0] in multiset(fired);
    assert x in all;
    if later != [] {
      assert later[0] == fired[1] && fired[1] in multiset(fired);
      assert later[0] in all;
    }
  }

  // ---------- The messages, as the message thread runs them ----------

  class Container {
    const heap: Heap.LocHeap<Timer>
    var dev: Device

    ghost predicate Valid()
      reads this, heap, heap.mTree, heap.Nodes()
    {
      this !in heap.Nodes() && heap.Valid() && heap.outRanks == OutRanks && WellFormed(heap.Tree())
    }

    constructor ()
      ensures Valid() && heap.Tree() == Empty && dev == Device(None, false)
      ensures fresh(heap.Nodes())
    {
      heap := new Heap.LocHeap(OutRanks);
      dev := Device(None, false);
    }

    /** With timers in the heap, the kernel timer is set to the deadline of the head and polled. */
    ghost predicate WatchesHead()
      requires Valid()
      reads this, heap, heap.mTree, heap.Nodes()
    {
      heap.Tree().Node? ==> dev == Device(Some(heap.Tree().data.at), true)
    }

    method UpdateSoonestTime(priorTop: Option<Timer>)
      requires Valid()
      modifies this`dev
      ensures Valid()
      ensures heap.Tree().Node? && (priorTop.None? || Nanos(heap.Tree().data.at) < Nanos(priorTop.value.at)) ==>
        dev == Device(Some(heap.Tree().data.at), true)
      ensures heap.Tree().Node? && priorTop.Some? && Nanos(heap.Tree().data.at) >= Nanos(priorTop.value.at) ==>
        dev == old(dev)
      ensures heap.Tree().Empty? ==> dev == if priorTop.None? then old(dev) else Device(None, false)
      ensures dev == Perform(Decide(Top(heap.Tree()), priorTop), old(dev))
    {
      var curTop := heap.Peek();
      if curTop.Some? && priorTop.Some? {
        RanksIsEarlier(curTop.value.at, priorTop.value.at);
      }
      if curTop != priorTop {
        if curTop.None? {
          dev := Device(None, false);
        } else if priorTop.None? || OutRanks(curTop.value, priorTop.value) {
          dev := dev.(polled := true);
          dev := dev.(armed := Some(curTop.value.at));
        }
      }
    }

    /** MsgTimerPush::proc. Whatever the kernel was told before, it now watches the new head. */
    method ProcPush(timer: Timer)
      requires Valid()
      modifies this`dev, heap.Nodes()
      ensures Valid() && fresh(heap.Nodes() - old(heap.Nodes()))
      ensures heap.Tree() == Push(old(heap.Tree()), timer, OutRanks)
      ensures old(WatchesHead()) ==> heap.Tree().Node? && WatchesHead()
      ensures dev == Perform(Decide(Top(heap.Tree()), old(Top(heap.Tree()))), old(dev))
    {
      PushTimer(heap.Tree(), timer);
      var priorTop := heap.Peek();
      heap.Push(timer);
      UpdateSoonestTime(priorTop);
    }

    /** MsgTimerRemove::proc, without the delete of the delegate. */
    method ProcRemove(timer: Timer)
      requires Valid()
      modifies this`dev, heap.Nodes()
      ensures Valid() && heap.Nodes() <= old(heap.Nodes())
      ensures heap.Tree() == Without(old(heap.Tree()), timer)
      ensures old(WatchesHead()) ==> WatchesHead()
      ensures heap.Tree().Empty? ==> dev == old(dev)
      ensures dev == if old(Top(heap.Tree())) == Some(timer)
                     then Perform(Decide(Top(heap.Tree()), None), old(dev)) else old(dev)
    {
      RemovedIsTop(heap.Tree(), timer);
      var priorTop := heap.Peek();
      var removed := heap.Remove(timer);
      if priorTop == removed {
        UpdateSoonestTime(None);
      }
    }

    /** MsgTimerExpire::proc; fired lists the timers whose expire() is called, in order. */
    method ProcExpire(now: Deadline) returns (fired: seq<Timer>)
      requires Valid()
      modifies this`dev, heap.Nodes()
      ensures Valid() && heap.Nodes() <= old(heap.Nodes())
      ensures (fired, heap.Tree()) == Batch(old(heap.Tree()), now)
      ensures WatchesHead() && (heap.Tree().Empty? ==> dev == old(dev))
      ensures dev == Perform(Decide(Top(heap.Tree()), None), old(dev))
    {
      fired := [];
      ghost var batch := Batch(heap.Tree(), now);
      var timer := PopHead();
      assert timer.Some? ==> [] + [timer.value] == [timer.value];
      while timer.Some?
        invariant Valid() && heap.Nodes() <= old(heap.Nodes()) && dev == old(dev)
        invariant batch ==
          if timer.Some? then Resume(fired + [timer.value], heap.Tree(), now) else (fired, heap.Tree())
        decreases timer.Some?, Count(heap.Tree())
      {
        fired := fired + [timer.value];
        ResumePops(fired, heap.Tree(), now);
        timer := PopIfOutRanks(now);
      }
      UpdateSoonestTime(None);
    }

    method PopHead() returns (popped: Option<Timer>)
      requires Valid()
      modifies heap.Nodes()
      ensures Valid() && heap.Nodes() <= old(heap.Nodes())
      ensures popped == Top(old(heap.Tree()))
      ensures heap.Tree() == if popped.Some? then Pop(old(heap.Tree()), OutRanks) else old(heap.Tree())
      ensures popped.Some? ==> Count(heap.Tree()) < Count(old(heap.Tree()))
    {
      if heap.Tree().Node? {
        PopTimer(heap.Tree());
      }
      popped := heap.Pop();
    }

    method PopIfOutRanks(now: Deadline) returns (popped: Option<Timer>)
      requires Valid()
      modifies heap.Nodes()
      ensures Valid() && heap.Nodes() <= old(heap.Nodes())
      ensures popped == if HeadDue(old(heap.Tree()), now) then Top(old(heap.Tree())) else None
      ensures heap.Tree() == if popped.Some? then Pop(old(heap.Tree()), OutRanks) else old(heap.Tree())
      ensures popped.Some? ==> Count(heap.Tree()) < Count(old(heap.Tree()))
    {
      popped := None;
      var top := heap.Peek();
      if top.Some? && !(Ranks(now, top.value.at) > 0) {
        popped := PopHead();
      }
    }
  }
}
